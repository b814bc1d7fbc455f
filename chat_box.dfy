/** The chat assistant widget: its message log and the handlers that
    append to it, reset it and open or close the window. */
module ChatBox {
  import opened Common

  datatype Sender = User | Bot

  /** A chat message; its timestamp is left out. */
  datatype Message = Message(text: string, sender: Sender)

  const WelcomeText: string := "Hello! I'm here to help you with marriage hall bookings. How can I assist you today?"
  const ApologyText: string := "Sorry, I'm having trouble connecting right now. Please try again later."

  /** The log the widget starts from and falls back to. */
  function Welcome(): (log: seq<Message>)
    ensures |log| == 1 && log[0].sender == Bot && log[0].text == WelcomeText
  {
    [Message(WelcomeText, Bot)]
  }

  /** The characters `String.prototype.trim` removes: the white-space and
      line-terminator code points of ECMAScript. */
  predicate IsTrimmable(c: char)
  {
    var n := c as int;
    n == 0x09 || n == 0x0A || n == 0x0B || n == 0x0C || n == 0x0D || n == 0x20 || n == 0xA0 ||
    n == 0x1680 || (0x2000 <= n <= 0x200A) || n == 0x2028 || n == 0x2029 || n == 0x202F ||
    n == 0x205F || n == 0x3000 || n == 0xFEFF
  }

  /** Nothing but characters trim removes. */
  predicate Blank(s: string)
    decreases |s|
  {
    s == [] || (IsTrimmable(s[0]) && Blank(s[1..]))
  }

  lemma {:induction false} BlankEverywhere(s: string)
    ensures Blank(s) <==> forall i :: 0 <= i < |s| ==> IsTrimmable(s[i])
    decreases |s|
  {
    if s != [] {
      BlankEverywhere(s[1..]);
      assert forall i :: 1 <= i < |s| ==> s[i] == s[1..][i - 1];
    }
  }

  /** Leading white space removed: what is left is a suffix of `s` that is
      empty or starts with a kept character, and everything cut was white. */
  function TrimStart(s: string): (r: string)
    ensures |r| <= |s| && r == s[|s| - |r|..]
    ensures forall i :: 0 <= i < |s| - |r| ==> IsTrimmable(s[i])
    ensures r != [] ==> !IsTrimmable(r[0])
    decreases |s|
  {
    if s == [] || !IsTrimmable(s[0]) then s else TrimStart(s[1..])
  }

  /** Trailing white space removed, symmetrically. */
  function TrimEnd(s: string): (r: string)
    ensures |r| <= |s| && r == s[..|r|]
    ensures forall i :: |r| <= i < |s| ==> IsTrimmable(s[i])
    ensures r != [] ==> !IsTrimmable(r[|r| - 1])
    decreases |s|
  {
    if s == [] || !IsTrimmable(s[|s| - 1]) then s else TrimEnd(s[..|s| - 1])
  }

  /** `String.prototype.trim`: what is left starts and ends with a kept
      character. */
  function Trim(s: string): (t: string)
    ensures |t| <= |s|
    ensures t != [] ==> !IsTrimmable(t[0]) && !IsTrimmable(t[|t| - 1])
  {
    TrimEnd(TrimStart(s))
  }

  /** `!input.trim()` holds exactly for input made only of white space. */
  lemma TrimEmptyIffBlank(s: string)
    ensures Trim(s) == "" <==> Blank(s)
  {
    BlankEverywhere(s);
  }

  /** The `chatBotMessages` entry of localStorage as the mount effect finds
      it: absent (or empty), not valid JSON, or a parsed message list. */
  datatype Saved = Absent | Unparsable | Parsed(log: seq<Message>)

  /** The answer of POST /geminiPrompt: its `result`, or a request that throws. */
  datatype BotReply = Answered(result: string) | Failed

  /** The bot message a reply turns into. */
  function BotMessage(reply: BotReply): (m: Message)
    ensures m.sender == Bot
    ensures reply.Answered? ==> m.text == reply.result
    ensures reply.Failed? ==> m.text == ApologyText
  {
    match reply
    case Answered(result) => Message(result, Bot)
    case Failed => Message(ApologyText, Bot)
  }

  class ChatBoxState {
    var messages: seq<Message>
    var input: string
    var isLoading: bool
    var isOpen: bool

    constructor()
      ensures messages == [] && input == "" && !isLoading && !isOpen
    {
      messages := [];
      input := "";
      isLoading := false;
      isOpen := false;
    }

    /** The mount effect: the saved log is restored only for a logged-in
        user whose saved entry parses; otherwise the log is the welcome. */
    method Mount(loggedIn: bool, saved: Saved)
      modifies this
      ensures messages == if loggedIn && saved.Parsed? then saved.log else Welcome()
      ensures input == old(input) && isLoading == old(isLoading) && isOpen == old(isOpen)
    {
      if !loggedIn {
        messages := Welcome();
        return;
      }
      match saved {
        case Parsed(log) => messages := log;
        case Unparsable => messages := Welcome();
        case Absent => messages := Welcome();
      }
    }

    method SetInput(text: string)
      modifies this
      ensures input == text
      ensures messages == old(messages) && isLoading == old(isLoading) && isOpen == old(isOpen)
    {
      input := text;
    }

    method Toggle()
      modifies this
      ensures isOpen == !old(isOpen)
      ensures messages == old(messages) && input == old(input) && isLoading == old(isLoading)
    {
      isOpen := !isOpen;
    }

    /** The part of `sendMessage` before the request: blank input or no
        logged-in user changes nothing; otherwise the untrimmed input is
        appended as the user's message, the input is cleared, loading
        starts, and the input is returned as the prompt to send. */
    method BeginSend(loggedIn: bool) returns (prompt: Option<string>)
      modifies this
      ensures prompt.Some? <==> !Blank(old(input)) && loggedIn
      ensures prompt.None? ==>
        messages == old(messages) && input == old(input) && isLoading == old(isLoading)
      ensures prompt.Some? ==>
        prompt.value == old(input) && messages == old(messages) + [Message(old(input), User)] &&
        input == "" && isLoading
      ensures isOpen == old(isOpen)
    {
      TrimEmptyIffBlank(input);
      if Trim(input) == "" {
        return None;
      }
      if !loggedIn {
        return None;
      }
      prompt := Some(input);
      messages := messages + [Message(input, User)];
      input := "";
      isLoading := true;
    }

    /** The part after the request: exactly one bot message is appended to
        the log as it is by then, and loading ends. */
    method FinishSend(reply: BotReply)
      modifies this
      ensures messages == old(messages) + [BotMessage(reply)]
      ensures !isLoading
      ensures input == old(input) && isOpen == old(isOpen)
    {
      messages := messages + [BotMessage(reply)];
      isLoading := false;
    }

    /** `sendMessage` with nothing else happening while the request runs. */
    method SendMessage(loggedIn: bool, reply: BotReply) returns (sent: bool)
      modifies this
      ensures sent <==> !Blank(old(input)) && loggedIn
      ensures !sent ==> messages == old(messages) && input == old(input) && isLoading == old(isLoading)
      ensures sent ==> messages == old(messages) + [Message(old(input), User), BotMessage(reply)] && input == "" && !isLoading
      ensures isOpen == old(isOpen)
    {
      var prompt := BeginSend(loggedIn);
      sent := prompt.Some?;
      if sent {
        FinishSend(reply);
      }
    }

    /** `clearChatHistory`. */
    method ClearChatHistory()
      modifies this
      ensures messages == Welcome()
      ensures input == old(input) && isLoading == old(isLoading) && isOpen == old(isOpen)
    {
      messages := Welcome();
    }

    /** The `storage` listener: removing the `user` entry (no new value, or
        an empty one) resets the log and closes the window; any other event
        changes nothing. */
    method OnStorageEvent(key: string, newValue: Option<string>)
      modifies this
      ensures key == "user" && (newValue.None? || newValue.value == "") ==> messages == Welcome() && !isOpen
      ensures !(key == "user" && (newValue.None? || newValue.value == "")) ==>
        messages == old(messages) && isOpen == old(isOpen)
      ensures input == old(input) && isLoading == old(isLoading)
    {
      if key == "user" && (newValue.None? || newValue.value == "") {
        messages := Welcome();
        isOpen := false;
      }
    }
  }
}
