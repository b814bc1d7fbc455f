/** The reset-password page: the token check on mount and the
    `handleSubmit` validation sequence over `message`, `messageType` and
    `loading`. */
module ResetPassword {
  import opened Common

  const MinPasswordLength: int := 6

  /** A JSON reply of the server (`success` and an optional `message`,
      plus `email` from the verify route), or a request that throws. */
  datatype Reply = Replied(success: bool, email: string, message: Option<string>) | NetworkError

  /** `data.message || fallback`: a missing or empty message gives the fallback. */
  function MessageOr(message: Option<string>, fallback: string): (text: string)
    ensures message.Some? && message.value != "" ==> text == message.value
    ensures message.None? || message.value == "" ==> text == fallback
  {
    if message.Some? && message.value != "" then message.value else fallback
  }

  /** The two client-side checks of `handleSubmit`, in order; None when
      both pass and the update request goes out. */
  function SubmitCheck(newPassword: string, confirmPassword: string): (error: Option<string>)
    ensures newPassword != confirmPassword ==> error == Some("Passwords do not match")
    ensures newPassword == confirmPassword && |newPassword| < MinPasswordLength ==>
      error == Some("Password must be at least 6 characters long")
    ensures error.None? <==> newPassword == confirmPassword && |newPassword| >= MinPasswordLength
  {
    if newPassword != confirmPassword then Some("Passwords do not match")
    else if |newPassword| < MinPasswordLength then Some("Password must be at least 6 characters long")
    else None
  }

  class ResetPasswordState {
    var message: string
    var messageType: string
    var loading: bool
    var verifying: bool
    var tokenValid: bool
    var userEmail: string
    var redirectScheduled: bool

    ghost predicate Valid()
      reads this
    {
      tokenValid ==> !verifying
    }

    /** The initial state of the page. */
    constructor()
      ensures Valid()
      ensures message == "" && messageType == "" && !loading && verifying && !tokenValid
      ensures !ShowsForm()
      ensures userEmail == "" && !redirectScheduled
    {
      message := "";
      messageType := "";
      loading := false;
      verifying := true;
      tokenValid := false;
      userEmail := "";
      redirectScheduled := false;
    }

    /** The mount effect: with no token nothing is requested and the link is
        reported invalid; otherwise `reply` is what GET
        /verify-reset-token/:token gives. Verifying ends in every case. */
    method VerifyOnMount(token: Option<string>, reply: Reply) returns (requested: bool)
      requires Valid()
      modifies this
      ensures Valid()
      ensures requested <==> token.Some? && token.value != ""
      ensures !verifying
      ensures !requested ==> message == "Invalid reset link" && messageType == "error" && tokenValid == old(tokenValid)
      ensures requested ==> (tokenValid <==> reply.Replied? && reply.success)
      ensures requested ==> (ShowsForm() <==> reply.Replied? && reply.success)
      ensures !requested ==> (ShowsForm() <==> old(tokenValid))
      ensures requested && tokenValid ==> userEmail == reply.email && message == old(message)
      ensures requested && reply.Replied? && !reply.success ==>
        message == MessageOr(reply.message, "Invalid or expired reset token") && messageType == "error"
      ensures requested && reply.NetworkError? ==> message == "Network error. Please try again." && messageType == "error"
      ensures loading == old(loading) && redirectScheduled == old(redirectScheduled)
    {
      if token.None? || token.value == "" {
        message := "Invalid reset link";
        messageType := "error";
        verifying := false;
        return false;
      }
      requested := true;
      match reply {
        case Replied(success, email, msg) =>
          if success {
            tokenValid := true;
            userEmail := email;
          } else {
            message := MessageOr(msg, "Invalid or expired reset token");
            messageType := "error";
            tokenValid := false;
          }
        case NetworkError =>
          message := "Network error. Please try again.";
          messageType := "error";
          tokenValid := false;
      }
      verifying := false;
    }

    /** `handleSubmit`: `reply` is what POST /update-password gives when the
        request goes out. */
    method HandleSubmit(newPassword: string, confirmPassword: string, reply: Reply) returns (requested: bool)
      requires Valid()
      modifies this
      ensures Valid()
      ensures requested <==> SubmitCheck(newPassword, confirmPassword).None?
      ensures !loading
      ensures !requested ==> message == SubmitCheck(newPassword, confirmPassword).value && messageType == "error"
      ensures requested && reply.Replied? && reply.success ==>
        message == "Password updated successfully! Redirecting to login..." && messageType == "success"
      ensures requested && reply.Replied? && !reply.success ==>
        message == MessageOr(reply.message, "Failed to update password") && messageType == "error"
      ensures requested && reply.NetworkError? ==> message == "Network error. Please try again." && messageType == "error"
      ensures messageType == "success" <==> requested && reply.Replied? && reply.success
      ensures redirectScheduled <==> old(redirectScheduled) || (requested && reply.Replied? && reply.success)
      ensures verifying == old(verifying) && tokenValid == old(tokenValid) && userEmail == old(userEmail)
      ensures ShowsForm() == old(ShowsForm())
    {
      loading := true;
      message := "";
      if newPassword != confirmPassword {
        message := "Passwords do not match";
        messageType := "error";
        loading := false;
        return false;
      }
      if |newPassword| < MinPasswordLength {
        message := "Password must be at least 6 characters long";
        messageType := "error";
        loading := false;
        return false;
      }
      requested := true;
      match reply {
        case Replied(success, _, msg) =>
          if success {
            message := "Password updated successfully! Redirecting to login...";
            messageType := "success";
            redirectScheduled := true;
          } else {
            message := MessageOr(msg, "Failed to update password");
            messageType := "error";
          }
        case NetworkError =>
          message := "Network error. Please try again.";
          messageType := "error";
      }
      loading := false;
    }

    /** The form is drawn only after verification ended with a valid token;
        while the invariant holds, that is exactly a valid token. */
    function ShowsForm(): (shown: bool)
      reads this
      ensures shown ==> tokenValid
      ensures Valid() ==> (shown <==> tokenValid)
    {
      !verifying && tokenValid
    }
  }

  /** The two check messages differ, so the error shown tells which check
      failed; a mismatch is reported even when the password is also short. */
  lemma SubmitChecksDistinct(newPassword: string, confirmPassword: string)
    ensures SubmitCheck(newPassword, confirmPassword) == Some("Passwords do not match") <==> newPassword != confirmPassword
    ensures SubmitCheck(newPassword, confirmPassword) == Some("Password must be at least 6 characters long") <==>
      newPassword == confirmPassword && |newPassword| < MinPasswordLength
  {
  }
}
