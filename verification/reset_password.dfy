/**
 * The password-reset form: its submit guard, the confirmation state, and
 * the mapping from a failed reset request to the message the form shows.
 */
module ResetPassword {
  import opened Wrappers
  import opened Text

  const UserNotFoundCode: string := "auth/user-not-found"
  const InvalidEmailCode: string := "auth/invalid-email"
  const NetworkFailedCode: string := "auth/network-request-failed"

  const UserNotFoundMessage: string := "No account found with this email address."
  const InvalidEmailMessage: string := "Invalid email address."
  const NetworkFailedMessage: string := "Network error. Please check your connection and try again."
  const UnknownErrorMessage: string := "An unknown error occurred."

  /** What the reset call threw: an `Error` with its message, or any other value. */
  datatype Thrown = ErrorValue(message: string) | OtherValue

  /**
   * The shown message: the first known code the error message contains
   * wins, in the order user-not-found, invalid-email, network failure; an
   * error with none of them shows its own message; a non-error shows the
   * generic text.
   */
  function ErrorMessage(t: Thrown): (m: string)
    ensures t.OtherValue? ==> m == UnknownErrorMessage
    ensures t.ErrorValue? && Contains(t.message, UserNotFoundCode) ==> m == UserNotFoundMessage
    ensures t.ErrorValue? && !Contains(t.message, UserNotFoundCode) && Contains(t.message, InvalidEmailCode) ==>
      m == InvalidEmailMessage
    ensures t.ErrorValue? && !Contains(t.message, UserNotFoundCode) && !Contains(t.message, InvalidEmailCode) ==>
      (Contains(t.message, NetworkFailedCode) ==> m == NetworkFailedMessage)
      && (!Contains(t.message, NetworkFailedCode) ==> m == t.message)
  {
    match t
    case OtherValue => UnknownErrorMessage
    case ErrorValue(msg) =>
      if Contains(msg, UserNotFoundCode) then UserNotFoundMessage
      else if Contains(msg, InvalidEmailCode) then InvalidEmailMessage
      else if Contains(msg, NetworkFailedCode) then NetworkFailedMessage
      else msg
  }

  /** A message naming several codes is mapped by the earliest in the checking order. */
  lemma FirstCodeWins(prefix: string, suffix: string)
    ensures ErrorMessage(ErrorValue(prefix + UserNotFoundCode + suffix + NetworkFailedCode)) == UserNotFoundMessage
  {
    var msg := prefix + UserNotFoundCode + suffix + NetworkFailedCode;
    assert msg[|prefix|..|prefix| + |UserNotFoundCode|] == UserNotFoundCode;
    assert OccursAt(msg, UserNotFoundCode, |prefix|);
  }

  /** The shown message is one of the four fixed texts or the error's own message. */
  lemma ErrorMessageOrigin(t: Thrown)
    ensures var m := ErrorMessage(t);
      m in {UserNotFoundMessage, InvalidEmailMessage, NetworkFailedMessage, UnknownErrorMessage}
      || (t.ErrorValue? && m == t.message)
  {
  }

  datatype PageState = PageState(isSubmitting: bool, resetEmailSent: bool, rootError: Option<string>)

  /**
   * A submit. While one runs, the form's own handler stops it before the
   * form library sees it, and nothing changes. Otherwise the library's
   * `handleSubmit` first replaces the form errors with the schema's
   * verdict, which drops the form-level error, and only for a valid email
   * goes on to the reset request, which starts submitting. `emailValid` is
   * the schema's verdict.
   */
  function BeginSubmit(s: PageState, emailValid: bool): (r: Option<PageState>)
    ensures s.isSubmitting <==> r.None?
    ensures r.Some? ==> r.value.rootError.None?
    ensures r.Some? ==> (r.value.isSubmitting <==> emailValid)
    ensures r.Some? ==> r.value.resetEmailSent == s.resetEmailSent
  {
    if s.isSubmitting then None
    else if emailValid then Some(s.(isSubmitting := true, rootError := None))
    else Some(s.(rootError := None))
  }

  /**
   * The end of a reset request: success shows the confirmation, a failure
   * sets the form error; either way submitting stops.
   */
  function FinishSubmit(s: PageState, outcome: Option<Thrown>): (r: PageState)
    ensures !r.isSubmitting
    ensures outcome.None? ==> r.resetEmailSent && r.rootError == s.rootError
    ensures outcome.Some? ==> r.rootError == Some(ErrorMessage(outcome.value)) && r.resetEmailSent == s.resetEmailSent
  {
    match outcome
    case None => s.(isSubmitting := false, resetEmailSent := true)
    case Some(t) => s.(isSubmitting := false, rootError := Some(ErrorMessage(t)))
  }

  /** "Send another email" returns to the form. */
  function SendAnother(s: PageState): (r: PageState)
    ensures !r.resetEmailSent && r.isSubmitting == s.isSubmitting && r.rootError == s.rootError
  {
    s.(resetEmailSent := false)
  }

  /** The submit button is disabled exactly while a request runs. */
  predicate SubmitDisabled(s: PageState)
  {
    s.isSubmitting
  }

  /**
   * A submission from an idle page always ends idle, shows the confirmation
   * exactly on success, and shows a form error exactly on failure: an error
   * left by an earlier attempt never survives a new one.
   */
  lemma SubmissionEndsIdle(s: PageState, outcome: Option<Thrown>)
    requires !s.isSubmitting && !s.resetEmailSent
    ensures var r := FinishSubmit(BeginSubmit(s, true).value, outcome);
      !SubmitDisabled(r) && (r.resetEmailSent <==> outcome.None?)
      && (r.rootError.Some? <==> outcome.Some?)
      && (outcome.Some? ==> r.rootError == Some(ErrorMessage(outcome.value)))
  {
  }

  /**
   * Fail, then retry successfully, then press "Send another email": the
   * form is back, idle, with no error under it.
   */
  lemma RetryClearsOldError(s: PageState, t: Thrown)
    requires !s.isSubmitting && !s.resetEmailSent
    ensures var failed := FinishSubmit(BeginSubmit(s, true).value, Some(t));
      var retried := FinishSubmit(BeginSubmit(failed, true).value, None);
      SendAnother(retried) == PageState(false, false, None)
  {
  }
}
