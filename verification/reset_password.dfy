/** The password-reset page (src/pages/ResetPassword.jsx): the link check,
    the token verification outcome, the submit checks and the submit button
    rule. */
module ResetPassword {
  import opened Common
  import opened Validators

  /** What the page does with the link on mount. */
  datatype LinkOutcome = VerifyToken | LinkError(message: string)

  const InvalidLinkError := "Invalid reset link"
  const ExpiredLinkError := "Invalid or expired reset link"

  /** A link without `token` or without `uid` is refused before any call. */
  function CheckLink(token: Option<string>, uid: Option<string>): (r: LinkOutcome)
    ensures r == VerifyToken <==> Truthy(token) && Truthy(uid)
    ensures r != VerifyToken ==> r == LinkError(InvalidLinkError)
  {
    if Truthy(token) && Truthy(uid) then VerifyToken else LinkError(InvalidLinkError)
  }

  /** The token check's answer. */
  datatype VerifyReply = VerifyFailed | VerifyReplied(status: string)

  /** The token state after mounting: valid, or the error to show. */
  datatype TokenState = TokenState(isValidToken: bool, error: string)

  /** Mounting with a link and, if a call is made, its answer: only a
      "success" answer validates the token. */
  function Mount(token: Option<string>, uid: Option<string>, reply: VerifyReply): (r: TokenState)
    ensures r.isValidToken <==> Truthy(token) && Truthy(uid) && reply == VerifyReplied("success")
    ensures !r.isValidToken ==> r.error != ""
    ensures !(Truthy(token) && Truthy(uid)) ==> r.error == InvalidLinkError
  {
    match CheckLink(token, uid)
    case LinkError(m) => TokenState(false, m)
    case VerifyToken =>
      if reply == VerifyReplied("success") then TokenState(true, "") else TokenState(false, ExpiredLinkError)
  }

  /** The outcome of the submit checks: an error, or the request is sent. */
  datatype SubmitCheck = Refuse(message: string) | SendNewPassword

  const MismatchError := "Passwords do not match"
  const TooShortError := "Password must be at least 8 characters long"

  /** `handleSubmit`'s checks: equality first, then length; nothing else. */
  function CheckSubmit(password: string, confirm: string): (r: SubmitCheck)
    ensures r == SendNewPassword <==> password == confirm && Utf16Length(password) >= 8
    ensures password != confirm ==> r == Refuse(MismatchError)
    ensures password == confirm && Utf16Length(password) < 8 ==> r == Refuse(TooShortError)
  {
    if password != confirm then Refuse(MismatchError)
    else if Utf16Length(password) < 8 then Refuse(TooShortError)
    else SendNewPassword
  }

  /** The mismatch is reported first, whatever the lengths: a mismatched
      pair is never reported as too short. */
  lemma MismatchReportedBeforeLength(password: string, confirm: string)
    ensures CheckSubmit(password, confirm) == Refuse(MismatchError) <==> password != confirm
    ensures CheckSubmit(password, confirm) == Refuse(TooShortError) <==>
              password == confirm && Utf16Length(password) < 8
  {
  }

  /** The submit enforces only the length flag: a matching pair is sent
      exactly when the minimum-length flag is set, whatever the other three
      strength flags say; "aaaaaaaa" is sent although it fails all three. */
  lemma SubmitIgnoresStrengthFlags(password: string)
    ensures CheckSubmit(password, password) == SendNewPassword <==> ValidatePassword(password).minLength
    ensures ValidatePassword(password).minLength && !IsPasswordValid(ValidatePassword(password)) ==>
              CheckSubmit(password, password) == SendNewPassword
    ensures var f := ValidatePassword("aaaaaaaa");
            CheckSubmit("aaaaaaaa", "aaaaaaaa") == SendNewPassword
            && f.minLength && !f.hasUpperCase && !f.hasNumber && !f.hasSpecial
  {
    var p := "aaaaaaaa";
    assert Utf16Length(p) == 8;
  }

  /** The submit button is disabled while a request runs or while the token
      is not known to be valid. */
  function SubmitDisabled(loading: bool, isValidToken: bool): (d: bool)
    ensures !d <==> !loading && isValidToken
  {
    loading || !isValidToken
  }

  /** With a link missing a parameter the button can never be enabled. */
  lemma BadLinkNeverEnablesSubmit(token: Option<string>, uid: Option<string>, reply: VerifyReply, loading: bool)
    requires !Truthy(token) || !Truthy(uid)
    ensures SubmitDisabled(loading, Mount(token, uid, reply).isValidToken)
  {
  }
}
