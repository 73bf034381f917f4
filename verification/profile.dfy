/** The profile page (src/pages/Profile.jsx): loading the form from the
    signed-in user, the typing filters, the ordered submit checks, the data
    submitted, and clearing the password fields after an update. */
module Profile {
  import opened Common
  import opened Validators

  datatype ProfileField = FirstName | LastName | Email | Title | Company | Password | ConfirmPassword

  datatype ProfileForm = ProfileForm(firstName: string, lastName: string, email: string, title: string,
                                     company: string, password: string, confirmPassword: string)

  /** The signed-in user's fields, any of which may be `null`. */
  datatype UserFields = UserFields(firstName: Option<string>, lastName: Option<string>, email: Option<string>,
                                   title: Option<string>, company: Option<string>)

  /** The form is filled from the user, `null` becoming empty, and the
      password fields start empty. */
  function LoadForm(u: UserFields): (r: ProfileForm)
    ensures r.password == "" && r.confirmPassword == ""
    ensures u.firstName.Some? ==> r.firstName == u.firstName.value
    ensures u.firstName.None? ==> r.firstName == ""
    ensures u.lastName.Some? ==> r.lastName == u.lastName.value
    ensures u.lastName.None? ==> r.lastName == ""
    ensures u.email.Some? ==> r.email == u.email.value
    ensures u.email.None? ==> r.email == ""
    ensures u.title.Some? ==> r.title == u.title.value
    ensures u.title.None? ==> r.title == ""
    ensures u.company.Some? ==> r.company == u.company.value
    ensures u.company.None? ==> r.company == ""
  {
    ProfileForm(OrEmpty(u.firstName), OrEmpty(u.lastName), OrEmpty(u.email), OrEmpty(u.title),
                OrEmpty(u.company), "", "")
  }

  function Get(f: ProfileForm, field: ProfileField): string {
    match field
    case FirstName => f.firstName
    case LastName => f.lastName
    case Email => f.email
    case Title => f.title
    case Company => f.company
    case Password => f.password
    case ConfirmPassword => f.confirmPassword
  }

  predicate EditAllowed(field: ProfileField, v: string) {
    match field
    case FirstName => NameOk(v)
    case LastName => NameOk(v)
    case Company => CompanyTitleOk(v)
    case Title => CompanyTitleOk(v)
    case _ => true
  }

  /** `handleChange`: a rejected edit leaves the form as it is. */
  function Change(f: ProfileForm, field: ProfileField, v: string): (r: ProfileForm)
    ensures !EditAllowed(field, v) ==> r == f
    ensures EditAllowed(field, v) ==> Get(r, field) == v
    ensures forall g :: g != field ==> Get(r, g) == Get(f, g)
  {
    if !EditAllowed(field, v) then f
    else
      match field
      case FirstName => f.(firstName := v)
      case LastName => f.(lastName := v)
      case Email => f.(email := v)
      case Title => f.(title := v)
      case Company => f.(company := v)
      case Password => f.(password := v)
      case ConfirmPassword => f.(confirmPassword := v)
  }

  /** What is sent: every field but the confirmation, and the password only
      when one was typed. */
  datatype SubmitData = SubmitData(firstName: string, lastName: string, email: string, title: string,
                                   company: string, password: Option<string>)

  /** The rule a submit breaks. */
  datatype ProfileError = PasswordMismatch | PasswordTooShort | InvalidEmail | MissingRequired

  /** The message shown for each rule. */
  function Message(e: ProfileError): string {
    match e
    case PasswordMismatch => "Passwords do not match"
    case PasswordTooShort => "Password must be at least 8 characters long"
    case InvalidEmail => "Please enter a valid email address"
    case MissingRequired => "First name, last name, and email are required"
  }

  datatype SubmitCheck = Refuse(error: ProfileError) | Send(data: SubmitData)

  /** `handleSubmit`'s checks in their order: the password pair (only when
      either is non-empty: mismatch, then length), the email pattern, then the
      required fields; otherwise the data to send. */
  function CheckSubmit(f: ProfileForm): (r: SubmitCheck)
    ensures PasswordPairBad(f) <==> r == Refuse(PasswordMismatch) || r == Refuse(PasswordTooShort)
    ensures r == Refuse(InvalidEmail) ==> !CheckEmail(f.email)
    ensures r.Send? ==> CheckEmail(f.email) && Trim(f.firstName) != "" && Trim(f.lastName) != ""
    ensures r.Send? ==> r.data.email == f.email && r.data.firstName == f.firstName && r.data.lastName == f.lastName
    ensures r.Send? && r.data.password.Some? ==>
              r.data.password.value == f.confirmPassword && Utf16Length(r.data.password.value) >= 8
  {
    if (f.password != "" || f.confirmPassword != "") && f.password != f.confirmPassword then Refuse(PasswordMismatch)
    else if (f.password != "" || f.confirmPassword != "") && Utf16Length(f.password) < 8 then Refuse(PasswordTooShort)
    else if !CheckEmail(f.email) then Refuse(InvalidEmail)
    else if Trim(f.firstName) == "" || Trim(f.lastName) == "" || Trim(f.email) == "" then Refuse(MissingRequired)
    else Send(SubmitData(f.firstName, f.lastName, f.email, f.title, f.company,
                         if f.password == "" then None else Some(f.password)))
  }

  /** The password rule is broken: only checked when either field is filled. */
  predicate PasswordPairBad(f: ProfileForm) {
    (f.password != "" || f.confirmPassword != "")
    && (f.password != f.confirmPassword || Utf16Length(f.password) < 8)
  }

  /** The password pair is checked first: mismatch, then length. */
  lemma PasswordRulesFirst(f: ProfileForm)
    ensures var r := CheckSubmit(f);
            && (r == Refuse(PasswordMismatch) <==> (f.password != "" || f.confirmPassword != "") && f.password != f.confirmPassword)
            && (r == Refuse(PasswordTooShort) <==> f.password == f.confirmPassword && f.password != "" && Utf16Length(f.password) < 8)
  {
  }

  /** The email pattern is checked next. */
  lemma EmailRuleSecond(f: ProfileForm)
    ensures CheckSubmit(f) == Refuse(InvalidEmail) <==> !PasswordPairBad(f) && !EmailPattern(f.email)
  {
    CheckEmailMatchesPattern(f.email);
  }

  /** The email half of the required-fields check is unreachable: an address
      that passed the email check is never blank. */
  lemma CheckedEmailNotBlank(f: ProfileForm)
    ensures CheckEmail(f.email) ==> Trim(f.email) != ""
  {
    if CheckEmail(f.email) {
      CheckEmailMatchesPattern(f.email);
      EmailIsNeverBlank(f.email);
      TrimEmptyIffBlank(f.email);
    }
  }

  /** The required-fields check restated on the scan and the trims. */
  lemma RequiredRuleOnScan(f: ProfileForm)
    ensures CheckSubmit(f) == Refuse(MissingRequired) <==>
              !PasswordPairBad(f) && CheckEmail(f.email) && (Trim(f.firstName) == "" || Trim(f.lastName) == "")
  {
    CheckedEmailNotBlank(f);
  }

  /** The required names are checked last; the email half of that check is
      unreachable. */
  lemma RequiredRuleLast(f: ProfileForm)
    ensures CheckSubmit(f) == Refuse(MissingRequired) <==>
              !PasswordPairBad(f) && EmailPattern(f.email) && (IsBlank(f.firstName) || IsBlank(f.lastName))
  {
    RequiredRuleOnScan(f);
    CheckEmailMatchesPattern(f.email);
    TrimEmptyIffBlank(f.firstName);
    TrimEmptyIffBlank(f.lastName);
  }

  /** A form passing every rule is sent with the confirmation dropped and the
      password only when one was typed. */
  lemma SendsWithoutConfirmation(f: ProfileForm)
    ensures CheckSubmit(f).Send? <==>
              !PasswordPairBad(f) && EmailPattern(f.email) && !IsBlank(f.firstName) && !IsBlank(f.lastName)
    ensures CheckSubmit(f).Send? ==>
              CheckSubmit(f).data == SubmitData(f.firstName, f.lastName, f.email, f.title, f.company,
                                                if f.password == "" then None else Some(f.password))
  {
    RequiredRuleLast(f);
    EmailRuleSecond(f);
    PasswordRulesFirst(f);
  }

  /** An address the pattern accepts is never blank, so the email half of the
      required-fields check can never fire. */
  lemma EmailIsNeverBlank(s: string)
    requires EmailPattern(s)
    ensures !IsBlank(s)
  {
    var a, d :| 0 < a < d < |s| - 1 && s[a] == '@' && s[d] == '.'
                && EmailPart(s[..a]) && EmailPart(s[a + 1..d]) && EmailPart(s[d + 1..]);
    assert s[..a][0] == s[0];
  }

  /** After a successful update the password fields are cleared and the rest
      is kept. */
  function AfterUpdate(f: ProfileForm, succeeded: bool): (r: ProfileForm)
    ensures succeeded ==> r.password == "" && r.confirmPassword == ""
    ensures succeeded ==> forall g :: g != Password && g != ConfirmPassword ==> Get(r, g) == Get(f, g)
    ensures !succeeded ==> r == f
  {
    if succeeded then f.(password := "", confirmPassword := "") else f
  }

  /** After an update the form passes the password checks whatever was typed
      before, so a second save without new input sends no password. */
  lemma UpdateClearsPasswordForNextSave(f: ProfileForm)
    requires CheckSubmit(f).Send?
    ensures var g := AfterUpdate(f, true);
            CheckSubmit(g).Send? && CheckSubmit(g).data.password.None?
  {
  }
}
