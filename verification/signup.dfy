/** The sign-up page (src/pages/Signup.jsx): typing filters, the live
    password flags, and the submit guard and reset. */
module Signup {
  import opened Common
  import opened Validators

  datatype SignupField = FirstName | LastName | Title | Email | Company | Password

  datatype SignupForm = SignupForm(firstName: string, lastName: string, title: string,
                                   email: string, company: string, password: string)

  const EmptySignupForm := SignupForm("", "", "", "", "", "")

  /** The page state: the form, the password flags and the two messages. */
  datatype SignupPage = SignupPage(form: SignupForm, flags: PasswordFlags, error: string, success: string)

  const InitialSignup := SignupPage(EmptySignupForm, NoFlags, "", "")

  /** The value of one field. */
  function Get(f: SignupForm, field: SignupField): string {
    match field
    case FirstName => f.firstName
    case LastName => f.lastName
    case Title => f.title
    case Email => f.email
    case Company => f.company
    case Password => f.password
  }

  /** `{ ...prev, [name]: value }` */
  function Set(f: SignupForm, field: SignupField, v: string): (r: SignupForm)
    ensures Get(r, field) == v
    ensures forall g :: g != field ==> Get(r, g) == Get(f, g)
  {
    match field
    case FirstName => f.(firstName := v)
    case LastName => f.(lastName := v)
    case Title => f.(title := v)
    case Email => f.(email := v)
    case Company => f.(company := v)
    case Password => f.(password := v)
  }

  /** The typing filter of a field: names take letters and whitespace,
      company and title also `&`, `'` and `-`; the rest take anything. */
  predicate EditAllowed(field: SignupField, v: string) {
    match field
    case FirstName => NameOk(v)
    case LastName => NameOk(v)
    case Company => CompanyTitleOk(v)
    case Title => CompanyTitleOk(v)
    case _ => true
  }

  /** `handleChange`: a rejected edit leaves the page as it is; an accepted
      one sets only that field, and a password edit recomputes the flags. */
  function Change(pg: SignupPage, field: SignupField, v: string): (r: SignupPage)
    ensures !EditAllowed(field, v) ==> r == pg
    ensures EditAllowed(field, v) ==>
              && Get(r.form, field) == v
              && (forall g :: g != field ==> Get(r.form, g) == Get(pg.form, g))
              && r.flags == (if field == Password then ValidatePassword(v) else pg.flags)
    ensures r.error == pg.error && r.success == pg.success
  {
    if !EditAllowed(field, v) then pg
    else
      var form := Set(pg.form, field, v);
      if field == Password then pg.(form := form, flags := ValidatePassword(v)) else pg.(form := form)
  }

  /** The signup endpoint's answer: a thrown request (with the server's
      message, if any) or a reply. */
  datatype SignupReply = SignupFailed(message: Option<string>) | SignupReplied(status: string)

  const PasswordRequirementsError := "Please ensure your password meets all requirements"

  /** `handleSubmit` with the endpoint's answer: refused with an error while
      the flags are not all set; a "success" answer clears the form and the
      flags; any other answer leaves the form as it is. */
  function Submit(pg: SignupPage, reply: SignupReply): (r: SignupPage)
    ensures !IsPasswordValid(pg.flags) ==>
              r.form == pg.form && r.flags == pg.flags && r.error == PasswordRequirementsError && r.success == ""
    ensures IsPasswordValid(pg.flags) && reply == SignupReplied("success") ==>
              r.form == EmptySignupForm && r.flags == NoFlags && r.error == "" && r.success != ""
    ensures IsPasswordValid(pg.flags) && reply != SignupReplied("success") ==>
              r.form == pg.form && r.flags == pg.flags && r.success == ""
  {
    if !IsPasswordValid(pg.flags) then pg.(error := PasswordRequirementsError, success := "")
    else if reply == SignupReplied("success") then
      SignupPage(EmptySignupForm, NoFlags, "", "Please check your email to verify your account.")
    else if reply.SignupFailed? then
      var m := reply.message;
      pg.(error := if m.Some? && m.value != "" then m.value else "An error occurred during signup", success := "")
    else pg.(error := "", success := "")
  }

  /** The flags always describe the password in the form. */
  predicate FlagsTrack(pg: SignupPage) {
    pg.flags == ValidatePassword(pg.form.password)
  }

  /** Typing and submitting keep the flags in step with the password, so the
      submit guard is exactly the four password requirements. */
  lemma FlagsTrackPassword(pg: SignupPage, field: SignupField, v: string, reply: SignupReply)
    requires FlagsTrack(pg)
    ensures FlagsTrack(Change(pg, field, v))
    ensures FlagsTrack(Submit(pg, reply))
    ensures FlagsTrack(InitialSignup)
  {
    EmptyPasswordHasNoFlags();
  }

  /** Only names made of letters and whitespace reach the form. */
  lemma NamesStayClean(pg: SignupPage, field: SignupField, v: string)
    requires NameOk(pg.form.firstName) && NameOk(pg.form.lastName)
    requires CompanyTitleOk(pg.form.company) && CompanyTitleOk(pg.form.title)
    ensures var r := Change(pg, field, v);
            && NameOk(r.form.firstName) && NameOk(r.form.lastName)
            && CompanyTitleOk(r.form.company) && CompanyTitleOk(r.form.title)
  {
  }
}
