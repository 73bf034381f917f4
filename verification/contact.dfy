/** The contact form (src/components/Contact.jsx): typing filters for the
    names and the phone number, and the reset after a successful send. */
module Contact {
  import opened Common
  import opened Validators

  datatype ContactField = FirstName | LastName | Email | Phone | Message

  datatype ContactForm = ContactForm(firstName: string, lastName: string, email: string,
                                     phone: string, message: string)

  const EmptyContactForm := ContactForm("", "", "", "", "")

  function Get(f: ContactForm, field: ContactField): string {
    match field
    case FirstName => f.firstName
    case LastName => f.lastName
    case Email => f.email
    case Phone => f.phone
    case Message => f.message
  }

  /** The typing filter: names take letters and whitespace, the phone takes
      at most 11 digits, the rest take anything. */
  predicate EditAllowed(field: ContactField, v: string) {
    match field
    case FirstName => NameOk(v)
    case LastName => NameOk(v)
    case Phone => PhoneOk(v)
    case _ => true
  }

  /** `handleChange` */
  function Change(f: ContactForm, field: ContactField, v: string): (r: ContactForm)
    ensures !EditAllowed(field, v) ==> r == f
    ensures EditAllowed(field, v) ==> Get(r, field) == v
    ensures forall g :: g != field ==> Get(r, g) == Get(f, g)
  {
    if !EditAllowed(field, v) then f
    else
      match field
      case FirstName => f.(firstName := v)
      case LastName => f.(lastName := v)
      case Email => f.(email := v)
      case Phone => f.(phone := v)
      case Message => f.(message := v)
  }

  /** A phone edit goes through exactly when it is at most 11 digits. */
  lemma PhoneEditAcceptedIff(f: ContactForm, v: string)
    ensures Change(f, Phone, v).phone == v <==>
              v == f.phone || ((forall i :: 0 <= i < |v| ==> IsDigit(v[i])) && |v| <= 11)
  {
    if forall i :: 0 <= i < |v| ==> IsDigit(v[i]) {
      PhoneLengthIsCharCount(v);
    }
  }

  /** The phone held by the form is always at most 11 digits. */
  lemma PhoneStaysShortDigits(f: ContactForm, field: ContactField, v: string)
    requires PhoneOk(f.phone)
    ensures PhoneOk(Change(f, field, v).phone)
  {
  }

  /** After a successful send every field is empty; after a failure the form
      is kept. */
  function AfterSend(f: ContactForm, succeeded: bool): (r: ContactForm)
    ensures succeeded ==> forall g :: Get(r, g) == ""
    ensures !succeeded ==> r == f
  {
    if succeeded then EmptyContactForm else f
  }
}
