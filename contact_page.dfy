/** The contact page: a client-side check of the required fields, the request it posts to the
    contact endpoint, and the partial reset after a successful send. The endpoint's answer is
    an input. */
module ContactPage {
  import opened JsPrims
  import ContactRoute
  import ContactApi

  datatype Field = Name | Email | Subject | Message | InquiryType

  datatype ContactForm = ContactForm(name: string, email: string, subject: string, message: string, inquiryType: string)

  function Get(f: ContactForm, field: Field): string {
    match field
    case Name => f.name
    case Email => f.email
    case Subject => f.subject
    case Message => f.message
    case InquiryType => f.inquiryType
  }

  function WithField(f: ContactForm, field: Field, value: string): (r: ContactForm)
    ensures Get(r, field) == value
  {
    match field
    case Name => f.(name := value)
    case Email => f.(email := value)
    case Subject => f.(subject := value)
    case Message => f.(message := value)
    case InquiryType => f.(inquiryType := value)
  }

  /** Setting a field changes that field and no other. */
  lemma {:induction false} WithFieldOnly(f: ContactForm, field: Field, value: string, other: Field)
    ensures Get(WithField(f, field, value), other) == if other == field then value else Get(f, other)
  {
    match field
    case Name =>
    case Email =>
    case Subject =>
    case Message =>
    case InquiryType =>
  }

  /** The posted JSON: the form's fields plus the signed-in user's id. */
  datatype ContactRequest = ContactRequest(body: ContactRoute.ContactBody, userId: Option<string>)

  function RequestOf(f: ContactForm, userId: Option<string>): (r: ContactRequest)
    ensures r.body.name == ContactRoute.Text(f.name) && r.body.email == ContactRoute.Text(f.email)
    ensures r.body.subject == ContactRoute.Text(f.subject)
    ensures r.body.message == ContactRoute.Text(f.message) && r.body.inquiryType == ContactRoute.Text(f.inquiryType)
    ensures r.userId == userId
  {
    var body := ContactRoute.ContactBody(
      ContactRoute.Text(f.name), ContactRoute.Text(f.email), ContactRoute.Text(f.subject),
      ContactRoute.Text(f.message), ContactRoute.Text(f.inquiryType));
    ContactRequest(body, userId)
  }

  /** How the request went: a 2xx answer, another answer with its text, or a thrown value that
      may or may not be an Error with a message. */
  datatype Response = Delivered | NotOk(text: string) | Threw(errorMessage: Option<string>)

  const Required := "Please fill in all required fields"

  /** Name, e-mail and message are required here; the subject is not. */
  predicate ClientAccepts(f: ContactForm) {
    f.name != "" && f.email != "" && f.message != ""
  }

  /** After a send: subject, message and inquiry type cleared, name and e-mail kept. */
  function ClearedAfterSend(f: ContactForm): (r: ContactForm)
    ensures r.name == f.name && r.email == f.email
    ensures r.subject == "" && r.message == "" && r.inquiryType == ""
  {
    f.(subject := "", message := "", inquiryType := "")
  }

  class ContactPageState {
    var form: ContactForm
    var loading: bool
    var success: bool
    var error: string

    /** The form starts with the signed-in user's first name and primary e-mail, or "". */
    constructor (firstName: Option<string>, primaryEmail: Option<string>)
      ensures form == ContactForm(OrElse(firstName, ""), OrElse(primaryEmail, ""), "", "", "")
      ensures !loading && !success && error == ""
    {
      form := ContactForm(OrElse(firstName, ""), OrElse(primaryEmail, ""), "", "", "");
      loading, success, error := false, false, "";
    }

    method HandleInputChange(field: Field, value: string)
      modifies this`form
      ensures form == WithField(old(form), field, value)
    {
      form := WithField(form, field, value);
    }

    /** `handleSubmit`; returns the request posted, if any. */
    method HandleSubmit(userId: Option<string>, response: Response) returns (sent: Option<ContactRequest>)
      modifies this`form, this`loading, this`success, this`error
      ensures !loading
      ensures !ClientAccepts(old(form)) ==>
        sent.None? && error == Required && form == old(form) && success == old(success)
      ensures ClientAccepts(old(form)) ==> sent == Some(RequestOf(old(form), userId))
      ensures ClientAccepts(old(form)) && response.Delivered? ==>
        success && error == "" && form == ClearedAfterSend(old(form))
      ensures ClientAccepts(old(form)) && response.NotOk? ==>
        error == response.text && form == old(form) && success == old(success)
      ensures ClientAccepts(old(form)) && response.Threw? ==>
        error == (if response.errorMessage.Some? then response.errorMessage.value else "Failed to send message") &&
        form == old(form) && success == old(success)
    {
      loading := true;
      error := "";
      if !ClientAccepts(form) {
        error := Required;
        loading := false;
        return None;
      }
      sent := Some(RequestOf(form, userId));
      match response {
        case Delivered =>
          success := true;
          form := ClearedAfterSend(form);
        case NotOk(text) =>
          error := text;
        case Threw(message) =>
          error := if message.Some? then message.value else "Failed to send message";
      }
      loading := false;
    }
  }

  /** The page lets an empty subject through, and the endpoint it posts to answers such a
      request with 400: the client check is weaker than the server's schema. */
  lemma EmptySubjectRejected(f: ContactForm, userId: Option<string>, emailValid: bool)
    requires ClientAccepts(f) && f.subject == ""
    ensures !ContactRoute.SchemaAccepts(RequestOf(f, userId).body, emailValid)
  {
  }

  /** Conversely every request the server accepts passes the page's own check. */
  lemma ServerAcceptedPassesClient(f: ContactForm, userId: Option<string>, emailValid: bool)
    requires ContactRoute.SchemaAccepts(RequestOf(f, userId).body, emailValid)
    ensures ClientAccepts(f) && f.subject != "" && Utf16Length(f.message) >= 10
  {
  }
}
