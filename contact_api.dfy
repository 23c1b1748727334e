/** The serverless contact endpoint: a method gate in front of the same schema and subject
    composition as the Express route, with its own addresses and replies. */
module ContactApi {
  import opened JsPrims
  import opened ContactRoute

  function SupportMail(b: ContactBody): (m: Mail)
    requires b.email.Text? && b.subject.Text?
    ensures m.replyTo == Some(b.email.text) && m.to == ["support@jaytecgh.com"]
    ensures m.subject == SupportSubject(InquiryTypeOf(b.inquiryType), b.subject.text)
  {
    Mail("noreply@jaytecgh.com", ["support@jaytecgh.com"], SupportSubject(InquiryTypeOf(b.inquiryType), b.subject.text),
         Some(b.email.text))
  }

  function ConfirmationMail(b: ContactBody): (m: Mail)
    requires b.email.Text?
    ensures m.to == [b.email.text] && m.replyTo.None?
    ensures m.subject == "We've received your message"
  {
    Mail("noreply@jaytecgh.com", [b.email.text], "We've received your message", None)
  }

  /** The handler: 405 before the body is read, 400 on a schema failure, 200 in demo mode with no
      mail, and otherwise the two mails, a send that throws giving 500. */
  method Handler(httpMethod: string, b: ContactBody, emailValid: bool, apiKey: Option<string>,
                 supportThrows: bool, confirmationThrows: bool)
    returns (status: int, reply: Reply, outbox: seq<Mail>)
    ensures httpMethod != "POST" ==> status == 405 && reply == ErrorReply("Method not allowed") && outbox == []
    ensures httpMethod == "POST" && !SchemaAccepts(b, emailValid) ==>
      status == 400 && reply == Reply(false, "Validation error") && outbox == []
    ensures httpMethod == "POST" && b.inquiryType.NonString? ==> status == 400 && outbox == []
    ensures httpMethod == "POST" && SchemaAccepts(b, emailValid) && DemoMode(apiKey) ==>
      status == 200 && reply == Reply(true, "Demo mode: received!") && outbox == []
    ensures httpMethod == "POST" && SchemaAccepts(b, emailValid) && !DemoMode(apiKey) ==>
      && (supportThrows ==> outbox == [])
      && (!supportThrows ==> |outbox| >= 1 && outbox[0] == SupportMail(b))
      && (!supportThrows && !confirmationThrows ==> outbox == [SupportMail(b), ConfirmationMail(b)])
      && (status == 200 <==> !supportThrows && !confirmationThrows)
      && (status != 200 ==> status == 500 && reply == Reply(false, "Something went wrong"))
  {
    outbox := [];
    if httpMethod != "POST" {
      return 405, ErrorReply("Method not allowed"), outbox;
    }
    if !SchemaAccepts(b, emailValid) {
      return 400, Reply(false, "Validation error"), outbox;
    }
    if DemoMode(apiKey) {
      return 200, Reply(true, "Demo mode: received!"), outbox;
    }
    if supportThrows {
      return 500, Reply(false, "Something went wrong"), outbox;
    }
    outbox := outbox + [SupportMail(b)];
    if confirmationThrows {
      return 500, Reply(false, "Something went wrong"), outbox;
    }
    outbox := outbox + [ConfirmationMail(b)];
    status, reply := 200, Reply(true, "Message sent successfully!");
  }

  /** The two endpoints give the support mail the same subject and the same reply address;
      only the mail domain differs. */
  lemma SameSupportSubject(b: ContactBody)
    requires b.email.Text? && b.subject.Text?
    ensures ContactRoute.SupportMail(b).subject == SupportMail(b).subject
    ensures ContactRoute.SupportMail(b).replyTo == SupportMail(b).replyTo == Some(b.email.text)
    ensures ContactRoute.SupportMail(b).to != SupportMail(b).to
  {
  }
}
