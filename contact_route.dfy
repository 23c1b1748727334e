/** The Express contact endpoint: the form schema, the support-mail subject and the choice
    between demo mode, the two mails, and the error replies. Zod's e-mail format check is an
    input, and so is whether each mail send throws; mail bodies are not modelled. */
module ContactRoute {
  import opened JsPrims

  /** A field of the JSON request body: absent (`undefined`), a string, or any other JSON
      value (`null`, a number, a boolean, an object or an array). */
  datatype BodyField = Absent | Text(text: string) | NonString

  datatype ContactBody = ContactBody(
    name: BodyField, email: BodyField, subject: BodyField, message: BodyField, inquiryType: BodyField)

  datatype Mail = Mail(from: string, to: seq<string>, subject: string, replyTo: Option<string>)

  /** A JSON reply: `{ success, message }`, or `{ error }`. */
  datatype Reply = Reply(success: bool, message: string) | ErrorReply(error: string)

  /** `z.string().min(k)`: a string of at least k UTF-16 code units. */
  predicate StringAtLeast(f: BodyField, k: nat) {
    f.Text? && Utf16Length(f.text) >= k
  }

  /** `contactSchema.parse` succeeds: name, e-mail, subject and message are strings, name and
      subject non-empty, the e-mail passing the format check (which no empty string passes) and
      the message at least 10 code units long; `inquiryType` is a string or absent
      (`z.string().optional()` refuses `null`). */
  predicate SchemaAccepts(b: ContactBody, emailValid: bool) {
    && StringAtLeast(b.name, 1)
    && StringAtLeast(b.email, 1) && emailValid
    && StringAtLeast(b.subject, 1)
    && StringAtLeast(b.message, 10)
    && !b.inquiryType.NonString?
  }

  /** The parsed `inquiryType`: the string, or `undefined`. */
  function InquiryTypeOf(f: BodyField): (r: Option<string>)
    ensures r.Some? <==> f.Text?
    ensures f.Text? ==> r.value == f.text
  {
    if f.Text? then Some(f.text) else None
  }

  /** What the schema refuses: a missing or non-string required field, an empty name, e-mail
      or subject, a message under 10 code units, and a `null` or non-string `inquiryType`. */
  lemma SchemaRejects(b: ContactBody, emailValid: bool)
    ensures !b.name.Text? || !b.email.Text? || !b.subject.Text? || !b.message.Text? ==> !SchemaAccepts(b, emailValid)
    ensures b.name == Text("") || b.email == Text("") || b.subject == Text("") ==> !SchemaAccepts(b, emailValid)
    ensures b.message.Text? && Utf16Length(b.message.text) < 10 ==> !SchemaAccepts(b, emailValid)
    ensures b.message.Text? && |b.message.text| < 5 ==> !SchemaAccepts(b, emailValid)
    ensures b.inquiryType.NonString? ==> !SchemaAccepts(b, emailValid)
    ensures !emailValid ==> !SchemaAccepts(b, emailValid)
  {
  }

  /** The length is counted in code units: nine characters, one of them an emoji, make a
      10-unit message the schema accepts. */
  lemma EmojiMessageAccepted(emailValid: bool)
    requires emailValid
    ensures var m := "12345678\U{1F600}";
      |m| == 9 && SchemaAccepts(ContactBody(Text("A"), Text("a@b.co"), Text("S"), Text(m), Absent), emailValid)
  {
    var m := "12345678\U{1F600}";
    assert m[..8] == "12345678";
    assert Utf16Length("12345678") == 8 by {
      assert "12345678"[..7] == "1234567";
      assert "1234567"[..6] == "123456";
      assert "123456"[..5] == "12345";
      assert "12345"[..4] == "1234";
      assert "1234"[..3] == "123";
      assert "123"[..2] == "12";
      assert "12"[..1] == "1";
      assert "1"[..0] == "";
    }
  }

  /** The support mail's subject: a fixed tag, the inquiry type in brackets when it is a
      non-empty string, then the form's subject. */
  function SupportSubject(inquiryType: Option<string>, subject: string): (r: string)
    ensures |r| >= |"[JayTec E-Voting] "| + |subject|
    ensures r[..18] == "[JayTec E-Voting] " && r[|r| - |subject|..] == subject
    ensures !Truthy(inquiryType) <==> |r| == 18 + |subject|
    ensures Truthy(inquiryType) ==> r[18..|r| - |subject|] == "[" + inquiryType.value + "] "
  {
    var tag := if Truthy(inquiryType) then "[" + inquiryType.value + "] " else "";
    "[JayTec E-Voting] " + tag + subject
  }

  /** Mail goes out only when a real mail-service key is configured. */
  predicate DemoMode(apiKey: Option<string>) {
    !Truthy(apiKey) || apiKey.value == "demo-key"
  }

  function SupportMail(b: ContactBody): (m: Mail)
    requires b.email.Text? && b.subject.Text?
    ensures m.replyTo == Some(b.email.text) && m.to == ["support@jaytec.com"]
  {
    Mail("noreply@jaytec.com", ["support@jaytec.com"], SupportSubject(InquiryTypeOf(b.inquiryType), b.subject.text),
         Some(b.email.text))
  }

  function ConfirmationMail(b: ContactBody): (m: Mail)
    requires b.email.Text?
    ensures m.to == [b.email.text] && m.replyTo.None?
    ensures m.subject == "Thank you for contacting JayTec E-Voting"
  {
    Mail("noreply@jaytec.com", [b.email.text], "Thank you for contacting JayTec E-Voting", None)
  }

  /** `handleContact`. The reply's status is 200 unless stated; `outbox` lists the mails sent,
      in order. A send that throws ends the handler with 500, keeping what was already sent. */
  method HandleContact(b: ContactBody, emailValid: bool, apiKey: Option<string>,
                       supportThrows: bool, confirmationThrows: bool)
    returns (status: int, reply: Reply, outbox: seq<Mail>)
    ensures !SchemaAccepts(b, emailValid) ==>
      status == 400 && reply == Reply(false, "Validation error") && outbox == []
    ensures b.inquiryType.NonString? ==> status == 400 && outbox == []
    ensures SchemaAccepts(b, emailValid) && DemoMode(apiKey) ==>
      status == 200 && reply.Reply? && reply.success && outbox == []
    ensures SchemaAccepts(b, emailValid) && !DemoMode(apiKey) ==>
      && (supportThrows ==> outbox == [])
      && (!supportThrows ==> |outbox| >= 1 && outbox[0] == SupportMail(b))
      && (!supportThrows && !confirmationThrows ==> outbox == [SupportMail(b), ConfirmationMail(b)])
      && (status == 200 <==> !supportThrows && !confirmationThrows)
    ensures status == 200 || status == 400 || status == 500
    ensures reply.Reply? && (reply.success <==> status == 200)
    ensures SchemaAccepts(b, emailValid) && DemoMode(apiKey) ==>
      reply == Reply(true, "Demo mode: Message received successfully!")
    ensures SchemaAccepts(b, emailValid) && !DemoMode(apiKey) && status == 200 ==>
      reply == Reply(true, "Message sent successfully! You should receive a confirmation email shortly.")
    ensures status == 500 ==> reply == Reply(false, "Failed to send message. Please try again later.")
  {
    outbox := [];
    if !SchemaAccepts(b, emailValid) {
      return 400, Reply(false, "Validation error"), outbox;
    }
    if DemoMode(apiKey) {
      return 200, Reply(true, "Demo mode: Message received successfully!"), outbox;
    }
    if supportThrows {
      return 500, Reply(false, "Failed to send message. Please try again later."), outbox;
    }
    outbox := outbox + [SupportMail(b)];
    if confirmationThrows {
      return 500, Reply(false, "Failed to send message. Please try again later."), outbox;
    }
    outbox := outbox + [ConfirmationMail(b)];
    status, reply := 200, Reply(true, "Message sent successfully! You should receive a confirmation email shortly.");
  }

  /** Whatever the mail service does, the submitter is the one the support team replies to and
      the one who gets the confirmation. */
  lemma MailsGoToSubmitter(b: ContactBody)
    requires b.email.Text? && b.subject.Text?
    ensures SupportMail(b).replyTo == Some(b.email.text)
    ensures ConfirmationMail(b).to == [b.email.text]
    ensures SupportMail(b).subject[18..] ==
      (if b.inquiryType.Text? && b.inquiryType.text != "" then "[" + b.inquiryType.text + "] " else "") + b.subject.text
  {
  }
}
