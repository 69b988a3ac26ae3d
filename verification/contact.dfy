/**
 * The contact-form endpoint (src/app/api/contact/route.ts): it checks the
 * required fields, composes a LINE Notify text and a notification e-mail,
 * fires both, and answers 200 whatever the notifiers did. The HTTP calls
 * are recorded as the list of requests made; the clock readings are inputs.
 */
module Contact {
  import opened Wrappers
  import opened Text

  /** The parsed request body; a field that is absent is `None`. */
  datatype Submission = Submission(
    name: Option<string>, phone: Option<string>, lineId: Option<string>,
    service: Option<string>, message: Option<string>)

  /** JavaScript truthiness of an optional string. */
  predicate Truthy(v: Option<string>) { v.Some? && v.value != "" }

  /** `!name || !phone || !service` fails exactly when this holds. */
  predicate Complete(s: Submission) { Truthy(s.name) && Truthy(s.phone) && Truthy(s.service) }

  /** `v || "-"`. */
  function OrDash(v: Option<string>): (r: string)
    ensures r != ""
    ensures Truthy(v) ==> r == v.value
    ensures !Truthy(v) ==> r == "-"
  {
    if Truthy(v) then v.value else "-"
  }

  /** The environment: `LINE_NOTIFY_TOKEN`, `RESEND_API_KEY` and `NOTIFICATION_EMAIL`. */
  datatype Config = Config(lineToken: Option<string>, resendKey: Option<string>, notificationEmail: Option<string>)

  const DefaultRecipient: string := "poppatompong@gmail.com"
  const Sender: string := "no-reply@patompong.dev"

  /** `NOTIFICATION_EMAIL || "poppatompong@gmail.com"`: never an empty address. */
  function Recipient(c: Config): (r: string)
    ensures r != ""
    ensures Truthy(c.notificationEmail) ==> r == c.notificationEmail.value
    ensures !Truthy(c.notificationEmail) ==> r == DefaultRecipient
  {
    if Truthy(c.notificationEmail) then c.notificationEmail.value else DefaultRecipient
  }

  /** A request one of the notifiers sends. */
  datatype Notification =
    | LineNotify(text: string)
    | Email(from: string, to: string, subject: string, html: string)

  const MissingFieldsError: string := "กรุณากรอกข้อมูลที่จำเป็นให้ครบถ้วน (ชื่อ, เบอร์โทร, บริการที่สนใจ)"
  const SuccessMessage: string := "ส่งข้อมูลสำเร็จ เราจะติดต่อกลับโดยเร็วที่สุด"
  const ServerErrorMessage: string := "เกิดข้อผิดพลาดในการส่งข้อมูล กรุณาลองใหม่อีกครั้ง"

  datatype Body = Success(message: string) | Error(error: string)
  datatype Response = Response(status: int, body: Body)

  /** The response and the notifier requests made while producing it. */
  datatype Outcome = Outcome(response: Response, sent: seq<Notification>)

  /** The LINE text; `timestamp` is the `toLocaleString("th-TH")` reading. */
  function LineMessage(s: Submission, timestamp: string): string
    requires Complete(s)
  {
    "\n\n📩 ลูกค้าใหม่! (" + timestamp + ")" +
    "\n👤 ชื่อ: " + s.name.value +
    "\n📱 เบอร์: " + s.phone.value +
    "\n💬 LINE: " + OrDash(s.lineId) +
    "\n🔧 บริการ: " + s.service.value +
    "\n📝 รายละเอียด: " + OrDash(s.message)
  }

  /** `[Lead] ${name} – ${service}` (the dash is an en dash). */
  function Subject(name: string, service: string): string { "[Lead] " + name + " – " + service }

  /** The style both cells of a table row share. */
  const CellStyle: string := "padding:8px;" + "border:1px solid #eee;"

  /** A row of the e-mail's table: the field's label in bold, then its value. */
  function Row(field: string, value: string): string {
    "\n      <tr><td style=\"" + CellStyle + "font-weight:bold;\">" + field +
    "</td><td style=\"" + CellStyle + "\">" + value + "</td></tr>"
  }

  /**
   * The e-mail body; `time` is the second clock reading the e-mail takes.
   * The template is written in pieces, split at its tags and style properties.
   */
  function EmailHtml(s: Submission, time: string): string
    requires Complete(s)
  {
    "\n    <h2 style=\"" + "color:#B45309;" + "\">" + "&#128276; " + "มีลูกค้าใหม่ติดต่อเข้ามา" + "</h2>" +
    "\n    <table style=\"" + "border-collapse:collapse;" + "width:100%;" + "font-family:sans-serif;" + "\">" +
    Row("ชื่อ", s.name.value) +
    Row("เบอร์โทร", s.phone.value) +
    Row("LINE ID", OrDash(s.lineId)) +
    Row("บริการที่สนใจ", s.service.value) +
    Row("รายละเอียด", OrDash(s.message)) +
    "\n    </table>" +
    "\n    <p style=\"" + "color:#718096;" + "font-size:12px;" + "margin-top:16px;" + "\">" +
    "ส่งจาก " + "Patompong Tech Consultant Website" + " · " + time + "</p>" +
    "\n  "
  }

  /** `sendLineNotify`: nothing without a token. */
  function LineRequests(c: Config, text: string): seq<Notification> {
    if Truthy(c.lineToken) then [LineNotify(text)] else []
  }

  /** `sendEmailNotification` with its body `html` composed: nothing without an API key. */
  function EmailRequests(c: Config, name: string, service: string, html: string): seq<Notification> {
    if Truthy(c.resendKey) then [Email(Sender, Recipient(c), Subject(name, service), html)] else []
  }

  /** The requests of both notifiers, LINE first, as `Promise.allSettled` lists them. */
  function Sent(c: Config, name: string, service: string, text: string, html: string): seq<Notification> {
    LineRequests(c, text) + EmailRequests(c, name, service, html)
  }

  /**
   * `POST`: `body` is `None` when `req.json()` throws. The notifiers run under
   * `Promise.allSettled` and their settled results are discarded, so whether
   * either request fails never reaches the answer and is not a parameter.
   */
  function Post(body: Option<Submission>, c: Config, timestamp: string, emailTime: string): (r: Outcome)
    ensures r.response.status == 200 <==> body.Some? && Complete(body.value)
    ensures r.response.status in {200, 400, 500}
    ensures r.response.status != 200 ==> r.sent == []
    ensures |r.sent| <= 2
  {
    if body.None? then
      Outcome(Response(500, Error(ServerErrorMessage)), [])
    else if !Complete(body.value) then
      Outcome(Response(400, Error(MissingFieldsError)), [])
    else
      var s := body.value;
      var sent := Sent(c, s.name.value, s.service.value, LineMessage(s, timestamp), EmailHtml(s, emailTime));
      Outcome(Response(200, Success(SuccessMessage)), sent)
  }

  /** A body that is not JSON gives 500 and notifies no one. */
  lemma BadJsonIsServerError(c: Config, t: string, et: string)
    ensures Post(None, c, t, et) == Outcome(Response(500, Error(ServerErrorMessage)), [])
  {
  }

  /** A missing or empty name, phone or service gives 400 and notifies no one. */
  lemma IncompleteIsRejected(s: Submission, c: Config, t: string, et: string)
    requires !Truthy(s.name) || !Truthy(s.phone) || !Truthy(s.service)
    ensures Post(Some(s), c, t, et) == Outcome(Response(400, Error(MissingFieldsError)), [])
  {
  }

  /**
   * The requests `sent` hold one LINE text `ln` if and only if `hasToken`,
   * and then one e-mail `em` if and only if `hasKey`, and nothing else.
   */
  predicate Notified(sent: seq<Notification>, hasToken: bool, hasKey: bool, ln: Notification, em: Notification) {
    |sent| == (if hasToken then 1 else 0) + (if hasKey then 1 else 0) &&
    (hasToken <==> |sent| >= 1 && sent[0].LineNotify?) && (hasToken ==> sent[0] == ln) &&
    (hasKey <==> |sent| >= 1 && sent[|sent| - 1].Email?) && (hasKey ==> sent[|sent| - 1] == em)
  }

  /**
   * An accepted submission answers 200 with the success message and sends
   * the LINE text and the e-mail composed from it (what they are: below).
   */
  lemma AcceptedAnswer(s: Submission, c: Config, t: string, et: string)
    requires Complete(s)
    ensures Post(Some(s), c, t, et).response == Response(200, Success(SuccessMessage))
    ensures Post(Some(s), c, t, et).sent == Sent(c, s.name.value, s.service.value, LineMessage(s, t), EmailHtml(s, et))
  {
  }

  /**
   * The notifiers send one LINE text if and only if a token is set, then one
   * e-mail if and only if a key is set, to the configured or default address,
   * under the subject of the name and service.
   */
  lemma AcceptedNotifications(c: Config, name: string, service: string, text: string, html: string)
    ensures Notified(Sent(c, name, service, text, html), Truthy(c.lineToken), Truthy(c.resendKey),
      LineNotify(text), Email(Sender, Recipient(c), Subject(name, service), html))
  {
  }

  /** A missing or empty LINE id or message is shown as "-", in the LINE text and in the e-mail alike. */
  lemma AbsentShownAsDash(s: Submission, t: string)
    requires Complete(s)
    ensures !Truthy(s.lineId) ==>
      LineMessage(s, t) == LineMessage(s.(lineId := Some("-")), t) &&
      EmailHtml(s, t) == EmailHtml(s.(lineId := Some("-")), t)
    ensures !Truthy(s.message) ==>
      LineMessage(s, t) == LineMessage(s.(message := Some("-")), t) &&
      EmailHtml(s, t) == EmailHtml(s.(message := Some("-")), t)
  {
    if !Truthy(s.lineId) {
      var s' := s.(lineId := Some("-"));
      assert OrDash(s.lineId) == OrDash(s'.lineId);
      LineMessageCongruence(s, s', t);
      EmailHtmlCongruence(s, s', t);
    }
    if !Truthy(s.message) {
      var s' := s.(message := Some("-"));
      assert OrDash(s.message) == OrDash(s'.message);
      LineMessageCongruence(s, s', t);
      EmailHtmlCongruence(s, s', t);
    }
  }

  /** Both texts depend on the submission only through what they show of it. */
  lemma LineMessageCongruence(s: Submission, s': Submission, t: string)
    requires Complete(s) && Complete(s')
    requires s.name == s'.name && s.phone == s'.phone && s.service == s'.service
    requires OrDash(s.lineId) == OrDash(s'.lineId) && OrDash(s.message) == OrDash(s'.message)
    ensures LineMessage(s, t) == LineMessage(s', t)
  {
  }

  lemma EmailHtmlCongruence(s: Submission, s': Submission, t: string)
    requires Complete(s) && Complete(s')
    requires s.name == s'.name && s.phone == s'.phone && s.service == s'.service
    requires OrDash(s.lineId) == OrDash(s'.lineId) && OrDash(s.message) == OrDash(s'.message)
    ensures EmailHtml(s, t) == EmailHtml(s', t)
  {
  }

  /** The subject starts with "[Lead] ", carries the name right after it and ends with the service. */
  lemma SubjectSpec(name: string, service: string)
    ensures var r := Subject(name, service);
      |r| == |name| + |service| + 10 && StartsWith(r, "[Lead] ") &&
      r[7..7 + |name|] == name && EndsWith(r, service) && r[7 + |name|..|r| - |service|] == " – "
  {
  }
}
