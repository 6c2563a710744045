/** The decision logic of the two request handlers. Each runs a fixed chain of
    checks and ends in exactly one outcome: a refusal with its status code, or
    one message to queue (which answers 202 unless the queue is full, 500).
    Query and body decoding, template compilation and execution are inputs. */
module Handlers {
  import opened Mail
  import opened Placeholders

  const StatusAccepted: nat := 202
  const StatusBadRequest: nat := 400
  const StatusNotFound: nat := 404
  const StatusInternalServerError: nat := 500

  const DefaultPostSubject: string := "Email Notification"

  /** The query parameters of GET /send; a missing parameter reads as "". */
  datatype GetRequest = GetRequest(to: string, slug: string, subject: string, data: string)

  /** The decoded body of POST /send; a missing field decodes to its zero value. */
  datatype SendEmailRequest = SendEmailRequest(
    to: string,
    subject: string,
    template: string,
    placeholders: seq<Placeholder>,
    smtpServer: string,
    smtpPort: int,
    smtpUsername: string,
    smtpPassword: string)

  /** Why a request is refused before anything reaches the queue. */
  datatype Rejection =
    | InvalidBody       // POST body is not valid JSON
    | MissingTo
    | MissingSlug
    | MissingTemplate
    | TemplateNotFound  // slug not in the registry
    | InvalidJson       // GET `data` parameter is not valid JSON
    | InvalidTemplate   // inline template does not compile
    | RenderFailed      // template execution failed

  datatype Decision = Reject(why: Rejection) | Enqueue(email: EmailData)

  /** The status code answered for each refusal: client errors are 400 (404
      for an unknown slug); only a failed render is a server error. */
  function RejectionStatus(why: Rejection): (code: nat)
    ensures code == StatusNotFound <==> why == TemplateNotFound
    ensures code == StatusInternalServerError <==> why == RenderFailed
    ensures code in {StatusBadRequest, StatusNotFound, StatusInternalServerError}
  {
    match why
    case TemplateNotFound => StatusNotFound
    case RenderFailed => StatusInternalServerError
    case _ => StatusBadRequest
  }

  function DefaultGetSubject(slug: string): string
  {
    "Email for " + slug
  }

  /** The placeholder data of a GET request: empty when no `data` parameter is
      given, otherwise the decoded JSON object, or None when it does not decode. */
  function GetData(req: GetRequest, parseJson: string -> Option<map<string, Value>>): Option<map<string, Value>>
  {
    if req.data == "" then Some(map[]) else parseJson(req.data)
  }

  /** GET /send: `to`, then `slug`, then the registry lookup (before the JSON
      data is looked at), then the JSON data, then rendering. */
  function GetDecision(req: GetRequest, templates: map<string, Template>,
                       parseJson: string -> Option<map<string, Value>>, execute: Executor): (d: Decision)
    ensures d == Reject(MissingTo) <==> req.to == ""
    ensures d == Reject(MissingSlug) <==> req.to != "" && req.slug == ""
    ensures d == Reject(TemplateNotFound) <==> req.to != "" && req.slug != "" && req.slug !in templates
    ensures d == Reject(InvalidJson) <==>
      req.to != "" && req.slug != "" && req.slug in templates && GetData(req, parseJson).None?
    ensures d == Reject(RenderFailed) <==>
      req.to != "" && req.slug != "" && req.slug in templates && GetData(req, parseJson).Some?
      && execute(templates[req.slug], GetData(req, parseJson).value).None?
    ensures d.Reject? ==> d.why in {MissingTo, MissingSlug, TemplateNotFound, InvalidJson, RenderFailed}
    ensures d.Enqueue? ==>
      && req.slug in templates
      && GetData(req, parseJson) == Some(d.email.Data)
      && execute(templates[req.slug], d.email.Data) == Some(d.email.Body)
      && d.email.To == req.to != ""
      && d.email.Subject == (if req.subject == "" then DefaultGetSubject(req.slug) else req.subject) != ""
      && d.email.SMTPServer == d.email.SMTPUsername == d.email.SMTPPassword == "" && d.email.SMTPPort == 0
  {
    if req.to == "" then Reject(MissingTo)
    else if req.slug == "" then Reject(MissingSlug)
    else
      var subject := if req.subject == "" then DefaultGetSubject(req.slug) else req.subject;
      if req.slug !in templates then Reject(TemplateNotFound)
      else match GetData(req, parseJson)
        case None => Reject(InvalidJson)
        case Some(data) =>
          match execute(templates[req.slug], data)
          case None => Reject(RenderFailed)
          case Some(body) => Enqueue(EmailData(req.to, subject, body, data, "", 0, "", ""))
  }

  /** POST /send: body decoding, then `to`, then `template`, then compiling the
      inline template, then rendering it with the folded placeholders. */
  function PostDecision(body: Option<SendEmailRequest>, compiles: string -> bool, execute: Executor): (d: Decision)
    ensures d == Reject(InvalidBody) <==> body.None?
    ensures d == Reject(MissingTo) <==> body.Some? && body.value.to == ""
    ensures d == Reject(MissingTemplate) <==> body.Some? && body.value.to != "" && body.value.template == ""
    ensures d == Reject(InvalidTemplate) <==>
      body.Some? && body.value.to != "" && body.value.template != "" && !compiles(body.value.template)
    ensures d == Reject(RenderFailed) <==>
      body.Some? && body.value.to != "" && body.value.template != "" && compiles(body.value.template)
      && execute(InlineTemplate(body.value.template), PlaceholderMap(body.value.placeholders)).None?
    ensures d.Reject? ==> d.why in {InvalidBody, MissingTo, MissingTemplate, InvalidTemplate, RenderFailed}
    ensures d.Enqueue? ==>
      var req := body.value;
      && body.Some? && compiles(req.template)
      && d.email.Data == PlaceholderMap(req.placeholders)
      && d.email.Data.Keys == KeysOf(req.placeholders)
      && execute(InlineTemplate(req.template), d.email.Data) == Some(d.email.Body)
      && d.email.To == req.to != ""
      && d.email.Subject == (if req.subject == "" then DefaultPostSubject else req.subject) != ""
      && d.email.SMTPServer == req.smtpServer && d.email.SMTPPort == req.smtpPort
      && d.email.SMTPUsername == req.smtpUsername && d.email.SMTPPassword == req.smtpPassword
  {
    match body
    case None => Reject(InvalidBody)
    case Some(req) =>
      if req.to == "" then Reject(MissingTo)
      else if req.template == "" then Reject(MissingTemplate)
      else
        var subject := if req.subject == "" then DefaultPostSubject else req.subject;
        if !compiles(req.template) then Reject(InvalidTemplate)
        else
          var data := PlaceholderMap(req.placeholders);
          match execute(InlineTemplate(req.template), data)
          case None => Reject(RenderFailed)
          case Some(text) =>
            Enqueue(EmailData(req.to, subject, text, data,
                              req.smtpServer, req.smtpPort, req.smtpUsername, req.smtpPassword))
  }
}
