/** Values shared by every part of the email dispatcher: the message that travels
    through the queue, the placeholder values handed to templates, the relay
    configuration read at start-up, and the abstract compiled template. */
module Mail {

  datatype Option<+T> = None | Some(value: T)

  /** A placeholder value. The service accepts any JSON value here; it is
      carried through to template execution without conversion. */
  datatype Value =
    | Null
    | Bool(b: bool)
    | Number(n: real)
    | Str(s: string)
    | Array(items: seq<Value>)
    | Object(fields: map<string, Value>)

  /** One outbound message, as built by a request handler and consumed by a
      worker. The four relay fields are the per-message override; they are
      stored but never read by the sender. */
  datatype EmailData = EmailData(
    To: string,
    Subject: string,
    Body: string,
    Data: map<string, Value>,
    SMTPServer: string,
    SMTPPort: int,
    SMTPUsername: string,
    SMTPPassword: string)

  /** A message with empty fields: what an unused queue slot holds. */
  const NoEmail := EmailData("", "", "", map[], "", 0, "", "")

  /** The process-wide relay settings and sender address, taken from the
      environment when the service is created. */
  datatype Config = Config(
    smtpHost: string,
    smtpPort: string,
    smtpUser: string,
    smtpPass: string,
    senderEmail: string)

  /** A compiled template. Its text is never interpreted here: compiling and
      executing templates are inputs to the model. A registry template is
      identified by the file it was read from; an inline one by its text. */
  datatype Template =
    | FileTemplate(fileName: string)
    | InlineTemplate(text: string)

  /** Template execution: the rendered body, or None when execution fails. */
  type Executor = (Template, map<string, Value>) -> Option<string>
}
