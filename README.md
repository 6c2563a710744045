# Email dispatcher: a verified model

This project models the sequential core of a small outbound-email service
written in Go (`main.go`). The service answers two HTTP endpoints, `GET /send`
(render a template from its registry, chosen by slug) and `POST /send` (render
an inline template sent in the request). It puts the rendered message on a
bounded queue of 100 messages and answers at once. Worker goroutines take
messages off the queue and hand each one to an SMTP relay, once.

The model has one module per part of that core:

- `Mail` (`mail.dfy`): the message (`EmailData`), placeholder values, the
  relay configuration and the abstract compiled `Template`.
- `Templates` (`templates.dfy`): the start-up registry. It covers the
  extension test, the slug derivation and the fold of a directory listing into
  a map.
- `Placeholders` (`placeholders.dfy`): the POST handler's fold of its
  (key, value) list into a map, where the last write wins.
- `Envelope` (`envelope.dfy`): what the sender hands to the relay. That is the
  address `host:port`, the credentials, the recipient list and the message text
  (header lines, a blank line, the body).
- `Handlers` (`handlers.dfy`): the check chains of the two handlers, as
  functions from their inputs to exactly one decision.
- `Service` (`service.dfy`): the `EmailService` class. It holds the registry,
  a 100-slot ring buffer with its `closed` and `cancelled` flags, and the
  methods that change them: `LoadTemplates`, `QueueEmail`, `Receive`, one
  worker turn (`Step`), a worker's loop (`Worker`), `Stop`, `SendEmail` and the
  two handlers. Ghost fields record the queue's contents, every message ever
  accepted and every message ever taken out. The object invariant ties these
  to the buffer and proves that accepted = taken out + waiting.
- `Scenarios` (`scenarios.dfy`): runs on a fresh service. They show FIFO
  delivery, refusal at 100 messages, and the two possible outcomes of a
  worker after `Stop`.

Foreign calls are inputs to the model:

- JSON decoding of the query `data` parameter and of the POST body.
- Template compilation and execution.
- The relay's answer.
- The runtime's choice between two ready `select` cases.
- The iteration order of the header map.

## Model

| member | source | states |
|---|---|---|
| `Templates.Ext` | main.go:99 | the extension is the suffix of the name from the last '.' of its final path element (no further '.' and no '/' in it), and is empty exactly when that element has no '.' |
| `Templates.ExtIsHtml` | main.go:99 | the extension test `Ext(name) == ".html"` holds exactly when the name ends in ".html" |
| `Templates.Slug` | main.go:100 | the slug is the name with its last five characters (".html") removed: slug + ".html" == name |
| `Templates.RegistryKeys` | main.go:98-107 | a slug is registered exactly when some entry is not a directory, has extension ".html", compiles, and has that slug |
| `Templates.RegisteredHasEntry` | main.go:98-107 | every registered slug comes from an entry that passes all three tests |
| `Templates.EntryIsRegistered` | main.go:98-107 | every entry that passes all three tests has its slug registered |
| `Templates.RegistryValue` | main.go:98-107 | a registering entry's slug maps to that entry's template when no later entry registers the same slug; skipped entries contribute nothing |
| `Service.EmailService.LoadTemplates` | main.go:92-111 | the loop leaves the registry equal to the fold of the listing into the old registry, and changes nothing else |
| `Placeholders.PlaceholderMap` | main.go:287-290 | the folded map's keys are exactly the keys that occur in the list |
| `Placeholders.LastOccurrenceWins` | main.go:287-290 | each key maps to the value of its last occurrence in the list |
| `Placeholders.PlaceholderMapAppend` | main.go:287-290 | folding two lists one after the other is the first map overwritten by the second |
| `Placeholders.CollectPlaceholders` | main.go:287-290 | the handler's loop over the list produces exactly the folded map |
| `Envelope.MessageText` | main.go:154-159 | the message is the header block, then "\r\n", then the body unchanged, as an exact suffix |
| `Envelope.LinesPermutation` | main.go:155-157 | writing the headers in a rearranged order rearranges the header lines in the same way |
| `Envelope.HeaderLinesOnce` | main.go:146-157 | for any iteration order, the strings written into the header block are exactly one "K: V\r\n" string for each of From, To, Subject, MIME-version and Content-Type |
| `Envelope.HeaderLineIsOneLine` | main.go:146-157 | a written header string is a single text line exactly when its value holds no '\r' and no '\n'; the values are written unchecked |
| `Envelope.RelayIgnoresOverride` | main.go:142-163 | the relay request depends only on To, Subject and Body, so the per-message relay fields are never used |
| `Service.EmailService.SendEmail` | main.go:142-163 | the relay request has address host + ":" + port, plain auth with the service credentials, the service sender, recipients [To], and the message text above |
| `Handlers.RejectionStatus` | main.go:181-319 | an unknown slug answers 404, a render failure 500, every other refusal 400 |
| `Handlers.GetDecision` | main.go:181-252 | first failing check in order: missing to, missing slug, unknown slug (before the JSON is read), bad JSON, render failure; otherwise one message with To, default subject "Email for " + slug, rendered body, Data = the decoded JSON map, no relay override |
| `Handlers.PostDecision` | main.go:254-319 | first failing check in order: undecodable body, missing to, missing template, template does not compile, render failure; otherwise one message with default subject "Email Notification", Data = the folded placeholders, relay fields copied from the request |
| `Service.EmailService.constructor` | main.go:72-84 | a new service has an empty registry and an empty, open, uncancelled queue of capacity 100 |
| `Service.NewEmailService` | main.go:69-90 | a started service has the registry loaded from the listing and an empty queue |
| `Service.EmailService.QueueEmail` | main.go:172-179 | below 100 waiting messages, the message is appended at the back and nil is returned; at 100 the error "email queue is full" is returned and the queue is unchanged; the queue never exceeds 100 |
| `Service.EmailService.Receive` | main.go:127-131 | a receive yields the oldest waiting message and removes it, or reports the closed, empty queue |
| `Service.EmailService.Step` | main.go:125-139 | one turn stops on cancellation or on the closed, empty queue; otherwise it takes the front message and passes it once to the sender; a failed send only drops the message |
| `Service.EmailService.Worker` | main.go:120-140 | a worker takes a prefix of the queue in FIFO order, each message once, and hands each one it takes to the sender: the i-th relay request is the one built for the i-th message taken; it empties the queue unless it stopped on cancellation; on a closed queue that it never leaves for cancellation it sends everything and stops with "queue closed" |
| `Service.EmailService.Stop` | main.go:166-170 | Stop sets the cancelled flag and closes the queue, and leaves the waiting messages in place |
| `Service.EmailService.HandleSendEmail` | main.go:181-252 | a refusal answers its status and queues nothing; an accepted message is queued and answers 202, or 500 with nothing queued when the queue is full |
| `Service.EmailService.HandlePostSendEmail` | main.go:254-319 | the same answer rule for the POST decision |
| `Scenarios.DeliveredInQueueOrder` | main.go:120-179 | up to 100 queued messages are all accepted and taken in queue order, each exactly once, and the i-th relay request is the one built for the i-th queued message, even when every send fails |
| `Scenarios.RefusedWhenFull` | main.go:172-179 | with 100 messages waiting, one more is refused with "email queue is full" and the 100 remain |
| `Scenarios.StopMayAbandon` | main.go:166-170 | after Stop, a worker may stop on cancellation while a message is still waiting |
| `Scenarios.StopMayDrain` | main.go:166-170 | after Stop, a worker that keeps taking the closed queue hands the waiting message to the sender (one relay request, for it) and stops with "queue closed" |

## Left out

- HTTP plumbing is not modelled: query and body decoding, response bodies
  and headers, routing, and the server start in `main`. The decoded request
  and the JSON parse result are inputs.
- Template compilation and execution (`html/template`) are calls into a
  library. Compiling is an input (a flag per directory entry, or a predicate
  on the inline text). Executing is an input function that returns a body or
  fails. Substitution itself is not specified.
- SMTP delivery (`smtp.PlainAuth`, `smtp.SendMail`) is network I/O. The model
  builds the request handed to the relay, and the relay's answer is an input.
- Concurrency is not modelled: the five goroutines started by
  `startWorkers`, the `WaitGroup` and `wg.Wait` in `Stop`, and interleavings.
  A worker's loop runs as a method on the shared object. The random choice of
  `select` between two ready cases is an input.
- A receive that would block is not modelled. `Receive` needs a waiting
  message or a closed queue, and `Step` reports `Waiting` instead of blocking.
- Sending on a closed queue or closing it twice panics in Go.
  `QueueEmail`, `Stop` and the handlers therefore require an open queue.
- Environment variables, `envcheck.Init`, `os.ReadDir` and its fatal error
  are not modelled. The directory becomes an input listing and the
  configuration becomes a constructor argument.
- Logging and printing are not modelled (`log.Printf`, and `fmt.Println` in
  `sendEmail`).
- The GET handler's loop that copies the decoded JSON into a fresh map
  (main.go:224-226) is modelled by its result, the decoded map itself.
- Placeholder values keep the decoded JSON value. JSON numbers are `real`, and
  floating point is not modelled.
- Service.EmailService.Worker: one header order is used for every message of
  a run, whereas Go's map iteration may pick a different order per message;
  `Step` and `SendEmail` take the order per call.
- Header values are not checked for line breaks (main.go:146-157): a To or
  Subject holding "\r\n" adds lines to the header block, and the GET
  `subject` parameter comes from the caller. `HeaderLinesOnce` speaks of the
  five strings written, and `HeaderLineIsOneLine` says when each is one line.
- Shutdown does not guarantee a drain. `Stop` cancels before it closes
  (main.go:167-168), so a worker may stop on cancellation with messages still
  waiting. `StopMayAbandon` and `StopMayDrain` show both outcomes.
- `sendEmail` never reads the per-message relay fields that the POST handler
  copies into the message (main.go:143-144, 305-308); `RelayIgnoresOverride`
  states this.
- The registry accepts only the ".html" extension (main.go:99).
