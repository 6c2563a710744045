/** The email service object: the template registry, the relay configuration,
    and the bounded dispatch queue (a buffer of 100 messages) with its closed
    and cancelled flags. Producers queue without ever blocking; workers take
    messages in FIFO order and try each one once. The worker goroutines are
    not modelled: a worker's loop runs as a method on the same object. */
module Service {
  import opened Mail
  import opened Templates
  import opened Placeholders
  import opened Envelope
  import opened Handlers

  const QueueCapacity: nat := 100
  const QueueFullError: string := "email queue is full"

  datatype StopReason = QueueClosed | ContextCancelled

  /** What one turn of a worker's loop does. */
  datatype WorkerStep =
    | Stopped(reason: StopReason)
    | Waiting   // nothing to receive and no cancellation: the worker blocks
    | Sent(email: EmailData, request: SendRequest, delivered: bool)

  /** How a handler answers decision `d`, given the queue before and after:
      a refusal answers its status and queues nothing; an accepted message is
      queued and answered 202, unless the queue is full, which answers 500. */
  ghost predicate Responded(d: Decision, before: seq<EmailData>, after: seq<EmailData>, status: nat)
  {
    match d
    case Reject(why) => status == RejectionStatus(why) && after == before
    case Enqueue(email) =>
      if |before| < QueueCapacity then status == StatusAccepted && after == before + [email]
      else status == StatusInternalServerError && after == before
  }

  /** Moving the front of `rest` to the back of `done` keeps their
      concatenation, and extends any log that ends with `done`. */
  lemma MoveFront<T>(done: seq<T>, rest: seq<T>, log: seq<T>)
    requires rest != []
    ensures (done + [rest[0]]) + rest[1..] == done + rest
    ensures (log + done) + [rest[0]] == log + (done + [rest[0]])
  {
  }

  /** The buffer index of the `k`-th waiting message when the oldest one is
      at index `head`: the buffer is used as a ring. */
  function Slot(head: nat, k: nat): (i: nat)
    requires head < QueueCapacity && k < QueueCapacity
    ensures i < QueueCapacity
  {
    if head + k < QueueCapacity then head + k else head + k - QueueCapacity
  }

  class EmailService {
    const config: Config
    const buffer: array<EmailData>
    var templates: map<string, Template>
    var head: nat
    var count: nat
    var closed: bool
    var cancelled: bool

    // The messages waiting in the queue, oldest first.
    ghost var Contents: seq<EmailData>
    // Every message the queue ever accepted, and those taken out by a worker.
    ghost var Accepted: seq<EmailData>
    ghost var Dequeued: seq<EmailData>

    ghost predicate Valid()
      reads this, buffer
    {
      && buffer.Length == QueueCapacity
      && head < QueueCapacity && count <= QueueCapacity
      && |Contents| == count
      && (forall k | 0 <= k < count :: Contents[k] == buffer[Slot(head, k)])
      && Accepted == Dequeued + Contents
    }

    /** A service with an empty registry and an empty, open queue. */
    constructor (cfg: Config)
      ensures Valid() && fresh(buffer)
      ensures config == cfg && templates == map[] && !closed && !cancelled
      ensures Contents == [] && Accepted == [] && Dequeued == []
    {
      config := cfg;
      buffer := new EmailData[QueueCapacity](_ => NoEmail);
      templates := map[];
      head, count := 0, 0;
      closed, cancelled := false, false;
      Contents, Accepted, Dequeued := [], [], [];
    }

    /** Registers every entry that is not a directory, has extension ".html"
        and compiles, under its slug; other entries are skipped. */
    method LoadTemplates(entries: seq<DirEntry>)
      requires Valid()
      modifies this`templates
      ensures Valid() && templates == RegistryFrom(old(templates), entries)
    {
      for i := 0 to |entries|
        invariant templates == RegistryFrom(old(templates), entries[..i])
      {
        var file := entries[i];
        assert entries[..i + 1][..i] == entries[..i];
        if !file.isDir && Ext(file.name) == TemplateExt {
          ExtIsHtml(file.name);
          var slug := file.name[..|file.name| - 5];
          if !file.parsesOk {
            continue;
          }
          templates := templates[slug := FileTemplate(file.name)];
        }
      }
      assert entries[..|entries|] == entries;
    }

    /** Adds `data` at the back of the queue without blocking, or fails at once
        with "email queue is full" and leaves the queue as it was. */
    method QueueEmail(data: EmailData) returns (err: Option<string>)
      requires Valid() && !closed
      modifies buffer, this`count, this`Contents, this`Accepted
      ensures Valid() && |Contents| <= QueueCapacity
      ensures |old(Contents)| < QueueCapacity ==>
        err == None && Contents == old(Contents) + [data] && Accepted == old(Accepted) + [data]
      ensures |old(Contents)| == QueueCapacity ==>
        err == Some(QueueFullError) && Contents == old(Contents) && Accepted == old(Accepted)
    {
      if count == QueueCapacity {
        return Some(QueueFullError);
      }
      buffer[Slot(head, count)] := data;
      count := count + 1;
      Contents := Contents + [data];
      Accepted := Accepted + [data];
      err := None;
    }

    /** A receive from the queue that does not block: the oldest message, or
        None when the queue is closed and empty. */
    method Receive() returns (r: Option<EmailData>)
      requires Valid() && (Contents != [] || closed)
      modifies this`head, this`count, this`Contents, this`Dequeued
      ensures Valid()
      ensures old(Contents) == [] ==> r == None && Contents == [] && Dequeued == old(Dequeued)
      ensures old(Contents) != [] ==>
        && r == Some(old(Contents)[0])
        && Contents == old(Contents)[1..]
        && Dequeued == old(Dequeued) + [old(Contents)[0]]
    {
      if count == 0 {
        return None;
      }
      r := Some(buffer[head]);
      head, count := Slot(head, 1), count - 1;
      Dequeued := Dequeued + [Contents[0]];
      Contents := Contents[1..];
    }

    /** Builds the relay request for `data`, writing the header lines in the
        order `order` (the iteration order of the header map) and then the
        blank line and the body. Credentials and address always come from the
        service configuration. */
    method SendEmail(data: EmailData, order: seq<Header>) returns (req: SendRequest)
      requires IsHeaderOrder(order)
      ensures req == RelayRequest(config, order, data)
    {
      var addr := config.smtpHost + ":" + config.smtpPort;
      var auth := PlainAuth("", config.smtpUser, config.smtpPass, config.smtpHost);
      var message := "";
      for i := 0 to |order|
        invariant message == Concat(Lines(order[..i], config.senderEmail, data))
      {
        assert order[..i + 1][..i] == order[..i];
        message := message + HeaderLine(order[i], config.senderEmail, data);
      }
      assert order[..|order|] == order;
      message := message + CRLF;
      message := message + data.Body;
      req := SendRequest(addr, auth, config.senderEmail, [data.To], message);
    }

    /** One turn of a worker's loop. Receiving is possible when a message is
        waiting or the queue is closed; cancellation is seen when the context
        was cancelled. When both are possible `cancelFirst` says which one the
        runtime picks. A received message is passed to the sender once;
        `delivered` is the relay's answer, and a failure only drops it. */
    method Step(cancelFirst: bool, order: seq<Header>, delivered: bool) returns (step: WorkerStep)
      requires Valid() && IsHeaderOrder(order)
      modifies this`head, this`count, this`Contents, this`Dequeued
      ensures Valid()
      ensures cancelled && (cancelFirst || (old(Contents) == [] && !closed)) ==> step == Stopped(ContextCancelled)
      ensures !cancelled && old(Contents) == [] && !closed ==> step == Waiting
      ensures !(cancelled && cancelFirst) && old(Contents) == [] && closed ==> step == Stopped(QueueClosed)
      ensures !(cancelled && cancelFirst) && old(Contents) != [] ==>
        step == Sent(old(Contents)[0], RelayRequest(config, order, old(Contents)[0]), delivered)
      ensures step.Sent? ==> Contents == old(Contents)[1..] && Dequeued == old(Dequeued) + [step.email]
      ensures !step.Sent? ==> Contents == old(Contents) && Dequeued == old(Dequeued)
    {
      var ready := count > 0 || closed;
      if cancelled && (cancelFirst || !ready) {
        return Stopped(ContextCancelled);
      }
      if !ready {
        return Waiting;
      }
      var received := Receive();
      match received
      case None =>
        step := Stopped(QueueClosed);
      case Some(email) =>
        var req := SendEmail(email, order);
        step := Sent(email, req, delivered);
    }

    /** A worker's loop: turns until it stops or would block. `cancelFirst(i)`
        and `delivered(i)` are the runtime's choice and the relay's answer at
        turn `i`. The worker takes a prefix of the queue in order and hands
        each message it takes to the sender once (`requests[i]` is the relay
        request built for `sent[i]`); it has taken all of the queue unless it
        was cancelled; an uncancelled worker on a closed queue drains it and
        then stops. */
    method Worker(cancelFirst: nat -> bool, order: seq<Header>, delivered: nat -> bool)
      returns (reason: Option<StopReason>, sent: seq<EmailData>, requests: seq<SendRequest>)
      requires Valid() && IsHeaderOrder(order)
      modifies this`head, this`count, this`Contents, this`Dequeued
      ensures Valid()
      ensures old(Contents) == sent + Contents && Dequeued == old(Dequeued) + sent
      ensures |requests| == |sent|
      ensures forall i | 0 <= i < |sent| :: requests[i] == RelayRequest(config, order, sent[i])
      ensures reason != Some(ContextCancelled) ==> Contents == []
      ensures reason == Some(ContextCancelled) ==> cancelled
      ensures reason == Some(QueueClosed) ==> closed
      ensures reason == None ==> !closed && !cancelled
      ensures closed && (!cancelled || forall t :: !cancelFirst(t)) ==>
        reason == Some(QueueClosed) && sent == old(Contents)
    {
      sent, requests := [], [];
      var turn := 0;
      while true
        invariant Valid()
        invariant old(Contents) == sent + Contents && Dequeued == old(Dequeued) + sent
        invariant |requests| == |sent|
        invariant forall i | 0 <= i < |sent| :: requests[i] == RelayRequest(config, order, sent[i])
        decreases |Contents|
      {
        ghost var before := Contents;
        var step := Step(cancelFirst(turn), order, delivered(turn));
        match step
        case Stopped(why) =>
          return Some(why), sent, requests;
        case Waiting =>
          return None, sent, requests;
        case Sent(email, request, _) =>
          MoveFront(sent, before, old(Dequeued));
          sent := sent + [email];
          requests := requests + [request];
        turn := turn + 1;
      }
    }

    /** Shutdown: cancel the workers' context, then close the queue. Buffered
        messages stay where they are; whether a worker still takes them is up
        to the runtime's choice in `Step`. */
    method Stop()
      requires Valid() && !closed
      modifies this`cancelled, this`closed
      ensures Valid() && cancelled && closed && Contents == old(Contents)
    {
      cancelled := true;
      closed := true;
    }

    /** GET /send: decides with the registry as it is and, when a message
        results, queues it. */
    method HandleSendEmail(req: GetRequest, parseJson: string -> Option<map<string, Value>>, execute: Executor)
      returns (status: nat)
      requires Valid() && !closed
      modifies buffer, this`count, this`Contents, this`Accepted
      ensures Valid()
      ensures Responded(GetDecision(req, templates, parseJson, execute), old(Contents), Contents, status)
    {
      var d := GetDecision(req, templates, parseJson, execute);
      match d
      case Reject(why) =>
        status := RejectionStatus(why);
      case Enqueue(email) =>
        var err := QueueEmail(email);
        status := if err.Some? then StatusInternalServerError else StatusAccepted;
    }

    /** POST /send: decides from the decoded body and, when a message results,
        queues it. */
    method HandlePostSendEmail(body: Option<SendEmailRequest>, compiles: string -> bool, execute: Executor)
      returns (status: nat)
      requires Valid() && !closed
      modifies buffer, this`count, this`Contents, this`Accepted
      ensures Valid()
      ensures Responded(PostDecision(body, compiles, execute), old(Contents), Contents, status)
    {
      var d := PostDecision(body, compiles, execute);
      match d
      case Reject(why) =>
        status := RejectionStatus(why);
      case Enqueue(email) =>
        var err := QueueEmail(email);
        status := if err.Some? then StatusInternalServerError else StatusAccepted;
    }
  }

  /** Start-up: a fresh service whose registry is loaded from `entries`. */
  method NewEmailService(cfg: Config, entries: seq<DirEntry>) returns (s: EmailService)
    ensures fresh(s) && fresh(s.buffer) && s.Valid()
    ensures s.config == cfg && s.templates == Registry(entries)
    ensures s.Contents == [] && s.Accepted == [] && !s.closed && !s.cancelled
  {
    s := new EmailService(cfg);
    s.LoadTemplates(entries);
  }
}
