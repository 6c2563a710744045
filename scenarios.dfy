/** Runs of the service from a fresh start, each built only from the
    operations' contracts: the queue's order and bound, and what shutdown does
    and does not guarantee. */
module Scenarios {
  import opened Mail
  import opened Envelope
  import opened Service

  /** Up to the capacity every message is accepted, and a worker hands them to
      the sender in the order they were queued, each exactly once, even when
      every delivery fails. */
  method DeliveredInQueueOrder(cfg: Config, emails: seq<EmailData>, order: seq<Header>)
    returns (sent: seq<EmailData>, requests: seq<SendRequest>)
    requires |emails| <= QueueCapacity && IsHeaderOrder(order)
    ensures sent == emails
    ensures |requests| == |emails|
    ensures forall i | 0 <= i < |emails| :: requests[i] == RelayRequest(cfg, order, emails[i])
  {
    var s := new EmailService(cfg);
    for i := 0 to |emails|
      invariant s.Valid() && fresh(s.buffer) && !s.closed && !s.cancelled
      invariant s.Contents == emails[..i]
    {
      var err := s.QueueEmail(emails[i]);
      assert emails[..i + 1] == emails[..i] + [emails[i]];
    }
    assert emails[..|emails|] == emails;
    var reason;
    reason, sent, requests := s.Worker(_ => false, order, _ => false);
  }

  /** With 100 messages waiting, one more is refused at once with the
      queue-full error, and the 100 stay. */
  method RefusedWhenFull(cfg: Config, email: EmailData) returns (err: Option<string>, waiting: nat)
    ensures err == Some(QueueFullError) && waiting == QueueCapacity
  {
    var s := new EmailService(cfg);
    for i := 0 to QueueCapacity
      invariant s.Valid() && fresh(s.buffer) && !s.closed && |s.Contents| == i
    {
      var _ := s.QueueEmail(email);
    }
    err := s.QueueEmail(email);
    waiting := s.count;
  }

  /** Shutdown does not drain: after Stop a worker may pick the cancellation
      and leave a waiting message unsent. */
  method StopMayAbandon(cfg: Config, email: EmailData, order: seq<Header>)
    returns (step: WorkerStep, waiting: nat)
    requires IsHeaderOrder(order)
    ensures step == Stopped(ContextCancelled) && waiting == 1
  {
    var s := new EmailService(cfg);
    var _ := s.QueueEmail(email);
    s.Stop();
    step := s.Step(true, order, true);
    waiting := s.count;
  }

  /** ... while a worker that keeps picking the closed queue sends what is
      waiting and then stops because the queue is closed. */
  method StopMayDrain(cfg: Config, email: EmailData, order: seq<Header>)
    returns (reason: Option<StopReason>, sent: seq<EmailData>, requests: seq<SendRequest>)
    requires IsHeaderOrder(order)
    ensures reason == Some(QueueClosed) && sent == [email]
    ensures requests == [RelayRequest(cfg, order, email)]
  {
    var s := new EmailService(cfg);
    var _ := s.QueueEmail(email);
    s.Stop();
    reason, sent, requests := s.Worker(_ => false, order, _ => true);
  }
}
