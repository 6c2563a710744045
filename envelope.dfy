/** The message a worker hands to the mail relay: five header lines of the form
    "Key: Value\r\n" in an order the model does not fix, a blank line, then the
    rendered body unchanged; the relay address "host:port"; and a recipient
    list holding the message's To address only. */
module Envelope {
  import opened Mail

  datatype Header = From | To | Subject | MimeVersion | ContentType

  /** The headers in the order the sender declares them. */
  const AllHeaders: seq<Header> := [From, To, Subject, MimeVersion, ContentType]

  const MimeVersionValue: string := "1.0"
  const ContentTypeValue: string := "text/html; charset=\"UTF-8\""
  const CRLF: string := "\r\n"

  function HeaderKey(h: Header): string
  {
    match h
    case From => "From"
    case To => "To"
    case Subject => "Subject"
    case MimeVersion => "MIME-version"
    case ContentType => "Content-Type"
  }

  /** The header values: the sender comes from the service configuration,
      To and Subject from the message, the other two are fixed. */
  function HeaderValue(h: Header, sender: string, data: EmailData): string
  {
    match h
    case From => sender
    case To => data.To
    case Subject => data.Subject
    case MimeVersion => MimeVersionValue
    case ContentType => ContentTypeValue
  }

  function HeaderLine(h: Header, sender: string, data: EmailData): string
  {
    HeaderKey(h) + ": " + HeaderValue(h, sender, data) + CRLF
  }

  /** The order in which the header lines are written: any arrangement of the
      five headers, each exactly once. */
  predicate IsHeaderOrder(order: seq<Header>)
  {
    multiset(order) == multiset(AllHeaders)
  }

  /** The header lines, in the given order. */
  function Lines(order: seq<Header>, sender: string, data: EmailData): (ls: seq<string>)
    ensures |ls| == |order|
  {
    if order == [] then []
    else Lines(order[..|order| - 1], sender, data) + [HeaderLine(order[|order| - 1], sender, data)]
  }

  function Concat(ls: seq<string>): string
  {
    if ls == [] then "" else Concat(ls[..|ls| - 1]) + ls[|ls| - 1]
  }

  /** The bytes handed to the relay. The body is its exact suffix, preceded by
      the header block and one blank line. */
  function MessageText(order: seq<Header>, sender: string, data: EmailData): (msg: string)
    ensures |msg| >= |data.Body| + |CRLF|
    ensures msg[|msg| - |data.Body|..] == data.Body
    ensures msg[..|msg| - |data.Body|] == Concat(Lines(order, sender, data)) + CRLF
  {
    var head := Concat(Lines(order, sender, data)) + CRLF;
    assert (head + data.Body)[..|head|] == head;
    head + data.Body
  }

  /** Plain authentication as the relay client is given it. */
  datatype PlainAuth = PlainAuth(identity: string, username: string, password: string, host: string)

  /** Everything passed to the relay for one message. */
  datatype SendRequest = SendRequest(addr: string, auth: PlainAuth, from: string, to: seq<string>, msg: seq<char>)

  function RelayAddress(cfg: Config): string
  {
    cfg.smtpHost + ":" + cfg.smtpPort
  }

  /** The request the sender builds for `data`: credentials, address and
      sender always come from the service configuration. */
  function RelayRequest(cfg: Config, order: seq<Header>, data: EmailData): SendRequest
  {
    SendRequest(
      RelayAddress(cfg),
      PlainAuth("", cfg.smtpUser, cfg.smtpPass, cfg.smtpHost),
      cfg.senderEmail,
      [data.To],
      MessageText(order, cfg.senderEmail, data))
  }

  lemma {:induction false} LinesAppend(a: seq<Header>, b: seq<Header>, sender: string, data: EmailData)
    ensures Lines(a + b, sender, data) == Lines(a, sender, data) + Lines(b, sender, data)
  {
    if b == [] {
      assert a + b == a;
    } else {
      var init := b[..|b| - 1];
      assert (a + b)[..|a + b| - 1] == a + init;
      LinesAppend(a, init, sender, data);
    }
  }

  /** Rearranging the headers rearranges the lines in the same way. */
  lemma {:induction false} LinesPermutation(s: seq<Header>, t: seq<Header>, sender: string, data: EmailData)
    requires multiset(s) == multiset(t)
    ensures multiset(Lines(s, sender, data)) == multiset(Lines(t, sender, data))
    decreases |s|
  {
    if s == [] {
      assert |t| == |multiset(t)| == 0;
    } else {
      var x := s[|s| - 1];
      var s' := s[..|s| - 1];
      assert s == s' + [x];
      assert x in multiset(t);
      var j :| 0 <= j < |t| && t[j] == x;
      var t' := t[..j] + t[j + 1..];
      assert t == t[..j] + [x] + t[j + 1..];
      assert multiset(s) == multiset(s') + multiset{x};
      assert multiset(t) == multiset(t[..j]) + multiset{x} + multiset(t[j + 1..]);
      assert multiset(t') == multiset(t[..j]) + multiset(t[j + 1..]);
      assert multiset(s') == multiset(s) - multiset{x};
      assert multiset(t') == multiset(t) - multiset{x};
      LinesPermutation(s', t', sender, data);
      LinesAppend(t[..j] + [x], t[j + 1..], sender, data);
      LinesAppend(t[..j], [x], sender, data);
      LinesAppend(t[..j], t[j + 1..], sender, data);
      assert Lines([x], sender, data) == [HeaderLine(x, sender, data)];
    }
  }

  /** Whatever order the headers are written in, the header block is the
      concatenation, in that order, of these five strings, each exactly once.
      Each is one text line only when its value holds no line break (see
      `HeaderLineIsOneLine`). */
  lemma HeaderLinesOnce(order: seq<Header>, sender: string, data: EmailData)
    requires IsHeaderOrder(order)
    ensures multiset(Lines(order, sender, data)) == multiset{
      HeaderLine(From, sender, data),
      HeaderLine(To, sender, data),
      HeaderLine(Subject, sender, data),
      HeaderLine(MimeVersion, sender, data),
      HeaderLine(ContentType, sender, data)}
  {
    LinesPermutation(order, AllHeaders, sender, data);
    LinesOfAllHeaders(sender, data);
  }

  lemma LinesOfAllHeaders(sender: string, data: EmailData)
    ensures Lines(AllHeaders, sender, data) == [
      HeaderLine(From, sender, data),
      HeaderLine(To, sender, data),
      HeaderLine(Subject, sender, data),
      HeaderLine(MimeVersion, sender, data),
      HeaderLine(ContentType, sender, data)]
  {
    var hs1: seq<Header> := [From];
    var hs2 := hs1 + [To];
    var hs3 := hs2 + [Subject];
    var hs4 := hs3 + [MimeVersion];
    var l := (h: Header) => HeaderLine(h, sender, data);
    assert hs1[..0] == [];
    assert Lines(hs1, sender, data) == [l(From)];
    assert hs2[..1] == hs1;
    assert Lines(hs2, sender, data) == [l(From), l(To)];
    assert hs3[..2] == hs2;
    assert Lines(hs3, sender, data) == [l(From), l(To), l(Subject)];
    assert hs4[..3] == hs3;
    assert Lines(hs4, sender, data) == [l(From), l(To), l(Subject), l(MimeVersion)];
    assert AllHeaders[..4] == hs4;
  }

  /** `line` is one text line: it ends in CRLF and has no '\r' or '\n' before. */
  predicate IsOneLine(line: string)
  {
    && |line| >= |CRLF| && line[|line| - |CRLF|..] == CRLF
    && forall j | 0 <= j < |line| - |CRLF| :: line[j] != '\r' && line[j] != '\n'
  }

  /** The sender writes header values as they are, without checking them for
      line breaks: a header line is one line exactly when its value holds no
      '\r' and no '\n'. A To or Subject holding "\r\n" adds lines to the
      header block. */
  lemma HeaderLineIsOneLine(h: Header, sender: string, data: EmailData)
    ensures IsOneLine(HeaderLine(h, sender, data)) <==>
      '\r' !in HeaderValue(h, sender, data) && '\n' !in HeaderValue(h, sender, data)
  {
    var prefix := HeaderKey(h) + ": ";
    var v := HeaderValue(h, sender, data);
    var line := HeaderLine(h, sender, data);
    assert line == prefix + v + CRLF;
    assert forall j | 0 <= j < |prefix| :: line[j] == prefix[j];
    assert forall i | 0 <= i < |v| :: line[|prefix| + i] == v[i];
    assert line[|line| - |CRLF|..] == CRLF;
    assert forall j | 0 <= j < |prefix| :: prefix[j] != '\r' && prefix[j] != '\n';
  }

  /** The relay request of a message depends only on its To, Subject and Body:
      the per-message relay fields are never read. */
  lemma RelayIgnoresOverride(cfg: Config, order: seq<Header>, d1: EmailData, d2: EmailData)
    requires d1.To == d2.To && d1.Subject == d2.Subject && d1.Body == d2.Body
    ensures RelayRequest(cfg, order, d1) == RelayRequest(cfg, order, d2)
  {
    assert Lines(order, cfg.senderEmail, d1) == Lines(order, cfg.senderEmail, d2) by {
      LinesAgree(order, cfg.senderEmail, d1, d2);
    }
  }

  lemma {:induction false} LinesAgree(order: seq<Header>, sender: string, d1: EmailData, d2: EmailData)
    requires d1.To == d2.To && d1.Subject == d2.Subject
    ensures Lines(order, sender, d1) == Lines(order, sender, d2)
  {
    if order != [] {
      LinesAgree(order[..|order| - 1], sender, d1, d2);
    }
  }
}
