/**
 The inbound half of an authenticated session: scope and replay checks over decoded
 frames, the idle deadline they renew, and the approval gate in front of both.
 Frame decoding itself is an input: a chunk is what the decoder makes of some bytes.
 */
module SessionStream {
  import opened Vocabulary

  datatype Message = Heartbeat | Goodbye | Hello | HelloAck

  datatype Envelope = Envelope(network: NetworkId, sender: NodeId, session: SessionId, sequence: U64, message: Message)

  /** No bytes, undecodable bytes, or whole frames with perhaps the start of another. */
  datatype Chunk = Nothing | Garbled | Whole(frames: seq<Envelope>, partial: bool)

  datatype ScopeError = Decode | WrongContext | Replay | AfterGoodbye | UnexpectedHandshake | UnexpectedEof | Poisoned

  // ---------------------------------------------------------------- scope and replay

  datatype Stream = Stream(
    network: NetworkId, peer: NodeId, session: SessionId,
    last: U64, closed: bool, poisoned: bool, pending: bool)

  datatype Fed = Accepted(frames: seq<Envelope>) | Rejected(why: ScopeError)

  function AfterHello(network: NetworkId, peer: NodeId, session: SessionId): Stream {
    Stream(network, peer, session, 2, false, false, false)
  }

  function FrameFault(s: Stream, f: Envelope): Option<ScopeError> {
    if f.network != s.network || f.sender != s.peer || f.session != s.session then Some(WrongContext)
    else if f.sequence <= s.last then Some(Replay)
    else if s.closed then Some(AfterGoodbye)
    else if f.message.Hello? || f.message.HelloAck? then Some(UnexpectedHandshake)
    else None
  }

  function Advance(s: Stream, f: Envelope): Stream {
    s.(last := f.sequence, closed := s.closed || f.message.Goodbye?)
  }

  /** Frame by frame; the first fault condemns the whole chunk. */
  function Accept(s: Stream, frames: seq<Envelope>): (Stream, Option<ScopeError>)
    decreases |frames|
  {
    if frames == [] then (s, None)
    else if FrameFault(s, frames[0]).Some? then (s, FrameFault(s, frames[0]))
    else Accept(Advance(s, frames[0]), frames[1..])
  }

  function Feed(s: Stream, chunk: Chunk): (Stream, Fed) {
    if s.poisoned then (s, Rejected(Poisoned))
    else if s.closed then
      if chunk.Nothing? then (s, Accepted([])) else (s.(poisoned := true), Rejected(AfterGoodbye))
    else
      match chunk
      case Nothing => (s, Accepted([]))
      case Garbled => (s.(poisoned := true), Rejected(Decode))
      case Whole(frames, partial) =>
        var (t, fault) := Accept(s.(pending := partial), frames);
        if fault.Some? then (t.(poisoned := true), Rejected(fault.value))
        else if t.closed && t.pending then (t.(poisoned := true), Rejected(AfterGoodbye))
        else (t, Accepted(frames))
  }

  /** End of stream is graceful only after a Goodbye and with nothing left over. */
  function Finish(s: Stream): (Stream, Option<ScopeError>) {
    (s.(poisoned := true),
     if s.poisoned then Some(Poisoned)
     else if s.pending then Some(Decode)
     else if !s.closed then Some(UnexpectedEof) else None)
  }

  // ---------------------------------------------------------------- idle deadline

  const ACTIVE_MS: nat := 30000
  const CLOSING_MS: nat := 5000

  datatype DeadlineError = Expired | ClockRegression

  datatype Deadline = Deadline(closing: bool, last: U64, expires: U64)

  function CheckDeadline(d: Deadline, now: U64): Option<DeadlineError> {
    if now < d.last then Some(ClockRegression)
    else if now >= d.expires then Some(Expired)
    else None
  }

  function Renewed(d: Deadline, now: U64): Deadline {
    d.(last := now, expires := SaturatingAdd(now, ACTIVE_MS))
  }

  function Closing(now: U64): Deadline {
    Deadline(true, now, SaturatingAdd(now, CLOSING_MS))
  }

  // ---------------------------------------------------------------- activity

  datatype ActivityError = Terminal | Late(deadline: DeadlineError) | OutOfScope(scope: ScopeError)

  datatype Activity = Activity(stream: Stream, deadline: Deadline, terminal: bool, goodbyeSeen: bool)

  datatype Outcome<+T> = Good(value: T) | Bad(error: ActivityError)

  function CheckActivity(a: Activity, now: U64): (Activity, Outcome<()>) {
    if a.terminal then (a, Bad(Terminal))
    else match CheckDeadline(a.deadline, now)
         case Some(e) => (a.(terminal := true), Bad(Late(e)))
         case None => (a, Good(()))
  }

  function FeedActivity(a: Activity, chunk: Chunk, now: U64): (Activity, Outcome<seq<Envelope>>) {
    if a.terminal then (a, Bad(Terminal))
    else if a.goodbyeSeen then (a.(terminal := true), Bad(Terminal))
    else if CheckDeadline(a.deadline, now).Some? then
      (a.(terminal := true), Bad(Late(CheckDeadline(a.deadline, now).value)))
    else
      var (stream, fed) := Feed(a.stream, chunk);
      match fed
      case Rejected(e) => (a.(stream := stream, terminal := true), Bad(OutOfScope(e)))
      case Accepted(frames) =>
        var fedActivity := a.(stream := stream);
        if frames == [] then (fedActivity, Good(frames))
        else if exists f <- frames :: f.message.Goodbye? then
          (fedActivity.(deadline := if a.deadline.closing then a.deadline else Closing(now), goodbyeSeen := true),
           Good(frames))
        else (fedActivity.(deadline := Renewed(a.deadline, now)), Good(frames))
  }

  function FinishActivity(a: Activity, now: U64): (Activity, Outcome<()>) {
    if a.terminal then (a, Bad(Terminal))
    else if CheckDeadline(a.deadline, now).Some? then
      (a.(terminal := true), Bad(Late(CheckDeadline(a.deadline, now).value)))
    else
      var (stream, fault) := Finish(a.stream);
      (a.(stream := stream, terminal := true), if fault.Some? then Bad(OutOfScope(fault.value)) else Good(()))
  }

  // ---------------------------------------------------------------- approval gate

  datatype IngressError = NotAuthorized | Protocol(error: ActivityError) | Dead

  datatype Ingress = Ingress(activity: Activity, terminal: bool)

  datatype Gated<+T> = Passed(value: T) | Stopped(error: IngressError)

  function Gate<T>(terminal: bool, approved: bool, a: Activity, inner: (Activity, Outcome<T>)): (Ingress, Gated<T>) {
    if terminal then (Ingress(a, true), Stopped(Dead))
    else if !approved then (Ingress(a, true), Stopped(NotAuthorized))
    else match inner.1
         case Good(v) => (Ingress(inner.0, false), Passed(v))
         case Bad(e) => (Ingress(inner.0, true), Stopped(Protocol(e)))
  }

  function CheckBeforeRead(i: Ingress, now: U64, approved: bool): (Ingress, Gated<()>) {
    Gate(i.terminal, approved, i.activity, CheckActivity(i.activity, now))
  }

  function ReceivePlaintext(i: Ingress, chunk: Chunk, now: U64, approved: bool): (Ingress, Gated<seq<Envelope>>) {
    Gate(i.terminal, approved, i.activity, FeedActivity(i.activity, chunk, now))
  }

  function FinishAt(i: Ingress, now: U64, approved: bool): (Ingress, Gated<()>) {
    var (t, r) := Gate(i.terminal, approved, i.activity, FinishActivity(i.activity, now));
    (t.(terminal := true), r)
  }

  // ---------------------------------------------------------------- what a stream accepts

  /** A frame of this peer and session that may follow the handshake, numbered above `last`. */
  predicate Belongs(s: Stream, f: Envelope) {
    && f.network == s.network && f.sender == s.peer && f.session == s.session
    && f.sequence > s.last && (f.message.Heartbeat? || f.message.Goodbye?)
  }

  /** Strictly growing numbers, and a Goodbye at most at the end. */
  ghost predicate Ascending(frames: seq<Envelope>) {
    forall i, j :: 0 <= i < j < |frames| ==> frames[i].sequence < frames[j].sequence && !frames[i].message.Goodbye?
  }

  ghost predicate InOrder(s: Stream, frames: seq<Envelope>) {
    (forall f <- frames :: Belongs(s, f)) && Ascending(frames)
  }

  /** The stream after a whole chunk was accepted. */
  function Accepting(s: Stream, frames: seq<Envelope>): Stream {
    if frames == [] then s
    else s.(last := frames[|frames| - 1].sequence, closed := frames[|frames| - 1].message.Goodbye?)
  }

  /** A chunk of frames passes exactly when it is in order. */
  lemma {:induction false} AcceptExactly(s: Stream, frames: seq<Envelope>)
    requires !s.closed
    ensures Accept(s, frames).1.None? <==> InOrder(s, frames)
    ensures Accept(s, frames).1.None? ==> Accept(s, frames).0 == Accepting(s, frames)
    decreases |frames|
  {
    if frames != [] {
      var f, rest := frames[0], frames[1..];
      assert f in frames;
      FaultlessBelongs(s, f);
      if FrameFault(s, f).None? {
        var t := Advance(s, f);
        if t.closed {
          GoodbyeFirst(s, frames);
        } else {
          AcceptExactly(t, rest);
          InOrderTail(s, frames);
          InOrderWhole(s, frames);
        }
      }
    }
  }

  lemma FaultlessBelongs(s: Stream, f: Envelope)
    requires !s.closed
    ensures FrameFault(s, f).None? <==> Belongs(s, f)
  {
  }

  /** After a Goodbye nothing passes, so a chunk that starts with one must end with it. */
  lemma GoodbyeFirst(s: Stream, frames: seq<Envelope>)
    requires frames != [] && FrameFault(s, frames[0]).None? && frames[0].message.Goodbye? && !s.closed
    ensures Accept(s, frames).1.None? <==> |frames| == 1
    ensures InOrder(s, frames) <==> |frames| == 1
    ensures |frames| == 1 ==> Accept(s, frames).0 == Accepting(s, frames)
  {
    FaultlessBelongs(s, frames[0]);
    var t, rest := Advance(s, frames[0]), frames[1..];
    assert Accept(s, frames) == Accept(t, rest);
    if |frames| > 1 {
      assert FrameFault(t, rest[0]).Some?;
      assert frames[0].sequence >= frames[1].sequence || frames[0].message.Goodbye?;
      assert !Ascending(frames);
    } else {
      assert rest == [] && forall f <- frames :: f == frames[0];
    }
  }

  lemma InOrderTail(s: Stream, frames: seq<Envelope>)
    requires frames != [] && FrameFault(s, frames[0]).None? && !frames[0].message.Goodbye?
    ensures InOrder(s, frames) ==> InOrder(Advance(s, frames[0]), frames[1..])
  {
    var t, rest := Advance(s, frames[0]), frames[1..];
    if InOrder(s, frames) {
      forall f | f in rest ensures f in frames && f.sequence > t.last {
        var k :| 0 <= k < |rest| && rest[k] == f;
        assert frames[k + 1] == f;
      }
    }
  }

  lemma InOrderWhole(s: Stream, frames: seq<Envelope>)
    requires frames != [] && FrameFault(s, frames[0]).None? && !frames[0].message.Goodbye?
    ensures InOrder(Advance(s, frames[0]), frames[1..]) ==> InOrder(s, frames)
  {
    var t, rest := Advance(s, frames[0]), frames[1..];
    if InOrder(t, rest) {
      assert forall f <- frames :: f == frames[0] || f in rest;
      forall i, j | 0 <= i < j < |frames|
        ensures frames[i].sequence < frames[j].sequence && !frames[i].message.Goodbye?
      {
        assert frames[j] == rest[j - 1] && rest[j - 1] in rest;
        if i > 0 { assert frames[i] == rest[i - 1]; }
      }
    }
  }

  /** A stream takes nothing at any time, else only before a Goodbye whole frames in order, and no bytes after one. */
  ghost predicate Takes(s: Stream, chunk: Chunk) {
    && !s.poisoned && !chunk.Garbled?
    && (chunk.Whole? ==>
          && !s.closed && InOrder(s, chunk.frames)
          && !(chunk.partial && chunk.frames != [] && chunk.frames[|chunk.frames| - 1].message.Goodbye?))
  }

  /** Exactly those chunks pass; what passes is handed on whole, and what does not is the end of the stream. */
  lemma FeedPassesExactly(s: Stream, chunk: Chunk)
    ensures var (t, fed) := Feed(s, chunk);
            && (fed.Accepted? <==> Takes(s, chunk))
            && (fed.Accepted? ==> fed.frames == if chunk.Whole? then chunk.frames else [])
            && (fed.Accepted? && chunk.Nothing? ==> t == s)
            && (fed.Accepted? && chunk.Whole? ==> t == Accepting(s.(pending := chunk.partial), chunk.frames))
            && (fed.Rejected? ==> t.poisoned)
  {
    if !s.poisoned && !s.closed && chunk.Whole? {
      var at := s.(pending := chunk.partial);
      AcceptExactly(at, chunk.frames);
      assert forall f <- chunk.frames :: Belongs(at, f) <==> Belongs(s, f);
    }
  }

  /** The stream ends well exactly after a Goodbye with nothing left over. */
  lemma FinishExactly(s: Stream)
    ensures Finish(s).1.None? <==> !s.poisoned && s.closed && !s.pending
    ensures Finish(s).0.poisoned
  {
  }
}
