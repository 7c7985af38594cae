/**
 Exchanging certificate prefaces over a socket that splits reads and writes as it likes.
 The socket's turns, one per loop iteration, are given in advance; when they run out the
 deadline has passed.
 */
module PrefaceExchange {
  import opened Vocabulary
  import opened TlsRecords

  datatype Reply = Moved(count: nat) | Interrupted | WouldBlock | Broken

  /** What one pass finds: is the deadline over, does the socket take a timeout, how does it answer. */
  datatype Turn = Turn(expired: bool, timeoutRefused: bool, reply: Reply)

  datatype ExchangeError = DeadlineExpired | ExchangeFailed | InvalidCertificate

  datatype Exchanged<+T> = Done(value: T) | Error(why: ExchangeError)

  /** Nothing goes wrong on this turn and at least one byte may move. */
  predicate Smooth(t: Turn) { !t.expired && !t.timeoutRefused && t.reply.Moved? && t.reply.count > 0 }

  class Socket {
    /** What the peer has sent or will send and was not read yet. */
    var incoming: seq<Byte>
    var outgoing: seq<Byte>
    var turns: seq<Turn>

    constructor (incoming: seq<Byte>, turns: seq<Turn>)
      ensures this.incoming == incoming && outgoing == [] && this.turns == turns
    {
      this.incoming, outgoing, this.turns := incoming, [], turns;
    }

    method NextTurn() returns (t: Turn)
      modifies this`turns
      ensures |turns| == if old(turns) == [] then 0 else |old(turns)| - 1
      ensures old(turns) == [] ==> t.expired
      ensures AllSmooth(old(turns)) ==> AllSmooth(turns) && (old(turns) != [] ==> Smooth(t))
    {
      if turns == [] { return Turn(true, false, Interrupted); }
      assert turns[0] in turns && forall u <- turns[1..] :: u in turns;
      t := turns[0];
      turns := turns[1..];
    }
  }

  predicate AllSmooth(turns: seq<Turn>) { forall t <- turns :: Smooth(t) }

  /** Where a stream stands after some prefix of it was taken. */
  ghost predicate Advanced(before: seq<Byte>, after: seq<Byte>, most: nat) {
    |after| <= |before| <= |after| + most && after == before[|before| - |after|..]
  }

  /** Writes all of `bytes`, or a prefix and reports why not; a smooth socket always takes all. */
  method WriteUntil(socket: Socket, bytes: seq<Byte>) returns (r: Exchanged<()>)
    modifies socket
    ensures socket.incoming == old(socket.incoming)
    ensures r.Done? ==> socket.outgoing == old(socket.outgoing) + bytes
    ensures r.Error? ==> exists k :: 0 <= k <= |bytes| && socket.outgoing == old(socket.outgoing) + bytes[..k]
    ensures AllSmooth(old(socket.turns)) && |old(socket.turns)| > |bytes| ==>
              r.Done? && AllSmooth(socket.turns) && |socket.turns| >= |old(socket.turns)| - |bytes| - 1
  {
    var written := 0;
    assert bytes[..0] == [];
    while written < |bytes|
      invariant 0 <= written <= |bytes|
      invariant socket.incoming == old(socket.incoming)
      invariant socket.outgoing == old(socket.outgoing) + bytes[..written]
      invariant AllSmooth(old(socket.turns)) ==>
                  AllSmooth(socket.turns) && |socket.turns| >= |old(socket.turns)| - written
      decreases |socket.turns|
    {
      var t := socket.NextTurn();
      if t.expired { return Error(DeadlineExpired); }
      if t.timeoutRefused { return Error(ExchangeFailed); }
      match t.reply
      case Moved(n) =>
        var count := if n < |bytes| - written then n else |bytes| - written;
        if count == 0 { return Error(ExchangeFailed); }
        assert bytes[..written + count] == bytes[..written] + bytes[written..written + count];
        socket.outgoing := socket.outgoing + bytes[written..written + count];
        written := written + count;
      case Interrupted =>
      case WouldBlock => return Error(DeadlineExpired);
      case Broken => return Error(ExchangeFailed);
    }
    assert bytes[..written] == bytes;
    var end := socket.NextTurn();
    if end.expired { return Error(DeadlineExpired); }
    r := Done(());
  }

  /** Fills the whole buffer from the stream, never taking a byte beyond it. */
  method ReadExactUntil(socket: Socket, bytes: array<Byte>) returns (r: Exchanged<()>)
    modifies socket, bytes
    ensures socket.outgoing == old(socket.outgoing)
    ensures r.Done? ==> bytes.Length <= |old(socket.incoming)|
                        && bytes[..] == old(socket.incoming)[..bytes.Length]
                        && socket.incoming == old(socket.incoming)[bytes.Length..]
    ensures Advanced(old(socket.incoming), socket.incoming, bytes.Length)
    ensures (&& AllSmooth(old(socket.turns)) && |old(socket.turns)| > bytes.Length
             && |old(socket.incoming)| >= bytes.Length) ==>
              r.Done? && AllSmooth(socket.turns) && |socket.turns| >= |old(socket.turns)| - bytes.Length - 1
  {
    var received := 0;
    ghost var stream := socket.incoming;
    while received < bytes.Length
      invariant 0 <= received <= bytes.Length && received <= |stream|
      invariant socket.outgoing == old(socket.outgoing)
      invariant socket.incoming == stream[received..]
      invariant bytes[..received] == stream[..received]
      invariant AllSmooth(old(socket.turns)) ==>
                  AllSmooth(socket.turns) && |socket.turns| >= |old(socket.turns)| - received
      decreases |socket.turns|
    {
      var t := socket.NextTurn();
      if t.expired { return Error(DeadlineExpired); }
      if t.timeoutRefused { return Error(ExchangeFailed); }
      match t.reply
      case Moved(n) =>
        var room := bytes.Length - received;
        var most := if n < room then n else room;
        var count := if most < |socket.incoming| then most else |socket.incoming|;
        if count == 0 { return Error(ExchangeFailed); }
        CopyIn(bytes, received, socket.incoming[..count]);
        assert stream[..received + count] == stream[..received] + socket.incoming[..count];
        socket.incoming := socket.incoming[count..];
        received := received + count;
      case Interrupted =>
      case WouldBlock => return Error(DeadlineExpired);
      case Broken => return Error(ExchangeFailed);
    }
    assert bytes[..received] == bytes[..];
    var end := socket.NextTurn();
    if end.expired { return Error(DeadlineExpired); }
    r := Done(());
  }

  method CopyIn(bytes: array<Byte>, at: nat, chunk: seq<Byte>)
    requires at + |chunk| <= bytes.Length
    modifies bytes
    ensures bytes[..at + |chunk|] == old(bytes[..at]) + chunk
  {
    var i := 0;
    while i < |chunk|
      invariant 0 <= i <= |chunk|
      invariant bytes[..at + i] == old(bytes[..at]) + chunk[..i]
    {
      bytes[at + i] := chunk[i];
      assert bytes[..at + i + 1] == bytes[..at + i] + [chunk[i]];
      i := i + 1;
    }
    assert chunk[..i] == chunk;
  }

  method ReadBytes(socket: Socket, n: nat) returns (r: Exchanged<seq<Byte>>)
    modifies socket
    ensures socket.outgoing == old(socket.outgoing)
    ensures r.Done? ==>
              && n <= |old(socket.incoming)| && r.value == old(socket.incoming)[..n]
              && socket.incoming == old(socket.incoming)[n..]
    ensures Advanced(old(socket.incoming), socket.incoming, n)
    ensures AllSmooth(old(socket.turns)) && |old(socket.turns)| > n && |old(socket.incoming)| >= n ==>
              r.Done? && AllSmooth(socket.turns) && |socket.turns| >= |old(socket.turns)| - n - 1
  {
    var buffer := new Byte[n];
    var got := ReadExactUntil(socket, buffer);
    r := if got.Error? then Error(got.why) else Done(buffer[..]);
  }

  /** The front of a stream decides everything; the certificate is what comes right after it. */
  lemma FrontDecides(header: seq<Byte>, stream: seq<Byte>, front: seq<Byte>, after: seq<Byte>)
    requires stream == front + after && |front| == |header| + 4
    ensures ParsePreface(header, stream) ==
            if !(header <= front) || FromBigEndian(front[|header|..]) == 0
               || FromBigEndian(front[|header|..]) > MAX_CERTIFICATE_BYTES
               || FromBigEndian(front[|header|..]) > |after| then None
            else Some((after[..FromBigEndian(front[|header|..])], after[FromBigEndian(front[|header|..])..]))
  {
    var h := |header|;
    assert header <= front <==> header <= stream;
    assert stream[h..h + 4] == front[h..];
    var n := FromBigEndian(front[h..]);
    if n <= |after| {
      assert stream[h + 4..h + 4 + n] == after[..n] && stream[h + 4 + n..] == after[n..];
    }
  }

  /** Reads one preface: the result and what stays unread are those of the whole stream. */
  method TakePreface(socket: Socket, header: seq<Byte>) returns (r: Exchanged<seq<Byte>>)
    modifies socket
    ensures socket.outgoing == old(socket.outgoing)
    ensures r.Done? ==> ParsePreface(header, old(socket.incoming)) == Some((r.value, socket.incoming))
    ensures ParsePreface(header, old(socket.incoming)).Some? ==>
              |socket.incoming| >= |ParsePreface(header, old(socket.incoming)).value.1|
    ensures (&& AllSmooth(old(socket.turns)) && ParsePreface(header, old(socket.incoming)).Some?
             && |old(socket.turns)| > |header| + MAX_CERTIFICATE_BYTES + 6) ==> r.Done?
  {
    ghost var stream := socket.incoming;
    var front := ReadBytes(socket, |header| + 4);
    if front.Error? { return Error(front.why); }
    ghost var after := socket.incoming;
    assert stream == front.value + after;
    FrontDecides(header, stream, front.value, after);
    if !(header <= front.value) { return Error(ExchangeFailed); }
    var n := FromBigEndian(front.value[|header|..]);
    if n == 0 || n > MAX_CERTIFICATE_BYTES { return Error(InvalidCertificate); }
    r := ReadBytes(socket, n);
    if r.Error? { return; }
    var end := socket.NextTurn();
    if end.expired { return Error(DeadlineExpired); }
  }

  /**
   Announces the local certificate and takes the peer's. However the socket splits the bytes, the
   result is what the stream's front says, everything after the certificate is left unread, and a
   smooth socket with a well-formed front always succeeds.
   */
  method Exchange(socket: Socket, header: seq<Byte>, local: seq<Byte>) returns (r: Exchanged<seq<Byte>>)
    requires |local| < 0x1_0000_0000
    modifies socket
    ensures r.Done? ==> ParsePreface(header, old(socket.incoming)) == Some((r.value, socket.incoming))
                        && socket.outgoing == old(socket.outgoing) + Preface(header, local)
    ensures ParsePreface(header, old(socket.incoming)).Some? ==>
              |socket.incoming| >= |ParsePreface(header, old(socket.incoming)).value.1|
    ensures (&& AllSmooth(old(socket.turns)) && ParsePreface(header, old(socket.incoming)).Some?
             && |old(socket.turns)| > 2 * |header| + |local| + MAX_CERTIFICATE_BYTES + 11) ==> r.Done?
  {
    var sent := WriteUntil(socket, Preface(header, local));
    if sent.Error? { return Error(sent.why); }
    r := TakePreface(socket, header);
  }

  /** Each end has in front of it what the other one put out, and then something more. */
  ghost predicate Wired(into: seq<Byte>, out: seq<Byte>, rest: seq<Byte>) { into == out + rest }

  /**
   Two ends of one connection. Whenever both succeed, each has learnt the certificate the other
   announced and left the rest unread. With a smooth socket on either side both do succeed, and
   what each put out is what stood in front of the other.
   */
  method BothEnds(a: Socket, b: Socket, header: seq<Byte>, mine: seq<Byte>, theirs: seq<Byte>,
                  ghost restA: seq<Byte>, ghost restB: seq<Byte>)
    returns (learntA: Exchanged<seq<Byte>>, learntB: Exchanged<seq<Byte>>)
    requires a != b && a.outgoing == [] && b.outgoing == [] && Announceable(mine) && Announceable(theirs)
    modifies a, b
    ensures learntA.Done? && learntB.Done? ==>
              a.outgoing == Preface(header, mine) && b.outgoing == Preface(header, theirs)
    ensures (&& learntA.Done? && learntB.Done?
             && Wired(old(a.incoming), b.outgoing, restB) && Wired(old(b.incoming), a.outgoing, restA)) ==>
              learntA == Done(theirs) && a.incoming == restB && learntB == Done(mine) && b.incoming == restA
    ensures (&& AllSmooth(old(a.turns)) && |old(a.turns)| > 2 * |header| + |mine| + MAX_CERTIFICATE_BYTES + 11
             && AllSmooth(old(b.turns)) && |old(b.turns)| > 2 * |header| + |theirs| + MAX_CERTIFICATE_BYTES + 11
             && Wired(old(a.incoming), Preface(header, theirs), restB)
             && Wired(old(b.incoming), Preface(header, mine), restA)) ==>
              && Wired(old(a.incoming), b.outgoing, restB) && Wired(old(b.incoming), a.outgoing, restA)
              && learntA == Done(theirs) && a.incoming == restB && learntB == Done(mine) && b.incoming == restA
  {
    PrefaceRoundTrip(header, theirs, restB);
    PrefaceRoundTrip(header, mine, restA);
    learntA := Exchange(a, header, mine);
    learntB := Exchange(b, header, theirs);
    assert a.outgoing == [] + Preface(header, mine) || learntA.Error?;
  }
}
