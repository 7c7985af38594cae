/**
 The text file behind the enrolled keys: a version line, then one record per line.
 One character stands for one byte; every accepted file is plain ASCII.
 */
module PinFile {
  import opened Vocabulary
  import opened PeerPins
  import Hex
  import Lines

  const HEADER := "BLUEROUTE_PEER_PINS_V1"
  const MAX_BYTES: nat := 256 * 1024

  datatype Record = Record(peer: PeerKey, key: Key)

  // ---------------------------------------------------------------- reading

  function ReadId(s: string): Option<Id> {
    if |s| != 32 then None else Hex.Decode(s, false)
  }

  function ReadKey(s: string): Option<Key> {
    if |s| != 64 then None else
      var digest := Hex.Decode(s, true);
      if digest.Some? && AnyNonzero(digest.value) then Some(digest.value) else None
  }

  function ReadRecord(line: string): Option<Record> {
    var f := Lines.Fields(line);
    if |f| != 3 then None else
      var network, node, key := ReadId(f[0]), ReadId(f[1]), ReadKey(f[2]);
      if network.Some? && node.Some? && key.Some?
      then Some(Record(PeerKey(NetworkId(network.value), NodeId(node.value)), key.value)) else None
  }

  /** One more line on top of the records read so far. */
  function Absorb(pins: Result<Pins>, line: string): Result<Pins> {
    if pins.Err? then pins
    else if |pins.value| >= MAX_RECORDS then Fail(PersistenceError)
    else match ReadRecord(line)
         case None => Fail(PersistenceError)
         case Some(r) =>
           match Enroll(pins.value, r.peer, r.key)
           case Enrolled(grown) => Ok(grown)
           case _ => Fail(PersistenceError)
  }

  function ReadRecords(lines: seq<string>): Result<Pins> {
    if lines == [] then Ok(map[]) else Absorb(ReadRecords(lines[..|lines| - 1]), lines[|lines| - 1])
  }

  function ReadLines(lines: seq<string>, header: string): Result<Pins> {
    if lines == [] || lines[0] != header then Fail(PersistenceError) else ReadRecords(lines[1..])
  }

  /** A missing file means nothing is enrolled. */
  function Read(file: Option<string>): Result<Pins> {
    if file.None? then Ok(map[])
    else if |file.value| > MAX_BYTES then Fail(PersistenceError)
    else ReadLines(Lines.Split(file.value), HEADER)
  }

  // ---------------------------------------------------------------- writing

  function RecordLine(r: Record): string {
    Hex.Encode(r.peer.network.bytes) + "\t" + Hex.Encode(r.peer.peer.bytes) + "\t" + Hex.Encode(r.key)
  }

  function Body(records: seq<Record>): string {
    if records == [] then "" else Body(records[..|records| - 1]) + RecordLine(records[|records| - 1]) + "\n"
  }

  function Document(records: seq<Record>, header: string): string {
    header + "\n" + Body(records)
  }

  /** Every pin once, in whatever order the map is walked. */
  ghost predicate Lists(records: seq<Record>, pins: Pins) {
    && DistinctPeers(records)
    && (forall r <- records :: r.peer in pins && pins[r.peer] == r.key)
    && (forall p <- pins :: Record(p, pins[p]) in records)
  }

  // ---------------------------------------------------------------- one record

  lemma RecordLineIsPlain(r: Record)
    ensures Lines.PlainLine(RecordLine(r)) && |RecordLine(r)| == 130
  {
    PlainHex(r.peer.network.bytes);
    PlainHex(r.peer.peer.bytes);
    PlainHex(r.key);
  }

  lemma PlainHex(bytes: seq<Byte>)
    ensures '\n' !in Hex.Encode(bytes) && '\r' !in Hex.Encode(bytes) && '\t' !in Hex.Encode(bytes)
  {
    Hex.OnlyDigits(bytes, '\n');
    Hex.OnlyDigits(bytes, '\r');
    Hex.OnlyDigits(bytes, '\t');
  }

  /** A record line reads back as its record. */
  lemma ReadWritten(r: Record)
    ensures ReadRecord(RecordLine(r)) == Some(r)
  {
    var a, b, c := Hex.Encode(r.peer.network.bytes), Hex.Encode(r.peer.peer.bytes), Hex.Encode(r.key);
    PlainHex(r.peer.network.bytes);
    PlainHex(r.peer.peer.bytes);
    PlainHex(r.key);
    Lines.ThreeFields(a, b, c);
    Hex.DecodeEncode(r.peer.network.bytes, false);
    Hex.DecodeEncode(r.peer.peer.bytes, false);
    Hex.DecodeEncode(r.key, true);
  }

  // ---------------------------------------------------------------- the whole file

  function WrittenLines(records: seq<Record>): seq<string> {
    if records == [] then [] else WrittenLines(records[..|records| - 1]) + [RecordLine(records[|records| - 1])]
  }

  lemma Regroup(a: string, line: string, rest: string)
    ensures a + line + "\n" + rest == a + (line + "\n" + rest)
  {
  }

  lemma {:induction false} BodyLines(records: seq<Record>, rest: string)
    ensures Lines.Split(Body(records) + rest) == WrittenLines(records) + Lines.Split(rest)
  {
    if records == [] {
      assert Body(records) + rest == rest;
    } else {
      var n := |records| - 1;
      var line := RecordLine(records[n]);
      RecordLineIsPlain(records[n]);
      Lines.SplitFirst(line, rest);
      BodyLines(records[..n], line + "\n" + rest);
      Regroup(Body(records[..n]), line, rest);
      var more := Lines.Split(rest);
      assert WrittenLines(records[..n]) + ([line] + more) == WrittenLines(records[..n]) + [line] + more;
    }
  }

  lemma {:induction false} TextLines(records: seq<Record>, header: string)
    requires Lines.PlainLine(header)
    ensures Lines.Split(Document(records, header)) == [header] + WrittenLines(records)
  {
    Lines.SplitFirst(header, Body(records));
    BodyLines(records, "");
    assert Body(records) + "" == Body(records);
    assert WrittenLines(records) + [] == WrittenLines(records);
  }

  lemma {:induction false} BodyLength(records: seq<Record>)
    ensures |Body(records)| == 131 * |records|
  {
    if records != [] {
      BodyLength(records[..|records| - 1]);
      RecordLineIsPlain(records[|records| - 1]);
    }
  }

  /** The pins of a record list with distinct peers. */
  function PinsOf(records: seq<Record>): Pins {
    if records == [] then map[] else
      var r := records[|records| - 1];
      PinsOf(records[..|records| - 1])[r.peer := r.key]
  }

  predicate DistinctPeers(records: seq<Record>) {
    forall i, j :: 0 <= i < j < |records| ==> records[i].peer != records[j].peer
  }

  lemma {:induction false} PinsOfExactly(records: seq<Record>)
    requires DistinctPeers(records)
    ensures |PinsOf(records)| == |records|
    ensures forall r <- records :: r.peer in PinsOf(records) && PinsOf(records)[r.peer] == r.key
    ensures forall p <- PinsOf(records) :: Record(p, PinsOf(records)[p]) in records
  {
    if records != [] {
      var n := |records| - 1;
      var front, r := records[..n], records[n];
      PinsOfExactly(front);
      PinsOfOneMore(front, r, PinsOf(front));
      assert front + [r] == records;
    }
  }

  lemma PinsOfOneMore(front: seq<Record>, r: Record, before: Pins)
    requires forall f <- front :: f.peer != r.peer
    requires |before| == |front|
    requires forall f <- front :: f.peer in before && before[f.peer] == f.key
    requires forall p <- before :: Record(p, before[p]) in front
    ensures var pins := before[r.peer := r.key];
            && r.peer !in before && |pins| == |front| + 1
            && (forall f <- front + [r] :: f.peer in pins && pins[f.peer] == f.key)
            && (forall p <- pins :: Record(p, pins[p]) in front + [r])
  {
    var pins := before[r.peer := r.key];
    forall p | p in pins ensures Record(p, pins[p]) in front + [r] {
      if p == r.peer { assert r in front + [r]; } else { assert Record(p, before[p]) in front; }
    }
  }

  lemma SoundPart(part: Pins, pins: Pins)
    requires Sound(pins) && forall p <- part :: p in pins && pins[p] == part[p]
    ensures Sound(part)
  {
  }

  /** Line by line, these are the records read. */
  ghost predicate ReadAs(lines: seq<string>, records: seq<Record>) {
    |lines| == |records| &&
    (lines == [] || (&& ReadRecord(lines[|lines| - 1]) == Some(records[|lines| - 1])
                     && ReadAs(lines[..|lines| - 1], records[..|lines| - 1])))
  }

  lemma {:induction false} WrittenReadsAs(records: seq<Record>)
    ensures ReadAs(WrittenLines(records), records)
  {
    if records != [] {
      WrittenReadsAs(records[..|records| - 1]);
      ReadWritten(records[|records| - 1]);
    }
  }

  /** Distinct peers, keys unshared within a network and no more than fit: then every line is taken. */
  lemma {:induction false} RecordsAreTaken(lines: seq<string>, records: seq<Record>)
    requires ReadAs(lines, records)
    requires DistinctPeers(records) && Sound(PinsOf(records)) && |records| <= MAX_RECORDS
    ensures ReadRecords(lines) == Ok(PinsOf(records))
  {
    if records != [] {
      var n := |records| - 1;
      var front, r := records[..n], records[n];
      FrontIsSound(front, r, PinsOf(records));
      RecordsAreTaken(lines[..n], front);
      OneMoreIsTaken(PinsOf(front), lines[n], r);
    }
  }

  lemma FrontIsSound(front: seq<Record>, r: Record, pins: Pins)
    requires DistinctPeers(front) && (forall f <- front :: f.peer != r.peer)
    requires Sound(pins) && pins == PinsOf(front)[r.peer := r.key]
    ensures Sound(PinsOf(front)) && |PinsOf(front)| == |front| && r.peer !in PinsOf(front)
  {
    PinsOfExactly(front);
    PinsOfOneMore(front, r, PinsOf(front));
    SoundPart(PinsOf(front), pins);
  }

  lemma OneMoreIsTaken(pins: Pins, line: string, r: Record)
    requires Sound(pins) && |pins| < MAX_RECORDS && r.peer !in pins && Sound(pins[r.peer := r.key])
    requires ReadRecord(line) == Some(r)
    ensures Absorb(Ok(pins), line) == Ok(pins[r.peer := r.key])
  {
    EnrollExactly(pins, r.peer, r.key);
  }

  lemma AllListed(records: seq<Record>, pins: Pins)
    requires Lists(records, pins)
    ensures PinsOf(records) == pins && |records| == |pins|
  {
    PinsOfExactly(records);
    forall p | p in PinsOf(records) ensures p in pins && pins[p] == PinsOf(records)[p] {
      assert Record(p, PinsOf(records)[p]) in records;
    }
    forall p | p in pins ensures p in PinsOf(records) {
      assert Record(p, pins[p]) in records;
    }
  }

  lemma HeaderIsPlain()
    ensures Lines.PlainLine(HEADER) && |HEADER| == 22
  {
  }

  lemma ReadText(records: seq<Record>, header: string)
    requires Lines.PlainLine(header) && DistinctPeers(records) && Sound(PinsOf(records)) && |records| <= MAX_RECORDS
    ensures ReadLines(Lines.Split(Document(records, header)), header) == Ok(PinsOf(records))
  {
    TextLines(records, header);
    WrittenReadsAs(records);
    RecordsAreTaken(WrittenLines(records), records);
    assert ([header] + WrittenLines(records))[1..] == WrittenLines(records);
  }

  /** Whatever order the map is walked in, the written file fits and reads back as the same pins. */
  lemma RoundTrip(records: seq<Record>, pins: Pins)
    requires Sound(pins) && Lists(records, pins) && |pins| <= MAX_RECORDS
    ensures |Document(records, HEADER)| == 23 + 131 * |pins| <= MAX_BYTES
    ensures Read(Some(Document(records, HEADER))) == Ok(pins)
  {
    HeaderIsPlain();
    AllListed(records, pins);
    BodyLength(records);
    ReadText(records, HEADER);
  }

  // ---------------------------------------------------------------- what is accepted

  /** Each of these lines is a record whose pin is in force. */
  ghost predicate InForce(lines: seq<string>, pins: Pins) {
    forall line <- lines :: ReadRecord(line).Some? && ReadRecord(line).value.peer in pins
                            && pins[ReadRecord(line).value.peer] == ReadRecord(line).value.key
  }

  lemma AbsorbedOne(pins: Pins, lines: seq<string>, line: string)
    requires Sound(pins) && |pins| == |lines| && InForce(lines, pins) && Absorb(Ok(pins), line).Ok?
    ensures var grown := Absorb(Ok(pins), line).value;
            Sound(grown) && |grown| == |lines| + 1 <= MAX_RECORDS && InForce(lines + [line], grown)
  {
    var r := ReadRecord(line).value;
    EnrollExactly(pins, r.peer, r.key);
    var grown := pins[r.peer := r.key];
    assert |grown| == |pins| + 1;
    forall l | l in lines + [line]
      ensures ReadRecord(l).Some? && ReadRecord(l).value.peer in grown
              && grown[ReadRecord(l).value.peer] == ReadRecord(l).value.key
    {
      assert l in lines || l == line;
    }
  }

  /** An accepted file holds exactly the records of its lines, one pin per line, one-to-one in each network. */
  lemma {:induction false} AcceptedRecords(lines: seq<string>)
    requires ReadRecords(lines).Ok?
    ensures Sound(ReadRecords(lines).value) && |ReadRecords(lines).value| == |lines| <= MAX_RECORDS
    ensures InForce(lines, ReadRecords(lines).value)
  {
    if lines != [] {
      var front, line := lines[..|lines| - 1], lines[|lines| - 1];
      AcceptedRecords(front);
      AbsorbedOne(ReadRecords(front).value, front, line);
      assert front + [line] == lines;
    }
  }

  lemma AbsorbedIsRecord(pins: Pins, line: string)
    requires Sound(pins) && Absorb(Ok(pins), line).Ok?
    ensures ReadRecord(line).Some?
    ensures var r := ReadRecord(line).value; r.peer !in pins && Absorb(Ok(pins), line).value == pins[r.peer := r.key]
  {
    EnrollExactly(pins, ReadRecord(line).value.peer, ReadRecord(line).value.key);
  }

  lemma StillDistinct(front: seq<Record>, r: Record)
    requires DistinctPeers(front) && r.peer !in PinsOf(front)
    ensures DistinctPeers(front + [r]) && PinsOf(front + [r]) == PinsOf(front)[r.peer := r.key]
  {
    PinsOfExactly(front);
    assert (front + [r])[..|front|] == front;
    assert forall i :: 0 <= i < |front| ==> front[i] in front;
  }

  /** Whatever is taken was a record on every line, of distinct peers. */
  lemma {:induction false} TakenAreRecords(lines: seq<string>) returns (records: seq<Record>)
    requires ReadRecords(lines).Ok?
    ensures ReadAs(lines, records) && DistinctPeers(records) && PinsOf(records) == ReadRecords(lines).value
  {
    if lines == [] {
      records := [];
    } else {
      var n := |lines| - 1;
      var front := TakenAreRecords(lines[..n]);
      AcceptedRecords(lines[..n]);
      AbsorbedIsRecord(PinsOf(front), lines[n]);
      records := front + [ReadRecord(lines[n]).value];
      StillDistinct(front, ReadRecord(lines[n]).value);
      assert records[..n] == front;
    }
  }

  /**
   A file is accepted exactly when it is absent, or is short enough, starts with the version line and lists every
   pin once, as one well-formed record a line, the pins being at most 128 and one-to-one in each network.
   */
  lemma ReadExactly(file: Option<string>, pins: Pins)
    ensures Read(file) == Ok(pins) <==>
            if file.None? then pins == map[] else
              && |file.value| <= MAX_BYTES && Sound(pins) && |pins| <= MAX_RECORDS
              && var lines := Lines.Split(file.value);
              && lines != [] && lines[0] == HEADER
              && exists records :: ReadAs(lines[1..], records) && Lists(records, pins)
  {
    if file.Some? {
      var lines := Lines.Split(file.value);
      if Read(file) == Ok(pins) {
        AcceptedRecords(lines[1..]);
        var records := TakenAreRecords(lines[1..]);
        PinsOfExactly(records);
        assert Lists(records, pins);
      } else if |file.value| <= MAX_BYTES && Sound(pins) && |pins| <= MAX_RECORDS && lines != [] && lines[0] == HEADER
        && exists records :: ReadAs(lines[1..], records) && Lists(records, pins) {
        var records :| ReadAs(lines[1..], records) && Lists(records, pins);
        AllListed(records, pins);
        RecordsAreTaken(lines[1..], records);
      }
    }
  }

  lemma AcceptedIsSound(file: Option<string>)
    requires Read(file).Ok?
    ensures Sound(Read(file).value) && |Read(file).value| <= MAX_RECORDS
  {
    if file.Some? { AcceptedRecords(Lines.Split(file.value)[1..]); }
  }
}
