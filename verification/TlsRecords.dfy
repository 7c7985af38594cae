/**
 The persisted TLS identity record and the certificate preface: a header, big-endian
 lengths, then bytes. What is proved holds for every header, the daemon's two included.
 */
module TlsRecords {
  import opened Vocabulary

  const MAX_CERTIFICATE_BYTES: nat := 16384
  const MAX_PRIVATE_KEY_BYTES: nat := 16384

  /** "BLUEROUTE_CONTROL_TLS_IDENTITY_V1" and a zero byte. */
  const IDENTITY_HEADER: seq<Byte> :=
    [66, 76, 85, 69, 82, 79, 85, 84, 69, 95, 67, 79, 78, 84, 82, 79, 76, 95, 84, 76, 83, 95, 73, 68, 69, 78, 84, 73,
     84, 89, 95, 86, 49, 0]

  /** "BLUEROUTE-CONTROL-CERT-V1" and a zero byte. */
  const CERTIFICATE_PREFACE: seq<Byte> :=
    [66, 76, 85, 69, 82, 79, 85, 84, 69, 45, 67, 79, 78, 84, 82, 79, 76, 45, 67, 69, 82, 84, 45, 86, 49, 0]

  function BigEndian(n: U32): (s: seq<Byte>)
    ensures |s| == 4
  {
    [n / 0x100_0000, n / 0x1_0000 % 256, n / 0x100 % 256, n % 256]
  }

  function FromBigEndian(s: seq<Byte>): U32
    requires |s| == 4
  {
    0x100_0000 * (s[0] as int) + 0x1_0000 * (s[1] as int) + 0x100 * (s[2] as int) + s[3]
  }

  lemma BigEndianRoundTrip(n: U32)
    ensures FromBigEndian(BigEndian(n)) == n
  {
    var a, b := n / 0x1_0000, n % 0x1_0000;
    assert n == a * 0x1_0000 + b && n / 0x100_0000 == a / 256 && n / 0x100 % 256 == b / 256;
  }

  lemma TwoDigits(a: Byte, b: Byte)
    ensures (256 * (a as int) + b) / 256 == a && (256 * (a as int) + b) % 256 == b
  {
  }

  lemma Halves(high: int, low: int)
    requires 0 <= high < 0x1_0000 && 0 <= low < 0x1_0000
    ensures var n := 0x1_0000 * high + low;
            && n / 0x100_0000 == high / 256 && n / 0x1_0000 % 256 == high % 256
            && n / 0x100 % 256 == low / 256 && n % 256 == low % 256
  {
    var n := 0x1_0000 * high + low;
    assert n / 0x1_0000 == high;
    assert n / 0x100 == 256 * high + low / 256;
  }

  lemma FromBigEndianUnique(s: seq<Byte>)
    requires |s| == 4
    ensures BigEndian(FromBigEndian(s)) == s
  {
    TwoDigits(s[0], s[1]);
    TwoDigits(s[2], s[3]);
    Halves(256 * (s[0] as int) + s[1], 256 * (s[2] as int) + s[3]);
  }

  // ---------------------------------------------------------------- identity records

  datatype Identity = Identity(certificate: seq<Byte>, privateKey: seq<Byte>)

  function Layout(header: seq<Byte>, id: Identity): seq<Byte>
    requires |id.certificate| <= MAX_CERTIFICATE_BYTES && |id.privateKey| <= MAX_PRIVATE_KEY_BYTES
  {
    header + BigEndian(|id.certificate|) + BigEndian(|id.privateKey|) + id.certificate + id.privateKey
  }

  function Encode(header: seq<Byte>, id: Identity): Result<seq<Byte>> {
    if |id.certificate| > MAX_CERTIFICATE_BYTES || |id.privateKey| > MAX_PRIVATE_KEY_BYTES then Fail(PersistenceError)
    else Ok(Layout(header, id))
  }

  function Decode(header: seq<Byte>, record: seq<Byte>): Result<Identity> {
    var minimum := |header| + 8;
    if |record| < minimum || !(header <= record) then Fail(PersistenceError)
    else
      var certificateLength := FromBigEndian(record[|header|..|header| + 4]);
      var keyLength := FromBigEndian(record[|header| + 4..minimum]);
      if certificateLength == 0 || certificateLength > MAX_CERTIFICATE_BYTES
         || keyLength == 0 || keyLength > MAX_PRIVATE_KEY_BYTES
         || minimum + certificateLength + keyLength != |record| then Fail(PersistenceError)
      else Ok(Identity(record[minimum..minimum + certificateLength], record[minimum + certificateLength..]))
  }

  lemma LayoutParts(header: seq<Byte>, id: Identity)
    requires |id.certificate| <= MAX_CERTIFICATE_BYTES && |id.privateKey| <= MAX_PRIVATE_KEY_BYTES
    ensures var r, h := Layout(header, id), |header|;
            && |r| == h + 8 + |id.certificate| + |id.privateKey| && header <= r
            && r[h..h + 4] == BigEndian(|id.certificate|) && r[h + 4..h + 8] == BigEndian(|id.privateKey|)
            && r[h + 8..h + 8 + |id.certificate|] == id.certificate && r[h + 8 + |id.certificate|..] == id.privateKey
  {
  }

  /** Every record written is read back, exactly when neither part is empty. */
  lemma IdentityRoundTrip(header: seq<Byte>, id: Identity)
    requires Encode(header, id).Ok?
    ensures Decode(header, Encode(header, id).value) == Ok(id) <==> id.certificate != [] && id.privateKey != []
    ensures id.certificate == [] || id.privateKey == [] ==> Decode(header, Encode(header, id).value).Err?
  {
    LayoutParts(header, id);
    BigEndianRoundTrip(|id.certificate|);
    BigEndianRoundTrip(|id.privateKey|);
  }

  /** Every record accepted is the one encoding of what it decodes to. */
  lemma IdentityUnique(header: seq<Byte>, record: seq<Byte>)
    requires Decode(header, record).Ok?
    ensures Encode(header, Decode(header, record).value) == Ok(record)
  {
    var h, id := |header|, Decode(header, record).value;
    FromBigEndianUnique(record[h..h + 4]);
    FromBigEndianUnique(record[h + 4..h + 8]);
    assert record[..h] == header;
    assert BigEndian(|id.certificate|) == record[h..h + 4] && BigEndian(|id.privateKey|) == record[h + 4..h + 8];
    Pieces(record, h, h + 4, h + 8, h + 8 + |id.certificate|);
    assert Layout(header, id) == record;
  }

  // ---------------------------------------------------------------- keeping one identity

  /** What the X.509 and signing code answers about given bytes; bytes that parse are never none. */
  datatype Oracle = Oracle(
    parses: seq<Byte> -> bool, names: (seq<Byte>, NodeId) -> bool, keysMatch: Identity -> bool)

  /** A certificate and key become an identity of the node only through these checks. */
  function FromDer(node: NodeId, id: Identity, x: Oracle): Result<Identity> {
    if node == ZERO_NODE || |id.certificate| > MAX_CERTIFICATE_BYTES then Fail(PersistenceError)
    else if id.privateKey == [] || |id.privateKey| > MAX_PRIVATE_KEY_BYTES then Fail(PersistenceError)
    else if id.certificate == [] || !x.parses(id.certificate) then Fail(PersistenceError)
    else if !x.names(id.certificate, node) || !x.keysMatch(id) then Fail(PersistenceError)
    else Ok(id)
  }

  function DecodeFor(header: seq<Byte>, record: seq<Byte>, node: NodeId, x: Oracle): Result<Identity> {
    var decoded := Decode(header, record);
    if decoded.Err? then decoded else FromDer(node, decoded.value, x)
  }

  /** Every identity the daemon can have is written and read back as itself, for its node. */
  lemma EveryIdentityRoundTrips(header: seq<Byte>, node: NodeId, id: Identity, x: Oracle)
    requires FromDer(node, id, x).Ok?
    ensures Encode(header, id).Ok? && DecodeFor(header, Encode(header, id).value, node, x) == Ok(id)
  {
    IdentityRoundTrip(header, id);
  }

  /** What writing a record finds: nothing, another process's record, one that is gone again, or an error. */
  datatype Saving = Free | Taken(record: seq<Byte>) | Vanished | SaveFails

  /** Loads the identity, or makes one and writes it unless somebody else was first. */
  function LoadOrCreate(header: seq<Byte>, node: NodeId, x: Oracle, file: Option<seq<Byte>>,
                        generated: Identity, saving: Saving): (Option<seq<Byte>>, Result<Identity>) {
    if file.Some? then (file, DecodeFor(header, file.value, node, x))
    else if FromDer(node, generated, x).Err? then (None, FromDer(node, generated, x))
    else
      var record := Encode(header, generated);
      if record.Err? then (None, Err(record.error))
      else match saving
           case Free => (Some(record.value), Ok(generated))
           case Taken(other) => (Some(other), DecodeFor(header, other, node, x))
           case Vanished => (None, Fail(PersistenceError))
           case SaveFails => (None, Fail(PersistenceError))
  }

  /**
   A record that is there is never replaced, a malformed one included. Whoever wrote first, an
   identity that is answered is the one in the file, and every later start answers it again.
   */
  lemma IdentityIsKept(header: seq<Byte>, node: NodeId, x: Oracle, file: Option<seq<Byte>>, generated: Identity,
                       saving: Saving, another: Identity, again: Saving)
    ensures var (kept, r) := LoadOrCreate(header, node, x, file, generated, saving);
            && (file.Some? ==> kept == file)
            && (saving.Taken? && kept != file ==> kept == Some(saving.record))
            && (r.Ok? ==> kept.Some? && DecodeFor(header, kept.value, node, x) == r
                          && LoadOrCreate(header, node, x, kept, another, again) == (kept, r))
  {
    if FromDer(node, generated, x).Ok? { EveryIdentityRoundTrips(header, node, generated, x); }
  }

  /** A certificate and key that may serve as this node's identity. */
  ghost predicate Fits(node: NodeId, id: Identity, x: Oracle) {
    && node != ZERO_NODE && 0 < |id.certificate| <= MAX_CERTIFICATE_BYTES
    && 0 < |id.privateKey| <= MAX_PRIVATE_KEY_BYTES
    && x.parses(id.certificate) && x.names(id.certificate, node) && x.keysMatch(id)
  }

  /** A record is read as an identity of this node exactly when it is that identity's one encoding. */
  lemma DecodedExactly(header: seq<Byte>, record: seq<Byte>, node: NodeId, x: Oracle, id: Identity)
    ensures DecodeFor(header, record, node, x) == Ok(id) <==> Fits(node, id, x) && record == Layout(header, id)
  {
    if Fits(node, id, x) { IdentityRoundTrip(header, id); }
    if Decode(header, record).Ok? { IdentityUnique(header, record); }
  }

  /** An identity is answered exactly if it fits the node and is what the file has, or what was made or found there. */
  lemma AnsweredExactly(header: seq<Byte>, node: NodeId, x: Oracle, file: Option<seq<Byte>>, generated: Identity,
                        saving: Saving, id: Identity)
    ensures LoadOrCreate(header, node, x, file, generated, saving).1 == Ok(id) <==>
            && Fits(node, id, x)
            && (|| file == Some(Layout(header, id))
                || (&& file.None? && Fits(node, generated, x)
                    && ((saving.Free? && id == generated) || saving == Taken(Layout(header, id)))))
  {
    if file.Some? { DecodedExactly(header, file.value, node, x, id); }
    if saving.Taken? { DecodedExactly(header, saving.record, node, x, id); }
  }

  lemma Pieces(s: seq<Byte>, a: nat, b: nat, c: nat, d: nat)
    requires a <= b <= c <= d <= |s|
    ensures s == s[..a] + s[a..b] + s[b..c] + s[c..d] + s[d..]
  {
  }

  // ---------------------------------------------------------------- certificate preface

  function Preface(header: seq<Byte>, certificate: seq<Byte>): seq<Byte>
    requires |certificate| < 0x1_0000_0000
  {
    header + BigEndian(|certificate|) + certificate
  }

  /** A certificate a peer may announce. */
  predicate Announceable(certificate: seq<Byte>) { 0 < |certificate| <= MAX_CERTIFICATE_BYTES }

  /** The certificate at the front of a byte stream and what follows it. */
  function ParsePreface(header: seq<Byte>, stream: seq<Byte>): Option<(seq<Byte>, seq<Byte>)> {
    var h := |header|;
    if |stream| < h + 4 || !(header <= stream) then None
    else
      var n := FromBigEndian(stream[h..h + 4]);
      if n == 0 || n > MAX_CERTIFICATE_BYTES || |stream| < h + 4 + n then None
      else Some((stream[h + 4..h + 4 + n], stream[h + 4 + n..]))
  }

  /** What one side announces is exactly what the other side takes, and nothing past it. */
  lemma PrefaceRoundTrip(header: seq<Byte>, certificate: seq<Byte>, rest: seq<Byte>)
    requires Announceable(certificate)
    ensures ParsePreface(header, Preface(header, certificate) + rest) == Some((certificate, rest))
  {
    var s, h, n := Preface(header, certificate) + rest, |header|, |certificate|;
    assert header <= s && s[h..h + 4] == BigEndian(n);
    assert s[h + 4..h + 4 + n] == certificate && s[h + 4 + n..] == rest;
    BigEndianRoundTrip(n);
  }

  lemma PrefaceUnique(header: seq<Byte>, stream: seq<Byte>)
    requires ParsePreface(header, stream).Some?
    ensures var (certificate, rest) := ParsePreface(header, stream).value;
            Announceable(certificate) && stream == Preface(header, certificate) + rest
  {
    var h, n := |header|, FromBigEndian(stream[|header|..|header| + 4]);
    FromBigEndianUnique(stream[h..h + 4]);
    Pieces(stream, h, h + 4, h + 4, h + 4 + n);
  }
}
