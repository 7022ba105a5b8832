/**
 * The raw-packet envelope: its byte layout, an independent parser for that
 * layout, and the wire contract an envelope has to meet.
 */
module PacketWire {
  import opened Bytes

  datatype PacketInput = PacketInput(sourceId: u32, queueId: u32)

  datatype SourceConfig = SourceConfig(
    streamId: seq<byte>,
    domain: u64,
    inputs: seq<PacketInput>,
    maxPackets: u32,
    maxBytes: u32,
    maxMessageBytes: u32)

  datatype Message = Message(
    partition: int,
    offset: i64,
    key: seq<byte>,
    value: seq<byte>,
    keyIsNull: bool,
    valueIsNull: bool)

  datatype Row = Row(
    source: u32,
    timestamp: i64,
    capturedLen: u32,
    wireLen: u32,
    linkType: u32,
    sequence: u64,
    bytes: seq<byte>)

  /** `generation` is local to a process and is not part of the wire format. */
  datatype Fact = Fact(
    source: u32,
    queue: u32,
    generation: u64,
    sequence: u64,
    time: i64,
    observed: bool,
    idle: bool,
    backlog: byte)

  datatype Envelope = Envelope(
    epoch: seq<byte>,
    domain: u64,
    generation: u64,
    poll: u64,
    packets: seq<Row>,
    progress: seq<Fact>)

  const MAGIC: seq<byte> := [0x46, 0x53, 0x50, 0x4B]
  const ENVELOPE_HEADER := 56
  const ROW_HEADER := 32
  const FACT_SIZE := 28

  // ---------------------------------------------------------------- layout

  /** Magic, version 1 and the reserved half-word. */
  function Preamble(): (s: seq<byte>)
    ensures |s| == 8
  {
    MAGIC + BigEndian(1, 2) + BigEndian(0, 2)
  }

  function Numbers(e: Envelope): (s: seq<byte>)
    ensures |s| == 32
  {
    BigEndian(e.domain, 8) + BigEndian(e.generation, 8) + BigEndian(e.poll, 8)
    + BigEndian(|e.packets|, 4) + BigEndian(|e.progress|, 4)
  }

  function HeaderBytes(e: Envelope): (s: seq<byte>)
    requires |e.epoch| == 16
    ensures |s| == ENVELOPE_HEADER
  {
    Preamble() + e.epoch + Numbers(e)
  }

  function RowHeader(r: Row): (s: seq<byte>)
    ensures |s| == ROW_HEADER
  {
    BigEndian(r.source, 4) + BigEndian(ToUnsigned(r.timestamp), 8) + BigEndian(r.capturedLen, 4)
    + BigEndian(r.wireLen, 4) + BigEndian(r.linkType, 4) + BigEndian(r.sequence, 8)
  }

  function RowBytes(r: Row): seq<byte> {
    RowHeader(r) + r.bytes
  }

  function Flags(f: Fact): byte {
    (if f.observed then 1 else 0) + (if f.idle then 2 else 0)
  }

  function FactBytes(f: Fact): (s: seq<byte>)
    ensures |s| == FACT_SIZE
  {
    BigEndian(f.source, 4) + BigEndian(f.queue, 4) + BigEndian(f.sequence, 8)
    + BigEndian(ToUnsigned(f.time), 8) + BigEndian(Flags(f), 1) + BigEndian(f.backlog, 1) + BigEndian(0, 2)
  }

  function RowsBytes(rows: seq<Row>): seq<byte> {
    if rows == [] then [] else RowBytes(rows[0]) + RowsBytes(rows[1..])
  }

  function FactsBytes(facts: seq<Fact>): (s: seq<byte>)
    ensures |s| == FACT_SIZE * |facts|
  {
    if facts == [] then [] else FactBytes(facts[0]) + FactsBytes(facts[1..])
  }

  /** The value of the message that carries `e`. */
  function Layout(e: Envelope): (s: seq<byte>)
    requires |e.epoch| == 16
    ensures |s| >= ENVELOPE_HEADER
  {
    HeaderBytes(e) + RowsBytes(e.packets) + FactsBytes(e.progress)
  }

  // ---------------------------------------------------------------- parser

  function ParseRow(s: seq<byte>): Option<(Row, seq<byte>)> {
    if |s| < ROW_HEADER then None
    else
      FieldRanges(s);
      var captured := Field(s, 12, 4);
      if captured > |s| - ROW_HEADER then None
      else Some((Row(Field(s, 0, 4), ToSigned(Field(s, 4, 8)), captured, Field(s, 16, 4), Field(s, 20, 4),
                     Field(s, 24, 8), s[ROW_HEADER..ROW_HEADER + captured]),
                 s[ROW_HEADER + captured..]))
  }

  function ParseRows(s: seq<byte>, n: nat): Option<(seq<Row>, seq<byte>)> {
    if n == 0 then Some(([], s))
    else
      match ParseRow(s)
      case None => None
      case Some((row, rest)) => Prepend(row, ParseRows(rest, n - 1))
  }

  function Prepend(row: Row, tail: Option<(seq<Row>, seq<byte>)>): Option<(seq<Row>, seq<byte>)> {
    match tail
    case None => None
    case Some((rows, rest)) => Some(([row] + rows, rest))
  }

  function ParseFact(s: seq<byte>): Option<Fact>
    requires |s| >= FACT_SIZE
  {
    FactFieldRanges(s);
    if Field(s, 24, 1) > 3 || Field(s, 26, 2) != 0 then None
    else Some(Fact(Field(s, 0, 4), Field(s, 4, 4), 0, Field(s, 8, 8), ToSigned(Field(s, 16, 8)),
                   Field(s, 24, 1) % 2 == 1, Field(s, 24, 1) / 2 == 1, Field(s, 25, 1)))
  }

  function ParseFacts(s: seq<byte>): Option<seq<Fact>>
    requires |s| % FACT_SIZE == 0
  {
    if s == [] then Some([])
    else
      var head := ParseFact(s);
      var tail := ParseFacts(s[FACT_SIZE..]);
      if head.None? || tail.None? then None else Some([head.value] + tail.value)
  }

  /** The envelope header of `s`, with the two table sizes. */
  datatype Header = Header(epoch: seq<byte>, domain: u64, generation: u64, poll: u64, packets: u32, facts: u32)

  function ParseHeader(s: seq<byte>): (h: Option<Header>)
    ensures h.Some? ==> |s| >= ENVELOPE_HEADER && |h.value.epoch| == 16
  {
    if |s| < ENVELOPE_HEADER || s[..8] != Preamble() then None
    else
      HeaderFieldRanges(s);
      Some(Header(s[8..24], Field(s, 24, 8), Field(s, 32, 8), Field(s, 40, 8), Field(s, 48, 4), Field(s, 52, 4)))
  }

  /** The envelope that `s` lays out, if `s` is a well-formed layout. */
  function Parse(s: seq<byte>): Option<Envelope> {
    match ParseHeader(s)
    case None => None
    case Some(h) =>
      match ParseRows(s[ENVELOPE_HEADER..], h.packets)
      case None => None
      case Some((rows, rest)) =>
        if |rest| != FACT_SIZE * h.facts then None
        else
          match ParseFacts(rest)
          case None => None
          case Some(facts) => Some(Envelope(h.epoch, h.domain, h.generation, h.poll, rows, facts))
  }

  lemma FieldRanges(s: seq<byte>)
    requires |s| >= ROW_HEADER
    ensures Field(s, 0, 4) < 0x1_0000_0000 && Field(s, 12, 4) < 0x1_0000_0000
    ensures Field(s, 16, 4) < 0x1_0000_0000 && Field(s, 20, 4) < 0x1_0000_0000
    ensures Field(s, 4, 8) <= UINT64_MAX && Field(s, 24, 8) <= UINT64_MAX
  {
    Powers();
    FieldRange(s, 0, 4);
    FieldRange(s, 12, 4);
    FieldRange(s, 16, 4);
    FieldRange(s, 20, 4);
    FieldRange(s, 4, 8);
    FieldRange(s, 24, 8);
  }

  lemma FactFieldRanges(s: seq<byte>)
    requires |s| >= FACT_SIZE
    ensures Field(s, 0, 4) < 0x1_0000_0000 && Field(s, 4, 4) < 0x1_0000_0000
    ensures Field(s, 8, 8) <= UINT64_MAX && Field(s, 16, 8) <= UINT64_MAX
    ensures Field(s, 24, 1) < 256 && Field(s, 25, 1) < 256
  {
    Powers();
    FieldRange(s, 0, 4);
    FieldRange(s, 4, 4);
    FieldRange(s, 8, 8);
    FieldRange(s, 16, 8);
    FieldRange(s, 24, 1);
    FieldRange(s, 25, 1);
  }

  lemma HeaderFieldRanges(s: seq<byte>)
    requires |s| >= ENVELOPE_HEADER
    ensures Field(s, 24, 8) <= UINT64_MAX && Field(s, 32, 8) <= UINT64_MAX && Field(s, 40, 8) <= UINT64_MAX
    ensures Field(s, 48, 4) < 0x1_0000_0000 && Field(s, 52, 4) < 0x1_0000_0000
  {
    Powers();
    FieldRange(s, 24, 8);
    FieldRange(s, 32, 8);
    FieldRange(s, 40, 8);
    FieldRange(s, 48, 4);
    FieldRange(s, 52, 4);
  }

  // ----------------------------------------------- parser and layout are inverse

  /** The field that a concatenation starts with. */
  lemma FieldOf(s: seq<byte>, at: nat, v: nat, n: nat)
    requires v < Pow256(n) && at + n <= |s| && s[at..at + n] == BigEndian(v, n)
    ensures Field(s, at, n) == v
  {
    ValueOfBigEndian(v, n);
  }

  /** Where the fields of a laid-out row are. */
  lemma RowSlices(r: Row, rest: seq<byte>)
    requires |r.bytes| == r.capturedLen
    ensures var s := RowBytes(r) + rest;
      && |s| == ROW_HEADER + r.capturedLen + |rest|
      && s[0..4] == BigEndian(r.source, 4) && s[4..12] == BigEndian(ToUnsigned(r.timestamp), 8)
      && s[12..16] == BigEndian(r.capturedLen, 4) && s[16..20] == BigEndian(r.wireLen, 4)
      && s[20..24] == BigEndian(r.linkType, 4) && s[24..32] == BigEndian(r.sequence, 8)
      && s[ROW_HEADER..ROW_HEADER + r.capturedLen] == r.bytes && s[ROW_HEADER + r.capturedLen..] == rest
  {
    hide BigEndian, Field, Pow256, ToUnsigned;
  }

  lemma RowRoundTrip(r: Row, rest: seq<byte>)
    requires |r.bytes| == r.capturedLen
    ensures ParseRow(RowBytes(r) + rest) == Some((r, rest))
  {
    hide BigEndian, Field, Pow256;
    var s := RowBytes(r) + rest;
    Powers();
    RowSlices(r, rest);
    FieldOf(s, 0, r.source, 4);
    FieldOf(s, 4, ToUnsigned(r.timestamp), 8);
    FieldOf(s, 12, r.capturedLen, 4);
    FieldOf(s, 16, r.wireLen, 4);
    FieldOf(s, 20, r.linkType, 4);
    FieldOf(s, 24, r.sequence, 8);
  }

  /** A 32-byte string is its six fields. */
  lemma RowPieces(s: seq<byte>)
    requires |s| >= ROW_HEADER
    ensures s[..ROW_HEADER]
            == BigEndian(Field(s, 0, 4), 4) + BigEndian(Field(s, 4, 8), 8) + BigEndian(Field(s, 12, 4), 4)
               + BigEndian(Field(s, 16, 4), 4) + BigEndian(Field(s, 20, 4), 4) + BigEndian(Field(s, 24, 8), 8)
  {
    hide Field, BigEndian, Pow256;
    FieldRange(s, 0, 4);
    FieldRange(s, 4, 8);
    FieldRange(s, 12, 4);
    FieldRange(s, 16, 4);
    FieldRange(s, 20, 4);
    FieldRange(s, 24, 8);
    assert s[..16] == s[0..4] + s[4..12] + s[12..16];
    assert s[..32] == s[..16] + s[16..20] + s[20..24] + s[24..32];
  }

  lemma RowCanonical(s: seq<byte>)
    requires ParseRow(s).Some?
    ensures var (r, rest) := ParseRow(s).value; |r.bytes| == r.capturedLen && s == RowBytes(r) + rest
  {
    hide Field, BigEndian, Pow256;
    RowPieces(s);
    FieldRanges(s);
    var (r, rest) := ParseRow(s).value;
    assert RowHeader(r) == s[..32];
    assert s == s[..32] + r.bytes + rest;
  }

  lemma {:induction false} RowsRoundTrip(rows: seq<Row>, rest: seq<byte>)
    requires forall r | r in rows :: |r.bytes| == r.capturedLen
    ensures ParseRows(RowsBytes(rows) + rest, |rows|) == Some((rows, rest))
  {
    hide ParseRow, RowBytes;
    if rows == [] {
      assert RowsBytes(rows) + rest == rest;
    } else {
      var row, tail := rows[0], RowsBytes(rows[1..]) + rest;
      Assoc(RowBytes(row), RowsBytes(rows[1..]), rest);
      RowRoundTrip(row, tail);
      RowsRoundTrip(rows[1..], rest);
      assert rows == [row] + rows[1..];
    }
  }

  lemma {:induction false} RowsCanonical(s: seq<byte>, n: nat)
    requires ParseRows(s, n).Some?
    ensures var (rows, rest) := ParseRows(s, n).value;
            |rows| == n && s == RowsBytes(rows) + rest && forall r | r in rows :: |r.bytes| == r.capturedLen
    decreases n
  {
    hide ParseRow, RowBytes;
    if n == 0 {
      assert s == [] + s;
    } else {
      RowCanonical(s);
      var (row, tail) := ParseRow(s).value;
      RowsCanonical(tail, n - 1);
      var (rows, rest) := ParseRows(tail, n - 1).value;
      assert ([row] + rows)[1..] == rows;
      Assoc(RowBytes(row), RowsBytes(rows), rest);
    }
  }

  /** Where the fields of a laid-out fact are. */
  lemma FactSlices(f: Fact, rest: seq<byte>)
    ensures var s := FactBytes(f) + rest;
      && |s| == FACT_SIZE + |rest|
      && s[0..4] == BigEndian(f.source, 4) && s[4..8] == BigEndian(f.queue, 4) && s[8..16] == BigEndian(f.sequence, 8)
      && s[16..24] == BigEndian(ToUnsigned(f.time), 8) && s[24..25] == BigEndian(Flags(f), 1)
      && s[25..26] == BigEndian(f.backlog, 1) && s[26..28] == BigEndian(0, 2) && s[FACT_SIZE..] == rest
  {
    hide BigEndian, Field, Pow256, Flags, ToUnsigned;
  }

  lemma FactRoundTrip(f: Fact, rest: seq<byte>)
    ensures ParseFact(FactBytes(f) + rest) == Some(f.(generation := 0))
  {
    hide BigEndian, Field, Pow256;
    var s := FactBytes(f) + rest;
    Powers();
    FactSlices(f, rest);
    FieldOf(s, 0, f.source, 4);
    FieldOf(s, 4, f.queue, 4);
    FieldOf(s, 8, f.sequence, 8);
    FieldOf(s, 16, ToUnsigned(f.time), 8);
    FieldOf(s, 24, Flags(f), 1);
    FieldOf(s, 25, f.backlog, 1);
    FieldOf(s, 26, 0, 2);
  }

  /** A 28-byte string is its seven fields. */
  lemma FactPieces(s: seq<byte>)
    requires |s| >= FACT_SIZE
    ensures s[..FACT_SIZE]
            == BigEndian(Field(s, 0, 4), 4) + BigEndian(Field(s, 4, 4), 4) + BigEndian(Field(s, 8, 8), 8)
               + BigEndian(Field(s, 16, 8), 8) + BigEndian(Field(s, 24, 1), 1) + BigEndian(Field(s, 25, 1), 1)
               + BigEndian(Field(s, 26, 2), 2)
  {
    hide Field, BigEndian, Pow256;
    FieldRange(s, 0, 4);
    FieldRange(s, 4, 4);
    FieldRange(s, 8, 8);
    FieldRange(s, 16, 8);
    FieldRange(s, 24, 1);
    FieldRange(s, 25, 1);
    FieldRange(s, 26, 2);
    assert s[..16] == s[0..4] + s[4..8] + s[8..16];
    assert s[..25] == s[..16] + s[16..24] + s[24..25];
    assert s[..28] == s[..25] + s[25..26] + s[26..28];
  }

  lemma FactCanonical(s: seq<byte>)
    requires |s| >= FACT_SIZE && ParseFact(s).Some?
    ensures s[..FACT_SIZE] == FactBytes(ParseFact(s).value)
    ensures ParseFact(s).value.generation == 0
  {
    hide Field, BigEndian, Pow256;
    FactPieces(s);
    FactFieldRanges(s);
    assert Flags(ParseFact(s).value) == Field(s, 24, 1);
  }

  function StripFacts(facts: seq<Fact>): (r: seq<Fact>)
    ensures |r| == |facts| && forall i | 0 <= i < |facts| :: r[i] == facts[i].(generation := 0)
  {
    seq(|facts|, i requires 0 <= i < |facts| => facts[i].(generation := 0))
  }

  lemma {:induction false} FactsRoundTrip(facts: seq<Fact>)
    ensures ParseFacts(FactsBytes(facts)) == Some(StripFacts(facts))
  {
    if facts == [] {
    } else {
      hide FactBytes, ParseFact;
      FactRoundTrip(facts[0], FactsBytes(facts[1..]));
      FactSlices(facts[0], FactsBytes(facts[1..]));
      FactsRoundTrip(facts[1..]);
      assert StripFacts(facts) == [facts[0].(generation := 0)] + StripFacts(facts[1..]);
    }
  }

  lemma {:induction false} FactsCanonical(s: seq<byte>)
    requires |s| % FACT_SIZE == 0 && ParseFacts(s).Some?
    ensures var facts := ParseFacts(s).value;
            s == FactsBytes(facts) && forall f | f in facts :: f.generation == 0
    decreases |s|
  {
    hide ParseFact, FactBytes;
    if s == [] {
    } else {
      FactCanonical(s);
      FactsCanonical(s[FACT_SIZE..]);
      var facts := ParseFacts(s).value;
      assert facts[1..] == ParseFacts(s[FACT_SIZE..]).value;
      assert s == s[..FACT_SIZE] + s[FACT_SIZE..];
    }
  }

  /** What a decoded copy of `e` looks like: only the local fact generation is lost. */
  function Strip(e: Envelope): Envelope {
    e.(progress := StripFacts(e.progress))
  }

  /** `e` is `from` in everything, with the same facts in the same order, but that each carries this generation. */
  predicate Localized(e: Envelope, from: Envelope, generation: u64) {
    && e.epoch == from.epoch && e.domain == from.domain && e.generation == from.generation && e.poll == from.poll
    && e.packets == from.packets && |e.progress| == |from.progress|
    && forall i | 0 <= i < |e.progress| ::
         e.progress[i] == Fact(from.progress[i].source, from.progress[i].queue, generation, from.progress[i].sequence,
                               from.progress[i].time, from.progress[i].observed, from.progress[i].idle, from.progress[i].backlog)
  }

  lemma LocalizedThrough(e: Envelope, from: Envelope, original: Envelope, generation: u64)
    requires Localized(e, from, generation) && from == Strip(original)
    ensures Localized(e, original, generation)
  {
  }

  /** The sizes that the layout's own length fields can express. */
  predicate Fits(e: Envelope) {
    && |e.epoch| == 16 && |e.packets| < 0x1_0000_0000 && |e.progress| < 0x1_0000_0000
    && forall r | r in e.packets :: |r.bytes| == r.capturedLen
  }

  function HeaderOf(e: Envelope): Header
    requires Fits(e)
  {
    Header(e.epoch, e.domain, e.generation, e.poll, |e.packets|, |e.progress|)
  }

  lemma SliceField(s: seq<byte>, lo: nat, hi: nat, k: nat, n: nat)
    requires lo <= hi <= |s| && lo + k + n <= hi
    ensures Field(s[lo..hi], k, n) == Field(s, lo + k, n)
  {
    var a, b := s[lo..hi][k..k + n], s[lo + k..lo + k + n];
    assert forall i | 0 <= i < n :: a[i] == s[lo + k + i] == b[i];
    assert a == b;
  }

  lemma NumbersSlices(e: Envelope)
    ensures var t := Numbers(e);
      && |t| == 32 && t[0..8] == BigEndian(e.domain, 8) && t[8..16] == BigEndian(e.generation, 8)
      && t[16..24] == BigEndian(e.poll, 8) && t[24..28] == BigEndian(|e.packets|, 4)
      && t[28..32] == BigEndian(|e.progress|, 4)
  {
    hide BigEndian, Field, Pow256;
  }

  lemma NumbersRoundTrip(e: Envelope)
    requires Fits(e)
    ensures var t := Numbers(e);
            && Field(t, 0, 8) == e.domain && Field(t, 8, 8) == e.generation && Field(t, 16, 8) == e.poll
            && Field(t, 24, 4) == |e.packets| && Field(t, 28, 4) == |e.progress|
  {
    hide BigEndian, Field, Pow256;
    var t := Numbers(e);
    Powers();
    NumbersSlices(e);
    FieldOf(t, 0, e.domain, 8);
    FieldOf(t, 8, e.generation, 8);
    FieldOf(t, 16, e.poll, 8);
    FieldOf(t, 24, |e.packets|, 4);
    FieldOf(t, 28, |e.progress|, 4);
  }

  lemma NumbersFields(s: seq<byte>)
    requires |s| >= ENVELOPE_HEADER
    ensures var t := s[24..56];
            && Field(t, 0, 8) == Field(s, 24, 8) && Field(t, 8, 8) == Field(s, 32, 8) && Field(t, 16, 8) == Field(s, 40, 8)
            && Field(t, 24, 4) == Field(s, 48, 4) && Field(t, 28, 4) == Field(s, 52, 4)
  {
    SliceField(s, 24, 56, 0, 8);
    SliceField(s, 24, 56, 8, 8);
    SliceField(s, 24, 56, 16, 8);
    SliceField(s, 24, 56, 24, 4);
    SliceField(s, 24, 56, 28, 4);
  }

  lemma HeaderRoundTrip(e: Envelope, rest: seq<byte>)
    requires Fits(e)
    ensures ParseHeader(HeaderBytes(e) + rest) == Some(HeaderOf(e))
    ensures (HeaderBytes(e) + rest)[ENVELOPE_HEADER..] == rest
  {
    var s := HeaderBytes(e) + rest;
    assert s[..8] == Preamble();
    assert s[8..24] == e.epoch;
    assert s[24..56] == Numbers(e);
    NumbersRoundTrip(e);
    NumbersFields(s);
  }

  lemma NumbersCanonical(t: seq<byte>, e: Envelope)
    requires |t| == 32
    requires Field(t, 0, 8) == e.domain && Field(t, 8, 8) == e.generation && Field(t, 16, 8) == e.poll
    requires Field(t, 24, 4) == |e.packets| && Field(t, 28, 4) == |e.progress|
    ensures Numbers(e) == t
  {
    hide Field, BigEndian, Pow256;
    FieldRange(t, 0, 8);
    FieldRange(t, 8, 8);
    FieldRange(t, 16, 8);
    FieldRange(t, 24, 4);
    FieldRange(t, 28, 4);
    assert t == t[0..8] + t[8..16] + t[16..24] + t[24..28] + t[28..32];
  }

  lemma HeaderCanonical(s: seq<byte>, e: Envelope)
    requires Fits(e) && ParseHeader(s) == Some(HeaderOf(e))
    ensures HeaderBytes(e) == s[..ENVELOPE_HEADER]
  {
    hide Field, Numbers, Preamble;
    NumbersFields(s);
    NumbersCanonical(s[24..56], e);
    assert s[..56] == s[..8] + s[8..24] + s[24..56];
  }

  /** Parsing a layout gives the envelope back, apart from the local fact generation. */
  lemma ParseOfLayout(e: Envelope)
    requires Fits(e)
    ensures Parse(Layout(e)) == Some(Strip(e))
  {
    hide HeaderBytes, ParseHeader, RowsBytes, ParseRows, FactsBytes, ParseFacts;
    var rest := RowsBytes(e.packets) + FactsBytes(e.progress);
    assert Layout(e) == HeaderBytes(e) + rest;
    HeaderRoundTrip(e, rest);
    RowsRoundTrip(e.packets, FactsBytes(e.progress));
    FactsRoundTrip(e.progress);
  }

  lemma TablesCanonical(s: seq<byte>)
    requires Parse(s).Some?
    ensures var e := Parse(s).value;
            Fits(e) && Strip(e) == e && |e.epoch| == 16 && ParseHeader(s) == Some(HeaderOf(e))
            && s[ENVELOPE_HEADER..] == RowsBytes(e.packets) + FactsBytes(e.progress)
  {
    hide ParseHeader, ParseRow, ParseFact, RowBytes, FactBytes;
    var e, h := Parse(s).value, ParseHeader(s).value;
    RowsCanonical(s[ENVELOPE_HEADER..], h.packets);
    var (rows, rest) := ParseRows(s[ENVELOPE_HEADER..], h.packets).value;
    FactsCanonical(rest);
    assert FACT_SIZE * |e.progress| == |rest|;
    assert StripFacts(e.progress) == e.progress;
  }

  /** Whatever parses is exactly the layout of what it parses to. */
  lemma LayoutOfParse(s: seq<byte>)
    requires Parse(s).Some?
    ensures Fits(Parse(s).value) && Strip(Parse(s).value) == Parse(s).value
    ensures Layout(Parse(s).value) == s
  {
    hide Parse, ParseHeader, HeaderBytes, RowsBytes, FactsBytes, Strip, Fits;
    TablesCanonical(s);
    var e := Parse(s).value;
    HeaderCanonical(s, e);
    assert s == s[..ENVELOPE_HEADER] + s[ENVELOPE_HEADER..];
    assert Layout(e) == HeaderBytes(e) + (RowsBytes(e.packets) + FactsBytes(e.progress));
  }

  // --------------------------------------------------------- the wire contract

  /** The first configured input with this id. */
  function Lookup(inputs: seq<PacketInput>, id: u32): Option<PacketInput> {
    if inputs == [] then None
    else if inputs[0].sourceId == id then Some(inputs[0]) else Lookup(inputs[1..], id)
  }

  lemma {:induction false} LookupKnown(inputs: seq<PacketInput>, id: u32)
    ensures Lookup(inputs, id).Some? <==> exists i | 0 <= i < |inputs| :: inputs[i].sourceId == id
    ensures Lookup(inputs, id).Some? ==> Lookup(inputs, id).value.sourceId == id
  {
    if inputs == [] {
    } else if inputs[0].sourceId == id {
    } else {
      LookupKnown(inputs[1..], id);
      if i :| 0 <= i < |inputs| && inputs[i].sourceId == id {
        assert inputs[1..][i - 1].sourceId == id;
      }
    }
  }

  function RawBytes(rows: seq<Row>): nat {
    if rows == [] then 0 else RawBytes(rows[..|rows| - 1]) + |rows[|rows| - 1].bytes|
  }

  predicate RowMeets(c: SourceConfig, r: Row) {
    && Lookup(c.inputs, r.source).Some?
    && r.timestamp >= 0
    && r.capturedLen <= r.wireLen
    && r.linkType == 1
    && r.sequence != 0
    && |r.bytes| == r.capturedLen
  }

  /** The sequence after these rows, `last` being the one before them. */
  function LastSequence(rows: seq<Row>, last: u64): u64 {
    if rows == [] then last else rows[|rows| - 1].sequence
  }

  predicate Rising(rows: seq<Row>) {
    forall i, j | 0 <= i < j < |rows| :: rows[i].sequence < rows[j].sequence
  }

  /** Some packet of the batch came from this source. */
  predicate Observed(rows: seq<Row>, source: u32) {
    exists r | r in rows :: r.source == source
  }

  /** Some packet of this source was captured at `time` or later. */
  predicate CapturedBy(rows: seq<Row>, source: u32, time: i64) {
    exists r | r in rows :: r.source == source && time <= r.timestamp
  }

  predicate FactMeets(c: SourceConfig, rows: seq<Row>, f: Fact) {
    && Lookup(c.inputs, f.source).Some?
    && Lookup(c.inputs, f.source).value.queueId == f.queue
    && f.sequence != 0
    && f.time >= 0
    && !(f.observed && f.idle)
    && f.backlog <= 2
    && (f.observed <==> Observed(rows, f.source))
    && (f.observed ==> CapturedBy(rows, f.source, f.time))
  }

  predicate DistinctSources(facts: seq<Fact>) {
    forall i, j | 0 <= i < j < |facts| :: facts[i].source != facts[j].source
  }

  /** Everything the wire contract asks of an envelope except the message size. */
  predicate Meets(c: SourceConfig, e: Envelope) {
    && |e.epoch| == 16 && (exists b | b in e.epoch :: b != 0)
    && e.domain == c.domain && e.generation != 0 && e.poll != 0
    && |e.packets| <= 4096 && |e.packets| <= c.maxPackets && |e.progress| <= 32
    && (e.packets != [] || e.progress != [])
    && (forall r | r in e.packets :: RowMeets(c, r)) && Rising(e.packets) && RawBytes(e.packets) <= c.maxBytes
    && (forall f | f in e.progress :: FactMeets(c, e.packets, f)) && DistinctSources(e.progress)
  }

  function WireSize(e: Envelope): nat {
    ENVELOPE_HEADER + ROW_HEADER * |e.packets| + RawBytes(e.packets) + FACT_SIZE * |e.progress|
  }

  /** The whole wire contract. */
  predicate Contract(c: SourceConfig, e: Envelope) {
    Meets(c, e) && |c.streamId| + WireSize(e) <= c.maxMessageBytes
  }

  lemma {:induction false} RawBytesFront(rows: seq<Row>)
    requires rows != []
    ensures RawBytes(rows) == |rows[0].bytes| + RawBytes(rows[1..])
  {
    if |rows| > 1 {
      var front := rows[..|rows| - 1];
      RawBytesFront(front);
      assert front[1..] == rows[1..][..|rows| - 2];
    }
  }

  lemma {:induction false} RowsBytesSize(rows: seq<Row>)
    ensures |RowsBytes(rows)| == ROW_HEADER * |rows| + RawBytes(rows)
  {
    if rows != [] {
      RowsBytesSize(rows[1..]);
      RawBytesFront(rows);
    }
  }

  lemma {:induction false} RawBytesPrefix(rows: seq<Row>, k: nat)
    requires k <= |rows|
    ensures RawBytes(rows[..k]) <= RawBytes(rows)
    decreases |rows|
  {
    if k < |rows| {
      RawBytesPrefix(rows[..|rows| - 1], k);
      assert rows[..|rows| - 1][..k] == rows[..k];
    } else {
      assert rows[..k] == rows;
    }
  }

  /** `WireSize` is the size of the message value. */
  lemma LayoutSize(e: Envelope)
    requires |e.epoch| == 16
    ensures |Layout(e)| == WireSize(e)
  {
    RowsBytesSize(e.packets);
  }

  lemma StripMeets(c: SourceConfig, e: Envelope)
    ensures Meets(c, Strip(e)) <==> Meets(c, e)
    ensures WireSize(Strip(e)) == WireSize(e)
  {
    var s := StripFacts(e.progress);
    if Meets(c, e) {
      forall f | f in s ensures FactMeets(c, e.packets, f) {
        var i :| 0 <= i < |s| && s[i] == f;
        assert FactMeets(c, e.packets, e.progress[i]);
      }
    }
    if Meets(c, Strip(e)) {
      forall f | f in e.progress ensures FactMeets(c, e.packets, f) {
        var i :| 0 <= i < |s| && e.progress[i] == f;
        assert FactMeets(c, e.packets, s[i]);
      }
      assert forall i | 0 <= i < |s| :: s[i].source == e.progress[i].source;
    }
  }

  // ------------------------------------------------- what the codec has to compute

  datatype Result<+T> = Ok(value: T) | Invalid

  /** The messages a reader with configuration `c` may accept. */
  predicate Acceptable(c: SourceConfig, m: Message) {
    && !m.valueIsNull && !m.keyIsNull && m.key == c.streamId
    && |m.key| + |m.value| <= c.maxMessageBytes
    && Parse(m.value).Some? && Meets(c, Parse(m.value).value)
  }

  function Decoded(c: SourceConfig, m: Message): Result<Envelope> {
    if Acceptable(c, m) then Ok(Parse(m.value).value) else Invalid
  }

  function Carrier(c: SourceConfig, e: Envelope): Message
    requires |e.epoch| == 16
  {
    Message(0, 0, c.streamId, Layout(e), false, false)
  }

  function Encoded(c: SourceConfig, e: Envelope): Result<Message> {
    if Contract(c, e) then Ok(Carrier(c, e)) else Invalid
  }

  /** A message is acceptable exactly when it carries an envelope that meets the contract. */
  lemma AcceptableIffCarries(c: SourceConfig, m: Message)
    ensures Acceptable(c, m) <==>
            && !m.valueIsNull && !m.keyIsNull && m.key == c.streamId
            && exists e :: Contract(c, e) && m.value == Layout(e)
  {
    if Acceptable(c, m) {
      var e := Parse(m.value).value;
      LayoutOfParse(m.value);
      LayoutSize(e);
      assert Contract(c, e) && m.value == Layout(e);
    }
    if e :| Contract(c, e) && m.value == Layout(e) {
      assert Fits(e);
      ParseOfLayout(e);
      LayoutSize(e);
      StripMeets(c, e);
    }
  }

  /** Encoding succeeds and decodes back, for every envelope that meets the contract. */
  lemma DecodeOfEncode(c: SourceConfig, e: Envelope, partition: int, offset: i64)
    requires Encoded(c, e).Ok?
    ensures Decoded(c, Encoded(c, e).value.(partition := partition, offset := offset)) == Ok(Strip(e))
  {
    assert Fits(e);
    ParseOfLayout(e);
    LayoutSize(e);
    StripMeets(c, e);
  }

  /** Re-encoding whatever was accepted gives back the same key and value bytes. */
  lemma EncodeOfDecode(c: SourceConfig, m: Message)
    requires Decoded(c, m).Ok?
    ensures Encoded(c, Decoded(c, m).value) == Ok(m.(partition := 0, offset := 0))
  {
    LayoutOfParse(m.value);
    LayoutSize(Parse(m.value).value);
  }

  /** Two contract-meeting envelopes with the same bytes are the same on the wire. */
  lemma EncodeInjective(c: SourceConfig, d: Envelope, e: Envelope)
    requires Contract(c, d) && Contract(c, e) && Encoded(c, d) == Encoded(c, e)
    ensures Strip(d) == Strip(e)
  {
    DecodeOfEncode(c, d, 0, 0);
    DecodeOfEncode(c, e, 0, 0);
  }
}
