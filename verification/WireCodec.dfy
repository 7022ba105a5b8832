/** The encoder and the strict decoder, as loops over the message bytes. */
module WireCodec {
  import opened Bytes
  import opened PacketWire

  lemma SuffixField(b: seq<byte>, at: nat, k: nat, n: nat)
    requires at + k + n <= |b|
    ensures Field(b[at..], k, n) == Field(b, at + k, n)
  {
    assert b[at..][k..k + n] == b[at + k..at + k + n];
  }

  lemma SuffixFields(b: seq<byte>, at: nat)
    requires at + ROW_HEADER <= |b|
    ensures Field(b[at..], 0, 4) == Field(b, at, 4) && Field(b[at..], 4, 8) == Field(b, at + 4, 8)
    ensures Field(b[at..], 12, 4) == Field(b, at + 12, 4) && Field(b[at..], 16, 4) == Field(b, at + 16, 4)
    ensures Field(b[at..], 20, 4) == Field(b, at + 20, 4) && Field(b[at..], 24, 8) == Field(b, at + 24, 8)
  {
    SuffixField(b, at, 0, 4);
    SuffixField(b, at, 4, 8);
    SuffixField(b, at, 12, 4);
    SuffixField(b, at, 16, 4);
    SuffixField(b, at, 20, 4);
    SuffixField(b, at, 24, 8);
  }

  lemma SuffixFactFields(b: seq<byte>, at: nat)
    requires at + FACT_SIZE <= |b|
    ensures Field(b[at..], 0, 4) == Field(b, at, 4) && Field(b[at..], 4, 4) == Field(b, at + 4, 4)
    ensures Field(b[at..], 8, 8) == Field(b, at + 8, 8) && Field(b[at..], 16, 8) == Field(b, at + 16, 8)
    ensures Field(b[at..], 24, 1) == Field(b, at + 24, 1) && Field(b[at..], 25, 1) == Field(b, at + 25, 1)
    ensures Field(b[at..], 26, 2) == Field(b, at + 26, 2)
  {
    SuffixField(b, at, 0, 4);
    SuffixField(b, at, 4, 4);
    SuffixField(b, at, 8, 8);
    SuffixField(b, at, 16, 8);
    SuffixField(b, at, 24, 1);
    SuffixField(b, at, 25, 1);
    SuffixField(b, at, 26, 2);
  }

  /** Finds the first configured input with this id. */
  method Input(c: SourceConfig, id: u32) returns (input: Option<PacketInput>)
    ensures input == Lookup(c.inputs, id)
  {
    var i := 0;
    while i < |c.inputs|
      invariant 0 <= i <= |c.inputs|
      invariant Lookup(c.inputs, id) == Lookup(c.inputs[i..], id)
    {
      if c.inputs[i].sourceId == id {
        return Some(c.inputs[i]);
      }
      i := i + 1;
    }
    input := None;
  }

  /** `latest` maps every source of `rows` to its greatest timestamp. */
  ghost predicate IsLatest(rows: seq<Row>, latest: map<u32, i64>) {
    && (forall r | r in rows :: r.source in latest && r.timestamp <= latest[r.source])
    && (forall s | s in latest :: exists r | r in rows :: r.source == s && r.timestamp == latest[s])
  }

  /** What is left to parse after some rows, put back in front of the rest. */
  function Continue(rows: seq<Row>, tail: Option<(seq<Row>, seq<byte>)>): Option<(seq<Row>, seq<byte>)> {
    match tail
    case None => None
    case Some((more, rest)) => Some((rows + more, rest))
  }

  lemma ContinueNil(tail: Option<(seq<Row>, seq<byte>)>)
    ensures Continue([], tail) == tail
  {
    if tail.Some? {
      assert [] + tail.value.0 == tail.value.0;
    }
  }

  lemma ContinueStep(rows: seq<Row>, s: seq<byte>, n: nat)
    requires n > 0 && ParseRow(s).Some?
    ensures Continue(rows, ParseRows(s, n)) == Continue(rows + [ParseRow(s).value.0], ParseRows(ParseRow(s).value.1, n - 1))
  {
    var (row, rest) := ParseRow(s).value;
    if ParseRows(rest, n - 1).Some? {
      var more := ParseRows(rest, n - 1).value.0;
      assert rows + ([row] + more) == (rows + [row]) + more;
    }
  }

  /** The greatest timestamps after one more row of this source. */
  function Later(latest: map<u32, i64>, source: u32, time: i64): map<u32, i64> {
    latest[source := if source in latest && latest[source] > time then latest[source] else time]
  }

  lemma LatestStep(rows: seq<Row>, latest: map<u32, i64>, row: Row)
    requires IsLatest(rows, latest)
    ensures IsLatest(rows + [row], Later(latest, row.source, row.timestamp))
  {
    var next := Later(latest, row.source, row.timestamp);
    forall s | s in next
      ensures exists r | r in rows + [row] :: r.source == s && r.timestamp == next[s]
    {
      if s == row.source && (s !in latest || latest[s] <= row.timestamp) {
        assert row in rows + [row];
      } else {
        var r :| r in rows && r.source == s && r.timestamp == latest[s];
        assert r in rows + [row];
      }
    }
  }

  /** Records a row's timestamp, starting each source at 0. */
  method Note(latest: map<u32, i64>, source: u32, time: i64) returns (next: map<u32, i64>)
    requires time >= 0
    ensures next == Later(latest, source, time)
  {
    var seen := if source in latest then latest[source] else 0;
    next := latest[source := if seen < time then time else seen];
  }

  /** The packet table meets the contract. */
  predicate RowsMeet(c: SourceConfig, rows: seq<Row>) {
    (forall r | r in rows :: RowMeets(c, r)) && Rising(rows) && RawBytes(rows) <= c.maxBytes
  }

  /** The rows that the preflight scan has accepted so far. */
  ghost predicate RowsScanned(c: SourceConfig, rows: seq<Row>, raw: int, sequence: int) {
    && RowsMeet(c, rows)
    && raw == RawBytes(rows)
    && sequence == (if rows == [] then 0 else rows[|rows| - 1].sequence)
  }

  /** What the parser makes of the `left` rows that start at `at`. */
  function RowsFrom(b: seq<byte>, at: nat, left: nat): Option<(seq<Row>, seq<byte>)>
    requires at <= |b|
  {
    ParseRows(b[at..], left)
  }

  function RowAt(b: seq<byte>, at: nat): Option<Row>
    requires at <= |b|
  {
    match ParseRow(b[at..]) case None => None case Some((row, _)) => Some(row)
  }

  /** One step of the packet table, at a byte position. */
  lemma RowStepAt(rows: seq<Row>, b: seq<byte>, at: nat, left: nat)
    requires at <= |b| && left > 0
    ensures RowAt(b, at).None? ==> Continue(rows, RowsFrom(b, at, left)).None?
    ensures RowAt(b, at).Some? ==>
              var row := RowAt(b, at).value;
              && at + 32 + row.capturedLen <= |b| && |row.bytes| == row.capturedLen
              && Continue(rows, RowsFrom(b, at, left))
                 == Continue(rows + [row], RowsFrom(b, at + 32 + row.capturedLen, left - 1))
  {
    if RowAt(b, at).Some? {
      RowFields(b, at);
      hide ParseRow;
      ContinueStep(rows, b[at..], left);
    }
  }

  /** Reads and checks the row at `at`, which follows a row numbered `sequence`. */
  method ScanRow(c: SourceConfig, b: seq<byte>, at: nat, sequence: int)
    returns (ok: bool, source: u32, time: i64, captured: u32, next: u64)
    requires at <= |b| && sequence >= 0
    ensures ok <==> RowAt(b, at).Some? && RowMeets(c, RowAt(b, at).value) && RowAt(b, at).value.sequence > sequence
    ensures ok ==> var row := RowAt(b, at).value;
            time >= 0 && source == row.source && time == row.timestamp && captured == row.capturedLen && next == row.sequence
  {
    source, time, captured, next := 0, 0, 0, 0;
    ok := false;
    if |b| - at < 32 {
      return;
    }
    SuffixFields(b, at);
    FieldRanges(b[at..]);
    source := Get(b, at, 4);
    var stamp := Get(b, at + 4, 8);
    captured := Get(b, at + 12, 4);
    var wire := Get(b, at + 16, 4);
    var link := Get(b, at + 20, 4);
    next := Get(b, at + 24, 8);
    var input := Input(c, source);
    hide Value, Pow256, Lookup;
    if input.None? || stamp > INT64_MAX || wire < captured || link != 1 || next == 0 || next <= sequence
      || captured > |b| - at - 32
    {
      return;
    }
    time := stamp;
    ok := true;
  }

  lemma RowNumbered(c: SourceConfig, row: Row)
    requires RowMeets(c, row)
    ensures row.sequence > 0
  {
  }

  lemma RawBytesSnoc(rows: seq<Row>, row: Row)
    ensures RawBytes(rows + [row]) == RawBytes(rows) + |row.bytes|
  {
    assert (rows + [row])[..|rows|] == rows;
  }

  lemma ExtendRows(c: SourceConfig, rows: seq<Row>, raw: int, sequence: int, row: Row)
    requires RowsScanned(c, rows, raw, sequence) && |row.bytes| == row.capturedLen
    ensures if RowMeets(c, row) && row.sequence > sequence && raw + row.capturedLen <= c.maxBytes
            then RowsScanned(c, rows + [row], raw + row.capturedLen, row.sequence)
            else !RowsMeet(c, rows + [row])
  {
    hide RowMeets, RawBytes;
    var next := rows + [row];
    assert row in next;
    RawBytesSnoc(rows, row);
    if RowMeets(c, row) {
      RowNumbered(c, row);
    }
    if row.sequence <= sequence && rows != [] {
      assert next[|rows| - 1].sequence >= next[|rows|].sequence;
    }
  }

  /** Where the scan stands: the next byte, the bytes seen, the last sequence, the latest times. */
  datatype Cursor = Cursor(at: nat, raw: nat, sequence: nat, observed: map<u32, i64>)

  ghost predicate Scanned(c: SourceConfig, rows: seq<Row>, at: Cursor) {
    RowsScanned(c, rows, at.raw, at.sequence) && IsLatest(rows, at.observed)
  }

  /** No envelope that meets the contract has a packet table of this form. */
  ghost predicate Refuted(c: SourceConfig, p: Option<(seq<Row>, seq<byte>)>) {
    p.None? || !RowsMeet(c, p.value.0)
  }

  /** The row that the scan meets next is acceptable there. */
  ghost predicate NextGood(c: SourceConfig, at: Cursor, row: Option<Row>) {
    && row.Some? && RowMeets(c, row.value) && row.value.sequence > at.sequence
    && at.raw + row.value.capturedLen <= c.maxBytes
  }

  function Advance(at: Cursor, row: Row): Cursor {
    Cursor(at.at + 32 + row.capturedLen, at.raw + row.capturedLen, row.sequence, Later(at.observed, row.source, row.timestamp))
  }

  lemma StepVerdict(c: SourceConfig, at: Cursor, rows: seq<Row>, row: Row)
    requires Scanned(c, rows, at) && |row.bytes| == row.capturedLen
    ensures if NextGood(c, at, Some(row)) then Scanned(c, rows + [row], Advance(at, row)) else !RowsMeet(c, rows + [row])
  {
    hide RowMeets, RowsMeet, RowsScanned, IsLatest, Later;
    ExtendRows(c, rows, at.raw, at.sequence, row);
    LatestStep(rows, at.observed, row);
  }

  lemma ScanStep(c: SourceConfig, b: seq<byte>, at: Cursor, rows: seq<Row>, left: nat)
    requires at.at <= |b| && left > 0 && Scanned(c, rows, at)
    ensures var row := RowAt(b, at.at);
            if NextGood(c, at, row) then
              && Advance(at, row.value).at <= |b|
              && Scanned(c, rows + [row.value], Advance(at, row.value))
              && Continue(rows, RowsFrom(b, at.at, left))
                 == Continue(rows + [row.value], RowsFrom(b, Advance(at, row.value).at, left - 1))
            else Refuted(c, Continue(rows, RowsFrom(b, at.at, left)))
  {
    hide *;
    var row := RowAt(b, at.at);
    RowStepAt(rows, b, at.at, left);
    NextGoodSome(c, at, row);
    if row.Some? {
      StepVerdict(c, at, rows, row.value);
      AdvanceAt(at, row.value);
    }
    if !NextGood(c, at, row) {
      RefutedStep(c, rows, row, Continue(rows, RowsFrom(b, at.at, left)),
                  if row.Some? then RowsFrom(b, at.at + 32 + row.value.capturedLen, left - 1) else None);
    }
  }

  lemma AdvanceAt(at: Cursor, row: Row)
    ensures Advance(at, row).at == at.at + 32 + row.capturedLen
  {
  }

  lemma RefutedStep(c: SourceConfig, rows: seq<Row>, row: Option<Row>, p: Option<(seq<Row>, seq<byte>)>,
                    tail: Option<(seq<Row>, seq<byte>)>)
    requires row.None? ==> p.None?
    requires row.Some? ==> p == Continue(rows + [row.value], tail) && !RowsMeet(c, rows + [row.value])
    ensures Refuted(c, p)
  {
    if row.Some? {
      RejectedRow(c, rows + [row.value], tail);
    }
  }

  lemma NextGoodSome(c: SourceConfig, at: Cursor, row: Option<Row>)
    ensures NextGood(c, at, row) ==> row.Some?
  {
  }

  /** One turn of the packet loop. */
  method ScanOne(c: SourceConfig, b: seq<byte>, at: Cursor) returns (ok: bool, next: Cursor)
    requires at.at <= |b|
    ensures ok <==> NextGood(c, at, RowAt(b, at.at))
    ensures ok ==> next == Advance(at, RowAt(b, at.at).value)
  {
    hide RowAt, RowMeets, Later;
    var good, source, time, captured, sequence := ScanRow(c, b, at.at, at.sequence);
    if !good || at.raw + captured > c.maxBytes {
      return false, at;
    }
    var observed := Note(at.observed, source, time);
    return true, Cursor(at.at + 32 + captured, at.raw + captured, sequence, observed);
  }

  /** Scans the packet table; `at` is where the fact table has to start. */
  method ScanRows(c: SourceConfig, b: seq<byte>, packets: nat)
    returns (ok: bool, at: nat, observed: map<u32, i64>, ghost rows: seq<Row>)
    requires |b| >= ENVELOPE_HEADER
    ensures !ok <==> Refuted(c, RowsFrom(b, ENVELOPE_HEADER, packets))
    ensures ok ==> at <= |b| && RowsFrom(b, ENVELOPE_HEADER, packets) == Some((rows, b[at..]))
    ensures ok ==> IsLatest(rows, observed)
  {
    hide RowsFrom, RowAt, NextGood, Scanned, Refuted, Continue, Advance, IsLatest;
    var cursor := Cursor(56, 0, 0, map[]);
    rows := [];
    var i := 0;
    ContinueNil(RowsFrom(b, 56, packets));
    ScanStart(c);
    while i < packets
      invariant 0 <= i <= packets && cursor.at <= |b|
      invariant Scanned(c, rows, cursor)
      invariant RowsFrom(b, 56, packets) == Continue(rows, RowsFrom(b, cursor.at, packets - i))
    {
      ScanStep(c, b, cursor, rows, packets - i);
      NextGoodSome(c, cursor, RowAt(b, cursor.at));
      var good, next := ScanOne(c, b, cursor);
      if !good {
        return false, cursor.at, cursor.observed, rows;
      }
      rows := rows + [RowAt(b, cursor.at).value];
      cursor := next;
      i := i + 1;
    }
    ContinueEnd(rows, b, cursor.at);
    ScannedAll(c, rows, cursor, b[cursor.at..]);
    return true, cursor.at, cursor.observed, rows;
  }

  lemma ScanStart(c: SourceConfig)
    ensures Scanned(c, [], Cursor(56, 0, 0, map[]))
  {
  }

  lemma ScannedAll(c: SourceConfig, rows: seq<Row>, at: Cursor, rest: seq<byte>)
    requires Scanned(c, rows, at)
    ensures !Refuted(c, Some((rows, rest))) && IsLatest(rows, at.observed)
  {
  }

  lemma ContinueEnd(rows: seq<Row>, b: seq<byte>, at: nat)
    requires at <= |b|
    ensures Continue(rows, RowsFrom(b, at, 0)) == Some((rows, b[at..]))
  {
    assert rows + [] == rows;
  }

  /** Once a scanned prefix breaks the contract, no continuation can repair it. */
  lemma RejectedRow(c: SourceConfig, rows: seq<Row>, tail: Option<(seq<Row>, seq<byte>)>)
    requires !RowsMeet(c, rows)
    ensures Continue(rows, tail).None? || !RowsMeet(c, Continue(rows, tail).value.0)
  {
    if tail.Some? {
      var all := rows + tail.value.0;
      assert all[..|rows|] == rows;
      RawBytesPrefix(all, |rows|);
      if r :| r in rows && !RowMeets(c, r) {
        assert r in all;
      } else if !Rising(rows) {
        var i, j :| 0 <= i < j < |rows| && rows[i].sequence >= rows[j].sequence;
        assert all[i].sequence >= all[j].sequence;
      }
    }
  }

  /** The fact table meets the contract for these rows. */
  predicate FactsMeet(c: SourceConfig, rows: seq<Row>, facts: seq<Fact>) {
    (forall f | f in facts :: FactMeets(c, rows, f)) && DistinctSources(facts)
  }

  function Followed(facts: seq<Fact>, tail: Option<seq<Fact>>): Option<seq<Fact>> {
    if tail.None? then None else Some(facts + tail.value)
  }

  lemma FactStep(facts: seq<Fact>, s: seq<byte>)
    requires s != [] && |s| % FACT_SIZE == 0
    ensures ParseFact(s).None? ==> Followed(facts, ParseFacts(s)).None?
    ensures ParseFact(s).Some? ==>
              Followed(facts, ParseFacts(s)) == Followed(facts + [ParseFact(s).value], ParseFacts(s[FACT_SIZE..]))
  {
    hide ParseFact;
    var tail := ParseFacts(s[FACT_SIZE..]);
    if ParseFact(s).Some? && tail.Some? {
      assert ParseFacts(s) == Some([ParseFact(s).value] + tail.value);
      hide ParseFacts;
      Assoc(facts, [ParseFact(s).value], tail.value);
    }
  }

  lemma RejectedFact(c: SourceConfig, rows: seq<Row>, facts: seq<Fact>, tail: Option<seq<Fact>>)
    requires !FactsMeet(c, rows, facts)
    ensures Followed(facts, tail).None? || !FactsMeet(c, rows, Followed(facts, tail).value)
  {
    if tail.Some? {
      var all := facts + tail.value;
      assert all[..|facts|] == facts;
      if f :| f in facts && !FactMeets(c, rows, f) {
        assert f in all;
      } else {
        var i, j :| 0 <= i < j < |facts| && facts[i].source == facts[j].source;
        assert all[i].source == all[j].source;
      }
    }
  }

  /** What the seven reads of one fact mean. */
  lemma FactFields(b: seq<byte>, at: nat)
    requires at + FACT_SIZE <= |b|
    ensures Field(b, at + 24, 1) < 256 && Field(b, at + 25, 1) < 256
    ensures Field(b, at, 4) < 0x1_0000_0000 && Field(b, at + 4, 4) < 0x1_0000_0000
    ensures Field(b, at + 8, 8) <= UINT64_MAX && Field(b, at + 16, 8) <= UINT64_MAX
    ensures ParseFact(b[at..]) ==
            if Field(b, at + 24, 1) > 3 || Field(b, at + 26, 2) != 0 then None
            else Some(Fact(Field(b, at, 4), Field(b, at + 4, 4), 0, Field(b, at + 8, 8), ToSigned(Field(b, at + 16, 8)),
                           Field(b, at + 24, 1) % 2 == 1, Field(b, at + 24, 1) / 2 == 1, Field(b, at + 25, 1)))
  {
    SuffixFactFields(b, at);
    FactFieldRanges(b[at..]);
    hide Field;
  }

  /** The scan's view of one fact agrees with the contract. */
  lemma FactVerdict(c: SourceConfig, rows: seq<Row>, latest: map<u32, i64>, f: Fact)
    requires IsLatest(rows, latest)
    ensures FactMeets(c, rows, f) <==>
            && Lookup(c.inputs, f.source).Some? && Lookup(c.inputs, f.source).value.queueId == f.queue
            && f.sequence != 0 && f.time >= 0 && !(f.observed && f.idle) && f.backlog <= 2
            && (f.observed <==> f.source in latest)
            && (f.observed ==> f.time <= latest[f.source])
  {
    if f.source in latest {
      var r :| r in rows && r.source == f.source && r.timestamp == latest[f.source];
    }
  }

  ghost predicate SourcesOf(done: seq<Fact>, seen: set<u32>) {
    forall s :: s in seen <==> exists f | f in done :: f.source == s
  }

  lemma NoFacts(c: SourceConfig, rows: seq<Row>)
    ensures FactsMeet(c, rows, []) && SourcesOf([], {})
  {
  }

  lemma ExtendFacts(c: SourceConfig, rows: seq<Row>, done: seq<Fact>, seen: set<u32>, f: Fact)
    requires FactsMeet(c, rows, done)
    requires SourcesOf(done, seen)
    ensures FactsMeet(c, rows, done + [f]) <==> FactMeets(c, rows, f) && f.source !in seen
    ensures SourcesOf(done + [f], seen + {f.source})
  {
    hide FactMeets;
    var next := done + [f];
    assert f in next;
    if f.source in seen {
      var g :| g in done && g.source == f.source;
      var j :| 0 <= j < |done| && done[j] == g;
      assert next[j].source == next[|done|].source;
    } else {
      assert forall j | 0 <= j < |done| :: done[j] in done;
    }
    forall s
      ensures s in seen + {f.source} <==> exists g | g in next :: g.source == s
    {
      if s in seen {
        var g :| g in done && g.source == s;
        assert g in next;
      }
    }
  }

  /** Checks the fact at `at`; `seen` holds the sources of the facts before it. */
  method ScanFact(c: SourceConfig, b: seq<byte>, at: nat, seen: set<u32>, observed: map<u32, i64>, ghost rows: seq<Row>)
    returns (ok: bool, source: u32)
    requires at + FACT_SIZE <= |b|
    requires IsLatest(rows, observed)
    ensures ok <==> FactAt(b, at).Some? && FactMeets(c, rows, FactAt(b, at).value)
                    && FactAt(b, at).value.source !in seen
    ensures ok ==> source == FactAt(b, at).value.source
  {
    FactFields(b, at);
    if FactAt(b, at).Some? {
      FactVerdict(c, rows, observed, FactAt(b, at).value);
    }
    hide ParseFact, FactMeets, IsLatest, Lookup;
    source := Get(b, at, 4);
    var input := Input(c, source);
    var queue := Get(b, at + 4, 4);
    var sequence := Get(b, at + 8, 8);
    var time := Get(b, at + 16, 8);
    var flags := Get(b, at + 24, 1);
    var backlog := Get(b, at + 25, 1);
    var reserved := Get(b, at + 26, 2);
    ok := !(input.None? || input.value.queueId != queue || source in seen || sequence == 0
            || time > INT64_MAX || flags > 3 || flags == 3 || backlog > 2 || reserved != 0
            || (flags % 2 == 1) != (source in observed)
            || (flags % 2 == 1 && time > observed[source]));
  }

  /** What the parser makes of the facts that fill the message from `at` on. */
  function FactsFrom(b: seq<byte>, at: nat): Option<seq<Fact>>
    requires at <= |b| && (|b| - at) % FACT_SIZE == 0
  {
    ParseFacts(b[at..])
  }

  function FactAt(b: seq<byte>, at: nat): Option<Fact>
    requires at + FACT_SIZE <= |b|
  {
    ParseFact(b[at..])
  }

  /** One step of the fact table, at a byte position. */
  lemma FactStepAt(facts: seq<Fact>, b: seq<byte>, at: nat, left: nat)
    requires at <= |b| && |b| - at == FACT_SIZE * left && left > 0
    ensures FactAt(b, at).None? ==> Followed(facts, FactsFrom(b, at)).None?
    ensures FactAt(b, at).Some? ==>
              Followed(facts, FactsFrom(b, at))
              == Followed(facts + [FactAt(b, at).value], FactsFrom(b, at + FACT_SIZE))
  {
    hide ParseFact, ParseFacts;
    FactStep(facts, b[at..]);
    assert b[at..][FACT_SIZE..] == b[at + FACT_SIZE..];
  }

  /** Scans the fact table, which starts at `start` and has to fill the rest of the message. */
  method ScanFacts(c: SourceConfig, b: seq<byte>, start: nat, facts: nat, observed: map<u32, i64>, ghost rows: seq<Row>)
    returns (ok: bool)
    requires start <= |b| && |b| - start == FACT_SIZE * facts
    requires IsLatest(rows, observed)
    ensures ok <==> FactsFrom(b, start).Some? && FactsMeet(c, rows, FactsFrom(b, start).value)
  {
    hide FactAt, FactsFrom, FactMeets, FactsMeet, IsLatest, Followed, SourcesOf;
    var at := start;
    var seen: set<u32> := {};
    ghost var done: seq<Fact> := [];
    var i := 0;
    FollowedNil(FactsFrom(b, start));
    NoFacts(c, rows);
    while i < facts
      invariant 0 <= i <= facts && at == start + FACT_SIZE * i
      invariant FactsMeet(c, rows, done) && SourcesOf(done, seen)
      invariant Followed(done, FactsFrom(b, at)) == FactsFrom(b, start)
    {
      FactStepAt(done, b, at, facts - i);
      var good, source := ScanFact(c, b, at, seen, observed, rows);
      ghost var fact := FactAt(b, at);
      if fact.Some? {
        ExtendFacts(c, rows, done, seen, fact.value);
      }
      if !good {
        if fact.Some? {
          RejectedFact(c, rows, done + [fact.value], FactsFrom(b, at + FACT_SIZE));
        }
        return false;
      }
      seen := seen + {source};
      done := done + [fact.value];
      at := at + 28;
      i := i + 1;
    }
    FollowedEnd(b, done);
    return true;
  }

  lemma FollowedNil(tail: Option<seq<Fact>>)
    ensures Followed([], tail) == tail
  {
    if tail.Some? {
      assert [] + tail.value == tail.value;
    }
  }

  lemma FollowedEnd(b: seq<byte>, facts: seq<Fact>)
    ensures Followed(facts, FactsFrom(b, |b|)) == Some(facts)
  {
    assert b[|b|..] == [];
    assert facts + [] == facts;
  }

  method AllZero(s: seq<byte>) returns (zero: bool)
    ensures zero <==> !exists b | b in s :: b != 0
  {
    for i := 0 to |s|
      invariant forall j | 0 <= j < i :: s[j] == 0
    {
      if s[i] != 0 {
        assert s[i] in s;
        return false;
      }
    }
    return true;
  }

  /** The fixed-size part of the contract, read from the header. */
  predicate HeaderMeets(c: SourceConfig, h: Header) {
    && |h.epoch| == 16 && (exists b | b in h.epoch :: b != 0)
    && h.domain == c.domain && h.generation != 0 && h.poll != 0
    && h.packets <= 4096 && h.packets <= c.maxPackets && h.facts <= 32 && (h.packets != 0 || h.facts != 0)
  }

  lemma PreambleFields(b: seq<byte>)
    requires |b| >= ENVELOPE_HEADER
    ensures b[..8] == Preamble() <==> b[..4] == MAGIC && Field(b, 4, 2) == 1 && Field(b, 6, 2) == 0
  {
    Powers();
    FieldRange(b, 4, 2);
    FieldRange(b, 6, 2);
    assert b[..8] == b[..4] + b[4..6] + b[6..8];
    var p := Preamble();
    assert p[..4] == MAGIC && p[4..6] == BigEndian(1, 2) && p[6..8] == BigEndian(0, 2);
    FieldOf(p, 4, 1, 2);
    FieldOf(p, 6, 0, 2);
    if b[..8] == p {
      assert b[4..6] == p[4..6] && b[6..8] == p[6..8] && b[..4] == p[..4];
    }
  }

  method PreflightHeader(c: SourceConfig, b: seq<byte>) returns (ok: bool)
    requires |b| >= ENVELOPE_HEADER
    ensures ok <==> ParseHeader(b).Some? && HeaderMeets(c, ParseHeader(b).value)
  {
    PreambleFields(b);
    HeaderFieldRanges(b);
    hide Preamble, Value, Pow256;
    if b[..4] != MAGIC {
      return false;
    }
    var version := Get(b, 4, 2);
    var reserved := Get(b, 6, 2);
    var blank := AllZero(b[8..24]);
    var domain := Get(b, 24, 8);
    var generation := Get(b, 32, 8);
    var poll := Get(b, 40, 8);
    if version != 1 || reserved != 0 || blank || domain != c.domain || generation == 0 || poll == 0 {
      return false;
    }
    var packets := Get(b, 48, 4);
    var facts := Get(b, 52, 4);
    return !(packets > 4096 || packets > c.maxPackets || facts > 32 || (packets == 0 && facts == 0));
  }

  /** The contract splits into a header, a row table and a fact table. */
  lemma MeetsByParts(c: SourceConfig, b: seq<byte>)
    requires Parse(b).Some?
    ensures var e := Parse(b).value;
            Meets(c, e) <==>
            && HeaderMeets(c, ParseHeader(b).value)
            && RowsMeet(c, e.packets) && FactsMeet(c, e.packets, e.progress)
  {
    TablesCanonical(b);
    hide ParseHeader, ParseRows, ParseFacts, RowMeets, FactMeets, Rising;
  }

  /** The strict scan that runs before anything is allocated. */
  method Preflight(c: SourceConfig, m: Message) returns (ok: bool)
    ensures ok <==> Acceptable(c, m)
  {
    var b := m.value;
    if m.valueIsNull || m.keyIsNull || m.key != c.streamId || |m.key| > c.maxMessageBytes
      || |b| > c.maxMessageBytes - |m.key| || |b| < 56
    {
      return false;
    }
    if Parse(b).Some? {
      MeetsByParts(c, b);
    }
    hide Meets, HeaderMeets, RowsMeet, FactsMeet, ParseRows, ParseFacts, IsLatest;
    var headerOk := PreflightHeader(c, b);
    if !headerOk {
      return false;
    }
    var packets := Get(b, 48, 4);
    var facts := Get(b, 52, 4);
    var rowsOk, at, observed, rows := ScanRows(c, b, packets);
    if !rowsOk {
      return false;
    }
    if |b| - at != facts * 28 {
      return false;
    }
    ok := ScanFacts(c, b, at, facts, observed, rows);
  }

  lemma RowFields(b: seq<byte>, at: nat)
    requires at <= |b| && ParseRow(b[at..]).Some?
    ensures at + 32 <= |b|
    ensures var captured := Field(b, at + 12, 4);
            && at + 32 + captured <= |b|
            && Field(b, at, 4) < 0x1_0000_0000 && captured < 0x1_0000_0000 && Field(b, at + 16, 4) < 0x1_0000_0000
            && Field(b, at + 20, 4) < 0x1_0000_0000 && Field(b, at + 4, 8) <= UINT64_MAX && Field(b, at + 24, 8) <= UINT64_MAX
            && ParseRow(b[at..]).value ==
               (Row(Field(b, at, 4), ToSigned(Field(b, at + 4, 8)), captured, Field(b, at + 16, 4),
                    Field(b, at + 20, 4), Field(b, at + 24, 8), b[at + 32..at + 32 + captured]),
                b[at + 32 + captured..])
  {
    SuffixFields(b, at);
    FieldRanges(b[at..]);
    var captured := Field(b, at + 12, 4);
    assert b[at..][32..32 + captured] == b[at + 32..at + 32 + captured];
    assert b[at..][32 + captured..] == b[at + 32 + captured..];
    hide Field;
  }

  method DecodeRow(b: seq<byte>, at: nat) returns (row: Row)
    requires at <= |b| && RowAt(b, at).Some?
    ensures Some(row) == RowAt(b, at)
  {
    RowFields(b, at);
    hide ParseRow;
    var source := Get(b, at, 4);
    var time := Get(b, at + 4, 8);
    var captured := Get(b, at + 12, 4);
    var wire := Get(b, at + 16, 4);
    var link := Get(b, at + 20, 4);
    var sequence := Get(b, at + 24, 8);
    row := Row(source, ToSigned(time), captured, wire, link, sequence, b[at + 32..at + 32 + captured]);
  }

  /** Reads the packet table without bounds checks of its own. */
  method DecodeRows(b: seq<byte>, count: nat) returns (packets: seq<Row>, at: nat)
    requires |b| >= ENVELOPE_HEADER && RowsFrom(b, ENVELOPE_HEADER, count).Some?
    ensures at <= |b| && RowsFrom(b, ENVELOPE_HEADER, count) == Some((packets, b[at..]))
  {
    hide RowAt, RowsFrom, Continue;
    packets := [];
    at := 56;
    var i := 0;
    ContinueNil(RowsFrom(b, at, count));
    while i < count
      invariant 0 <= i <= count && 56 <= at <= |b|
      invariant RowsFrom(b, 56, count) == Continue(packets, RowsFrom(b, at, count - i))
    {
      RowStepAt(packets, b, at, count - i);
      var row := DecodeRow(b, at);
      packets := packets + [row];
      at := at + 32 + row.capturedLen;
      i := i + 1;
    }
    ContinueEnd(packets, b, at);
  }

  method DecodeFact(b: seq<byte>, at: nat) returns (f: Fact)
    requires at + FACT_SIZE <= |b| && FactAt(b, at).Some?
    ensures Some(f) == FactAt(b, at)
  {
    FactFields(b, at);
    hide ParseFact;
    var source := Get(b, at, 4);
    var queue := Get(b, at + 4, 4);
    var sequence := Get(b, at + 8, 8);
    var time := Get(b, at + 16, 8);
    var flags := Get(b, at + 24, 1);
    var backlog := Get(b, at + 25, 1);
    f := Fact(source, queue, 0, sequence, ToSigned(time), flags % 2 == 1, flags / 2 % 2 == 1, backlog);
  }

  /** Reads the fact table without bounds checks of its own. */
  method DecodeFacts(b: seq<byte>, start: nat, count: nat) returns (progress: seq<Fact>)
    requires start <= |b| && |b| - start == FACT_SIZE * count && FactsFrom(b, start).Some?
    ensures Some(progress) == FactsFrom(b, start)
  {
    progress := [];
    var at := start;
    var i := 0;
    FollowedNil(FactsFrom(b, start));
    hide FactAt, FactsFrom, Followed;
    while i < count
      invariant 0 <= i <= count && at == start + FACT_SIZE * i
      invariant Followed(progress, FactsFrom(b, at)) == FactsFrom(b, start)
    {
      FactStepAt(progress, b, at, count - i);
      var f := DecodeFact(b, at);
      progress := progress + [f];
      at := at + 28;
      i := i + 1;
    }
    FollowedEnd(b, progress);
  }

  /** Decodes with unchecked reads, which the preflight scan has made safe. */
  method DecodePacket(c: SourceConfig, m: Message) returns (r: Result<Envelope>)
    ensures r == Decoded(c, m)
  {
    var accepted := Preflight(c, m);
    if !accepted {
      return Invalid;
    }
    var b := m.value;
    HeaderFieldRanges(b);
    hide Meets, ParseRows, ParseFacts;
    var domain := Get(b, 24, 8);
    var generation := Get(b, 32, 8);
    var poll := Get(b, 40, 8);
    var packetCount := Get(b, 48, 4);
    var factCount := Get(b, 52, 4);
    var packets, at := DecodeRows(b, packetCount);
    var progress := DecodeFacts(b, at, factCount);
    r := Ok(Envelope(b[8..24], domain, generation, poll, packets, progress));
  }

  /** The size checks made before any byte is written; they only refuse what breaks the contract. */
  method CheckSizes(c: SourceConfig, e: Envelope) returns (ok: bool)
    ensures ok ==> |e.packets| <= 4096 && |e.progress| <= 32 && RawBytes(e.packets) <= c.maxBytes
                   && (forall r | r in e.packets :: |r.bytes| == r.capturedLen)
                   && |c.streamId| + WireSize(e) <= c.maxMessageBytes
    ensures !ok ==> !Contract(c, e)
  {
    if |e.packets| > 4096 || |e.packets| > c.maxPackets || |e.progress| > 32 {
      return false;
    }
    var size := 56 + |e.progress| * 28;
    var raw := 0;
    var i := 0;
    hide FactMeets, Rising;
    while i < |e.packets|
      invariant 0 <= i <= |e.packets|
      invariant raw == RawBytes(e.packets[..i]) && raw <= RawBytes(e.packets) && raw <= c.maxBytes
      invariant size == 56 + |e.progress| * 28 + 32 * i + raw
      invariant forall j | 0 <= j < i :: |e.packets[j].bytes| == e.packets[j].capturedLen
    {
      var row := e.packets[i];
      if |row.bytes| != row.capturedLen {
        assert !RowMeets(c, row);
        return false;
      }
      assert e.packets[..i + 1][..i] == e.packets[..i];
      RawBytesPrefix(e.packets, i + 1);
      raw := raw + |row.bytes|;
      size := size + 32 + |row.bytes|;
      i := i + 1;
      if raw > c.maxBytes || size + |c.streamId| > c.maxMessageBytes {
        return false;
      }
    }
    assert e.packets[..i] == e.packets;
    return size + |c.streamId| <= c.maxMessageBytes;
  }

  method Serialize(e: Envelope) returns (value: seq<byte>)
    requires |e.epoch| == 16 && |e.packets| < 0x1_0000_0000 && |e.progress| < 0x1_0000_0000
    ensures value == Layout(e)
  {
    hide HeaderBytes, RowsBytes, FactsBytes;
    var b := new ByteBuffer();
    PutHeader(b, e);
    PutRows(b, e.packets);
    PutFacts(b, e.progress);
    return b.data;
  }

  /** A candidate message passes the strict scan exactly when its envelope meets the contract. */
  lemma CarrierVerdict(c: SourceConfig, e: Envelope)
    requires Fits(e) && |c.streamId| + WireSize(e) <= c.maxMessageBytes
    ensures Acceptable(c, Carrier(c, e)) <==> Contract(c, e)
  {
    hide Parse, Meets, Layout;
    ParseOfLayout(e);
    LayoutSize(e);
    StripMeets(c, e);
  }

  /** Encodes an envelope; it is refused exactly when it breaks the wire contract. */
  method EncodePacket(c: SourceConfig, e: Envelope) returns (r: Result<Message>)
    requires |e.epoch| == 16
    ensures r == Encoded(c, e)
  {
    hide Contract, Acceptable, Layout;
    var sized := CheckSizes(c, e);
    if !sized {
      return Invalid;
    }
    CarrierVerdict(c, e);
    var value := Serialize(e);
    var m := Message(0, 0, c.streamId, value, false, false);
    var accepted := Preflight(c, m);
    r := if accepted then Ok(m) else Invalid;
  }

  lemma {:induction false} RowsBytesSnoc(rows: seq<Row>, i: nat)
    requires i < |rows|
    ensures RowsBytes(rows[..i + 1]) == RowsBytes(rows[..i]) + RowBytes(rows[i])
    decreases i
  {
    if i == 0 {
      assert rows[..1][1..] == [] && rows[..0] == [];
      assert RowsBytes(rows[..1]) == RowBytes(rows[0]) + RowsBytes([]);
    } else {
      RowsBytesSnoc(rows[1..], i - 1);
      assert rows[..i + 1][1..] == rows[1..][..i];
      assert rows[..i][1..] == rows[1..][..i - 1];
      assert RowsBytes(rows[..i + 1]) == RowBytes(rows[0]) + (RowsBytes(rows[..i][1..]) + RowBytes(rows[i]));
    }
  }

  lemma {:induction false} FactsBytesSnoc(facts: seq<Fact>, i: nat)
    requires i < |facts|
    ensures FactsBytes(facts[..i + 1]) == FactsBytes(facts[..i]) + FactBytes(facts[i])
    decreases i
  {
    if i == 0 {
      assert facts[..1][1..] == [] && facts[..0] == [];
      assert FactsBytes(facts[..1]) == FactBytes(facts[0]) + FactsBytes([]);
    } else {
      FactsBytesSnoc(facts[1..], i - 1);
      assert facts[..i + 1][1..] == facts[1..][..i];
      assert facts[..i][1..] == facts[1..][..i - 1];
      assert FactsBytes(facts[..i + 1]) == FactBytes(facts[0]) + (FactsBytes(facts[..i][1..]) + FactBytes(facts[i]));
    }
  }

  method PutHeader(b: ByteBuffer, e: Envelope)
    requires |e.epoch| == 16 && |e.packets| < 0x1_0000_0000 && |e.progress| < 0x1_0000_0000 && b.data == []
    modifies b
    ensures b.data == HeaderBytes(e)
  {
    b.Append(MAGIC);
    b.Put(1, 2);
    b.Put(0, 2);
    b.Append(e.epoch);
    ghost var p := b.data;
    assert p == Preamble() + e.epoch;
    b.Put(e.domain, 8);
    b.Put(e.generation, 8);
    b.Put(e.poll, 8);
    b.Put(|e.packets|, 4);
    b.Put(|e.progress|, 4);
    ghost var d, g, s := BigEndian(e.domain, 8), BigEndian(e.generation, 8), BigEndian(e.poll, 8);
    ghost var n, f := BigEndian(|e.packets|, 4), BigEndian(|e.progress|, 4);
    Assoc(p, d, g);
    Assoc(p, d + g, s);
    Assoc(p, d + g + s, n);
    Assoc(p, d + g + s + n, f);
  }

  method PutRow(b: ByteBuffer, row: Row)
    modifies b
    ensures b.data == old(b.data) + RowBytes(row)
  {
    ghost var p := b.data;
    b.Put(row.source, 4);
    b.Put(ToUnsigned(row.timestamp), 8);
    b.Put(row.capturedLen, 4);
    b.Put(row.wireLen, 4);
    b.Put(row.linkType, 4);
    b.Put(row.sequence, 8);
    b.Append(row.bytes);
    ghost var s, t, c := BigEndian(row.source, 4), BigEndian(ToUnsigned(row.timestamp), 8), BigEndian(row.capturedLen, 4);
    ghost var w, l, q := BigEndian(row.wireLen, 4), BigEndian(row.linkType, 4), BigEndian(row.sequence, 8);
    Assoc(p, s, t);
    Assoc(p, s + t, c);
    Assoc(p, s + t + c, w);
    Assoc(p, s + t + c + w, l);
    Assoc(p, s + t + c + w + l, q);
    Assoc(p, s + t + c + w + l + q, row.bytes);
  }

  method PutRows(b: ByteBuffer, rows: seq<Row>)
    modifies b
    ensures b.data == old(b.data) + RowsBytes(rows)
  {
    var i := 0;
    hide RowsBytes, RowBytes;
    RowsBytesNil();
    assert rows[..0] == [];
    while i < |rows|
      invariant 0 <= i <= |rows|
      invariant b.data == old(b.data) + RowsBytes(rows[..i])
    {
      RowsBytesSnoc(rows, i);
      Assoc(old(b.data), RowsBytes(rows[..i]), RowBytes(rows[i]));
      PutRow(b, rows[i]);
      i := i + 1;
    }
    assert rows[..i] == rows;
  }

  lemma RowsBytesNil()
    ensures RowsBytes([]) == [] && FactsBytes([]) == []
  {
  }

  method PutFact(b: ByteBuffer, f: Fact)
    modifies b
    ensures b.data == old(b.data) + FactBytes(f)
  {
    ghost var p := b.data;
    b.Put(f.source, 4);
    b.Put(f.queue, 4);
    b.Put(f.sequence, 8);
    b.Put(ToUnsigned(f.time), 8);
    b.Put((if f.observed then 1 else 0) + (if f.idle then 2 else 0), 1);
    b.Put(f.backlog, 1);
    b.Put(0, 2);
    ghost var s, u, q := BigEndian(f.source, 4), BigEndian(f.queue, 4), BigEndian(f.sequence, 8);
    ghost var t, g, k := BigEndian(ToUnsigned(f.time), 8), BigEndian(Flags(f), 1), BigEndian(f.backlog, 1);
    Assoc(p, s, u);
    Assoc(p, s + u, q);
    Assoc(p, s + u + q, t);
    Assoc(p, s + u + q + t, g);
    Assoc(p, s + u + q + t + g, k);
    Assoc(p, s + u + q + t + g + k, BigEndian(0, 2));
  }

  method PutFacts(b: ByteBuffer, facts: seq<Fact>)
    modifies b
    ensures b.data == old(b.data) + FactsBytes(facts)
  {
    var i := 0;
    hide FactsBytes, FactBytes;
    RowsBytesNil();
    assert facts[..0] == [];
    while i < |facts|
      invariant 0 <= i <= |facts|
      invariant b.data == old(b.data) + FactsBytes(facts[..i])
    {
      FactsBytesSnoc(facts, i);
      Assoc(old(b.data), FactsBytes(facts[..i]), FactBytes(facts[i]));
      PutFact(b, facts[i]);
      i := i + 1;
    }
    assert facts[..i] == facts;
  }
}
