/**
 * The task-owned encoder: it numbers nothing itself but refuses packets and
 * facts that do not move forward.
 */
module SinkCodec {
  import opened Bytes
  import opened PacketWire
  import WireCodec

  datatype Identity = Identity(domain: u64, source: u32, queue: u32, generation: u64, linkType: u32, named: bool)

  datatype SourceSet = SourceSet(inputs: seq<Identity>, maxPackets: u32, maxBytes: u64, otherLimits: bool)

  /** `CaptureProgressTrackerV1` as far as it decides whether a fact is accepted. */
  datatype Tracker = Tracker(source: u32, queue: u32, generation: u64, last: u64)

  datatype Kind = Data | Timeout | Other

  datatype Batch = Batch(valid: bool, rows: seq<Row>)

  datatype Event = Event(kind: Kind, wellTyped: bool, failed: bool, batch: Option<Batch>, progress: seq<Fact>)

  datatype CodecState = CodecState(
    wire: SourceConfig,
    generation: u64,
    last: u64,
    trackers: map<u32, Tracker>)

  /** A fact the tracker takes: its own queue, a higher sequence, and consistent contents. */
  predicate Observable(t: Tracker, f: Fact) {
    && f.source == t.source && f.queue == t.queue && f.generation == t.generation
    && f.sequence > t.last && f.time >= 0 && f.backlog <= 2 && !(f.observed && f.idle)
  }

  /** `CaptureProgressTrackerV1::Observe`: the checks of one fact, after which its sequence is the last one. */
  method Observe(t: Tracker, f: Fact) returns (next: Option<Tracker>)
    ensures next.Some? <==> Observable(t, f)
    ensures next.Some? ==> next.value == Tracker(t.source, t.queue, t.generation, f.sequence)
  {
    if f.source != t.source || f.queue != t.queue || f.generation != t.generation {
      return None;
    }
    if f.sequence == 0 || f.sequence <= t.last || f.time < 0 || f.backlog > 2 {
      return None;
    }
    if f.observed && f.idle {
      return None;
    }
    next := Some(Tracker(t.source, t.queue, t.generation, f.sequence));
  }

  function Tracked(trackers: map<u32, Tracker>, facts: seq<Fact>): (r: Option<map<u32, Tracker>>)
    ensures r.Some? ==> r.value.Keys == trackers.Keys
  {
    if facts == [] then Some(trackers)
    else
      var f := facts[0];
      if f.source !in trackers || !Observable(trackers[f.source], f) then None
      else Tracked(trackers[f.source := trackers[f.source].(last := f.sequence)], facts[1..])
  }

  predicate ValidSources(s: SourceSet) {
    && s.inputs != [] && s.maxPackets != 0 && s.maxBytes != 0 && s.otherLimits
    && (forall i | i in s.inputs :: i.named && i.generation != 0 && i.linkType == 1
                                     && i.domain == s.inputs[0].domain && i.generation == s.inputs[0].generation)
    && forall i, j | 0 <= i < j < |s.inputs| :: s.inputs[i].source != s.inputs[j].source
  }

  predicate Capturable(s: SourceSet, schemaOk: bool) {
    schemaOk && ValidSources(s) && |s.inputs| <= 32 && s.inputs[0].domain != 0 && s.maxPackets <= 4096
    && s.maxBytes <= 16777216
  }

  /** `ValidateCaptureSourceSetV2`, in two nested loops. */
  method ValidateSources(s: SourceSet) returns (ok: bool)
    ensures ok <==> ValidSources(s)
  {
    if s.inputs == [] || s.maxPackets == 0 || s.maxBytes == 0 || !s.otherLimits {
      return false;
    }
    var first := s.inputs[0];
    for i := 0 to |s.inputs|
      invariant forall k | 0 <= k < i :: s.inputs[k].named && s.inputs[k].generation != 0 && s.inputs[k].linkType == 1
                                         && s.inputs[k].domain == first.domain && s.inputs[k].generation == first.generation
      invariant forall k, j | 0 <= j < k < i :: s.inputs[j].source != s.inputs[k].source
    {
      var input := s.inputs[i];
      assert input in s.inputs;
      if !input.named || input.generation == 0 || input.domain != first.domain || input.generation != first.generation
         || input.linkType != 1 {
        return false;
      }
      for j := 0 to i
        invariant forall k | 0 <= k < j :: s.inputs[k].source != input.source
      {
        if input.source == s.inputs[j].source {
          return false;
        }
      }
    }
    ok := true;
  }

  function Budget(streamId: seq<byte>, s: SourceSet): nat {
    |streamId| + ENVELOPE_HEADER + ROW_HEADER * s.maxPackets + s.maxBytes + FACT_SIZE * |s.inputs|
  }

  function WireInputs(inputs: seq<Identity>): (r: seq<PacketInput>)
    ensures |r| == |inputs|
    ensures forall i | 0 <= i < |r| :: r[i] == PacketInput(inputs[i].source, inputs[i].queue)
  {
    seq(|inputs|, i requires 0 <= i < |inputs| => PacketInput(inputs[i].source, inputs[i].queue))
  }

  /** Each source has one tracker, for its own queue and generation, that has seen nothing; and there are no others. */
  predicate TrackersFor(inputs: seq<Identity>, trackers: map<u32, Tracker>) {
    && (forall i | 0 <= i < |inputs| ::
          inputs[i].source in trackers
          && trackers[inputs[i].source] == Tracker(inputs[i].source, inputs[i].queue, inputs[i].generation, 0))
    && forall s | s in trackers :: exists x | x in inputs :: x.source == s
  }

  lemma CollectNone(rows: seq<Row>, last: u64)
    ensures Rising(rows[..0]) && RawBytes(rows[..0]) == 0 && LastSequence(rows[..0], last) == last
    ensures rows == [] ==> RawBytes(rows) == 0
  {
  }

  lemma CollectBytes(rows: seq<Row>, i: nat)
    requires i < |rows|
    ensures RawBytes(rows[..i + 1]) == RawBytes(rows[..i]) + |rows[i].bytes| <= RawBytes(rows)
  {
    assert rows[..i + 1][..i] == rows[..i];
    RawBytesPrefix(rows, i + 1);
  }

  lemma PrefixRises(rows: seq<Row>, i: nat)
    requires i < |rows| && Rising(rows[..i]) && (i > 0 ==> rows[i - 1].sequence < rows[i].sequence)
    ensures Rising(rows[..i + 1])
  {
    forall j, k | 0 <= j < k < i + 1 ensures rows[j].sequence < rows[k].sequence {
      assert j < i && rows[..i][j] == rows[j] && (k < i ==> rows[..i][k] == rows[k]);
      assert i > 0 && rows[..i][i - 1] == rows[i - 1];
    }
  }

  /** One more row of a rising prefix: its bytes, and whether it keeps rising above `last`. */
  lemma CollectOne(rows: seq<Row>, i: nat, last: u64)
    requires i < |rows| && Rising(rows[..i]) && (i > 0 ==> last < rows[0].sequence)
    ensures RawBytes(rows[..i + 1]) == RawBytes(rows[..i]) + |rows[i].bytes| <= RawBytes(rows)
    ensures LastSequence(rows[..i + 1], last) == rows[i].sequence
    ensures rows[i].sequence > LastSequence(rows[..i], last) ==> Rising(rows[..i + 1]) && last < rows[0].sequence
    ensures rows[i].sequence <= LastSequence(rows[..i], last) ==> !Rising(rows) || rows[0].sequence <= last
  {
    hide RawBytes, Rising;
    CollectBytes(rows, i);
    if rows[i].sequence > LastSequence(rows[..i], last) {
      PrefixRises(rows, i);
    } else if i > 0 {
      NotRising(rows, i);
    }
  }

  lemma NotRising(rows: seq<Row>, i: nat)
    requires 0 < i < |rows| && rows[i].sequence <= rows[i - 1].sequence
    ensures !Rising(rows)
  {
  }

  lemma NoTrackers()
    ensures TrackersFor([], map[])
  {
  }

  lemma TrackersGrow(inputs: seq<Identity>, n: nat, trackers: map<u32, Tracker>)
    requires n < |inputs| && forall i, j | 0 <= i < j < |inputs| :: inputs[i].source != inputs[j].source
    requires TrackersFor(inputs[..n], trackers)
    ensures var i := inputs[n];
            i.source !in trackers
            && TrackersFor(inputs[..n + 1], trackers[i.source := Tracker(i.source, i.queue, i.generation, 0)])
  {
    var next := trackers[inputs[n].source := Tracker(inputs[n].source, inputs[n].queue, inputs[n].generation, 0)];
    forall s | s in next ensures exists x | x in inputs[..n + 1] :: x.source == s {
      if s in trackers {
        var x :| x in inputs[..n] && x.source == s;
        assert x in inputs[..n + 1];
      } else {
        assert inputs[..n + 1][n].source == s;
      }
    }
  }

  function RowsOf(event: Event): seq<Row> {
    if event.kind.Data? && event.batch.Some? then event.batch.value.rows else []
  }

  function EnvelopeOf(s: CodecState, event: Event, epoch: seq<byte>, poll: u64): Envelope {
    Envelope(epoch, s.wire.domain, s.generation, poll, RowsOf(event), event.progress)
  }

  /** The shape of event that can be put on the wire at all. */
  predicate Publishable(event: Event) {
    && event.wellTyped && !event.failed && !event.kind.Other?
    && (event.kind.Timeout? ==> event.batch.None?)
    && (event.kind.Data? ==> event.batch.Some? && event.batch.value.valid && event.batch.value.rows != [])
  }

  /** Encoding succeeds exactly for these events. */
  predicate Encodable(s: CodecState, event: Event, epoch: seq<byte>, poll: u64) {
    && s.generation != 0 && Publishable(event)
    && Contract(s.wire, EnvelopeOf(s, event, epoch, poll))
    && (RowsOf(event) != [] ==> s.last < RowsOf(event)[0].sequence)
    && Tracked(s.trackers, event.progress).Some?
  }

  function Advanced(s: CodecState, event: Event): CodecState
    requires Tracked(s.trackers, event.progress).Some?
  {
    s.(last := LastSequence(RowsOf(event), s.last), trackers := Tracked(s.trackers, event.progress).value)
  }

  datatype Outcome = Encoded(message: Message) | Refused | Interrupted

  datatype OpenResult = CaptureOpen | InvalidCapture | BudgetInsufficient

  class PacketSinkCodec {
    const streamId: seq<byte>
    const maxMessageBytes: u32
    var wire: SourceConfig
    var generation: u64
    var last: u64
    var trackers: map<u32, Tracker>

    function View(): CodecState
      reads this
    {
      CodecState(wire, generation, last, trackers)
    }

    constructor (streamId: seq<byte>, maxMessageBytes: u32)
      ensures this.streamId == streamId && this.maxMessageBytes == maxMessageBytes
      ensures generation == 0 && last == 0 && trackers == map[]
    {
      this.streamId := streamId;
      this.maxMessageBytes := maxMessageBytes;
      wire := SourceConfig([], 0, [], 0, 0, 0);
      generation, last := 0, 0;
      trackers := map[];
    }

    method Open(sources: SourceSet, schemaOk: bool) returns (r: OpenResult)
      modifies this
      ensures r.CaptureOpen? <==>
                old(generation) == 0 && Capturable(sources, schemaOk) && Budget(streamId, sources) <= maxMessageBytes
      ensures r.BudgetInsufficient? <==>
                old(generation) == 0 && Capturable(sources, schemaOk) && Budget(streamId, sources) > maxMessageBytes
      ensures !r.CaptureOpen? ==> View() == old(View())
      ensures r.CaptureOpen? ==>
                Ready(View()) && last == old(last) && generation == sources.inputs[0].generation
                && wire == SourceConfig(streamId, sources.inputs[0].domain, WireInputs(sources.inputs),
                                        sources.maxPackets, sources.maxBytes, maxMessageBytes)
      ensures r.CaptureOpen? && old(trackers) == map[] ==> TrackersFor(sources.inputs, trackers)
      ensures r.CaptureOpen? ==>
                forall i | i in sources.inputs :: i.generation == generation && i.domain == wire.domain != 0 && i.linkType == 1
    {
      hide TrackersFor, RowMeets, FactMeets;
      NoTrackers();
      if generation != 0 || !schemaOk {
        return InvalidCapture;
      }
      var valid := ValidateSources(sources);
      if !valid || |sources.inputs| > 32 || sources.inputs[0].domain == 0 || sources.maxPackets > 4096 || sources.maxBytes > 16777216 {
        return InvalidCapture;
      }
      var maximum := |streamId| + 56 + 32 * sources.maxPackets + sources.maxBytes + 28 * |sources.inputs|;
      if maximum > maxMessageBytes {
        return BudgetInsufficient;
      }
      var inputs: seq<PacketInput> := [];
      var i := 0;
      var start := trackers;
      while i < |sources.inputs|
        invariant 0 <= i <= |sources.inputs|
        invariant unchanged(`wire) && unchanged(`generation) && unchanged(`last)
        invariant inputs == WireInputs(sources.inputs)[..i]
        invariant start == map[] ==> TrackersFor(sources.inputs[..i], trackers)
      {
        var input := sources.inputs[i];
        if start == map[] {
          TrackersGrow(sources.inputs, i, trackers);
        }
        inputs := inputs + [PacketInput(input.source, input.queue)];
        if input.source !in trackers {
          trackers := trackers[input.source := Tracker(input.source, input.queue, input.generation, 0)];
        }
        i := i + 1;
      }
      assert sources.inputs[..|sources.inputs|] == sources.inputs;
      wire := SourceConfig(streamId, sources.inputs[0].domain, inputs, sources.maxPackets, sources.maxBytes, maxMessageBytes);
      generation := sources.inputs[0].generation;
      assert inputs == WireInputs(sources.inputs);
      r := CaptureOpen;
    }

    /** The row loop of `Encode`; `quit` is the row at which the caller interrupts it. */
    method Collect(rows: seq<Row>, quit: nat) returns (r: Outcome, top: u64)
      ensures r.Interrupted? ==> quit < |rows|
      ensures r.Refused? ==>
                RawBytes(rows) > wire.maxBytes || (exists row | row in rows :: |row.bytes| != row.capturedLen)
                || !Rising(rows) || (rows != [] && rows[0].sequence <= last)
      ensures r.Encoded? ==> Rising(rows) && (rows != [] ==> last < rows[0].sequence)
                             && top == LastSequence(rows, last) && quit >= |rows|
    {
      r := Encoded(Message(0, 0, [], [], false, false));
      top := last;
      CollectNone(rows, last);
      hide Rising, RawBytes, LastSequence;
      var bytes := 0;
      var i := 0;
      while i < |rows|
        invariant 0 <= i <= |rows| && i <= quit
        invariant Rising(rows[..i]) && (i > 0 ==> last < rows[0].sequence)
        invariant top == LastSequence(rows[..i], last) && bytes == RawBytes(rows[..i])
      {
        if i == quit {
          return Interrupted, top;
        }
        var row := rows[i];
        CollectOne(rows, i, last);
        bytes := bytes + |row.bytes|;
        if bytes > wire.maxBytes || |row.bytes| != row.capturedLen || row.sequence <= top {
          assert row in rows;
          return Refused, top;
        }
        top := row.sequence;
        i := i + 1;
      }
      assert rows[..i] == rows;
    }

    method Encode(event: Event, epoch: seq<byte>, poll: u64, quit: nat) returns (r: Outcome)
      requires |epoch| == 16
      modifies this
      ensures r.Encoded? ==> Encodable(old(View()), event, epoch, poll) && View() == Advanced(old(View()), event)
                             && r.message == Carrier(wire, EnvelopeOf(old(View()), event, epoch, poll))
      ensures r.Encoded? ==>
                (event.kind.Data? ==> event.batch.Some?)
                && r.message == Carrier(wire, Envelope(epoch, wire.domain, generation, poll,
                                                       if event.kind.Data? then event.batch.value.rows else [], event.progress))
      ensures r.Encoded? ==>
                && event.wellTyped && !event.failed && !event.kind.Other? && (event.kind.Timeout? ==> event.batch.None?)
                && (event.kind.Data? ==> event.batch.value.valid && event.batch.value.rows != []
                                         && last == event.batch.value.rows[|event.batch.value.rows| - 1].sequence > old(last))
                && (!event.kind.Data? ==> last == old(last))
      ensures r.Encoded? ==> trackers.Keys == old(trackers).Keys
                             && (forall f | f in event.progress :: f.source in trackers && trackers[f.source].last == f.sequence)
                             && (forall s | s in trackers ::
                                   trackers[s] == old(trackers)[s].(last := trackers[s].last)
                                   && ((forall f | f in event.progress :: f.source != s) ==> trackers[s] == old(trackers)[s]))
      ensures !r.Encoded? ==> View() == old(View())
      ensures r.Refused? ==> !Encodable(old(View()), event, epoch, poll)
      ensures r.Interrupted? ==> quit < |RowsOf(event)|
      ensures wire == old(wire) && generation == old(generation)
    {
      if generation == 0 || !event.wellTyped || event.kind.Other? || event.failed
        || (event.kind.Timeout? && event.batch.Some?)
      {
        return Refused;
      }
      var top := last;
      var rows: seq<Row> := [];
      if event.kind.Data? {
        if event.batch.None? || |event.batch.value.rows| == 0 || |event.batch.value.rows| > wire.maxPackets
          || !event.batch.value.valid
        {
          return Refused;
        }
        rows := event.batch.value.rows;
        r, top := Collect(rows, quit);
        if !r.Encoded? {
          return;
        }
      }
      var envelope := Envelope(epoch, wire.domain, generation, poll, rows, event.progress);
      var encoded := WireCodec.EncodePacket(wire, envelope);
      if encoded.Invalid? {
        return Refused;
      }
      var next := ObserveAll(event.progress);
      if next.None? {
        return Refused;
      }
      TrackedEnds(trackers, event.progress);
      trackers := next.value;
      last := top;
      r := Encoded(encoded.value);
    }

    method ObserveAll(facts: seq<Fact>) returns (next: Option<map<u32, Tracker>>)
      ensures next == Tracked(trackers, facts)
    {
      var staged: map<u32, Tracker> := trackers;
      var i := 0;
      while i < |facts|
        invariant 0 <= i <= |facts|
        invariant Tracked(trackers, facts) == Tracked(staged, facts[i..])
      {
        var f := facts[i];
        if f.source !in staged {
          return None;
        }
        var observed := Observe(staged[f.source], f);
        if observed.None? {
          return None;
        }
        staged := staged[f.source := observed.value];
        assert facts[i..][1..] == facts[i + 1..];
        i := i + 1;
      }
      next := Some(staged);
    }
  }

  /** What `Open` establishes and `Encode` keeps. */
  predicate Ready(s: CodecState) {
    && s.generation != 0
    && (forall i, j | 0 <= i < j < |s.wire.inputs| :: s.wire.inputs[i].sourceId != s.wire.inputs[j].sourceId)
    && |s.wire.streamId| + ENVELOPE_HEADER + ROW_HEADER * s.wire.maxPackets + s.wire.maxBytes
       + FACT_SIZE * |s.wire.inputs| <= s.wire.maxMessageBytes
  }

  function Ids(inputs: seq<PacketInput>): set<int> {
    set i | 0 <= i < |inputs| :: inputs[i].sourceId as int
  }

  lemma {:induction false} IdsSize(inputs: seq<PacketInput>)
    ensures |Ids(inputs)| <= |inputs|
  {
    if inputs == [] {
    } else {
      var front := inputs[..|inputs| - 1];
      IdsSize(front);
      assert Ids(inputs) == Ids(front) + {inputs[|inputs| - 1].sourceId};
    }
  }

  /** Facts from distinct known sources are no more than there are sources. */
  lemma {:induction false} FactsFitSources(ids: set<int>, facts: seq<Fact>)
    requires DistinctSources(facts) && forall f | f in facts :: f.source in ids
    ensures |facts| <= |ids|
  {
    if facts == [] {
    } else {
      var f, front := facts[|facts| - 1], facts[..|facts| - 1];
      forall g | g in front ensures g.source in ids - {f.source} {
        var i :| 0 <= i < |front| && front[i] == g;
        assert facts[i].source != facts[|facts| - 1].source;
      }
      FactsFitSources(ids - {f.source}, front);
    }
  }

  /** After `Open`, an envelope that meets the rest of the contract is never refused for its size. */
  lemma NeverRefusedForSize(s: CodecState, e: Envelope)
    requires Ready(s)
    ensures Meets(s.wire, e) ==> Contract(s.wire, e)
  {
    if Meets(s.wire, e) {
      var ids := Ids(s.wire.inputs);
      forall f | f in e.progress ensures f.source in ids {
        assert FactMeets(s.wire, e.packets, f);
        LookupKnown(s.wire.inputs, f.source);
      }
      FactsFitSources(ids, e.progress);
      IdsSize(s.wire.inputs);
    }
  }

  /** A fact of a known source, for its queue and generation, above all that came before it, and consistent in itself. */
  predicate Takes(trackers: map<u32, Tracker>, facts: seq<Fact>, i: nat)
    requires i < |facts|
  {
    var f := facts[i];
    && f.source in trackers && f.source == trackers[f.source].source
    && f.queue == trackers[f.source].queue && f.generation == trackers[f.source].generation
    && f.sequence > trackers[f.source].last && (forall j | 0 <= j < i && facts[j].source == f.source :: facts[j].sequence < f.sequence)
    && f.time >= 0 && f.backlog <= 2 && (f.observed ==> !f.idle)
  }

  /** The trackers take a list of facts exactly when they take each of them. */
  lemma {:induction false} TrackedWhen(trackers: map<u32, Tracker>, facts: seq<Fact>)
    ensures Tracked(trackers, facts).Some? <==> forall i | 0 <= i < |facts| :: Takes(trackers, facts, i)
    decreases |facts|
  {
    if facts != [] {
      var (f, rest) := (facts[0], facts[1..]);
      if f.source in trackers && Observable(trackers[f.source], f) {
        var next := trackers[f.source := trackers[f.source].(last := f.sequence)];
        TrackedWhen(next, rest);
        forall i | 0 <= i < |rest| ensures Takes(next, rest, i) <==> Takes(trackers, facts, i + 1) {
          TakesLater(trackers, facts, i);
        }
        assert Takes(trackers, facts, 0);
        if forall i | 0 <= i < |facts| :: Takes(trackers, facts, i) {
          forall i | 0 <= i < |rest| ensures Takes(next, rest, i) {
            assert Takes(trackers, facts, i + 1);
          }
        }
        if forall i | 0 <= i < |rest| :: Takes(next, rest, i) {
          forall i | 0 <= i < |facts| ensures Takes(trackers, facts, i) {
            assert i > 0 ==> Takes(next, rest, i - 1);
          }
        }
      } else {
        assert !Takes(trackers, facts, 0);
      }
    }
  }

  lemma TakesLater(trackers: map<u32, Tracker>, facts: seq<Fact>, i: nat)
    requires i + 1 < |facts| && facts[0].source in trackers && Observable(trackers[facts[0].source], facts[0])
    ensures var f := facts[0];
      Takes(trackers[f.source := trackers[f.source].(last := f.sequence)], facts[1..], i) <==> Takes(trackers, facts, i + 1)
  {
    var rest := facts[1..];
    assert forall j | 0 <= j < |rest| :: rest[j] == facts[j + 1];
    assert forall j | 0 < j < i + 1 :: facts[j] == rest[j - 1];
  }

  lemma {:induction false} TrackedElsewhere(trackers: map<u32, Tracker>, facts: seq<Fact>, s: u32)
    requires Tracked(trackers, facts).Some? && s in trackers
    ensures var t := Tracked(trackers, facts).value;
            t[s] == trackers[s].(last := t[s].last) && ((forall f | f in facts :: f.source != s) ==> t[s] == trackers[s])
    decreases |facts|
  {
    if facts != [] {
      var f := facts[0];
      TrackedElsewhere(trackers[f.source := trackers[f.source].(last := f.sequence)], facts[1..], s);
      assert f in facts && forall g | g in facts[1..] :: g in facts;
    }
  }

  lemma {:induction false} TrackedAt(trackers: map<u32, Tracker>, facts: seq<Fact>, i: nat)
    requires DistinctSources(facts) && Tracked(trackers, facts).Some? && i < |facts|
    ensures facts[i].source in trackers && Tracked(trackers, facts).value[facts[i].source].last == facts[i].sequence
    decreases |facts|
  {
    var (f, rest) := (facts[0], facts[1..]);
    var next := trackers[f.source := trackers[f.source].(last := f.sequence)];
    forall j, k | 0 <= j < k < |rest| ensures rest[j].source != rest[k].source {
      assert rest[j] == facts[j + 1] && rest[k] == facts[k + 1];
    }
    if i == 0 {
      forall g | g in rest ensures g.source != f.source {
        var j :| 0 <= j < |rest| && rest[j] == g;
        assert facts[j + 1] == g;
      }
      TrackedElsewhere(next, rest, f.source);
    } else {
      TrackedAt(next, rest, i - 1);
    }
  }

  /** Facts of distinct sources leave each of their trackers at the fact's sequence, and the others as they were. */
  lemma TrackedEnds(trackers: map<u32, Tracker>, facts: seq<Fact>)
    requires DistinctSources(facts) && Tracked(trackers, facts).Some?
    ensures var t := Tracked(trackers, facts).value;
            && (forall f | f in facts :: f.source in t && t[f.source].last == f.sequence)
            && (forall s | s in t ::
                  t[s] == trackers[s].(last := t[s].last) && ((forall f | f in facts :: f.source != s) ==> t[s] == trackers[s]))
  {
    hide Tracked, DistinctSources;
    var t := Tracked(trackers, facts).value;
    forall f | f in facts ensures f.source in t && t[f.source].last == f.sequence {
      var i :| 0 <= i < |facts| && facts[i] == f;
      TrackedAt(trackers, facts, i);
    }
    forall s | s in t
      ensures t[s] == trackers[s].(last := t[s].last) && ((forall f | f in facts :: f.source != s) ==> t[s] == trackers[s])
    {
      TrackedElsewhere(trackers, facts, s);
    }
  }

  lemma {:induction false} TrackedRises(trackers: map<u32, Tracker>, facts: seq<Fact>, f: Fact)
    requires Tracked(trackers, facts).Some? && f in facts
    ensures f.source in trackers && f.sequence > trackers[f.source].last
    ensures f.sequence <= Tracked(trackers, facts).value[f.source].last
    decreases |facts|
  {
    var next := trackers[facts[0].source := trackers[facts[0].source].(last := facts[0].sequence)];
    TrackedMonotone(next, facts[1..], facts[0].source);
    if f != facts[0] {
      assert f in facts[1..];
      TrackedRises(next, facts[1..], f);
    }
  }

  lemma {:induction false} TrackedMonotone(trackers: map<u32, Tracker>, facts: seq<Fact>, source: u32)
    requires Tracked(trackers, facts).Some? && source in trackers
    ensures trackers[source].last <= Tracked(trackers, facts).value[source].last
    decreases |facts|
  {
    if facts == [] {
    } else {
      TrackedMonotone(trackers[facts[0].source := trackers[facts[0].source].(last := facts[0].sequence)], facts[1..], source);
    }
  }
}
