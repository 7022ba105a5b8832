/**
 * Writers, one partition log and a reader put together: what a reader delivers
 * is what one writer encoded.
 */
module PartitionLog {
  import opened Bytes
  import opened PacketWire
  import SinkCodec
  import W = PacketWriter
  import R = PacketReader
  import Runs = PacketReaderRuns

  /** A writer with every envelope its client's queue has taken, in order, and the event each was made from. */
  datatype WriterRun = WriterRun(state: W.WriterState, sent: seq<Envelope>, published: seq<SinkCodec.Event>)

  /** `origin[i]` is the writer of `log[i]` and the index of the envelope it carries. */
  datatype World = World(writers: seq<WriterRun>, log: seq<Message>, origin: seq<(nat, nat)>)

  datatype Event =
    | Join(state: W.WriterState)
    | Publish(w: nat, event: SinkCodec.Event, fate: W.Fate)
    | Land(w: nat, offset: i64)
    | Stop(w: nat, call: W.Call)

  function Count(origin: seq<(nat, nat)>, w: nat): nat {
    if origin == [] then 0
    else Count(origin[..|origin| - 1], w) + if origin[|origin| - 1].0 == w then 1 else 0
  }

  predicate Newcomer(s: W.WriterState) {
    && s.phase.Opened? && |s.epoch| == 16 && s.poll == 0 && SinkCodec.Ready(s.codec) && s.codec.last == 0
    && forall t | t in s.codec.trackers :: s.codec.trackers[t].last == 0
  }

  /** Epochs are 16 random bytes: a new writer's epoch is taken to be unused. */
  predicate Enabled(world: World, e: Event) {
    match e
    case Join(s) => Newcomer(s) && forall r | r in world.writers :: r.state.epoch != s.epoch
    case Publish(w, event, fate) => w < |world.writers| && W.Possible(world.writers[w].state, event, fate)
    case Land(w, offset) =>
      && w < |world.writers| && Count(world.origin, w) < |world.writers[w].sent|
      && 0 <= offset < INT64_MAX && (world.log != [] ==> offset > world.log[|world.log| - 1].offset)
    case Stop(w, call) => w < |world.writers| && !call.WriteCall?
  }

  function Queued(s: W.WriterState, event: SinkCodec.Event, fate: W.Fate): seq<Envelope> {
    if s.phase.Opened? && !W.PlainTimeout(event) && W.DeliveryOf(fate).notSent == 0 && s.poll < UINT64_MAX
    then [SinkCodec.EnvelopeOf(s.codec, event, s.epoch, s.poll + 1)] else []
  }

  function Published(r: WriterRun, event: SinkCodec.Event, fate: W.Fate): WriterRun
    requires W.Possible(r.state, event, fate)
  {
    var more := Queued(r.state, event, fate);
    WriterRun(W.WriteStep(r.state, event, fate), r.sent + more, r.published + if more == [] then [] else [event])
  }

  function Apply(world: World, e: Event): World
    requires Enabled(world, e)
  {
    match e
    case Join(s) => world.(writers := world.writers + [WriterRun(s, [], [])])
    case Publish(w, event, fate) =>
      var r := world.writers[w];
      world.(writers := world.writers[w := Published(r, event, fate)])
    case Land(w, offset) =>
      var k := Count(world.origin, w);
      var r := world.writers[w];
      world.(log := world.log + [Landed(r, k, offset)], origin := world.origin + [(w, k)])
    case Stop(w, call) =>
      var r := world.writers[w];
      world.(writers := world.writers[w := r.(state := W.CallStep(r.state, call))])
  }

  function Landed(r: WriterRun, k: nat, offset: i64): Message
    requires k < |r.sent|
  {
    var e := r.sent[k];
    if |e.epoch| == 16 then Carrier(r.state.codec.wire, e).(offset := offset) else Message(0, offset, [], [], true, true)
  }

  predicate Feasible(world: World, events: seq<Event>)
    decreases |events|
  {
    events == [] || (Enabled(world, events[0]) && Feasible(Apply(world, events[0]), events[1..]))
  }

  function Run(world: World, events: seq<Event>): World
    requires Feasible(world, events)
    decreases |events|
  {
    if events == [] then world else Run(Apply(world, events[0]), events[1..])
  }

  const EMPTY := World([], [], [])

  // ------------------------------------------------------- what every run keeps

  /** The k-th queued envelope is poll k+1 of this writer and meets the contract. */
  predicate Numbered(r: WriterRun) {
    && |r.sent| == r.state.poll && |r.state.epoch| == 16 && SinkCodec.Ready(r.state.codec)
    && forall k | 0 <= k < |r.sent| ::
         r.sent[k].poll == k + 1 && r.sent[k].epoch == r.state.epoch
         && r.sent[k].generation == r.state.codec.generation && Contract(r.state.codec.wire, r.sent[k])
  }

  /** Packets and each source's facts rise from one queued envelope to the next. */
  predicate Ordered(r: WriterRun) {
    && (forall i, j | 0 <= i < j < |r.sent| ::
          Runs.RowsBelow(r.sent[i].packets, r.sent[j].packets) && Runs.FactsBelow(r.sent[i].progress, r.sent[j].progress))
    && (forall k, p | 0 <= k < |r.sent| && p in r.sent[k].packets :: p.sequence <= r.state.codec.last)
    && (forall k, f | 0 <= k < |r.sent| && f in r.sent[k].progress ::
          f.source in r.state.codec.trackers && f.sequence <= r.state.codec.trackers[f.source].last)
  }

  /** An envelope carries the packets and the facts of its event. */
  predicate MadeFrom(e: Envelope, event: SinkCodec.Event) {
    && (event.kind.Data? ==> event.batch.Some? && e.packets == event.batch.value.rows)
    && (!event.kind.Data? ==> e.packets == [])
    && e.progress == event.progress
  }

  predicate Sourced(r: WriterRun) {
    |r.published| == |r.sent| && forall k | 0 <= k < |r.sent| :: MadeFrom(r.sent[k], r.published[k])
  }

  predicate WriterOk(r: WriterRun) {
    Numbered(r) && Ordered(r) && Sourced(r)
  }

  /** Entry i carries the next envelope of its writer. */
  predicate EntryOk(world: World, i: nat)
    requires i < |world.log| == |world.origin|
  {
    var (w, k) := world.origin[i];
    && w < |world.writers| && k < |world.writers[w].sent| && k == Count(world.origin[..i], w)
    && world.log[i] == Landed(world.writers[w], k, world.log[i].offset)
    && 0 <= world.log[i].offset < INT64_MAX
  }

  predicate LogOk(world: World) {
    && |world.origin| == |world.log|
    && (forall i | 0 <= i < |world.log| :: EntryOk(world, i))
    && (forall i, j | 0 <= i < j < |world.log| :: world.log[i].offset < world.log[j].offset)
    && (forall w | 0 <= w < |world.writers| :: Count(world.origin, w) <= |world.writers[w].sent|)
    && (forall i | 0 <= i < |world.origin| :: world.origin[i].0 < |world.writers|)
  }

  predicate EpochsDiffer(world: World) {
    forall i, j | 0 <= i < j < |world.writers| :: world.writers[i].state.epoch != world.writers[j].state.epoch
  }

  predicate WorldOk(world: World) {
    (forall w | 0 <= w < |world.writers| :: WriterOk(world.writers[w])) && LogOk(world) && EpochsDiffer(world)
  }

  lemma PublishNumbered(r: WriterRun, event: SinkCodec.Event, fate: W.Fate)
    requires Numbered(r) && W.Possible(r.state, event, fate)
    ensures Numbered(Published(r, event, fate))
  {
    hide Contract, SinkCodec.Tracked, SinkCodec.EnvelopeOf;
    if r.state.phase.Opened? && !W.PlainTimeout(event) && W.DeliveryOf(fate).notSent == 0 {
      EnvelopeIdentity(r.state, event);
    }
  }

  lemma EnvelopeIdentity(s: W.WriterState, event: SinkCodec.Event)
    requires s.poll < UINT64_MAX
    ensures var e := SinkCodec.EnvelopeOf(s.codec, event, s.epoch, s.poll + 1);
            e.poll == s.poll + 1 && e.epoch == s.epoch && e.generation == s.codec.generation
  {
  }

  lemma EncodableRises(s: SinkCodec.CodecState, event: SinkCodec.Event, epoch: seq<byte>, poll: u64)
    requires SinkCodec.Encodable(s, event, epoch, poll)
    ensures var e, t := SinkCodec.EnvelopeOf(s, event, epoch, poll), SinkCodec.Advanced(s, event);
            && s.last <= t.last && (forall p | p in e.packets :: s.last < p.sequence <= t.last)
            && (forall f | f in e.progress :: f.source in s.trackers && s.trackers[f.source].last < f.sequence)
            && (forall f | f in e.progress :: f.source in t.trackers && f.sequence <= t.trackers[f.source].last)
            && (forall x | x in s.trackers :: x in t.trackers && s.trackers[x].last <= t.trackers[x].last)
            && t.wire == s.wire && t.generation == s.generation
  {
    hide RowMeets, FactMeets;
    var e := SinkCodec.EnvelopeOf(s, event, epoch, poll);
    Runs.RowsBounded(e.packets, s.last);
    forall f | f in e.progress
      ensures f.source in s.trackers && s.trackers[f.source].last < f.sequence
      ensures f.sequence <= SinkCodec.Tracked(s.trackers, event.progress).value[f.source].last
    {
      SinkCodec.TrackedRises(s.trackers, event.progress, f);
    }
    forall x | x in s.trackers ensures s.trackers[x].last <= SinkCodec.Tracked(s.trackers, event.progress).value[x].last {
      SinkCodec.TrackedMonotone(s.trackers, event.progress, x);
    }
  }

  /** The codec's sequences only rise. */
  predicate Risen(s: SinkCodec.CodecState, t: SinkCodec.CodecState) {
    s.last <= t.last && forall x | x in s.trackers :: x in t.trackers && s.trackers[x].last <= t.trackers[x].last
  }

  lemma OrderedLater(r: WriterRun, next: WriterRun)
    requires Ordered(r) && Risen(r.state.codec, next.state.codec) && next.sent == r.sent
    ensures Ordered(next)
  {
    hide Runs.RowsBelow, Runs.FactsBelow;
  }

  lemma SentBelow(r: WriterRun, i: nat, e: Envelope)
    requires Ordered(r) && i < |r.sent|
    requires forall p | p in e.packets :: r.state.codec.last < p.sequence
    requires forall f | f in e.progress :: f.source in r.state.codec.trackers && r.state.codec.trackers[f.source].last < f.sequence
    ensures Runs.RowsBelow(r.sent[i].packets, e.packets) && Runs.FactsBelow(r.sent[i].progress, e.progress)
  {
  }

  lemma OrderedSnoc(r: WriterRun, e: Envelope, next: WriterRun)
    requires Ordered(r) && Risen(r.state.codec, next.state.codec) && next.sent == r.sent + [e]
    requires forall p | p in e.packets :: r.state.codec.last < p.sequence <= next.state.codec.last
    requires forall f | f in e.progress :: f.source in r.state.codec.trackers && r.state.codec.trackers[f.source].last < f.sequence
    requires forall f | f in e.progress :: f.source in next.state.codec.trackers && f.sequence <= next.state.codec.trackers[f.source].last
    ensures Ordered(next)
  {
    hide Runs.RowsBelow, Runs.FactsBelow;
    var n := |r.sent|;
    var (sent, state) := (next.sent, next.state);
    forall i | 0 <= i < n ensures Runs.RowsBelow(sent[i].packets, e.packets) && Runs.FactsBelow(sent[i].progress, e.progress) {
      assert sent[i] == r.sent[i];
      SentBelow(r, i, e);
    }
    OrderedLater(r, next.(sent := r.sent));
    forall i, j | 0 <= i < j < n + 1
      ensures Runs.RowsBelow(sent[i].packets, sent[j].packets) && Runs.FactsBelow(sent[i].progress, sent[j].progress)
    {
      assert sent[i] == r.sent[i] && (j < n ==> sent[j] == r.sent[j]);
    }
    forall k, p | 0 <= k < n + 1 && p in sent[k].packets ensures p.sequence <= state.codec.last {
      assert k < n ==> sent[k] == r.sent[k];
    }
    forall k, f | 0 <= k < n + 1 && f in sent[k].progress
      ensures f.source in state.codec.trackers && f.sequence <= state.codec.trackers[f.source].last
    {
      assert k < n ==> sent[k] == r.sent[k];
    }
  }

  lemma PublishOrdered(r: WriterRun, event: SinkCodec.Event, fate: W.Fate)
    requires Ordered(r) && W.Possible(r.state, event, fate)
    ensures Ordered(Published(r, event, fate))
  {
    hide SinkCodec.Encodable, SinkCodec.Advanced, SinkCodec.EnvelopeOf, SinkCodec.Tracked, W.Charge, Ordered;
    var next := Published(r, event, fate);
    var more := Queued(r.state, event, fate);
    if r.state.phase.Opened? && !W.PlainTimeout(event) && !fate.NotEncoded? {
      EncodableRises(r.state.codec, event, r.state.epoch, r.state.poll + 1);
    }
    if more == [] {
      assert r.sent + more == r.sent;
      OrderedLater(r, next);
    } else {
      assert more == [more[0]];
      OrderedSnoc(r, more[0], next);
    }
  }

  lemma {:induction false} CountStep(origin: seq<(nat, nat)>, last: (nat, nat), w: nat)
    ensures Count(origin + [last], w) == Count(origin, w) + if last.0 == w then 1 else 0
  {
    assert (origin + [last])[..|origin|] == origin;
  }

  lemma {:induction false} CountAbsent(origin: seq<(nat, nat)>, w: nat)
    requires forall i | 0 <= i < |origin| :: origin[i].0 != w
    ensures Count(origin, w) == 0
  {
    if origin != [] {
      CountAbsent(origin[..|origin| - 1], w);
    }
  }

  /** Replacing a writer by one that only queued more leaves the log as it was. */
  lemma LogKept(world: World, w: nat, r: WriterRun)
    requires LogOk(world) && w < |world.writers| && world.writers[w].sent <= r.sent
    requires r.state.codec.wire == world.writers[w].state.codec.wire
    ensures LogOk(world.(writers := world.writers[w := r]))
  {
    hide Carrier, Count;
    var next := world.(writers := world.writers[w := r]);
    forall i | 0 <= i < |next.log| ensures EntryOk(next, i) {
      assert EntryOk(world, i);
    }
  }

  lemma JoinKeeps(world: World, s: W.WriterState)
    requires WorldOk(world) && Enabled(world, Join(s))
    ensures WorldOk(Apply(world, Join(s)))
  {
    hide Carrier, Contract, SinkCodec.Ready, WriterOk;
    var next := Apply(world, Join(s));
    CountAbsent(world.origin, |world.writers|);
    hide Count;
    forall i | 0 <= i < |next.log| ensures EntryOk(next, i) {
      assert EntryOk(world, i);
      assert next.writers[world.origin[i].0] == world.writers[world.origin[i].0];
    }
    NewcomerOk(s);
  }

  lemma NewcomerOk(s: W.WriterState)
    requires Newcomer(s)
    ensures WriterOk(WriterRun(s, [], []))
  {
  }

  lemma PublishSourced(r: WriterRun, event: SinkCodec.Event, fate: W.Fate)
    requires Sourced(r) && W.Possible(r.state, event, fate)
    ensures Sourced(Published(r, event, fate))
  {
    hide Contract, SinkCodec.Tracked, W.Charge;
    if Queued(r.state, event, fate) != [] {
      EnvelopeMade(r.state.codec, event, r.state.epoch, r.state.poll + 1);
    }
  }

  lemma EnvelopeMade(s: SinkCodec.CodecState, event: SinkCodec.Event, epoch: seq<byte>, poll: u64)
    requires SinkCodec.Encodable(s, event, epoch, poll)
    ensures MadeFrom(SinkCodec.EnvelopeOf(s, event, epoch, poll), event)
  {
    hide Contract, SinkCodec.Tracked;
  }

  /** What a writer puts into its client's queue is what it counts as sent, as it will land. */
  lemma QueuedIsSent(s: W.WriterState, event: SinkCodec.Event, fate: W.Fate)
    requires |s.epoch| == 16 && W.Possible(s, event, fate)
    ensures |Queued(s, event, fate)| == |W.Sent(s, event, fate)| <= 1
    ensures forall e, m | e in Queued(s, event, fate) && m in W.Sent(s, event, fate) ::
              |e.epoch| == 16 && m.key == Carrier(s.codec.wire, e).key && m.value == Carrier(s.codec.wire, e).value
  {
    hide Contract, SinkCodec.Tracked, Carrier;
  }

  lemma PublishKeeps(world: World, e: Event)
    requires e.Publish? && WorldOk(world) && Enabled(world, e)
    ensures WorldOk(Apply(world, e))
  {
    hide Numbered, Ordered, Sourced, LogOk, SinkCodec.Encodable, W.Charge;
    var r := world.writers[e.w];
    PublishNumbered(r, e.event, e.fate);
    PublishOrdered(r, e.event, e.fate);
    PublishSourced(r, e.event, e.fate);
    LogKept(world, e.w, Published(r, e.event, e.fate));
  }

  lemma StopKeeps(world: World, e: Event)
    requires e.Stop? && WorldOk(world) && Enabled(world, e)
    ensures WorldOk(Apply(world, e))
  {
    hide LogOk, Contract, SinkCodec.Ready, Numbered, Ordered, Sourced, W.Charge;
    var r := world.writers[e.w];
    StopOk(r, e.call);
    LogKept(world, e.w, r.(state := W.CallStep(r.state, e.call)));
  }

  lemma StopOk(r: WriterRun, call: W.Call)
    requires WriterOk(r) && !call.WriteCall?
    ensures WriterOk(r.(state := W.CallStep(r.state, call)))
    ensures W.CallStep(r.state, call).epoch == r.state.epoch && W.CallStep(r.state, call).codec.wire == r.state.codec.wire
  {
    hide Contract, SinkCodec.Ready, Runs.RowsBelow, Runs.FactsBelow;
  }

  lemma LandKeeps(world: World, e: Event)
    requires e.Land? && WorldOk(world) && Enabled(world, e)
    ensures WorldOk(Apply(world, e))
  {
    hide Carrier, WriterOk, Count;
    var next := Apply(world, e);
    var n := |world.log|;
    forall i | 0 <= i < |next.log| ensures EntryOk(next, i) {
      if i < n {
        assert EntryOk(world, i);
        assert next.origin[..i] == world.origin[..i];
      } else {
        assert next.origin[..n] == world.origin;
      }
    }
    forall w | 0 <= w < |next.writers| ensures Count(next.origin, w) <= |next.writers[w].sent| {
      CountStep(world.origin, next.origin[n], w);
    }
  }

  /** Every run of writers keeps the numbering, the ordering and the log's account of itself. */
  lemma {:induction false} WorldOverRuns(world: World, events: seq<Event>)
    requires WorldOk(world) && Feasible(world, events)
    ensures WorldOk(Run(world, events))
    decreases |events|
  {
    if events == [] {
    } else {
      var e := events[0];
      match e {
        case Join(s) => JoinKeeps(world, s);
        case Publish(_, _, _) => PublishKeeps(world, e);
        case Land(_, _) => LandKeeps(world, e);
        case Stop(_, _) => StopKeeps(world, e);
      }
      WorldOverRuns(Apply(world, e), events[1..]);
    }
  }

  // ------------------------------------------------------- the reader's side

  /** An entry decodes, under any configuration that accepts it, to what its writer encoded. */
  lemma EntryDecodes(world: World, i: nat, c: SourceConfig)
    requires WorldOk(world) && i < |world.log| && Decoded(c, world.log[i]).Ok?
    ensures var (w, k) := world.origin[i];
            w < |world.writers| && k < |world.writers[w].sent|
            && Decoded(c, world.log[i]).value == Strip(world.writers[w].sent[k])
  {
    assert EntryOk(world, i);
    var (w, k) := world.origin[i];
    assert WriterOk(world.writers[w]);
    CarriedDecodes(world.writers[w], k, world.log[i], c);
  }

  lemma CarriedDecodes(r: WriterRun, k: nat, m: Message, c: SourceConfig)
    requires Numbered(r) && k < |r.sent| && m == Landed(r, k, m.offset) && Decoded(c, m).Ok?
    ensures Decoded(c, m).value == Strip(r.sent[k])
  {
    hide Parse, Layout;
    var e := r.sent[k];
    assert Fits(e);
    ParseOfLayout(e);
  }

  /** The block is envelope number `poll` of this writer, made from its event, with facts of the reader's own generation. */
  predicate Carries(world: World, w: nat, b: R.Block, local: u64) {
    && w < |world.writers| && 1 <= b.envelope.poll <= |world.writers[w].sent| == |world.writers[w].published|
    && Localized(b.envelope, world.writers[w].sent[b.envelope.poll - 1], local)
    && MadeFrom(world.writers[w].sent[b.envelope.poll - 1], world.writers[w].published[b.envelope.poll - 1])
  }

  lemma BlockCarries(world: World, h: Runs.History, k: nat) returns (w: nat)
    requires WorldOk(world) && Runs.Contiguous(h) && k < |h.delivered| && h.sources[k] in world.log
    ensures Carries(world, w, h.delivered[k], h.reader.localGeneration)
    ensures world.writers[w].state.epoch == h.delivered[k].envelope.epoch
  {
    hide Decoded;
    var i :| 0 <= i < |world.log| && world.log[i] == h.sources[k];
    assert Runs.Faithful(h.reader.config, h.reader.localGeneration, h.sources[k], h.delivered[k]);
    EntryDecodes(world, i, h.reader.config);
    w := world.origin[i].0;
    assert WriterOk(world.writers[w]);
    var j := world.origin[i].1;
    LocalizedThrough(h.delivered[k].envelope, Decoded(h.reader.config, h.sources[k]).value, world.writers[w].sent[j],
                     h.reader.localGeneration);
  }

  lemma {:induction false} SameEpoch(h: Runs.History, k: nat)
    requires Runs.Contiguous(h) && k < |h.delivered|
    ensures h.delivered[k].envelope.epoch == h.delivered[0].envelope.epoch
    ensures h.delivered[k].envelope.poll == h.delivered[0].envelope.poll + k
  {
    hide Runs.Faithful, Runs.RowsBelow, Runs.FactsBelow;
    if k > 0 {
      SameEpoch(h, k - 1);
      assert Runs.Continues(h.delivered[k - 1], h.delivered[k]);
    }
  }

  /**
   * End to end: for every run of writers and every run of a reader fed from
   * their log, the delivered blocks are consecutive polls of a single writer,
   * each carrying exactly what that writer encoded.
   */
  lemma DeliveredFromOneWriter(events: seq<Event>, h: Runs.History, acts: seq<Runs.Act>) returns (w: nat)
    requires Feasible(EMPTY, events)
    requires Runs.Initial(h) && Runs.Feasible(h, acts)
    requires forall m | m in Runs.Run(h, acts).fetched :: m in Run(EMPTY, events).log
    ensures var end := Runs.Run(h, acts);
            forall k | 0 <= k < |end.delivered| ::
              Carries(Run(EMPTY, events), w, end.delivered[k], h.reader.localGeneration)
              && end.delivered[k].envelope.poll == end.delivered[0].envelope.poll + k
  {
    WorldOverRuns(EMPTY, events);
    Runs.InitialAtLeastOnce(h);
    Runs.AtLeastOnceOverRuns(h, acts);
    assert Runs.Contiguous(h) && Runs.Bound(h);
    Runs.ContiguousOverRuns(h, acts);
    Runs.ReaderKept(h, acts);
    w := OneWriter(Run(EMPTY, events), Runs.Run(h, acts));
  }

  lemma OneWriter(world: World, end: Runs.History) returns (w: nat)
    requires WorldOk(world) && Runs.Contiguous(end) && Runs.Bookkeeping(end)
    requires forall m | m in end.fetched :: m in world.log
    ensures forall k | 0 <= k < |end.delivered| ::
              Carries(world, w, end.delivered[k], end.reader.localGeneration)
              && end.delivered[k].envelope.poll == end.delivered[0].envelope.poll + k
  {
    w := 0;
    if end.delivered != [] {
      assert end.sources[0] in end.sources;
      w := BlockCarries(world, end, 0);
      forall k | 0 <= k < |end.delivered|
        ensures Carries(world, w, end.delivered[k], end.reader.localGeneration)
        ensures end.delivered[k].envelope.poll == end.delivered[0].envelope.poll + k
      {
        assert end.sources[k] in end.sources;
        var v := BlockCarries(world, end, k);
        SameEpoch(end, k);
        assert v == w by {
          hide Carries, LogOk, WriterOk, Runs.Contiguous;
        }
      }
    }
  }

  // ------------------------------------------------ no message of a lone writer is rejected

  /** A reader configuration that accepts at least what this wire configuration does. */
  predicate Compatible(c: SourceConfig, wire: SourceConfig) {
    && c.streamId == wire.streamId && c.domain == wire.domain
    && c.maxPackets >= wire.maxPackets && c.maxBytes >= wire.maxBytes && c.maxMessageBytes >= wire.maxMessageBytes
    && forall id :: Lookup(wire.inputs, id).Some? ==> Lookup(c.inputs, id) == Lookup(wire.inputs, id)
  }

  lemma CompatibleContract(c: SourceConfig, wire: SourceConfig, e: Envelope)
    requires Compatible(c, wire) && Contract(wire, e)
    ensures Contract(c, e)
  {
    hide Lookup;
    forall r | r in e.packets ensures RowMeets(c, r) {
      assert RowMeets(wire, r);
    }
    forall f | f in e.progress ensures FactMeets(c, e.packets, f) {
      assert FactMeets(wire, e.packets, f);
    }
  }

  /** The reader has consumed this writer's envelopes from some point up to, but not including, number k. */
  predicate InStep(s: R.ReaderState, r: WriterRun, k: nat, offset: int) {
    && k <= |r.sent|
    && (s.bound ==> k > 0 && s.epoch == r.state.epoch && s.generation == r.state.codec.generation && s.poll == k
                    && s.offset <= offset)
    && (s.sequence == 0 || exists j, p | 0 <= j < k && p in r.sent[j].packets :: p.sequence == s.sequence)
    && (forall src :: R.FactSequence(s.facts, src) == 0
          || exists j, f | 0 <= j < k && f in r.sent[j].progress :: f.source == src && f.sequence == R.FactSequence(s.facts, src))
  }

  lemma InStepRises(s: R.ReaderState, r: WriterRun, k: nat, offset: int)
    requires WriterOk(r) && k < |r.sent| && InStep(s, r, k, offset)
    ensures R.PacketsRise(s, r.sent[k].packets)
    ensures forall f | f in r.sent[k].progress :: f.sequence > R.FactSequence(s.facts, f.source)
  {
    var e := r.sent[k];
    assert Contract(r.state.codec.wire, e);
    if e.packets != [] {
      assert RowMeets(r.state.codec.wire, e.packets[0]);
      assert s.sequence < e.packets[0].sequence by {
        if s.sequence != 0 {
          var j, p :| 0 <= j < k && p in r.sent[j].packets && p.sequence == s.sequence;
          assert Runs.RowsBelow(r.sent[j].packets, e.packets);
          assert e.packets[0] in e.packets;
        }
      }
    }
    forall f | f in e.progress ensures f.sequence > R.FactSequence(s.facts, f.source) {
      assert FactMeets(r.state.codec.wire, e.packets, f);
      if R.FactSequence(s.facts, f.source) != 0 {
        var j, g :| 0 <= j < k && g in r.sent[j].progress && g.source == f.source
                    && g.sequence == R.FactSequence(s.facts, f.source);
        assert Runs.FactsBelow(r.sent[j].progress, e.progress);
      }
    }
  }

  /** What the reader makes of the writer's k-th envelope. */
  lemma NextDecoded(s: R.ReaderState, r: WriterRun, k: nat, offset: i64)
    requires Numbered(r) && k < |r.sent| && Compatible(s.config, r.state.codec.wire)
    ensures Decoded(s.config, Landed(r, k, offset)) == Ok(Strip(r.sent[k]))
  {
    hide Contract, Decoded, Encoded;
    var e := r.sent[k];
    CompatibleContract(s.config, r.state.codec.wire, e);
    EncodedCarrier(s.config, e);
    EncodedCarrier(r.state.codec.wire, e);
    DecodeOfEncode(s.config, e, 0, offset);
  }

  lemma EncodedCarrier(c: SourceConfig, e: Envelope)
    requires Contract(c, e)
    ensures |e.epoch| == 16 && Encoded(c, e) == Ok(Message(0, 0, c.streamId, Layout(e), false, false))
  {
  }

  lemma NextAdmitted(s: R.ReaderState, r: WriterRun, k: nat, offset: i64)
    requires WriterOk(r) && k < |r.sent| && Compatible(s.config, r.state.codec.wire)
    requires 0 <= offset < INT64_MAX && InStep(s, r, k, offset - 1)
    ensures R.Admits(s, Landed(r, k, offset), true)
  {
    hide Decoded, R.PacketsRise, R.FactsRise, R.Follows, InStep, Numbered, Ordered, Compatible, Landed, StripFacts;
    NextDecoded(s, r, k, offset);
    InStepRises(s, r, k, offset - 1);
    InStepFollows(s, r, k, offset - 1);
    StripRises(s, r.sent[k]);
    LandedIdentity(r, k, offset);
  }

  lemma LandedIdentity(r: WriterRun, k: nat, offset: i64)
    requires k < |r.sent|
    ensures Landed(r, k, offset).offset == offset && Landed(r, k, offset).partition == 0
  {
  }

  lemma StripRises(s: R.ReaderState, e: Envelope)
    requires forall f | f in e.progress :: f.sequence > R.FactSequence(s.facts, f.source)
    ensures R.FactsRise(s, Strip(e).progress)
  {
    hide R.FactSequence;
    forall f | f in StripFacts(e.progress) ensures f.sequence > R.FactSequence(s.facts, f.source) {
      var i :| 0 <= i < |e.progress| && StripFacts(e.progress)[i] == f;
      assert e.progress[i] in e.progress;
    }
  }

  lemma InStepFollows(s: R.ReaderState, r: WriterRun, k: nat, offset: int)
    requires Numbered(r) && k < |r.sent| && InStep(s, r, k, offset)
    ensures R.Follows(s, Strip(r.sent[k])) && (s.bound ==> s.offset <= offset)
  {
  }

  lemma NextInStep(s: R.ReaderState, r: WriterRun, k: nat, offset: i64)
    requires WriterOk(r) && k < |r.sent| && Compatible(s.config, r.state.codec.wire)
    requires 0 <= offset < INT64_MAX && InStep(s, r, k, offset - 1)
    ensures R.Admits(s, Landed(r, k, offset), true)
    ensures InStep(R.Deliver(s, Landed(r, k, offset)), r, k + 1, offset)
  {
    NextAdmitted(s, r, k, offset);
    NextDecoded'(s, r, k, offset);
    LandedIdentity(r, k, offset);
    assert r.sent[k].epoch == r.state.epoch && r.sent[k].generation == r.state.codec.generation && r.sent[k].poll == k + 1;
    hide WriterOk, Compatible, R.Admits, Landed, Decoded, InStep;
    AdvanceInStep(s, R.DeliverFor(s, offset, Strip(r.sent[k])), r, k, offset);
  }

  lemma AdvanceInStep(s: R.ReaderState, t: R.ReaderState, r: WriterRun, k: nat, offset: i64)
    requires k < |r.sent| && InStep(s, r, k, offset - 1)
    requires t.bound && t.epoch == r.state.epoch && t.generation == r.state.codec.generation && t.poll == k + 1
    requires t.offset == offset && t.sequence == LastSequence(r.sent[k].packets, s.sequence)
    requires t.facts == R.Noted(s.facts, StripFacts(r.sent[k].progress))
    ensures InStep(t, r, k + 1, offset)
  {
    var e := r.sent[k];
    hide R.Noted;
    assert t.sequence == 0 || exists j, p | 0 <= j < k + 1 && p in r.sent[j].packets :: p.sequence == t.sequence by {
      if e.packets != [] {
        assert e.packets[|e.packets| - 1] in r.sent[k].packets;
      }
    }
    forall src
      ensures R.FactSequence(t.facts, src) == 0
              || exists j, f | 0 <= j < k + 1 && f in r.sent[j].progress ::
                   f.source == src && f.sequence == R.FactSequence(t.facts, src)
    {
      NotedFrom(s.facts, StripFacts(e.progress), src);
      if f :| f in StripFacts(e.progress) && f.source == src && f.sequence == R.FactSequence(t.facts, src) {
        var i :| 0 <= i < |e.progress| && StripFacts(e.progress)[i] == f;
        assert e.progress[i] in r.sent[k].progress;
      }
    }
  }

  lemma {:induction false} NotedFrom(facts: map<u32, u64>, progress: seq<Fact>, src: u32)
    ensures var v := R.FactSequence(R.Noted(facts, progress), src);
            v == R.FactSequence(facts, src) || exists f | f in progress :: f.source == src && f.sequence == v
    decreases |progress|
  {
    if progress != [] {
      NotedFrom(facts[progress[0].source := progress[0].sequence], progress[1..], src);
    }
  }

  /** From entry `i` on, the log belongs to writer `w` alone. */
  predicate Alone(world: World, w: nat, i: nat) {
    && |world.origin| == |world.log| && i <= |world.log| && w < |world.writers|
    && forall j | i <= j < |world.log| :: world.origin[j].0 == w
  }

  lemma EntryNumber(world: World, w: nat, i: nat)
    requires WorldOk(world) && i < |world.log| && Alone(world, w, i)
    ensures var k := Count(world.origin[..i], w);
            k < |world.writers[w].sent| && world.log[i] == Landed(world.writers[w], k, world.log[i].offset)
            && Count(world.origin[..i + 1], w) == k + 1 && 0 <= world.log[i].offset < INT64_MAX
  {
    hide WriterOk, EpochsDiffer, Landed, Count;
    assert EntryOk(world, i);
    assert world.origin[..i + 1] == world.origin[..i] + [world.origin[i]];
    CountStep(world.origin[..i], world.origin[i], w);
  }

  /** The offset below which a reader in step with entry i stands. */
  function Ceiling(world: World, i: nat): int {
    if i < |world.log| then world.log[i].offset - 1 else INT64_MAX
  }

  /** The reader admits entry i, delivers its envelope, and is then in step with entry i+1. */
  lemma StepOne(world: World, w: nat, i: nat, s: R.ReaderState)
    requires i < |world.log|
    requires WorldOk(world) && Alone(world, w, i) && Compatible(s.config, world.writers[w].state.codec.wire)
    requires InStep(s, world.writers[w], Count(world.origin[..i], w), Ceiling(world, i))
    ensures var r, k, m := world.writers[w], Count(world.origin[..i], w), world.log[i];
            && k < |r.sent| && R.Admits(s, m, true) && Decoded(s.config, m) == Ok(Strip(r.sent[k]))
            && Count(world.origin[..i + 1], w) == k + 1 && Alone(world, w, i + 1)
            && R.Deliver(s, m).config == s.config
            && InStep(R.Deliver(s, m), r, k + 1, Ceiling(world, i + 1))
  {
    var r, k, m := world.writers[w], Count(world.origin[..i], w), world.log[i];
    EntryNumber(world, w, i);
    assert WriterOk(r) && m.offset <= Ceiling(world, i + 1);
    hide Compatible, R.Admits, R.DeliverFor, Landed, WriterOk, WorldOk, Strip, InStep, Decoded, Count;
    NextInStep(s, r, k, m.offset);
    NextDecoded'(s, r, k, m.offset);
    DeliverConfig(s, m);
    InStepLater(R.Deliver(s, m), r, k + 1, m.offset, Ceiling(world, i + 1));
  }

  lemma DeliverConfig(s: R.ReaderState, m: Message)
    requires Decoded(s.config, m).Ok?
    ensures R.Deliver(s, m).config == s.config
  {
  }

  lemma NextDecoded'(s: R.ReaderState, r: WriterRun, k: nat, offset: i64)
    requires WriterOk(r) && k < |r.sent| && Compatible(s.config, r.state.codec.wire)
    ensures Decoded(s.config, Landed(r, k, offset)) == Ok(Strip(r.sent[k]))
  {
    NextDecoded(s, r, k, offset);
  }

  lemma InStepLater(s: R.ReaderState, r: WriterRun, k: nat, a: int, b: int)
    requires InStep(s, r, k, a) && a <= b
    ensures InStep(s, r, k, b)
  {
  }

  /** InStep only looks at the reader's place in the stream. */
  lemma InStepSame(s: R.ReaderState, t: R.ReaderState, r: WriterRun, k: nat, offset: int)
    requires InStep(s, r, k, offset)
    requires t.bound == s.bound && t.epoch == s.epoch && t.generation == s.generation && t.poll == s.poll
    requires t.offset == s.offset && t.sequence == s.sequence && t.facts == s.facts
    ensures InStep(t, r, k, offset)
  {
  }

  /** What others answer for: the topic is the reader's, and the layer decoder accepts the packets. */
  predicate Sound(act: Runs.Act) {
    Runs.FetchedBy(act) != [] ==> act.fetch.value.topicMatches && act.decodable
  }

  /** The reader has delivered the first entries from `start` on, each carrying the writer's next envelope. */
  predicate InPace(world: World, w: nat, start: nat, h: Runs.History)
    requires w < |world.writers| && start <= |world.origin|
  {
    var (r, k, n) := (world.writers[w], Count(world.origin[..start], w), |h.fetched|);
    && start + n <= |world.log| && h.fetched == world.log[start..start + n]
    && h.sources == h.fetched && |h.delivered| == n
    && Alone(world, w, start + n) && Count(world.origin[..start + n], w) == k + n <= |r.sent|
    && Compatible(h.reader.config, r.state.codec.wire)
    && InStep(h.reader, r, k + n, Ceiling(world, start + n))
    && forall j | 0 <= j < n :: Localized(h.delivered[j].envelope, r.sent[k + j], h.reader.localGeneration)
  }

  lemma {:induction false} FetchedGrows(h: Runs.History, acts: seq<Runs.Act>)
    requires Runs.Feasible(h, acts)
    ensures h.fetched <= Runs.Run(h, acts).fetched
    decreases |acts|
  {
    hide Runs.Enabled;
    if acts != [] {
      FetchedGrows(Runs.Apply(h, acts[0]), acts[1..]);
      assert h.fetched <= Runs.Apply(h, acts[0]).fetched;
    }
  }

  lemma PaceGrows(world: World, w: nat, start: nat, h: Runs.History, t: R.ReaderState, b: R.Block)
    requires w < |world.writers| && start <= |world.origin| == |world.log| && InPace(world, w, start, h)
    requires start + |h.fetched| < |world.log| && t.config == h.reader.config && t.localGeneration == h.reader.localGeneration
    requires var (r, k, i) := (world.writers[w], Count(world.origin[..start], w) + |h.fetched|, start + |h.fetched|);
             && k < |r.sent| && Count(world.origin[..i + 1], w) == k + 1 && Alone(world, w, i + 1)
             && InStep(t, r, k + 1, Ceiling(world, i + 1)) && Localized(b.envelope, r.sent[k], t.localGeneration)
    ensures var m := world.log[start + |h.fetched|];
            InPace(world, w, start, h.(reader := t, fetched := h.fetched + [m], sources := h.sources + [m],
                                       delivered := h.delivered + [b]))
  {
    hide Alone, Compatible, InStep, Count, Ceiling, Localized;
    var n := |h.fetched|;
    var (r, k, m) := (world.writers[w], Count(world.origin[..start], w), world.log[start + n]);
    var delivered := h.delivered + [b];
    assert world.log[start..start + n + 1] == world.log[start..start + n] + [m];
    forall j | 0 <= j < n + 1 ensures Localized(delivered[j].envelope, r.sent[k + j], t.localGeneration) {
      if j < n {
        assert delivered[j] == h.delivered[j];
      }
    }
  }

  lemma PaceParts(world: World, w: nat, start: nat, h: Runs.History)
    requires w < |world.writers| && start <= |world.origin| == |world.log| && InPace(world, w, start, h)
    ensures var (r, k, n) := (world.writers[w], Count(world.origin[..start], w), |h.fetched|);
            && start + n <= |world.log| && Alone(world, w, start + n) && Compatible(h.reader.config, r.state.codec.wire)
            && Count(world.origin[..start + n], w) == k + n && InStep(h.reader, r, k + n, Ceiling(world, start + n))
  {
    hide Alone, Compatible, InStep, Count, Ceiling, Localized;
  }

  /** A call that fetches the next entry delivers it. */
  lemma FetchInPace(world: World, w: nat, start: nat, h: Runs.History, act: Runs.Act)
    requires WorldOk(world) && w < |world.writers| && start <= |world.log| && |world.log| == |world.origin|
    requires InPace(world, w, start, h) && Runs.Enabled(h, act) && Sound(act)
    requires Runs.FetchedBy(act) != [] && start + |h.fetched| < |world.log|
    requires Runs.FetchedBy(act) == [world.log[start + |h.fetched|]]
    ensures act.reply.Delivered? && InPace(world, w, start, Runs.Apply(h, act))
  {
    hide WorldOk, InPace, Alone, Compatible, InStep, Count, Ceiling, WriterOk, Strip, Localized, Sound;
    hide R.Admits, R.Deliver, R.BlockOf, Decoded, Runs.Enabled, Runs.Apply, Runs.FetchedBy;
    var m := world.log[start + |h.fetched|];
    PaceParts(world, w, start, h);
    StepOne(world, w, start + |h.fetched|, h.reader);
    FetchDelivers(h, act, m);
    DeliveredEnvelope(h.reader, m);
    LocalizedThrough(act.reply.block.envelope, Decoded(h.reader.config, m).value,
                     world.writers[w].sent[Count(world.origin[..start], w) + |h.fetched|], h.reader.localGeneration);
    PaceGrows(world, w, start, h, act.after, act.reply.block);
  }

  lemma FetchDelivers(h: Runs.History, act: Runs.Act, m: Message)
    requires Runs.Enabled(h, act) && Sound(act) && Runs.FetchedBy(act) == [m] && R.Admits(h.reader, m, true)
    ensures act.Poll? && act.after == R.Deliver(h.reader, m) && act.reply == R.Delivered(R.BlockOf(h.reader, m))
    ensures Runs.Apply(h, act) == h.(reader := act.after, fetched := h.fetched + [m], sources := h.sources + [m],
                                     delivered := h.delivered + [act.reply.block])
  {
    hide R.Admits, Decoded, R.DeliverFor, R.BlockFor;
  }

  lemma DeliveredEnvelope(s: R.ReaderState, m: Message)
    requires Decoded(s.config, m).Ok?
    ensures Localized(R.BlockOf(s, m).envelope, Decoded(s.config, m).value, s.localGeneration)
    ensures R.Deliver(s, m).localGeneration == s.localGeneration
  {
    hide Decoded;
    Runs.RelabelLocalizes(Decoded(s.config, m).value, s.localGeneration);
  }

  /** Calls that fetch nothing keep the pace: time-outs, busy polls, acknowledgements, releases, cancels, lost assignments. */
  lemma OtherInPace(world: World, w: nat, start: nat, h: Runs.History, act: Runs.Act)
    requires w < |world.writers| && start <= |world.log| == |world.origin|
    requires InPace(world, w, start, h) && Runs.Enabled(h, act) && Runs.FetchedBy(act) == []
    ensures InPace(world, w, start, Runs.Apply(h, act)) && (act.Poll? ==> !act.reply.Delivered?)
  {
    hide Alone, Compatible, InStep, Count, Ceiling, Localized, Runs.Apply, Runs.Enabled, Runs.FetchedBy;
    var (n, next) := (|h.fetched|, Runs.Apply(h, act));
    Runs.NoFetchNoDelivery(h, act);
    Runs.PlaceKept(h, act);
    InStepSame(h.reader, next.reader, world.writers[w], Count(world.origin[..start], w) + n, Ceiling(world, start + n));
  }

  lemma {:induction false} InPaceOverRuns(world: World, w: nat, start: nat, h: Runs.History, acts: seq<Runs.Act>)
    requires WorldOk(world) && w < |world.writers| && start <= |world.log| == |world.origin|
    requires InPace(world, w, start, h) && Runs.Feasible(h, acts) && forall a | a in acts :: Sound(a)
    requires Runs.Run(h, acts).fetched <= world.log[start..]
    ensures InPace(world, w, start, Runs.Run(h, acts))
    ensures forall a | a in acts && Runs.FetchedBy(a) != [] :: a.reply.Delivered?
    decreases |acts|
  {
    hide WorldOk, InPace, Runs.Enabled, Sound;
    if acts != [] {
      var (act, rest) := (acts[0], acts[1..]);
      var next := Runs.Apply(h, act);
      FetchedGrows(next, rest);
      assert act in acts && forall a | a in rest :: a in acts;
      if Runs.FetchedBy(act) == [] {
        OtherInPace(world, w, start, h, act);
      } else {
        assert next.fetched == h.fetched + Runs.FetchedBy(act) && next.fetched <= world.log[start..];
        assert world.log[start..][|h.fetched|] == next.fetched[|h.fetched|];
        FetchInPace(world, w, start, h, act);
      }
      InPaceOverRuns(world, w, start, next, rest);
      forall a | a in acts && Runs.FetchedBy(a) != [] ensures a.reply.Delivered? {
        assert a == act || a in rest;
      }
    }
  }

  /**
   * If the log from the reader's start belongs to one writer, no run of a reader
   * with a compatible configuration rejects a message: whatever the timing of
   * polls, acknowledgements, releases and cancels, each message it fetches is
   * delivered, and the blocks carry that writer's next envelopes, in order.
   */
  lemma LoneWriterNeverRejected(events: seq<Event>, w: nat, start: nat, h: Runs.History, acts: seq<Runs.Act>)
    requires Feasible(EMPTY, events) && Alone(Run(EMPTY, events), w, start)
    requires Compatible(h.reader.config, Run(EMPTY, events).writers[w].state.codec.wire)
    requires Runs.Initial(h) && Runs.Feasible(h, acts) && forall a | a in acts :: Sound(a)
    requires Runs.Run(h, acts).fetched <= Run(EMPTY, events).log[start..]
    ensures var (world, end) := (Run(EMPTY, events), Runs.Run(h, acts));
            var (r, k) := (world.writers[w], Count(world.origin[..start], w));
            && (forall a | a in acts && Runs.FetchedBy(a) != [] :: a.reply.Delivered?)
            && end.sources == end.fetched && |end.delivered| == |end.fetched| && k + |end.fetched| <= |r.sent|
            && forall j | 0 <= j < |end.delivered| :: Localized(end.delivered[j].envelope, r.sent[k + j], h.reader.localGeneration)
  {
    hide Feasible, Run, WorldOk, Compatible, Count, Runs.Feasible, Runs.Run, InStep, Sound;
    assert WorldOk(EMPTY) by { EmptyOk(); }
    WorldOverRuns(EMPTY, events);
    var world := Run(EMPTY, events);
    StartNumber(world, w, start);
    FreshInStep(h.reader, world.writers[w], Count(world.origin[..start], w), Ceiling(world, start));
    InPaceOverRuns(world, w, start, h, acts);
    Runs.ReaderKept(h, acts);
  }

  lemma FreshInStep(s: R.ReaderState, r: WriterRun, k: nat, offset: int)
    requires s == R.Fresh(s.config, s.localGeneration, s.commits) && k <= |r.sent|
    ensures InStep(s, r, k, offset)
  {
  }

  lemma EmptyOk()
    ensures WorldOk(EMPTY)
  {
  }

  lemma StartNumber(world: World, w: nat, i: nat)
    requires WorldOk(world) && Alone(world, w, i)
    ensures Count(world.origin[..i], w) <= |world.writers[w].sent|
  {
    if i < |world.log| {
      EntryNumber(world, w, i);
    } else {
      assert world.origin[..i] == world.origin;
    }
  }
}
