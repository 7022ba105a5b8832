/** The packet source reader: one block at a time, in order, committed on request. */
module PacketReader {
  import opened Bytes
  import opened Errno
  import opened PacketWire
  import WireCodec

  const MAX_TIMEOUT := 30000

  // ------------------------------------------------------ the consumer session

  /** The sticky flags of a packet consumer session. */
  datatype SessionState = SessionState(cancelled: bool, lost: bool, owned: bool)

  predicate Live(s: SessionState) {
    !s.cancelled && !s.lost
  }

  /** What one `PollMessage` returned. */
  datatype Fetch =
    | Got(message: Message, topicMatches: bool)
    | Nothing
    | Gone
    | Broken(rc: int)

  /** A live session may do anything; a cancelled or disowned one never returns a message. */
  predicate FetchPossible(s: SessionState, f: Fetch) {
    && (f.Got? ==> Live(s))
    && (s.cancelled ==> f.Gone? || f.Broken?)
    && (f.Gone? ==> s.cancelled)
    && (f.Broken? ==> f.rc != 0 && f.rc != ECANCELED)
  }

  class ConsumerSession {
    var cancelled: bool
    var lost: bool
    var owned: bool

    function View(): SessionState
      reads this
    {
      SessionState(cancelled, lost, owned)
    }

    constructor ()
      ensures View() == SessionState(false, false, false)
    {
      cancelled, lost, owned := false, false, false;
    }

    method Cancel()
      modifies this
      ensures View() == old(View()).(cancelled := true)
    {
      cancelled := true;
    }

    /** Only the first assignment of exactly partition 0 of the topic keeps the session usable. */
    method PacketRebalance(assign: bool, onlyPartitionZero: bool, accepted: bool)
      modifies this
      ensures var first := assign && !old(owned) && onlyPartitionZero;
              View() == SessionState(old(cancelled), old(lost) || !first || !accepted, old(owned) || first)
    {
      var initial := assign && !owned && onlyPartitionZero;
      if initial {
        owned := true;
        if !accepted {
          lost := true;
        }
      } else {
        lost := true;
      }
    }

    /**
     * `check` is what the checks before the first read find: an unopened consumer
     * or a topology error, ahead of a cancel. `record` is what the broker offers
     * before the deadline, if anything.
     */
    method PollMessage(check: int, record: Fetch) returns (f: Fetch)
      requires check == ECANCELED ==> cancelled
      requires record.Broken? ==> record.rc != ECANCELED
      ensures FetchPossible(View(), f)
      ensures Live(View()) && check == 0 && record.Got? ==> f == record
      ensures check != 0 ==> f.Gone? || f == Broken(check)
      ensures lost && f.Broken? ==> f.rc == check || f.rc == ESTALE
    {
      if check != 0 {
        return if check == ECANCELED then Gone else Broken(check);
      }
      if cancelled {
        return Gone;
      }
      if lost {
        return Broken(ESTALE);
      }
      match record
      case Got(_, _) => f := record;
      case Nothing => f := Nothing;
      case Gone => f := Nothing;
      case Broken(rc) => f := if rc != 0 then record else Nothing;
    }

    /**
     * `check` is what the checks before the request find: a lost assignment or a
     * topology error. `submitted` says whether the request was made; `answer` is
     * what became of it.
     */
    method CommitOffsets(check: int, answer: int) returns (rc: int, submitted: bool)
      ensures submitted <==> Live(View()) && owned && check == 0
      ensures rc == 0 ==> submitted
      ensures submitted ==> rc == answer
    {
      if cancelled {
        return ECANCELED, false;
      }
      if lost || !owned {
        return ESTALE, false;
      }
      if check != 0 {
        return check, false;
      }
      return answer, true;
    }
  }

  // ------------------------------------------------------------ reader states

  /** A delivered block; `id` stands for the identity of the record batch. */
  datatype Block = Block(id: nat, offset: i64, envelope: Envelope)

  datatype ReaderState = ReaderState(
    config: SourceConfig,
    localGeneration: u64,
    commits: bool,
    started: bool,
    cancelled: bool,
    terminal: int,
    bound: bool,
    epoch: seq<byte>,
    generation: u64,
    poll: u64,
    sequence: u64,
    offset: i64,
    facts: map<u32, u64>,
    outstanding: Option<Block>,
    acknowledged: bool,
    nextId: nat)

  datatype Reply =
    | Delivered(block: Block)
    | TimedOut
    | WasCancelled
    | Failed(rc: int)

  function FactSequence(facts: map<u32, u64>, source: u32): u64 {
    if source in facts then facts[source] else 0
  }

  predicate Identified(s: ReaderState, m: Message, topicMatches: bool) {
    topicMatches && m.partition == 0 && 0 <= m.offset < INT64_MAX && (s.bound ==> m.offset > s.offset)
  }

  /** The envelope continues the bound stream. */
  predicate Follows(s: ReaderState, e: Envelope) {
    s.bound ==> e.epoch == s.epoch && e.generation == s.generation && e.poll == s.poll + 1
  }

  predicate PacketsRise(s: ReaderState, rows: seq<Row>) {
    Rising(rows) && (rows != [] ==> rows[0].sequence > s.sequence)
  }

  predicate FactsRise(s: ReaderState, facts: seq<Fact>) {
    forall f | f in facts :: f.sequence > FactSequence(s.facts, f.source)
  }

  /** Everything a reader asks of a message before it hands out its block. */
  predicate Admits(s: ReaderState, m: Message, topicMatches: bool) {
    && Identified(s, m, topicMatches)
    && Decoded(s.config, m).Ok?
    && Follows(s, Decoded(s.config, m).value)
    && PacketsRise(s, Decoded(s.config, m).value.packets)
    && FactsRise(s, Decoded(s.config, m).value.progress)
  }

  /** Facts carry the reader's own generation. */
  function Relabel(facts: seq<Fact>, generation: u64): (r: seq<Fact>)
    ensures |r| == |facts| && forall i | 0 <= i < |r| :: r[i] == facts[i].(generation := generation)
  {
    seq(|facts|, i requires 0 <= i < |facts| => facts[i].(generation := generation))
  }

  function Noted(facts: map<u32, u64>, progress: seq<Fact>): map<u32, u64>
    decreases |progress|
  {
    if progress == [] then facts else Noted(facts[progress[0].source := progress[0].sequence], progress[1..])
  }

  function BlockFor(s: ReaderState, offset: i64, e: Envelope): Block {
    Block(s.nextId, offset, e.(progress := Relabel(e.progress, s.localGeneration)))
  }

  function DeliverFor(s: ReaderState, offset: i64, e: Envelope): ReaderState {
    s.(bound := true, epoch := e.epoch, generation := e.generation, poll := e.poll,
       sequence := LastSequence(e.packets, s.sequence), offset := offset, facts := Noted(s.facts, e.progress),
       outstanding := Some(BlockFor(s, offset, e)), acknowledged := false, nextId := s.nextId + 1)
  }

  function BlockOf(s: ReaderState, m: Message): Block
    requires Decoded(s.config, m).Ok?
  {
    BlockFor(s, m.offset, Decoded(s.config, m).value)
  }

  function Deliver(s: ReaderState, m: Message): ReaderState
    requires Decoded(s.config, m).Ok?
  {
    DeliverFor(s, m.offset, Decoded(s.config, m).value)
  }

  /** Whether a poll reaches the session at all. */
  predicate Polls(s: ReaderState, timeout: int) {
    !s.cancelled && s.terminal == 0 && s.started && 0 <= timeout <= MAX_TIMEOUT && s.outstanding.None?
  }

  /** `PollCapture`: `decodable` says that the layer decoder accepts the packets. */
  predicate PollOutcome(s: ReaderState, timeout: int, f: Option<Fetch>, decodable: bool, t: ReaderState, r: Reply) {
    && (f.Some? <==> Polls(s, timeout))
    && if s.cancelled then t == s && r == WasCancelled
    else if s.terminal != 0 then t == s && r == Failed(s.terminal)
    else if !s.started || timeout < 0 || timeout > MAX_TIMEOUT then t == s.(terminal := EINVAL) && r == Failed(EINVAL)
    else if s.outstanding.Some? then t == s && r == Failed(EBUSY)
    else match f.value
      case Nothing => t == s && r == TimedOut
      case Gone => t == s && r == WasCancelled
      case Broken(rc) => t == s.(terminal := rc) && r == Failed(rc)
      case Got(m, topicMatches) =>
        if Admits(s, m, topicMatches) && decodable then t == Deliver(s, m) && r == Delivered(BlockOf(s, m))
        else r.Failed? && r.rc != 0 && t == s.(terminal := r.rc)
  }

  /** What the number of a refused message says. */
  predicate RefusedAs(s: ReaderState, f: Fetch, decodable: bool, rc: int)
    requires f.Got?
  {
    var (known, decoded) := (Identified(s, f.message, f.topicMatches), Decoded(s.config, f.message));
    if !known then rc == EPROTO
    else if decoded.Invalid? then rc == EILSEQ
    else if !Follows(s, decoded.value) then rc == ESTALE
    else if !PacketsRise(s, decoded.value.packets) || !FactsRise(s, decoded.value.progress) then rc == EPROTO
    else !decodable && rc == EILSEQ
  }

  lemma RefusedDecoding(s: ReaderState, f: Fetch, decodable: bool, rc: int)
    requires f.Got?
    ensures RefusedAs(s, f, true, rc) ==> RefusedAs(s, f, decodable, rc)
    ensures Admits(s, f.message, f.topicMatches) && !decodable ==> RefusedAs(s, f, decodable, EILSEQ)
  {
  }

  /** What one `AcknowledgeBlock` did: its result and the position it submitted, if any. */
  datatype Receipt = Receipt(rc: int, submitted: Option<int>)

  predicate Current(s: ReaderState, id: nat) {
    s.outstanding.Some? && s.outstanding.value.id == id
  }

  predicate AckOutcome(s: ReaderState, session: SessionState, id: nat, t: ReaderState, r: Receipt) {
    if s.cancelled then t == s && r == Receipt(ECANCELED, None)
    else if s.terminal != 0 then t == s && r == Receipt(s.terminal, None)
    else if !Current(s, id) || s.acknowledged then t == s && r == Receipt(EINVAL, None)
    else
      && (r.submitted.Some? ==> Live(session) && s.commits && r.submitted.value == s.outstanding.value.offset + 1)
      && (r.rc == 0 ==> t == s.(acknowledged := true) && (s.commits ==> r.submitted.Some?))
      && (r.rc != 0 ==> t == s.(terminal := r.rc))
  }

  function ReleaseStep(s: ReaderState, id: nat): (ReaderState, int) {
    if !Current(s, id) then (s, EINVAL)
    else (s.(outstanding := None, terminal := if !s.acknowledged && s.terminal == 0 then ECANCELED else s.terminal), 0)
  }

  /** Opening once, before a cancel; a failed subscription is terminal. */
  function OpenStep(s: ReaderState, query: int, start: int): (ReaderState, int) {
    if s.started then (s, EALREADY)
    else if s.cancelled then (s, ECANCELED)
    else if query != 0 then (s, query)
    else if start != 0 then (s.(terminal := start), start)
    else (s.(started := true), 0)
  }

  /** The offset of the block in hand is the reader's current offset. */
  predicate Consistent(s: ReaderState) {
    s.outstanding.Some? ==> s.outstanding.value.offset == s.offset && s.outstanding.value.id < s.nextId
  }

  class PacketReader {
    const config: SourceConfig
    const localGeneration: u64
    const commits: bool
    const session: ConsumerSession
    var started: bool
    var cancelled: bool
    var terminal: int
    var bound: bool
    var epoch: seq<byte>
    var generation: u64
    var poll: u64
    var sequence: u64
    var offset: i64
    var facts: map<u32, u64>
    var outstanding: Option<Block>
    var acknowledged: bool
    var nextId: nat

    function View(): ReaderState
      reads this
    {
      ReaderState(config, localGeneration, commits, started, cancelled, terminal, bound, epoch, generation, poll,
                  sequence, offset, facts, outstanding, acknowledged, nextId)
    }

    constructor (config: SourceConfig, localGeneration: u64, commits: bool, session: ConsumerSession)
      ensures View() == Fresh(config, localGeneration, commits) && this.session == session
    {
      this.config, this.localGeneration, this.commits, this.session := config, localGeneration, commits, session;
      started, cancelled, terminal, bound := false, false, 0, false;
      epoch, generation, poll, sequence, offset := seq(16, _ => 0), 0, 0, 0, -1;
      facts, outstanding, acknowledged, nextId := map[], None, false, 0;
    }

    /** `query` is what asking for the consumer gives, and `start` the result of subscribing. */
    method Open(query: int, start: int) returns (rc: int)
      modifies this
      ensures (View(), rc) == OpenStep(old(View()), query, start)
      ensures rc == if old(started) then EALREADY else if old(cancelled) then ECANCELED else if query != 0 then query else start
      ensures (started <==> old(started) || rc == 0) && outstanding == old(outstanding)
      ensures terminal != old(terminal) ==> !old(started) && !old(cancelled) && query == 0 && terminal == start
    {
      if started {
        return EALREADY;
      }
      if cancelled {
        return ECANCELED;
      }
      if query != 0 {
        return query;
      }
      if start != 0 {
        terminal := start;
      } else {
        started := true;
      }
      rc := start;
    }

    method Cancel()
      modifies this, session
      ensures View() == old(View()).(cancelled := true)
      ensures session.View() == old(session.View()).(cancelled := true)
    {
      cancelled := true;
      session.Cancel();
    }

    method Close()
      modifies this, session
      ensures View() == old(View()).(cancelled := true, outstanding := None, started := false)
      ensures session.View() == old(session.View()).(cancelled := true)
    {
      Cancel();
      outstanding := None;
      started := false;
    }

    method Error(rc: int) returns (r: Reply)
      modifies this
      ensures View() == old(View()).(terminal := rc) && r == Failed(rc)
    {
      terminal := rc;
      r := Failed(rc);
    }

    /** Checks one message against the stream; 0 means it is admitted. */
    method Inspect(m: Message, topicMatches: bool) returns (rc: int, e: Envelope, top: u64)
      ensures rc == 0 <==> Admits(View(), m, topicMatches)
      ensures rc == 0 ==> Decoded(config, m) == Ok(e) && top == LastSequence(e.packets, sequence)
      ensures rc != 0 ==> RefusedAs(View(), Got(m, topicMatches), true, rc)
    {
      hide Decoded, PacketsRise;
      e := Envelope(epoch, 0, 0, 0, [], []);
      top := sequence;
      if !topicMatches || m.partition != 0 || m.offset < 0 || m.offset == INT64_MAX || (bound && m.offset <= offset) {
        return EPROTO, e, top;
      }
      var decoded := WireCodec.DecodePacket(config, m);
      if decoded.Invalid? {
        return EILSEQ, e, top;
      }
      e := decoded.value;
      if bound && (e.epoch != epoch || e.generation != generation || poll == UINT64_MAX || e.poll != poll + 1) {
        return ESTALE, e, top;
      }
      var ok;
      ok, top := InspectRows(e.packets);
      if !ok {
        return EPROTO, e, top;
      }
      for i := 0 to |e.progress|
        invariant forall j | 0 <= j < i :: e.progress[j].sequence > FactSequence(facts, e.progress[j].source)
      {
        if e.progress[i].sequence <= (if e.progress[i].source in facts then facts[e.progress[i].source] else 0) {
          assert e.progress[i] in e.progress;
          return EPROTO, e, top;
        }
      }
      rc := 0;
    }

    method InspectRows(rows: seq<Row>) returns (ok: bool, top: u64)
      ensures ok <==> PacketsRise(View(), rows)
      ensures ok ==> top == LastSequence(rows, sequence)
    {
      top := sequence;
      for i := 0 to |rows|
        invariant PacketsRise(View(), rows[..i]) && top == LastSequence(rows[..i], sequence)
      {
        if rows[i].sequence <= top {
          assert i > 0 ==> rows[i - 1].sequence >= rows[i].sequence;
          return false, top;
        }
        top := rows[i].sequence;
      }
      assert rows[..|rows|] == rows;
      ok := true;
    }

    /** Hands out the next block, if the session has an admissible message. */
    method PollCapture(timeout: int, check: int, record: Fetch, decodable: bool) returns (r: Reply, ghost fetch: Option<Fetch>)
      requires check == ECANCELED ==> session.cancelled
      requires record.Broken? ==> record.rc != ECANCELED
      modifies this
      ensures fetch.Some? ==> FetchPossible(session.View(), fetch.value)
      ensures fetch.Some? && Live(session.View()) && check == 0 && record.Got? ==> fetch.value == record
      ensures PollOutcome(old(View()), timeout, fetch, decodable, View(), r)
      ensures fetch.Some? && fetch.value.Got? && r.Failed? ==> RefusedAs(old(View()), fetch.value, decodable, r.rc)
      ensures r.Delivered? ==>
                fetch.Some? && fetch.value.Got? && Decoded(config, fetch.value.message).Ok?
                && Localized(r.block.envelope, Decoded(config, fetch.value.message).value, localGeneration)
    {
      hide Admits, FetchPossible, Decoded, RefusedAs;
      fetch := None;
      if cancelled {
        return WasCancelled, fetch;
      }
      if terminal != 0 {
        return Failed(terminal), fetch;
      }
      if !started || timeout < 0 || timeout > 30000 {
        r := Error(EINVAL);
        return;
      }
      if outstanding.Some? {
        return Failed(EBUSY), fetch;
      }
      var polled := session.PollMessage(check, record);
      fetch := Some(polled);
      match polled
      case Nothing => r := TimedOut;
      case Gone => r := WasCancelled;
      case Broken(rc) => r := Error(rc);
      case Got(m, topicMatches) =>
        var rc, e, top := Inspect(m, topicMatches);
        RefusedDecoding(View(), polled, decodable, rc);
        if rc != 0 {
          r := Error(rc);
        } else if !decodable {
          r := Error(EILSEQ);
        } else {
          r := Hand(m.offset, e, top);
        }
    }

    method Hand(position: i64, e: Envelope, top: u64) returns (r: Reply)
      requires top == LastSequence(e.packets, sequence)
      modifies this
      ensures View() == DeliverFor(old(View()), position, e) && r == Delivered(BlockFor(old(View()), position, e))
    {
      hide LastSequence, Noted, Relabel;
      var progress := NoteFacts(e.progress);
      Bind(position, e, top);
      r := Issue(position, e.(progress := progress));
    }

    method Bind(position: i64, e: Envelope, top: u64)
      modifies this`bound, this`epoch, this`generation, this`poll, this`sequence, this`offset
      ensures View() == old(View()).(bound := true, epoch := e.epoch, generation := e.generation, poll := e.poll,
                                     sequence := top, offset := position)
    {
      bound := true;
      epoch, generation, poll, sequence, offset := e.epoch, e.generation, e.poll, top, position;
    }

    method Issue(position: i64, e: Envelope) returns (r: Reply)
      modifies this`outstanding, this`acknowledged, this`nextId
      ensures r == Delivered(Block(old(nextId), position, e))
      ensures View() == old(View()).(outstanding := Some(r.block), acknowledged := false, nextId := old(nextId) + 1)
    {
      var block := Block(nextId, position, e);
      nextId := nextId + 1;
      outstanding := Some(block);
      acknowledged := false;
      r := Delivered(block);
    }

    /** Remembers each fact's sequence and relabels the facts. */
    method NoteFacts(progress: seq<Fact>) returns (labelled: seq<Fact>)
      modifies this`facts
      ensures facts == Noted(old(facts), progress)
      ensures labelled == Relabel(progress, localGeneration)
    {
      labelled := [];
      var i := 0;
      while i < |progress|
        invariant 0 <= i <= |progress|
        invariant labelled == Relabel(progress, localGeneration)[..i]
        invariant Noted(old(facts), progress) == Noted(facts, progress[i..])
      {
        assert progress[i..][1..] == progress[i + 1..];
        facts := facts[progress[i].source := progress[i].sequence];
        labelled := labelled + [progress[i].(generation := localGeneration)];
        i := i + 1;
      }
    }

    /** `check` and `answer` are what a commit meets. */
    method AcknowledgeBlock(id: nat, check: int, answer: int) returns (rc: int, ghost receipt: Receipt)
      requires Consistent(View())
      modifies this
      ensures AckOutcome(old(View()), session.View(), id, View(), receipt) && rc == receipt.rc
      ensures !old(cancelled) && old(terminal) == 0 && Current(old(View()), id) && !old(acknowledged) ==>
                (rc == 0 <==> (commits ==> Live(session.View()) && session.owned && check == 0 && answer == 0))
    {
      receipt := Receipt(0, None);
      if cancelled {
        return ECANCELED, Receipt(ECANCELED, None);
      }
      if terminal != 0 {
        return terminal, Receipt(terminal, None);
      }
      if outstanding.None? || outstanding.value.id != id || acknowledged {
        return EINVAL, Receipt(EINVAL, None);
      }
      rc := 0;
      if commits {
        var submitted;
        rc, submitted := session.CommitOffsets(check, answer);
        receipt := Receipt(rc, if submitted then Some(offset + 1) else None);
      }
      if rc != 0 {
        terminal := rc;
        return;
      }
      acknowledged := true;
    }

    method ReleaseBlock(id: nat) returns (rc: int)
      modifies this
      ensures (View(), rc) == ReleaseStep(old(View()), id)
      ensures rc == if old(outstanding).Some? && old(outstanding).value.id == id then 0 else EINVAL
      ensures rc != 0 ==> View() == old(View())
      ensures rc == 0 ==> outstanding.None? && terminal == if old(acknowledged) || old(terminal) != 0 then old(terminal) else ECANCELED
    {
      if outstanding.None? || outstanding.value.id != id {
        return EINVAL;
      }
      if !acknowledged && terminal == 0 {
        terminal := ECANCELED;
      }
      outstanding := None;
      rc := 0;
    }
  }

  function Fresh(config: SourceConfig, localGeneration: u64, commits: bool): ReaderState {
    ReaderState(config, localGeneration, commits, false, false, 0, false, seq(16, _ => 0), 0, 0, 0, -1, map[], None,
                false, 0)
  }
}
