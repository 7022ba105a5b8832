/** The structured source reader: it batches messages and commits per partition. */
module StructuredReader {
  import opened Bytes
  import opened Errno

  const MAX_TIMEOUT := 30000
  const MAX_BATCH_BYTES := 16777216

  datatype Message = Message(partition: int, offset: int, size: nat)

  /** What one `PollMessage` returned. */
  datatype Fetch =
    | Got(message: Message)
    | Nothing
    | Gone
    | Broken(rc: int)

  datatype Block = Block(id: nat, messages: seq<Message>)

  datatype ReaderState = ReaderState(
    maxRows: nat,
    commits: bool,
    started: bool,
    cancelled: bool,
    terminal: int,
    outstanding: Option<Block>,
    offsets: map<int, int>,
    acknowledged: bool,
    nextId: nat)

  datatype Reply =
    | Delivered(block: Block)
    | TimedOut
    | WasCancelled
    | Failed(rc: int)

  predicate ValidPosition(m: Message) {
    0 <= m.offset < INT64_MAX && m.partition >= 0
  }

  /** One past the greatest offset of each partition that occurs. */
  ghost predicate IsPositions(messages: seq<Message>, offsets: map<int, int>) {
    && (forall m | m in messages :: m.partition in offsets && m.offset < offsets[m.partition])
    && (forall p | p in offsets :: exists m | m in messages :: m.partition == p && m.offset + 1 == offsets[p])
  }

  function BatchBytes(messages: seq<Message>): nat {
    if messages == [] then 0 else BatchBytes(messages[..|messages| - 1]) + messages[|messages| - 1].size
  }

  /** A batch stops growing at the row limit or at 16 MiB. */
  predicate WithinBatch(s: ReaderState, messages: seq<Message>) {
    && (forall m | m in messages :: ValidPosition(m))
    && forall k | 0 < k < |messages| :: k < s.maxRows && BatchBytes(messages[..k]) < MAX_BATCH_BYTES
  }

  /** The messages are what the broker offered first, in order. */
  predicate Taken(feed: seq<Fetch>, messages: seq<Message>) {
    |messages| <= |feed| && forall i | 0 <= i < |messages| :: feed[i] == Got(messages[i])
  }

  /** A batch ends only at one of its limits, or when the broker has no further message. */
  predicate Full(s: ReaderState, feed: seq<Fetch>, messages: seq<Message>) {
    || (|messages| == |feed| || (|messages| < |feed| && !feed[|messages|].Got?))
    || (messages != [] && (|messages| >= s.maxRows || BatchBytes(messages) >= MAX_BATCH_BYTES))
  }

  /** A batch is lost to a failure of the session, or to a message without a valid position. */
  predicate Lost(feed: seq<Fetch>, got: seq<Message>, rc: int) {
    || (|got| < |feed| && feed[|got|] == Broken(rc))
    || (got != [] && !ValidPosition(got[|got| - 1]) && rc == EPROTO)
  }

  /** The flag of a session: once cancelled it returns nothing and commits nothing. */
  class Session {
    var cancelled: bool

    constructor ()
      ensures !cancelled
    {
      cancelled := false;
    }

    method Cancel()
      modifies this
      ensures cancelled
    {
      cancelled := true;
    }

    /** Another thread may cancel; `record` is what the broker would offer. */
    method PollMessage(record: Fetch) returns (f: Fetch)
      modifies this
      ensures old(cancelled) ==> cancelled
      ensures old(cancelled) ==> f.Gone?
      ensures f.Got? ==> record == f
      ensures f.Gone? ==> cancelled
      ensures !old(cancelled) && record.Got? ==> f == record
      ensures f.Broken? ==> f.rc > 0 && f == record
    {
      if cancelled {
        return Gone;
      }
      var interrupted: bool := *;
      if record.Got? {
        cancelled := interrupted;
        return record;
      }
      if record.Broken? && record.rc > 0 {
        return record;
      }
      cancelled := interrupted;
      f := if cancelled then Gone else Nothing;
    }

    method CommitOffsets(answer: int) returns (rc: int, submitted: bool)
      ensures submitted <==> !cancelled
      ensures rc == 0 ==> submitted
      ensures submitted ==> rc == answer
    {
      if cancelled {
        return ECANCELED, false;
      }
      return answer, true;
    }
  }

  predicate Polls(s: ReaderState, timeout: int) {
    !s.cancelled && s.terminal == 0 && s.started && 0 <= timeout <= MAX_TIMEOUT && s.outstanding.None?
  }

  /** `PollBlock`: `got` is everything the session returned during the call. */
  ghost predicate PollOutcome(s: ReaderState, timeout: int, got: seq<Message>, goneAfter: bool, t: ReaderState, r: Reply) {
    if !Polls(s, timeout) then
      got == [] && !r.Delivered?
      && t == (if !s.cancelled && s.terminal == 0 && !(s.started && 0 <= timeout <= MAX_TIMEOUT)
               then s.(terminal := EINVAL) else s)
    else match r
      case Delivered(block) =>
        && block == Block(s.nextId, got) && got != [] && WithinBatch(s, got)
        && IsPositions(got, t.offsets)
        && t == s.(outstanding := Some(block), offsets := t.offsets, acknowledged := false, nextId := s.nextId + 1)
      case TimedOut => got == [] && t == s
      case WasCancelled => goneAfter && t == s
      case Failed(rc) => rc != 0 && t == s.(terminal := rc)
  }

  predicate Current(s: ReaderState, id: nat) {
    s.outstanding.Some? && s.outstanding.value.id == id
  }

  datatype Receipt = Receipt(rc: int, submitted: Option<map<int, int>>)

  /** `AcknowledgeBlock`; unlike the packet reader it does not look at the terminal error. */
  predicate AckOutcome(s: ReaderState, gone: bool, id: nat, t: ReaderState, r: Receipt) {
    if s.cancelled then t == s && r == Receipt(ECANCELED, None)
    else if !Current(s, id) || s.acknowledged then t == s && r == Receipt(EINVAL, None)
    else
      && r.submitted == (if s.commits && !gone then Some(s.offsets) else None)
      && (r.rc == 0 ==> t == s.(acknowledged := true) && (s.commits ==> r.submitted.Some?))
      && (r.rc != 0 ==> t == s.(terminal := r.rc))
  }

  function ReleaseStep(s: ReaderState, id: nat): (ReaderState, int) {
    if !Current(s, id) then (s, EINVAL)
    else (s.(outstanding := None, offsets := map[], terminal := if s.acknowledged then s.terminal else ECANCELED), 0)
  }

  /** Opening once, before a cancel; unlike in the packet reader, a failure is not terminal. */
  function OpenStep(s: ReaderState, start: int): (ReaderState, int) {
    if s.started then (s, EALREADY)
    else if s.cancelled then (s, ECANCELED)
    else (s.(started := start == 0), start)
  }

  function CloseStep(s: ReaderState): ReaderState {
    s.(cancelled := true, outstanding := None, started := false)
  }

  class StructuredReader {
    const maxRows: nat
    const commits: bool
    const session: Session
    var started: bool
    var cancelled: bool
    var terminal: int
    var outstanding: Option<Block>
    var offsets: map<int, int>
    var acknowledged: bool
    var nextId: nat

    function View(): ReaderState
      reads this
    {
      ReaderState(maxRows, commits, started, cancelled, terminal, outstanding, offsets, acknowledged, nextId)
    }

    constructor (maxRows: nat, commits: bool, session: Session)
      ensures View() == Fresh(maxRows, commits) && this.session == session
    {
      this.maxRows, this.commits, this.session := maxRows, commits, session;
      started, cancelled, terminal := false, false, 0;
      outstanding, offsets, acknowledged, nextId := None, map[], false, 0;
    }

    method Cancel()
      modifies this, session
      ensures View() == old(View()).(cancelled := true) && session.cancelled
    {
      cancelled := true;
      session.Cancel();
    }

    /** `start` is the result of asking for the consumer and subscribing. */
    method Open(start: int) returns (rc: int)
      modifies this
      ensures (View(), rc) == OpenStep(old(View()), start)
      ensures rc == if old(started) then EALREADY else if old(cancelled) then ECANCELED else start
      ensures (started <==> old(started) || rc == 0) && terminal == old(terminal)
    {
      if started {
        return EALREADY;
      }
      if cancelled {
        return ECANCELED;
      }
      if start == 0 {
        started := true;
      }
      rc := start;
    }

    method Close()
      modifies this, session
      ensures View() == CloseStep(old(View())) && session.cancelled
    {
      Cancel();
      outstanding := None;
      started := false;
    }

    method Error(rc: int) returns (r: Reply)
      modifies this
      ensures View() == old(View()).(terminal := rc) && r == Failed(rc)
    {
      terminal := rc;
      r := Failed(rc);
    }

    /** Collects messages until the session pauses or the batch is full; `stop` is 0 unless the batch is lost. */
    method Collect(feed: seq<Fetch>)
      returns (messages: seq<Message>, next: map<int, int>, stop: int, ghost got: seq<Message>)
      modifies session
      ensures old(session.cancelled) ==> session.cancelled
      ensures stop == 0 ==> got == messages && WithinBatch(View(), messages) && IsPositions(messages, next)
      ensures old(session.cancelled) ==> got == [] && stop == -1
      ensures stop == -1 ==> session.cancelled
      ensures stop == 0 ==> Taken(feed, messages) && Full(View(), feed, messages)
      ensures stop !in {0, -1} ==> Taken(feed, got) && Lost(feed, got, stop)
    {
      hide WithinBatch, IsPositions, BatchBytes;
      messages, next, stop, got := [], map[], 0, [];
      EmptyBatch(View());
      var bytes := 0;
      var i := 0;
      var more := true;
      while more
        invariant 0 <= i <= |feed|
        invariant old(session.cancelled) ==> session.cancelled && got == []
        invariant stop == 0 && got == messages && |messages| == i && Taken(feed, messages)
        invariant WithinBatch(View(), messages) && IsPositions(messages, next) && bytes == BatchBytes(messages)
        invariant !more ==> messages != [] && (|messages| >= maxRows || bytes >= MAX_BATCH_BYTES)
        invariant more && messages != [] ==> |messages| < maxRows && bytes < MAX_BATCH_BYTES
        decreases |feed| - i, if more then 1 else 0
      {
        var f := session.PollMessage(if i < |feed| then feed[i] else Nothing);
        if f.Nothing? {
          break;
        }
        if f.Gone? {
          return messages, next, -1, got;
        }
        if f.Broken? {
          return messages, next, f.rc, got;
        }
        var m := f.message;
        got := got + [m];
        if m.offset < 0 || m.offset >= INT64_MAX || m.partition < 0 {
          return messages, next, EPROTO, got;
        }
        ExtendPositions(messages, next, m);
        ExtendBatch(View(), messages, m);
        var highest := if m.partition in next && next[m.partition] > m.offset + 1 then next[m.partition] else m.offset + 1;
        next := next[m.partition := highest];
        bytes := bytes + m.size;
        messages := messages + [m];
        i := i + 1;
        more := |messages| < maxRows && bytes < 16777216;
      }
    }

    /** `feed` is what the broker offers, message by message. */
    method PollBlock(timeout: int, feed: seq<Fetch>, decodable: bool) returns (r: Reply, ghost got: seq<Message>)
      modifies this, session
      ensures old(session.cancelled) ==> session.cancelled
      ensures PollOutcome(old(View()), timeout, got, session.cancelled, View(), r)
      ensures old(session.cancelled) ==> got == [] && !r.Delivered?
      ensures r.Delivered? ==> decodable && Taken(feed, got) && Full(old(View()), feed, got)
      ensures Polls(old(View()), timeout) && r.Failed? ==> Taken(feed, got) && (Lost(feed, got, r.rc) || (!decodable && r.rc == EILSEQ))
      ensures Polls(old(View()), timeout) && r == TimedOut ==> feed == [] || !feed[0].Got?
    {
      hide WithinBatch, IsPositions;
      got := [];
      if cancelled {
        return WasCancelled, got;
      }
      if terminal != 0 {
        return Failed(terminal), got;
      }
      if !started || timeout < 0 || timeout > 30000 {
        r := Error(EINVAL);
        return;
      }
      if outstanding.Some? {
        return Failed(EBUSY), got;
      }
      var messages, next, stop;
      messages, next, stop, got := Collect(feed);
      if stop == -1 {
        return WasCancelled, got;
      }
      if stop != 0 {
        r := Error(stop);
        return;
      }
      if messages == [] {
        return TimedOut, got;
      }
      if !decodable {
        r := Error(EILSEQ);
        return;
      }
      var block := Block(nextId, messages);
      nextId := nextId + 1;
      outstanding := Some(block);
      offsets := next;
      acknowledged := false;
      r := Delivered(block);
    }

    method AcknowledgeBlock(id: nat, answer: int) returns (rc: int, ghost receipt: Receipt)
      modifies this
      ensures AckOutcome(old(View()), session.cancelled, id, View(), receipt) && rc == receipt.rc
    {
      receipt := Receipt(0, None);
      if cancelled {
        return ECANCELED, Receipt(ECANCELED, None);
      }
      if outstanding.None? || outstanding.value.id != id || acknowledged {
        return EINVAL, Receipt(EINVAL, None);
      }
      rc := 0;
      if commits {
        var submitted;
        rc, submitted := session.CommitOffsets(answer);
        receipt := Receipt(rc, if submitted then Some(offsets) else None);
      }
      if rc != 0 {
        terminal := rc;
        return;
      }
      acknowledged := true;
    }

    method ReleaseBlock(id: nat) returns (rc: int)
      modifies this
      ensures (View(), rc) == ReleaseStep(old(View()), id)
      ensures rc == if old(outstanding).Some? && old(outstanding).value.id == id then 0 else EINVAL
      ensures rc != 0 ==> View() == old(View())
      ensures rc == 0 ==> outstanding.None? && terminal == if old(acknowledged) then old(terminal) else ECANCELED
    {
      if outstanding.None? || outstanding.value.id != id {
        return EINVAL;
      }
      if !acknowledged {
        terminal := ECANCELED;
      }
      outstanding := None;
      offsets := map[];
      rc := 0;
    }
  }

  function Fresh(maxRows: nat, commits: bool): ReaderState {
    ReaderState(maxRows, commits, false, false, 0, None, map[], false, 0)
  }

  lemma EmptyBatch(s: ReaderState)
    ensures WithinBatch(s, []) && IsPositions([], map[]) && BatchBytes([]) == 0
  {
  }

  lemma ExtendBatch(s: ReaderState, messages: seq<Message>, m: Message)
    requires WithinBatch(s, messages) && ValidPosition(m)
    requires messages != [] ==> |messages| < s.maxRows && BatchBytes(messages) < MAX_BATCH_BYTES
    ensures WithinBatch(s, messages + [m]) && BatchBytes(messages + [m]) == BatchBytes(messages) + m.size
  {
    var next := messages + [m];
    assert next[..|messages|] == messages;
    assert forall k | 0 < k < |messages| :: next[..k] == messages[..k];
  }

  lemma ExtendPositions(messages: seq<Message>, next: map<int, int>, m: Message)
    requires IsPositions(messages, next)
    ensures var highest := if m.partition in next && next[m.partition] > m.offset + 1 then next[m.partition] else m.offset + 1;
            IsPositions(messages + [m], next[m.partition := highest])
  {
    var highest := if m.partition in next && next[m.partition] > m.offset + 1 then next[m.partition] else m.offset + 1;
    var after := next[m.partition := highest];
    forall p | p in after
      ensures exists x | x in messages + [m] :: x.partition == p && x.offset + 1 == after[p]
    {
      if p == m.partition && highest == m.offset + 1 {
        assert m in messages + [m];
      } else {
        var x :| x in messages && x.partition == p && x.offset + 1 == next[p];
        assert x in messages + [m];
      }
    }
  }

  // -------------------------------------------------------------- whole runs

  /** A submitted commit, with everything fetched, and every block acknowledged with success, before it. */
  datatype Commit = Commit(offsets: map<int, int>, id: nat, fetched: seq<Message>, acked: set<nat>)

  datatype History = History(
    reader: ReaderState,
    gone: bool,
    fetched: seq<Message>,
    delivered: seq<Block>,
    acked: set<nat>,
    commits: seq<Commit>)

  datatype Act =
    | Open(start: int)
    | Poll(timeout: int, got: seq<Message>, goneAfter: bool, after: ReaderState, reply: Reply)
    | Acknowledge(id: nat, after: ReaderState, receipt: Receipt)
    | Release(id: nat)
    | CancelReader
    | Close
    | CancelSession

  ghost predicate Enabled(h: History, act: Act) {
    match act
    case Poll(timeout, got, goneAfter, after, reply) =>
      (h.gone ==> goneAfter && got == []) && PollOutcome(h.reader, timeout, got, goneAfter, after, reply)
      && (h.gone ==> !reply.Delivered?)
    case Acknowledge(id, after, receipt) => AckOutcome(h.reader, h.gone, id, after, receipt)
    case _ => true
  }

  function Apply(h: History, act: Act): History {
    match act
    case Poll(timeout, got, goneAfter, after, reply) =>
      var next := h.(reader := after, fetched := h.fetched + got, gone := goneAfter);
      if reply.Delivered? then next.(delivered := h.delivered + [reply.block]) else next
    case Acknowledge(id, after, receipt) =>
      var next := h.(reader := after, acked := if receipt.rc == 0 then h.acked + {id} else h.acked);
      if receipt.submitted.None? then next
      else next.(commits := h.commits + [Commit(receipt.submitted.value, id, h.fetched, h.acked)])
    case Open(start) => h.(reader := OpenStep(h.reader, start).0)
    case Release(id) => h.(reader := ReleaseStep(h.reader, id).0)
    case Close => h.(reader := CloseStep(h.reader), gone := true)
    case CancelReader => h.(reader := h.reader.(cancelled := true), gone := true)
    case CancelSession => h.(gone := true)
  }

  ghost predicate Feasible(h: History, acts: seq<Act>)
    decreases |acts|
  {
    acts == [] || (Enabled(h, acts[0]) && Feasible(Apply(h, acts[0]), acts[1..]))
  }

  ghost function Run(h: History, acts: seq<Act>): History
    requires Feasible(h, acts)
    decreases |acts|
  {
    if acts == [] then h else Run(Apply(h, acts[0]), acts[1..])
  }

  function AllMessages(blocks: seq<Block>): seq<Message> {
    if blocks == [] then [] else AllMessages(blocks[..|blocks| - 1]) + blocks[|blocks| - 1].messages
  }

  /** A commit can still happen: nothing cancelled, and either no error or a block in hand. */
  predicate CanCommit(h: History) {
    !h.reader.cancelled && !h.gone && (h.reader.terminal == 0 || h.reader.outstanding.Some?)
  }

  predicate Settled(h: History, k: nat) {
    k in h.acked || Current(h.reader, k)
  }

  ghost predicate Bookkeeping(h: History) {
    && |h.delivered| == h.reader.nextId
    && (forall k | 0 <= k < |h.delivered| :: h.delivered[k].id == k)
    && (h.reader.outstanding.Some? ==>
          |h.delivered| > 0 && h.reader.outstanding.value == h.delivered[|h.delivered| - 1]
          && IsPositions(h.reader.outstanding.value.messages, h.reader.offsets)
          && (h.reader.acknowledged ==> h.reader.outstanding.value.id in h.acked))
    && (CanCommit(h) ==> h.fetched == AllMessages(h.delivered) && forall k: nat | k < |h.delivered| :: Settled(h, k))
  }

  /**
   * A commit covers its own block exactly. Every earlier block had been
   * acknowledged with success, and everything fetched before the commit was in one
   * of those blocks or in its own.
   */
  ghost predicate Honest(h: History, c: Commit) {
    && c.id < |h.delivered| && IsPositions(h.delivered[c.id].messages, c.offsets)
    && (forall k: nat | k < c.id :: k in c.acked)
    && forall m | m in c.fetched :: exists k | k in c.acked + {c.id} && k < |h.delivered| :: m in h.delivered[k].messages
  }

  ghost predicate AtLeastOnce(h: History) {
    Bookkeeping(h) && forall c | c in h.commits :: Honest(h, c)
  }

  lemma HonestKept(h: History, next: History, c: Commit)
    requires Honest(h, c) && h.delivered <= next.delivered
    ensures Honest(next, c)
  {
    hide IsPositions;
    forall m | m in c.fetched
      ensures exists k | k in c.acked + {c.id} && k < |next.delivered| :: m in next.delivered[k].messages
    {
      var k :| k in c.acked + {c.id} && k < |h.delivered| && m in h.delivered[k].messages;
      assert m in next.delivered[k].messages;
    }
  }

  lemma {:induction false} InSomeBlock(blocks: seq<Block>, m: Message) returns (k: nat)
    requires m in AllMessages(blocks)
    ensures k < |blocks| && m in blocks[k].messages
  {
    var n := |blocks| - 1;
    if m in blocks[n].messages {
      k := n;
    } else {
      k := InSomeBlock(blocks[..n], m);
    }
  }

  lemma CommitHonest(h: History, act: Act)
    requires act.Acknowledge? && Enabled(h, act) && Bookkeeping(h) && act.receipt.submitted.Some?
    ensures Honest(h, Commit(act.receipt.submitted.value, act.id, h.fetched, h.acked))
  {
    hide IsPositions;
    var c := Commit(act.receipt.submitted.value, act.id, h.fetched, h.acked);
    forall k: nat | k < c.id ensures k in c.acked {
      assert Settled(h, k);
    }
    forall m | m in c.fetched
      ensures exists k | k in c.acked + {c.id} && k < |h.delivered| :: m in h.delivered[k].messages
    {
      var k := InSomeBlock(h.delivered, m);
      assert Settled(h, k);
      assert k in c.acked + {c.id};
    }
  }

  lemma BookkeepingKept(h: History, act: Act)
    requires Bookkeeping(h) && Enabled(h, act)
    ensures Bookkeeping(Apply(h, act))
  {
    hide Bookkeeping, Enabled, Apply;
    match act {
      case Poll(_, _, _, _, reply) =>
        if reply.Delivered? {
          DeliveryBooks(h, act);
        } else {
          PollBooks(h, act);
        }
      case Acknowledge(_, _, _) => AckBooks(h, act);
      case _ => OtherBooks(h, act);
    }
  }

  lemma DeliveryBooks(h: History, act: Act)
    requires Bookkeeping(h) && Enabled(h, act) && act.Poll? && act.reply.Delivered?
    ensures Bookkeeping(Apply(h, act))
  {
    hide IsPositions, WithinBatch, AllMessages;
    var next := Apply(h, act);
    MessagesSnoc(h.delivered, act.reply.block);
    assert CanCommit(next) ==> CanCommit(h);
    forall k: nat | k < |next.delivered| && CanCommit(next)
      ensures Settled(next, k)
    {
      if k < |h.delivered| {
        assert Settled(h, k);
      }
    }
  }

  lemma MessagesSnoc(blocks: seq<Block>, b: Block)
    ensures AllMessages(blocks + [b]) == AllMessages(blocks) + b.messages
  {
    assert (blocks + [b])[..|blocks|] == blocks;
  }

  lemma PollBooks(h: History, act: Act)
    requires Bookkeeping(h) && Enabled(h, act) && act.Poll? && !act.reply.Delivered?
    ensures Bookkeeping(Apply(h, act))
  {
    hide IsPositions, WithinBatch, AllMessages;
    var next := Apply(h, act);
    assert CanCommit(next) ==> CanCommit(h) && act.got == [];
    forall k: nat | k < |next.delivered| && CanCommit(next)
      ensures Settled(next, k)
    {
      assert Settled(h, k);
    }
  }

  lemma AckBooks(h: History, act: Act)
    requires Bookkeeping(h) && Enabled(h, act) && act.Acknowledge?
    ensures Bookkeeping(Apply(h, act))
  {
    hide IsPositions, AllMessages;
    var next := Apply(h, act);
    forall k: nat | k < |next.delivered| && CanCommit(next)
      ensures Settled(next, k)
    {
      assert Settled(h, k);
    }
  }

  lemma OtherBooks(h: History, act: Act)
    requires Bookkeeping(h) && !act.Poll? && !act.Acknowledge?
    ensures Bookkeeping(Apply(h, act))
  {
    hide IsPositions, AllMessages;
    var next := Apply(h, act);
    forall k: nat | k < |next.delivered| && CanCommit(next)
      ensures Settled(next, k)
    {
      assert Settled(h, k);
    }
  }

  /**
   * In every run, whatever the session returned before a commit is in the block
   * being acknowledged or in one acknowledged with success before, and so were all
   * earlier blocks; each committed position is one past the block's greatest offset
   * in that partition.
   */
  lemma {:induction false} AtLeastOnceOverRuns(h: History, acts: seq<Act>)
    requires AtLeastOnce(h) && Feasible(h, acts)
    ensures AtLeastOnce(Run(h, acts))
    decreases |acts|
  {
    hide Honest, Bookkeeping, Enabled;
    if acts == [] {
    } else {
      var act, next := acts[0], Apply(h, acts[0]);
      BookkeepingKept(h, act);
      forall c | c in next.commits ensures Honest(next, c) {
        if c !in h.commits {
          SubmittedIsCurrent(h, act);
          CommitHonest(h, act);
        }
        HonestKept(h, next, c);
      }
      AtLeastOnceOverRuns(next, acts[1..]);
    }
  }

  lemma SubmittedIsCurrent(h: History, act: Act)
    requires act.Acknowledge? && Enabled(h, act) && act.receipt.submitted.Some?
    ensures Current(h.reader, act.id)
  {
  }

  /** A reader before it is opened. */
  function NewHistory(maxRows: nat, commits: bool): History {
    History(Fresh(maxRows, commits), false, [], [], {}, [])
  }

  /** So it is for every run from a new reader. */
  lemma AtLeastOnceFromNew(maxRows: nat, commits: bool, acts: seq<Act>)
    requires Feasible(NewHistory(maxRows, commits), acts)
    ensures AtLeastOnce(Run(NewHistory(maxRows, commits), acts))
  {
    hide Feasible, Run;
    AtLeastOnceOverRuns(NewHistory(maxRows, commits), acts);
  }

  /** From its delivery until its release, and after a cancel, a block is the only thing handed out. */
  lemma {:induction false} OneBlockAtATime(h: History, acts: seq<Act>, id: nat)
    requires Feasible(h, acts) && (Current(h.reader, id) || h.reader.cancelled) && Release(id) !in acts
    ensures Run(h, acts).fetched == h.fetched && Run(h, acts).delivered == h.delivered
    decreases |acts|
  {
    hide Enabled;
    if acts != [] {
      assert acts[0] in acts && forall a | a in acts[1..] :: a in acts;
      HeldStep(h, acts[0], id);
      OneBlockAtATime(Apply(h, acts[0]), acts[1..], id);
    }
  }

  lemma HeldStep(h: History, act: Act, id: nat)
    requires Enabled(h, act) && (Current(h.reader, id) || h.reader.cancelled) && act != Release(id)
    ensures var next := Apply(h, act);
      && (Current(next.reader, id) || next.reader.cancelled) && next.fetched == h.fetched && next.delivered == h.delivered
  {
    hide IsPositions, WithinBatch;
  }

  /** What ends all data and commits: a rejected batch, an early release, a cancel, closing. */
  predicate Kills(h: History, act: Act) {
    || (act.Poll? && act.got != [] && !act.reply.Delivered?)
    || (act.Release? && Current(h.reader, act.id) && !h.reader.acknowledged)
    || act.CancelReader? || act.Close? || act.CancelSession?
  }

  lemma KilledCannotCommit(h: History, act: Act)
    requires Enabled(h, act) && Kills(h, act)
    ensures !CanCommit(Apply(h, act)) && Apply(h, act).delivered == h.delivered && Apply(h, act).commits == h.commits
  {
    hide IsPositions, WithinBatch;
  }

  /**
   * Commits end by exactly these calls: a cancel, closing, a cancelled session, a
   * poll that fails without a block in hand, and a release before the
   * acknowledgement or after an error.
   */
  lemma DiesOnlyBy(h: History, act: Act)
    requires CanCommit(h) && Enabled(h, act)
    ensures !CanCommit(Apply(h, act)) <==>
      || act.CancelReader? || act.Close? || act.CancelSession?
      || (act.Poll? && (act.goneAfter || (h.reader.outstanding.None? && act.after.terminal != 0)))
      || (act.Release? && Current(h.reader, act.id) && (!h.reader.acknowledged || h.reader.terminal != 0))
  {
    hide IsPositions, WithinBatch;
  }

  /** Calls out of turn change nothing: a poll with a block in hand, or an acknowledgement or a release of another block. */
  lemma OutOfTurn(h: History, act: Act)
    requires CanCommit(h) && Enabled(h, act)
    ensures act.Poll? && h.reader.outstanding.Some? && h.reader.started && 0 <= act.timeout <= 30000 ==>
      act.got == [] && act.after == h.reader
    ensures act.Acknowledge? && !Current(h.reader, act.id) ==> act.after == h.reader && act.receipt == Receipt(EINVAL, None)
    ensures act.Release? && !Current(h.reader, act.id) ==> Apply(h, act) == h
  {
    hide IsPositions, WithinBatch;
  }

  /** One turn: a batch is delivered, acknowledged with success, and released; then the reader polls again. */
  lemma FullTurn(h: History, got: seq<Message>, offsets: map<int, int>, timeout: int)
    requires CanCommit(h) && Polls(h.reader, timeout) && got != [] && WithinBatch(h.reader, got) && IsPositions(got, offsets)
    ensures var b := Block(h.reader.nextId, got);
            var given := h.reader.(outstanding := Some(b), offsets := offsets, acknowledged := false, nextId := b.id + 1);
            var submitted := if h.reader.commits then Some(offsets) else None;
            var turn := [Poll(timeout, got, false, given, Delivered(b)),
                         Acknowledge(b.id, given.(acknowledged := true), Receipt(0, submitted)), Release(b.id)];
            && Feasible(h, turn)
            && var end := Run(h, turn);
               && CanCommit(end) && Polls(end.reader, timeout) && end.delivered == h.delivered + [b] && b.id in end.acked
               && end.commits == (if h.reader.commits then h.commits + [Commit(offsets, b.id, h.fetched + got, h.acked)] else h.commits)
  {
    hide IsPositions, WithinBatch;
    var b := Block(h.reader.nextId, got);
    var given := h.reader.(outstanding := Some(b), offsets := offsets, acknowledged := false, nextId := b.id + 1);
    var a1 := Poll(timeout, got, false, given, Delivered(b));
    var a2 := Acknowledge(b.id, given.(acknowledged := true), Receipt(0, if h.reader.commits then Some(offsets) else None));
    var a3 := Release(b.id);
    var h1 := Apply(h, a1);
    var h2 := Apply(h1, a2);
    var h3 := Apply(h2, a3);
    assert Enabled(h, a1) && Enabled(h1, a2) && Enabled(h2, a3);
    NoMore(h3);
    OneMore(h2, a3, []);
    OneMore(h1, a2, [a3]);
    OneMore(h, a1, [a2, a3]);
    assert [a3] + [] == [a3] && [a2] + [a3] == [a2, a3] && [a1] + [a2, a3] == [a1, a2, a3];
  }

  lemma DeadStep(h: History, act: Act)
    requires !CanCommit(h) && Enabled(h, act)
    ensures !CanCommit(Apply(h, act)) && Apply(h, act).delivered == h.delivered && Apply(h, act).commits == h.commits
  {
    hide IsPositions, WithinBatch;
  }

  lemma {:induction false} DeadForGood(h: History, acts: seq<Act>)
    requires !CanCommit(h) && Feasible(h, acts)
    ensures !CanCommit(Run(h, acts)) && Run(h, acts).delivered == h.delivered && Run(h, acts).commits == h.commits
    decreases |acts|
  {
    hide Enabled;
    if acts == [] {
    } else {
      DeadStep(h, acts[0]);
      DeadForGood(Apply(h, acts[0]), acts[1..]);
    }
  }

  /** Once a call kills the reader, every continuation delivers and commits nothing more. */
  lemma KilledForGood(h: History, act: Act, acts: seq<Act>)
    requires Enabled(h, act) && Kills(h, act) && Feasible(Apply(h, act), acts)
    ensures var (after, end) := (Apply(h, act), Run(Apply(h, act), acts));
      end.delivered == after.delivered == h.delivered && end.commits == after.commits == h.commits
  {
    KilledCannotCommit(h, act);
    DeadForGood(Apply(h, act), acts);
  }

  /**
   * A terminal error does not stop commits here: an acknowledgement submits the
   * positions exactly when the block is in hand, unacknowledged, nothing was
   * cancelled and the reader commits at all. The same outcome is possible with any
   * other terminal error in place of this one.
   */
  lemma CommitIgnoresTerminalError(s: ReaderState, gone: bool, id: nat, t: ReaderState, r: Receipt, error: int)
    requires AckOutcome(s, gone, id, t, r)
    ensures r.submitted.Some? <==> !s.cancelled && Current(s, id) && !s.acknowledged && !gone && s.commits
    ensures exists u :: AckOutcome(s.(terminal := error), gone, id, u, r)
  {
    var other := s.(terminal := error);
    var u := if s.cancelled || !Current(s, id) || s.acknowledged then other
             else if r.rc == 0 then other.(acknowledged := true) else other.(terminal := r.rc);
    assert AckOutcome(other, gone, id, u, r);
  }

  /** A run in which a commit follows a terminal error: a poll with a bad timeout, then an acknowledgement. */
  lemma CommitAfterErrorExample(m: Message)
    requires m == Message(0, 7, 1)
    ensures var h := NewHistory(1, true);
            exists acts :: Feasible(h, acts) && Run(h, acts).reader.terminal == EINVAL && |Run(h, acts).commits| == 1
  {
    var h0 := NewHistory(1, true);
    var a0 := Open(0);
    var h := Apply(h0, a0);
    var s1 := h.reader.(outstanding := Some(Block(0, [m])), offsets := map[0 := 8], nextId := 1);
    var a1 := Poll(0, [m], false, s1, Delivered(Block(0, [m])));
    assert m in [m];
    assert Enabled(h, a1);
    var h1 := Apply(h, a1);
    var a2 := Poll(-1, [], false, s1.(terminal := EINVAL), Failed(EINVAL));
    assert Enabled(h1, a2);
    var h2 := Apply(h1, a2);
    var a3 := Acknowledge(0, h2.reader.(acknowledged := true), Receipt(0, Some(map[0 := 8])));
    assert Enabled(h2, a3);
    var h3 := Apply(h2, a3);
    hide Enabled, Apply;
    NoMore(h3);
    OneMore(h2, a3, []);
    OneMore(h1, a2, [a3]);
    OneMore(h, a1, [a2, a3]);
    OneMore(h0, a0, [a1, a2, a3]);
    assert [a0] + [a1, a2, a3] == [a0, a1, a2, a3];
    assert [a1] + [a2, a3] == [a1, a2, a3] && [a2] + [a3] == [a2, a3] && [a3] + [] == [a3];
  }

  lemma NoMore(h: History)
    ensures Feasible(h, []) && Run(h, []) == h
  {
  }

  lemma OneMore(h: History, act: Act, acts: seq<Act>)
    requires Enabled(h, act) && Feasible(Apply(h, act), acts)
    ensures Feasible(h, [act] + acts) && Run(h, [act] + acts) == Run(Apply(h, act), acts)
  {
    hide Enabled, Apply;
    assert ([act] + acts)[1..] == acts;
  }
}
