/** What holds over every run of a packet reader and its session. */
module PacketReaderRuns {
  import opened Bytes
  import opened Errno
  import opened PacketWire
  import opened PacketReader

  /** A submitted position, with everything fetched, and every block acknowledged with success, before it. */
  datatype Commit = Commit(position: int, id: nat, fetched: seq<Message>, acked: set<nat>)

  /** `sources[k]` is the message of the block `delivered[k]`. */
  datatype History = History(
    reader: ReaderState,
    session: SessionState,
    fetched: seq<Message>,
    sources: seq<Message>,
    delivered: seq<Block>,
    acked: set<nat>,
    commits: seq<Commit>)

  datatype Act =
    | Open(query: int, start: int)
    | Poll(timeout: int, fetch: Option<Fetch>, decodable: bool, after: ReaderState, reply: Reply)
    | Acknowledge(id: nat, after: ReaderState, receipt: Receipt)
    | Release(id: nat)
    | Cancel
    | Close
    | CancelSession
    | LoseAssignment

  predicate Enabled(h: History, act: Act) {
    match act
    case Poll(timeout, fetch, decodable, after, reply) =>
      (fetch.Some? ==> FetchPossible(h.session, fetch.value))
      && PollOutcome(h.reader, timeout, fetch, decodable, after, reply)
    case Acknowledge(id, after, receipt) => AckOutcome(h.reader, h.session, id, after, receipt)
    case _ => true
  }

  function FetchedBy(act: Act): seq<Message> {
    if act.Poll? && act.fetch.Some? && act.fetch.value.Got? then [act.fetch.value.message] else []
  }

  function Apply(h: History, act: Act): History {
    match act
    case Open(query, start) => h.(reader := OpenStep(h.reader, query, start).0)
    case Poll(timeout, fetch, decodable, after, reply) =>
      var next := h.(reader := after, fetched := h.fetched + FetchedBy(act));
      if reply.Delivered? && FetchedBy(act) != [] then
        next.(sources := h.sources + FetchedBy(act), delivered := h.delivered + [reply.block])
      else next
    case Acknowledge(id, after, receipt) =>
      var next := h.(reader := after, acked := if receipt.rc == 0 then h.acked + {id} else h.acked);
      if receipt.submitted.None? then next
      else next.(commits := h.commits + [Commit(receipt.submitted.value, id, h.fetched, h.acked)])
    case Release(id) => h.(reader := ReleaseStep(h.reader, id).0)
    case Cancel => h.(reader := h.reader.(cancelled := true), session := h.session.(cancelled := true))
    case Close =>
      h.(reader := h.reader.(cancelled := true, outstanding := None, started := false),
         session := h.session.(cancelled := true))
    case CancelSession => h.(session := h.session.(cancelled := true))
    case LoseAssignment => h.(session := h.session.(lost := true))
  }

  predicate Feasible(h: History, acts: seq<Act>)
    decreases |acts|
  {
    acts == [] || (Enabled(h, acts[0]) && Feasible(Apply(h, acts[0]), acts[1..]))
  }

  function Run(h: History, acts: seq<Act>): History
    requires Feasible(h, acts)
    decreases |acts|
  {
    if acts == [] then h else Run(Apply(h, acts[0]), acts[1..])
  }

  predicate Initial(h: History) {
    && h.reader == Fresh(h.reader.config, h.reader.localGeneration, h.reader.commits)
    && h.fetched == h.sources == [] && h.delivered == [] && h.acked == {} && h.commits == []
  }

  // -------------------------------------------------------- at least once

  predicate Alive(s: ReaderState) {
    !s.cancelled && s.terminal == 0
  }

  /** The k-th block is acknowledged, or it is the one in the caller's hands. */
  predicate Settled(h: History, k: nat) {
    k in h.acked || Current(h.reader, k)
  }

  predicate Bookkeeping(h: History) {
    && Consistent(h.reader)
    && |h.sources| == |h.delivered| == h.reader.nextId
    && (forall k | 0 <= k < |h.delivered| :: h.delivered[k].id == k && h.delivered[k].offset == h.sources[k].offset)
    && (h.reader.outstanding.Some? ==> |h.delivered| > 0 && h.reader.outstanding.value == h.delivered[|h.delivered| - 1])
    && (h.reader.outstanding.Some? && h.reader.acknowledged ==> h.reader.outstanding.value.id in h.acked)
    && (forall m | m in h.sources :: m in h.fetched)
  }

  /** While the reader lives, nothing it fetched is outside an acknowledged or outstanding block. */
  predicate NothingDropped(h: History) {
    Alive(h.reader) ==> h.fetched == h.sources && forall k: nat | k < |h.sources| :: Settled(h, k)
  }

  /**
   * A commit is one past the offset of its own block. Every earlier block had been
   * acknowledged with success, and everything fetched before the commit was in one
   * of those blocks or in its own.
   */
  predicate Honest(h: History, c: Commit) {
    && c.id < |h.sources| == |h.delivered| && c.position == h.delivered[c.id].offset + 1
    && (forall k: nat | k < c.id :: k in c.acked)
    && forall m | m in c.fetched :: exists k | k in c.acked + {c.id} && k < |h.sources| :: h.sources[k] == m
  }

  predicate AtLeastOnce(h: History) {
    Bookkeeping(h) && NothingDropped(h) && forall c | c in h.commits :: Honest(h, c)
  }

  lemma HonestKept(h: History, next: History, c: Commit)
    requires Honest(h, c) && h.sources <= next.sources && h.delivered <= next.delivered
    requires |next.sources| == |next.delivered|
    ensures Honest(next, c)
  {
    forall m | m in c.fetched
      ensures exists k | k in c.acked + {c.id} && k < |next.sources| :: next.sources[k] == m
    {
      var k :| k in c.acked + {c.id} && k < |h.sources| && h.sources[k] == m;
      assert next.sources[k] == m;
    }
  }

  lemma PollKeeps(h: History, act: Act)
    requires act.Poll? && Enabled(h, act) && AtLeastOnce(h)
    ensures AtLeastOnce(Apply(h, act))
  {
    hide Honest, Decoded, PacketsRise, FactsRise;
    var next := Apply(h, act);
    if act.reply.Delivered? {
      var m := FetchedBy(act)[0];
      assert next.reader == Deliver(h.reader, m);
      assert next.sources[|h.sources|] == m && next.delivered[|h.delivered|] == act.reply.block;
      forall k: nat | k < |next.sources| && Alive(next.reader)
        ensures Settled(next, k)
      {
        if k < |h.sources| {
          assert Settled(h, k);
        }
      }
    } else {
      assert next.sources == h.sources && next.delivered == h.delivered;
      assert Alive(next.reader) ==> next.fetched == h.fetched && next.reader == h.reader;
      forall k: nat | k < |next.sources| && Alive(next.reader)
        ensures Settled(next, k)
      {
        assert Settled(h, k);
      }
    }
    forall c | c in next.commits ensures Honest(next, c) {
      HonestKept(h, next, c);
    }
  }

  lemma AckKeepsBooks(h: History, act: Act)
    requires act.Acknowledge? && Enabled(h, act) && Bookkeeping(h)
    ensures Bookkeeping(Apply(h, act))
    ensures |Apply(h, act).sources| == |Apply(h, act).delivered|
  {
    hide AckOutcome;
    AckStays(h.reader, h.session, act.id, act.after, act.receipt);
    AckMarks(h.reader, h.session, act.id, act.after, act.receipt);
  }

  /** A block becomes acknowledged by a success on it, and stays so. */
  lemma AckMarks(s: ReaderState, session: SessionState, id: nat, t: ReaderState, r: Receipt)
    requires AckOutcome(s, session, id, t, r)
    ensures t.acknowledged ==> s.acknowledged || (r.rc == 0 && Current(s, id))
  {
  }

  lemma AckBooks(h: History, act: Act)
    requires act.Acknowledge? && Enabled(h, act) && Bookkeeping(h) && NothingDropped(h)
    ensures Bookkeeping(Apply(h, act)) && NothingDropped(Apply(h, act))
    ensures |Apply(h, act).sources| == |Apply(h, act).delivered|
  {
    AckKeepsBooks(h, act);
    hide Bookkeeping;
    var next := Apply(h, act);
    forall k: nat | k < |next.sources| && Alive(next.reader)
      ensures Settled(next, k)
    {
      assert Settled(h, k);
    }
  }

  lemma AckKeeps(h: History, act: Act)
    requires act.Acknowledge? && Enabled(h, act) && AtLeastOnce(h)
    ensures AtLeastOnce(Apply(h, act))
  {
    hide Honest, Bookkeeping, NothingDropped, Enabled;
    var next := Apply(h, act);
    AckBooks(h, act);
    forall c | c in next.commits ensures Honest(next, c) {
      if c in h.commits {
        assert Honest(h, c);
        HonestKept(h, next, c);
      } else {
        CommitHonest(h, act);
        HonestKept(h, next, c);
      }
    }
  }

  lemma CommitHonest(h: History, act: Act)
    requires act.Acknowledge? && Enabled(h, act) && Bookkeeping(h) && NothingDropped(h) && act.receipt.submitted.Some?
    ensures Honest(h, Commit(act.receipt.submitted.value, act.id, h.fetched, h.acked))
  {
    var c := Commit(act.receipt.submitted.value, act.id, h.fetched, h.acked);
    forall k: nat | k < c.id ensures k in c.acked {
      assert Settled(h, k);
    }
    forall m | m in c.fetched
      ensures exists k | k in c.acked + {c.id} && k < |h.sources| :: h.sources[k] == m
    {
      var k :| 0 <= k < |h.sources| && h.sources[k] == m;
      assert Settled(h, k);
      assert k in c.acked + {c.id};
    }
  }

  lemma OtherBooks(h: History, act: Act)
    requires !act.Poll? && !act.Acknowledge? && Bookkeeping(h) && NothingDropped(h)
    ensures Bookkeeping(Apply(h, act)) && NothingDropped(Apply(h, act))
    ensures Apply(h, act).sources == h.sources && Apply(h, act).delivered == h.delivered && Apply(h, act).commits == h.commits
  {
    OtherKeepsBooks(h, act);
    hide Bookkeeping;
    var next := Apply(h, act);
    forall k: nat | k < |next.sources| && Alive(next.reader)
      ensures Settled(next, k)
    {
      assert Settled(h, k);
    }
  }

  lemma OtherKeepsBooks(h: History, act: Act)
    requires !act.Poll? && !act.Acknowledge? && Bookkeeping(h)
    ensures Bookkeeping(Apply(h, act))
  {
  }

  lemma OtherKeeps(h: History, act: Act)
    requires !act.Poll? && !act.Acknowledge? && AtLeastOnce(h)
    ensures AtLeastOnce(Apply(h, act))
  {
    hide Bookkeeping, NothingDropped, Honest, Apply;
    OtherBooks(h, act);
    var next := Apply(h, act);
    BooksSizes(h);
    forall c | c in next.commits ensures Honest(next, c) {
      HonestKept(h, next, c);
    }
  }

  lemma BooksSizes(h: History)
    requires Bookkeeping(h)
    ensures |h.sources| == |h.delivered|
  {
  }

  /**
   * In every run, whatever was fetched before a position was submitted is in the
   * block being acknowledged, one past which the position is, or in a block that
   * had been acknowledged with success; and so had every earlier block.
   */
  lemma {:induction false} AtLeastOnceOverRuns(h: History, acts: seq<Act>)
    requires AtLeastOnce(h) && Feasible(h, acts)
    ensures AtLeastOnce(Run(h, acts))
    decreases |acts|
  {
    if acts == [] {
    } else {
      var act := acts[0];
      if act.Poll? {
        PollKeeps(h, act);
      } else if act.Acknowledge? {
        AckKeeps(h, act);
      } else {
        OtherKeeps(h, act);
      }
      AtLeastOnceOverRuns(Apply(h, act), acts[1..]);
    }
  }

  lemma InitialAtLeastOnce(h: History)
    requires Initial(h)
    ensures AtLeastOnce(h)
  {
  }

  /** From its delivery until its release, and after a cancel, a block is the only thing handed out. */
  lemma {:induction false} OneBlockAtATime(h: History, acts: seq<Act>, id: nat)
    requires Feasible(h, acts) && (Current(h.reader, id) || h.reader.cancelled) && Release(id) !in acts
    ensures Run(h, acts).fetched == h.fetched && Run(h, acts).delivered == h.delivered
    decreases |acts|
  {
    if acts != [] {
      assert acts[0] in acts && forall a | a in acts[1..] :: a in acts;
      HeldStep(h, acts[0], id);
      OneBlockAtATime(Apply(h, acts[0]), acts[1..], id);
    }
  }

  lemma HeldStep(h: History, act: Act, id: nat)
    requires Enabled(h, act) && (Current(h.reader, id) || h.reader.cancelled) && act != Release(id)
    ensures var next := Apply(h, act);
      && (Current(next.reader, id) || next.reader.cancelled) && next.fetched == h.fetched && next.delivered == h.delivered
  {
    hide Admits, Decoded;
  }

  predicate Dead(h: History) {
    !Alive(h.reader) || !Live(h.session)
  }

  /** What kills a reader: a rejected message, an early release, a cancel or a lost assignment. */
  predicate Kills(h: History, act: Act) {
    || (act.Poll? && FetchedBy(act) != [] && !act.reply.Delivered?)
    || (act.Release? && Current(h.reader, act.id) && !h.reader.acknowledged)
    || act.Cancel? || act.Close? || act.CancelSession? || act.LoseAssignment?
  }

  lemma KilledIsDead(h: History, act: Act)
    requires Enabled(h, act) && Kills(h, act)
    ensures Dead(Apply(h, act)) && Apply(h, act).delivered == h.delivered && Apply(h, act).commits == h.commits
  {
  }

  /** A failure of the session, of a commit or of the subscription, or a poll before opening or with a bad timeout. */
  predicate Breaks(h: History, act: Act) {
    || (act.Poll? && act.fetch.Some? && act.fetch.value.Broken?)
    || (act.Poll? && (!h.reader.started || act.timeout < 0 || act.timeout > 30000))
    || (act.Acknowledge? && Current(h.reader, act.id) && !h.reader.acknowledged && act.receipt.rc != 0)
    || (act.Open? && !h.reader.started && act.query == 0 && act.start != 0)
  }

  /** A live reader dies of exactly these; every other call, time-outs and calls out of turn included, leaves it alive. */
  lemma DiesOnlyBy(h: History, act: Act)
    requires !Dead(h) && Enabled(h, act)
    ensures Dead(Apply(h, act)) <==> Kills(h, act) || Breaks(h, act)
  {
    hide Admits, Decoded;
  }

  /** Calls out of turn change nothing: a poll with a block in hand, or an acknowledgement or a release of another block. */
  lemma OutOfTurn(h: History, act: Act)
    requires !Dead(h) && Enabled(h, act)
    ensures act.Poll? && h.reader.outstanding.Some? && h.reader.started && 0 <= act.timeout <= 30000 ==>
      FetchedBy(act) == [] && Apply(h, act) == h && act.reply == Failed(EBUSY)
    ensures act.Acknowledge? && (!Current(h.reader, act.id) || h.reader.acknowledged) ==>
      act.after == h.reader && act.receipt == Receipt(EINVAL, None)
    ensures act.Release? && !Current(h.reader, act.id) ==> Apply(h, act) == h
    ensures act.Open? && h.reader.started ==> Apply(h, act) == h
  {
    hide Admits, Decoded;
  }

  /** The calls of one turn: an admissible message is delivered, acknowledged with success, and released. */
  lemma FullTurn(h: History, m: Message, timeout: int, submitted: Option<int>)
    requires !Dead(h) && h.session.owned && Polls(h.reader, timeout) && Admits(h.reader, m, true)
    requires submitted == if h.reader.commits then Some(m.offset + 1) else None
    ensures var (b, given) := (BlockOf(h.reader, m), Deliver(h.reader, m));
            var turn := [Poll(timeout, Some(Got(m, true)), true, given, Delivered(b)),
                         Acknowledge(b.id, given.(acknowledged := true), Receipt(0, submitted)), Release(b.id)];
            && Feasible(h, turn)
            && var end := Run(h, turn);
               && !Dead(end) && Polls(end.reader, timeout) && end.delivered == h.delivered + [b] && b.id in end.acked
               && end.commits == (if h.reader.commits then h.commits + [Commit(m.offset + 1, b.id, h.fetched + [m], h.acked)] else h.commits)
               && end.reader.offset == m.offset && end.reader.poll == b.envelope.poll
  {
    hide Identified, Follows, PacketsRise, FactsRise, Decoded, LastSequence, Noted;
    var (b, given) := (BlockOf(h.reader, m), Deliver(h.reader, m));
    var a1 := Poll(timeout, Some(Got(m, true)), true, given, Delivered(b));
    var a2 := Acknowledge(b.id, given.(acknowledged := true), Receipt(0, submitted));
    var a3 := Release(b.id);
    var h1 := Apply(h, a1);
    var h2 := Apply(h1, a2);
    var h3 := Apply(h2, a3);
    TurnDelivers(h, m, timeout);
    assert Enabled(h1, a2);
    OneMore(h2, a3, []);
    OneMore(h1, a2, [a3]);
    OneMore(h, a1, [a2, a3]);
    assert [a3] + [] == [a3] && [a2] + [a3] == [a2, a3] && [a1] + [a2, a3] == [a1, a2, a3];
  }

  lemma TurnDelivers(h: History, m: Message, timeout: int)
    requires !Dead(h) && Polls(h.reader, timeout) && Admits(h.reader, m, true)
    ensures Enabled(h, Poll(timeout, Some(Got(m, true)), true, Deliver(h.reader, m), Delivered(BlockOf(h.reader, m))))
  {
    hide Decoded;
  }

  lemma OneMore(h: History, act: Act, acts: seq<Act>)
    requires Enabled(h, act) && Feasible(Apply(h, act), acts)
    ensures Feasible(h, [act] + acts) && Run(h, [act] + acts) == Run(Apply(h, act), acts)
  {
    hide Enabled, Apply;
    assert ([act] + acts)[1..] == acts;
  }

  /** Every acknowledgement with success submitted one past its block, if the reader commits; otherwise nothing is submitted. */
  predicate AcksCommitted(h: History) {
    && (forall id | id in h.acked :: id < |h.delivered|)
    && (h.reader.commits ==> forall id | id in h.acked :: exists c | c in h.commits :: c.id == id && c.position == h.delivered[id].offset + 1)
    && (!h.reader.commits ==> h.commits == [])
  }

  lemma {:induction false} AcksCommittedOverRuns(h: History, acts: seq<Act>)
    requires Bookkeeping(h) && AcksCommitted(h) && Feasible(h, acts)
    ensures AcksCommitted(Run(h, acts))
    decreases |acts|
  {
    hide Bookkeeping, AcksCommitted, Enabled, Apply;
    if acts != [] {
      BooksKept(h, acts[0]);
      AcksKept(h, acts[0]);
      AcksCommittedOverRuns(Apply(h, acts[0]), acts[1..]);
    }
  }

  lemma BooksKept(h: History, act: Act)
    requires Bookkeeping(h) && Enabled(h, act)
    ensures Bookkeeping(Apply(h, act))
  {
    hide Decoded, PacketsRise, FactsRise, Noted, LastSequence;
    if act.Acknowledge? {
      AckKeepsBooks(h, act);
    } else if !act.Poll? {
      OtherKeepsBooks(h, act);
    }
  }

  lemma AcksKept(h: History, act: Act)
    requires Bookkeeping(h) && AcksCommitted(h) && Enabled(h, act)
    ensures AcksCommitted(Apply(h, act))
  {
    hide AcksCommitted, Bookkeeping, Admits, Decoded, Noted, LastSequence;
    var next := Apply(h, act);
    if act.Acknowledge? {
      AckCommits(h, act);
    } else {
      assert next.acked == h.acked && next.commits == h.commits && next.reader.commits == h.reader.commits;
      if act.Poll? && act.reply.Delivered? && FetchedBy(act) != [] {
        assert next.delivered[..|h.delivered|] == h.delivered;
      }
      MoreDelivered(h, next);
    }
  }

  lemma MoreDelivered(h: History, next: History)
    requires AcksCommitted(h) && next.acked == h.acked && next.commits == h.commits && h.delivered <= next.delivered
    requires next.reader.commits == h.reader.commits
    ensures AcksCommitted(next)
  {
    forall id | id in next.acked && next.reader.commits
      ensures exists c | c in next.commits :: c.id == id && c.position == next.delivered[id].offset + 1
    {
      var c :| c in h.commits && c.id == id && c.position == h.delivered[id].offset + 1;
    }
  }

  lemma AckCommits(h: History, act: Act)
    requires act.Acknowledge? && Bookkeeping(h) && AcksCommitted(h) && Enabled(h, act)
    ensures AcksCommitted(Apply(h, act))
  {
    hide PollOutcome, FetchPossible, OpenStep, ReleaseStep, Admits;
    var next := Apply(h, act);
    assert next.reader.commits == h.reader.commits && h.commits <= next.commits;
    forall id | id in next.acked && h.reader.commits
      ensures exists c | c in next.commits :: c.id == id && c.position == next.delivered[id].offset + 1
    {
      if id in h.acked {
        var c :| c in h.commits && c.id == id && c.position == h.delivered[id].offset + 1;
        assert c in next.commits;
      } else {
        var c := next.commits[|h.commits|];
        assert c in next.commits && c.id == id;
      }
    }
  }

  lemma DeadStep(h: History, act: Act)
    requires Dead(h) && Enabled(h, act)
    ensures Dead(Apply(h, act)) && Apply(h, act).delivered == h.delivered && Apply(h, act).commits == h.commits
  {
  }

  /** After any of those, no later data and no later commit. */
  lemma {:induction false} DeadForGood(h: History, acts: seq<Act>)
    requires Dead(h) && Feasible(h, acts)
    ensures Dead(Run(h, acts)) && Run(h, acts).delivered == h.delivered && Run(h, acts).commits == h.commits
    decreases |acts|
  {
    if acts == [] {
    } else {
      DeadStep(h, acts[0]);
      DeadForGood(Apply(h, acts[0]), acts[1..]);
    }
  }

  /** Once a call kills the reader, every continuation delivers and commits nothing more. */
  lemma KilledForGood(h: History, act: Act, acts: seq<Act>)
    requires Enabled(h, act) && Kills(h, act) && Feasible(Apply(h, act), acts)
    ensures var (after, end) := (Apply(h, act), Run(Apply(h, act), acts));
      end.delivered == after.delivered == h.delivered && end.commits == after.commits == h.commits
  {
    KilledIsDead(h, act);
    DeadForGood(Apply(h, act), acts);
  }

  // ----------------------------------------------------- one contiguous stream

  /** Every packet of an earlier block is numbered below every packet of a later one. */
  predicate RowsBelow(a: seq<Row>, b: seq<Row>) {
    forall p, q | p in a && q in b :: p.sequence < q.sequence
  }

  predicate FactsBelow(a: seq<Fact>, b: seq<Fact>) {
    forall f, g | f in a && g in b && f.source == g.source :: f.sequence < g.sequence
  }

  /** Block k+1 continues block k. */
  predicate Continues(a: Block, b: Block) {
    && b.envelope.epoch == a.envelope.epoch && b.envelope.generation == a.envelope.generation
    && b.envelope.poll == a.envelope.poll + 1 && b.offset > a.offset
  }

  /** The block carries exactly what its message, at a valid position, decodes to, its facts with the reader's own generation. */
  predicate Faithful(c: SourceConfig, generation: u64, m: Message, b: Block) {
    Decoded(c, m).Ok? && Localized(b.envelope, Decoded(c, m).value, generation) && b.offset == m.offset
    && m.partition == 0 && 0 <= m.offset < INT64_MAX
  }

  predicate Contiguous(h: History) {
    && |h.sources| == |h.delivered|
    && (forall k | 0 <= k < |h.delivered| :: Faithful(h.reader.config, h.reader.localGeneration, h.sources[k], h.delivered[k]))
    && (forall k | 0 <= k < |h.delivered| - 1 :: Continues(h.delivered[k], h.delivered[k + 1]))
    && (forall i, j | 0 <= i < j < |h.delivered| ::
          RowsBelow(h.delivered[i].envelope.packets, h.delivered[j].envelope.packets)
          && FactsBelow(h.delivered[i].envelope.progress, h.delivered[j].envelope.progress))
  }

  /** The reader's fields describe the last block and bound everything before it. */
  predicate Bound(h: History) {
    && (h.reader.bound <==> h.delivered != [])
    && (h.delivered != [] ==>
          var b := h.delivered[|h.delivered| - 1];
          && h.reader.epoch == b.envelope.epoch && h.reader.generation == b.envelope.generation
          && h.reader.poll == b.envelope.poll && h.reader.offset == b.offset)
    && (forall k, p | 0 <= k < |h.delivered| && p in h.delivered[k].envelope.packets :: p.sequence <= h.reader.sequence)
    && (forall k, f | 0 <= k < |h.delivered| && f in h.delivered[k].envelope.progress ::
          f.sequence <= FactSequence(h.reader.facts, f.source))
  }

  lemma RelabelLocalizes(e: Envelope, generation: u64)
    ensures Localized(e.(progress := Relabel(e.progress, generation)), e, generation)
  {
  }

  lemma {:induction false} NotedBounds(facts: map<u32, u64>, progress: seq<Fact>)
    requires forall f | f in progress :: f.sequence > FactSequence(facts, f.source)
    requires DistinctSources(progress)
    ensures forall s :: FactSequence(facts, s) <= FactSequence(Noted(facts, progress), s)
    ensures forall f | f in progress :: f.sequence == FactSequence(Noted(facts, progress), f.source)
    decreases |progress|
  {
    if progress == [] {
    } else {
      var f, rest := progress[0], progress[1..];
      var next := facts[f.source := f.sequence];
      forall g | g in rest ensures g.source != f.source {
        var i :| 0 <= i < |rest| && rest[i] == g;
        assert progress[i + 1].source != progress[0].source;
      }
      NotedBounds(next, rest);
      NotedElsewhere(next, rest, f.source);
      forall g | g in progress ensures g.sequence == FactSequence(Noted(facts, progress), g.source) {
        if g != f {
          assert g in rest;
        }
      }
    }
  }

  lemma {:induction false} NotedElsewhere(facts: map<u32, u64>, progress: seq<Fact>, s: u32)
    requires forall g | g in progress :: g.source != s
    ensures FactSequence(Noted(facts, progress), s) == FactSequence(facts, s)
    decreases |progress|
  {
    if progress != [] {
      NotedElsewhere(facts[progress[0].source := progress[0].sequence], progress[1..], s);
    }
  }

  /** How a delivery moves the reader from `s` to `t`. */
  predicate Extended(s: ReaderState, t: ReaderState, m: Message, b: Block) {
    && t.config == s.config && t.localGeneration == s.localGeneration && Faithful(s.config, s.localGeneration, m, b) && t.bound
    && t.epoch == b.envelope.epoch && t.generation == b.envelope.generation && t.poll == b.envelope.poll
    && t.offset == b.offset
    && (s.bound ==> t.epoch == s.epoch && t.generation == s.generation && t.poll == s.poll + 1 && t.offset > s.offset)
    && s.sequence <= t.sequence
    && (forall p | p in b.envelope.packets :: s.sequence < p.sequence <= t.sequence)
    && (forall f | f in b.envelope.progress ::
          FactSequence(s.facts, f.source) < f.sequence == FactSequence(t.facts, f.source))
    && (forall src :: FactSequence(s.facts, src) <= FactSequence(t.facts, src))
  }

  lemma RowsBounded(rows: seq<Row>, low: u64)
    requires Rising(rows) && (rows != [] ==> rows[0].sequence > low)
    ensures low <= LastSequence(rows, low) && forall p | p in rows :: low < p.sequence <= LastSequence(rows, low)
  {
    forall p | p in rows ensures low < p.sequence <= LastSequence(rows, low) {
      var i :| 0 <= i < |rows| && rows[i] == p;
      assert i > 0 ==> rows[0].sequence < rows[i].sequence;
      assert i < |rows| - 1 ==> rows[i].sequence < rows[|rows| - 1].sequence;
    }
    if rows != [] {
      assert rows[0] in rows;
    }
  }

  lemma DecodedFacts(c: SourceConfig, m: Message)
    requires Decoded(c, m).Ok?
    ensures var e := Decoded(c, m).value; Strip(e) == e && DistinctSources(e.progress)
  {
    LayoutOfParse(m.value);
  }

  lemma DeliveryExtends(s: ReaderState, m: Message, topic: bool)
    requires Admits(s, m, topic)
    ensures Extended(s, Deliver(s, m), m, BlockOf(s, m))
  {
    hide Decoded, Rising;
    var e, b, t := Decoded(s.config, m).value, BlockOf(s, m), Deliver(s, m);
    DecodedFacts(s.config, m);
    RelabelLocalizes(e, s.localGeneration);
    NotedBounds(s.facts, e.progress);
    RowsBounded(e.packets, s.sequence);
    forall f | f in b.envelope.progress
      ensures FactSequence(s.facts, f.source) < f.sequence == FactSequence(t.facts, f.source)
    {
      var i :| 0 <= i < |e.progress| && b.envelope.progress[i] == f;
      assert e.progress[i] in e.progress;
    }
  }

  lemma ExtensionContiguous(h: History, t: ReaderState, m: Message, b: Block)
    requires Contiguous(h) && Bound(h) && Extended(h.reader, t, m, b)
    ensures Contiguous(h.(reader := t, sources := h.sources + [m], delivered := h.delivered + [b]))
  {
    hide Faithful, FactSequence, Bound, Extended, RowsBelow, FactsBelow, Continues;
    var n := |h.delivered|;
    var next := h.(reader := t, sources := h.sources + [m], delivered := h.delivered + [b]);
    ExtensionLinks(h, t, m, b);
    forall k | 0 <= k <= n ensures Faithful(t.config, t.localGeneration, next.sources[k], next.delivered[k]) {
    }
    forall k | 0 <= k < n ensures Continues(next.delivered[k], next.delivered[k + 1]) {
    }
    forall i, j | 0 <= i < j <= n
      ensures RowsBelow(next.delivered[i].envelope.packets, next.delivered[j].envelope.packets)
              && FactsBelow(next.delivered[i].envelope.progress, next.delivered[j].envelope.progress)
    {
      if j == n {
        ExtensionAbove(h, t, m, b, i);
      }
    }
  }

  lemma ExtensionLinks(h: History, t: ReaderState, m: Message, b: Block)
    requires Bound(h) && Extended(h.reader, t, m, b)
    ensures t.config == h.reader.config && t.localGeneration == h.reader.localGeneration && Faithful(t.config, t.localGeneration, m, b)
    ensures h.delivered != [] ==> Continues(h.delivered[|h.delivered| - 1], b)
  {
    hide Faithful, FactSequence;
  }

  lemma ExtensionAbove(h: History, t: ReaderState, m: Message, b: Block, i: nat)
    requires Bound(h) && Extended(h.reader, t, m, b) && i < |h.delivered|
    ensures RowsBelow(h.delivered[i].envelope.packets, b.envelope.packets)
    ensures FactsBelow(h.delivered[i].envelope.progress, b.envelope.progress)
  {
    hide Faithful, FactSequence;
  }

  lemma ExtensionBound(h: History, t: ReaderState, m: Message, b: Block)
    requires Bound(h) && Extended(h.reader, t, m, b)
    ensures Bound(h.(reader := t, sources := h.sources + [m], delivered := h.delivered + [b]))
  {
    hide Faithful, FactSequence;
  }

  /** A call that delivers nothing leaves the reader where it is in the stream. */
  lemma PlaceKept(h: History, act: Act)
    requires Enabled(h, act) && (act.Poll? ==> !act.reply.Delivered?)
    ensures var (next, s) := (Apply(h, act), h.reader); var t := next.reader;
      && next.fetched == h.fetched + FetchedBy(act) && next.sources == h.sources && next.delivered == h.delivered
      && t.config == s.config && t.localGeneration == s.localGeneration && t.bound == s.bound && t.epoch == s.epoch && t.generation == s.generation
      && t.poll == s.poll && t.offset == s.offset && t.sequence == s.sequence && t.facts == s.facts
  {
    hide PollOutcome, AckOutcome;
    if act.Poll? {
      PollStays(h.reader, act.timeout, act.fetch, act.decodable, act.after, act.reply);
    } else if act.Acknowledge? {
      AckStays(h.reader, h.session, act.id, act.after, act.receipt);
    }
  }

  lemma PollStays(s: ReaderState, timeout: int, f: Option<Fetch>, decodable: bool, t: ReaderState, r: Reply)
    requires PollOutcome(s, timeout, f, decodable, t, r) && !r.Delivered?
    ensures t == s.(terminal := t.terminal)
  {
    hide Admits, Decoded, Deliver, BlockOf;
  }

  lemma AckStays(s: ReaderState, session: SessionState, id: nat, t: ReaderState, r: Receipt)
    requires AckOutcome(s, session, id, t, r)
    ensures t == s.(terminal := t.terminal, acknowledged := t.acknowledged)
  {
  }

  /** A run changes neither the reader's configuration nor its own generation. */
  lemma {:induction false} ReaderKept(h: History, acts: seq<Act>)
    requires Feasible(h, acts)
    ensures var end := Run(h, acts); end.reader.config == h.reader.config && end.reader.localGeneration == h.reader.localGeneration
    decreases |acts|
  {
    hide Enabled, Apply;
    if acts != [] {
      StepKeepsReader(h, acts[0]);
      ReaderKept(Apply(h, acts[0]), acts[1..]);
    }
  }

  lemma StepKeepsReader(h: History, act: Act)
    requires Enabled(h, act)
    ensures var (s, t) := (h.reader, Apply(h, act).reader); t.config == s.config && t.localGeneration == s.localGeneration
  {
    hide Enabled, Apply, Decoded, Deliver;
    if act.Poll? && act.reply.Delivered? {
      Delivers(h, act);
      DeliverKeeps(h.reader, act.fetch.value.message);
    } else {
      PlaceKept(h, act);
    }
  }

  lemma DeliverKeeps(s: ReaderState, m: Message)
    requires Decoded(s.config, m).Ok?
    ensures Deliver(s, m).config == s.config && Deliver(s, m).localGeneration == s.localGeneration
  {
  }

  lemma NoFetchNoDelivery(h: History, act: Act)
    requires Enabled(h, act) && FetchedBy(act) == []
    ensures act.Poll? ==> !act.reply.Delivered?
  {
    hide Admits, Decoded, Deliver, BlockOf;
  }

  lemma Delivers(h: History, act: Act)
    requires Enabled(h, act) && act.Poll? && act.reply.Delivered?
    ensures act.fetch.Some? && act.fetch.value.Got?
    ensures var m := act.fetch.value.message;
      && Admits(h.reader, m, act.fetch.value.topicMatches)
      && act.after == Deliver(h.reader, m) && act.reply.block == BlockOf(h.reader, m)
      && Apply(h, act) == h.(reader := act.after, fetched := h.fetched + [m], sources := h.sources + [m],
                             delivered := h.delivered + [act.reply.block])
  {
    hide Admits, Decoded, DeliverFor, BlockFor;
  }

  lemma StepContiguous(h: History, act: Act)
    requires Enabled(h, act) && Contiguous(h) && Bound(h)
    ensures Contiguous(Apply(h, act)) && Bound(Apply(h, act))
  {
    hide Contiguous, Bound, Extended, Deliver, BlockOf, Admits, Decoded, Apply, Enabled, FetchedBy;
    var next := Apply(h, act);
    if act.Poll? && act.reply.Delivered? {
      Delivers(h, act);
      var m, b := act.fetch.value.message, act.reply.block;
      DeliveryExtends(h.reader, m, act.fetch.value.topicMatches);
      ExtensionContiguous(h, next.reader, m, b);
      ExtensionBound(h, next.reader, m, b);
      StreamDependsOn(h.(reader := next.reader, sources := h.sources + [m], delivered := h.delivered + [b]), next);
    } else {
      PlaceKept(h, act);
      StreamDependsOn(h, next);
    }
  }

  /** The stream facts only look at the delivered blocks and the reader's stream position. */
  lemma StreamDependsOn(h: History, next: History)
    requires Contiguous(h) && Bound(h)
    requires next.sources == h.sources && next.delivered == h.delivered && next.reader.config == h.reader.config
    requires next.reader.localGeneration == h.reader.localGeneration
    requires next.reader.bound == h.reader.bound && next.reader.epoch == h.reader.epoch
    requires next.reader.generation == h.reader.generation && next.reader.poll == h.reader.poll
    requires next.reader.sequence == h.reader.sequence && next.reader.offset == h.reader.offset
    requires next.reader.facts == h.reader.facts
    ensures Contiguous(next) && Bound(next)
  {
    hide Faithful, Continues, RowsBelow, FactsBelow, FactSequence;
  }

  /**
   * In every run the delivered blocks are one stream: same epoch and generation,
   * polls stepping by one, offsets, packet sequences and each source's fact
   * sequences strictly rising, and contents exactly as decoded.
   */
  lemma {:induction false} ContiguousOverRuns(h: History, acts: seq<Act>)
    requires Contiguous(h) && Bound(h) && Feasible(h, acts)
    ensures Contiguous(Run(h, acts)) && Bound(Run(h, acts))
    decreases |acts|
  {
    if acts == [] {
    } else {
      StepContiguous(h, acts[0]);
      ContiguousOverRuns(Apply(h, acts[0]), acts[1..]);
    }
  }
}
