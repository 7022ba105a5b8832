/** The packet sink writer: it numbers polls and accounts for every message and packet. */
module PacketWriter {
  import opened Bytes
  import opened Errno
  import opened PacketWire
  import opened SinkCodec
  import P = Producer

  datatype Phase = Created | Opened | Writing | Finished | Failed | Cancelled

  datatype Tally = Tally(input: nat, confirmed: nat, notSent: nat, unknown: nat)

  datatype WriterState = WriterState(
    codec: CodecState,
    epoch: seq<byte>,
    poll: u64,
    cancelled: bool,
    phase: Phase,
    messages: Tally,
    packets: Tally)

  /** What became of one `Write`: `rc` and `delivery` come from `Produce`. */
  datatype Fate =
    | NotEncoded(cancelled: bool)
    | TooLate(cancelled: bool)
    | Produced(rc: int, delivery: P.Delivery, cancelled: bool)

  predicate PlainTimeout(event: Event) {
    event.kind.Timeout? && event.batch.None? && event.progress == [] && event.wellTyped && !event.failed
  }

  function PacketCount(event: Event): nat {
    if event.batch.Some? then |event.batch.value.rows| else 0
  }

  predicate Possible(s: WriterState, event: Event, fate: Fate) {
    && (s.cancelled ==> fate.cancelled)
    && (!fate.NotEncoded? ==> s.poll < UINT64_MAX && Encodable(s.codec, event, s.epoch, s.poll + 1))
    && (fate.Produced? ==> P.Accounted(1, fate.rc, fate.delivery))
  }

  function DeliveryOf(fate: Fate): P.Delivery {
    if fate.Produced? then fate.delivery else P.Delivery(0, 1, 0)
  }

  predicate Succeeds(fate: Fate) {
    fate.Produced? && fate.rc == 0 && !fate.cancelled
  }

  /** Charges `n` items per message to the outcome of one message. */
  function Charge(t: Tally, n: nat, d: P.Delivery): Tally {
    Tally(t.input + n, t.confirmed + n * d.confirmed, t.notSent + n * d.notSent, t.unknown + n * d.unknown)
  }

  function WriteStep(s: WriterState, event: Event, fate: Fate): WriterState
    requires Possible(s, event, fate)
  {
    if !s.phase.Opened? || PlainTimeout(event) then s
    else
      var d := DeliveryOf(fate);
      WriterState(
        if fate.NotEncoded? then s.codec else Advanced(s.codec, event),
        s.epoch,
        if d.confirmed + d.unknown > 0 then s.poll + 1 else s.poll,
        fate.cancelled,
        if Succeeds(fate) then Opened else if fate.cancelled then Cancelled else Failed,
        Charge(s.messages, 1, d),
        Charge(s.packets, PacketCount(event), d))
  }

  /**
   * How an uncancelled write can end: refused because the event cannot be encoded,
   * out of time, failed by an exception, or with the result of `Produce`.
   */
  predicate EndsWith(codec: CodecState, epoch: seq<byte>, poll: u64, event: Event, ticks: nat, rc: int, fate: Fate) {
    match fate
    case NotEncoded(_) =>
      rc in {EIO, EINVAL, ETIMEDOUT} && (rc == EINVAL ==> poll == UINT64_MAX || !Encodable(codec, event, epoch, poll + 1))
    case TooLate(_) => rc == ETIMEDOUT && ticks == 0
    case Produced(code, _, _) => rc == code && ticks > 0
  }

  lemma EndsStill(codec: CodecState, epoch: seq<byte>, poll: u64, event: Event, ticks: nat, rc: int, fate: Fate, cancelled: bool)
    requires EndsWith(codec, epoch, poll, event, ticks, rc, fate)
    ensures EndsWith(codec, epoch, poll, event, ticks, rc, fate.(cancelled := cancelled))
  {
  }

  lemma IdleStep(s: WriterState, event: Event, fate: Fate)
    requires Possible(s, event, fate) && (!s.phase.Opened? || PlainTimeout(event))
    ensures WriteStep(s, event, fate) == s
  {
  }

  lemma BusyStep(s: WriterState, event: Event, fate: Fate, t: WriterState)
    requires Possible(s, event, fate) && s.phase.Opened? && !PlainTimeout(event)
    requires fate.NotEncoded? ==> t.codec == s.codec
    requires !fate.NotEncoded? ==> t.codec == Advanced(s.codec, event)
    requires var d := DeliveryOf(fate);
             && t.poll == (if d.confirmed + d.unknown > 0 then s.poll + 1 else s.poll)
             && t.messages == Charge(s.messages, 1, d) && t.packets == Charge(s.packets, PacketCount(event), d)
    requires t.epoch == s.epoch && t.cancelled == fate.cancelled
    requires t.phase == if Succeeds(fate) then Opened else if fate.cancelled then Cancelled else Failed
    ensures t == WriteStep(s, event, fate)
  {
    hide Encodable, Advanced, Charge, PacketCount;
  }

  /** The record that carries this poll. */
  function RecordOf(codec: CodecState, epoch: seq<byte>, poll: u64, event: Event): P.Record
    requires |epoch| == 16
  {
    var m := Carrier(codec.wire, EnvelopeOf(codec, event, epoch, poll));
    P.Record(m.key, m.value)
  }

  /** What one `Write` puts into the client's queue. */
  function Sent(s: WriterState, event: Event, fate: Fate): seq<P.Record>
    requires |s.epoch| == 16 && Possible(s, event, fate)
  {
    if s.phase.Opened? && !PlainTimeout(event) && DeliveryOf(fate).notSent == 0 then [RecordOf(s.codec, s.epoch, s.poll + 1, event)] else []
  }

  /**
   * What a step does to an open writer, field by field: a time-out that says nothing
   * changes nothing; any other event counts once, with all its packets, is numbered
   * exactly when its message may have been sent, and leaves the writer open exactly
   * when the message was confirmed and nothing was cancelled.
   */
  lemma StepMeans(s: WriterState, event: Event, fate: Fate)
    requires Possible(s, event, fate) && s.phase.Opened? && |s.epoch| == 16
    ensures var t := WriteStep(s, event, fate);
            if event.kind.Timeout? && event.batch.None? && event.progress == [] && event.wellTyped && !event.failed
            then t == s && Sent(s, event, fate) == []
            else
              var rows := if event.batch.Some? then |event.batch.value.rows| else 0;
              var sent := fate.Produced? && fate.delivery.notSent == 0;
              && t.messages.input == s.messages.input + 1 && t.packets.input == s.packets.input + rows
              && t.poll == (if sent then s.poll + 1 else s.poll) && |Sent(s, event, fate)| == (if sent then 1 else 0)
              && t.messages.confirmed == s.messages.confirmed + (if fate.Produced? then fate.delivery.confirmed else 0)
              && t.packets.confirmed == s.packets.confirmed + rows * (if fate.Produced? then fate.delivery.confirmed else 0)
              && t.messages.notSent == s.messages.notSent + (if sent then 0 else 1)
              && t.packets.notSent == s.packets.notSent + (if sent then 0 else rows)
              && t.cancelled == fate.cancelled && t.epoch == s.epoch
              && (t.phase == Opened <==> fate.Produced? && fate.rc == 0 && !fate.cancelled)
              && (t.phase != Opened ==> t.phase == if fate.cancelled then Cancelled else Failed)
  {
    hide Encodable, Advanced, RecordOf, EnvelopeOf;
  }

  method SaysNothing(event: Event) returns (plain: bool)
    ensures plain == PlainTimeout(event)
  {
    plain := event.kind.Timeout? && event.batch.None? && event.progress == [] && event.wellTyped && !event.failed;
  }

  method Packets(event: Event) returns (count: nat)
    ensures count == PacketCount(event)
  {
    count := if event.batch.Some? then |event.batch.value.rows| else 0;
  }

  class PacketSinkWriter {
    const epoch: seq<byte>
    const codec: PacketSinkCodec
    const session: P.ProducerSession
    const timeout: nat
    var poll: u64
    var cancelled: bool
    var phase: Phase
    var messages: Tally
    var packets: Tally

    function View(): WriterState
      reads this, codec
    {
      WriterState(codec.View(), epoch, poll, cancelled, phase, messages, packets)
    }

    constructor (epoch: seq<byte>, codec: PacketSinkCodec, session: P.ProducerSession, timeout: nat)
      requires |epoch| == 16 && codec.generation == 0
      ensures this.epoch == epoch && this.codec == codec && this.session == session
      ensures poll == 0 && !cancelled && phase == Created
      ensures messages == packets == Tally(0, 0, 0, 0)
    {
      this.epoch, this.codec, this.session, this.timeout := epoch, codec, session, timeout;
      poll, cancelled, phase := 0, false, Created;
      messages, packets := Tally(0, 0, 0, 0), Tally(0, 0, 0, 0);
    }

    method Cancel()
      modifies this, session
      ensures View() == CallStep(old(View()), CancelCall) && session.cancelled
      ensures session.queued == old(session.queued)
    {
      cancelled := true;
      session.Cancel();
      if phase != Finished && phase != Failed {
        phase := Cancelled;
      }
    }

    /** A call of `Cancel` on another thread, or none. */
    method Elsewhere()
      modifies this, session
      ensures old(cancelled) ==> cancelled
      ensures poll == old(poll) && messages == old(messages) && packets == old(packets)
      ensures !cancelled ==> phase == old(phase)
      ensures session.queued == old(session.queued)
    {
      var arrives: bool := *;
      if arrives {
        Cancel();
      }
    }

    method Fail()
      modifies this, session
      ensures cancelled == old(cancelled) && poll == old(poll) && messages == old(messages) && packets == old(packets)
      ensures phase == if cancelled then Cancelled else Failed
      ensures session.cancelled && session.queued == old(session.queued)
    {
      session.Cancel();
      phase := if cancelled then Cancelled else Failed;
    }

    /** `ready` is 0 when the producer is available and the probe succeeded. */
    method Open(sources: SourceSet, schemaOk: bool, ready: int) returns (rc: int)
      modifies this, codec, session
      ensures poll == old(poll) && messages == old(messages) && packets == old(packets)
      ensures old(phase) != Created ==> rc == (if old(cancelled) then ECANCELED else EINVAL) && View() == old(View())
      ensures old(phase) == Created && old(cancelled) ==> rc == ECANCELED && phase == Cancelled && codec.View() == old(codec.View())
      ensures rc == 0 ==> old(phase) == Created && phase == Opened && Ready(codec.View()) && !cancelled
      ensures old(phase) == Created && rc != 0 ==> phase == if cancelled then Cancelled else Failed
      ensures old(phase) == Created && !cancelled ==>
                (rc == 0 <==> ready == 0 && old(codec.generation) == 0 && Capturable(sources, schemaOk)
                              && Budget(codec.streamId, sources) <= codec.maxMessageBytes)
      ensures rc == 0 && old(codec.generation) == 0 && old(codec.trackers) == map[] ==>
                codec.last == old(codec.last) && TrackersFor(sources.inputs, codec.trackers)
    {
      if phase != Created {
        return if cancelled then ECANCELED else EINVAL;
      }
      if cancelled {
        Fail();
        return ECANCELED;
      }
      var outcome := codec.Open(sources, schemaOk);
      Elsewhere();
      if !outcome.CaptureOpen? {
        Fail();
        return if cancelled then ECANCELED else EINVAL;
      }
      if ready != 0 {
        Fail();
        return if cancelled then ECANCELED else ready;
      }
      phase := if cancelled then Cancelled else Opened;
      rc := if cancelled then ECANCELED else 0;
    }

    /** Encodes one poll and hands it to `Produce`. */
    method Publish(event: Event, quit: nat, ticks: nat) returns (rc: int, delivery: P.Delivery, ghost fate: Fate)
      requires |epoch| == 16
      modifies this, codec, session
      ensures delivery.notSent == 0 ==> old(poll) < UINT64_MAX
      ensures old(cancelled) ==> cancelled
      ensures messages == old(messages) && packets == old(packets)
      ensures fate.cancelled ==> cancelled
      ensures fate.NotEncoded? ==> codec.View() == old(codec.View())
      ensures !fate.NotEncoded? ==>
                old(poll) < UINT64_MAX && Encodable(old(codec.View()), event, epoch, old(poll) + 1)
                && codec.View() == Advanced(old(codec.View()), event)
      ensures fate.Produced? ==> fate.rc == rc && fate.delivery == delivery && P.Accounted(1, rc, delivery)
      ensures !fate.Produced? ==> rc != 0 && delivery == P.Delivery(0, 1, 0)
      ensures !cancelled ==> EndsWith(old(codec.View()), epoch, old(poll), event, ticks, rc, fate)
      ensures poll == if delivery.confirmed + delivery.unknown > 0 then old(poll) + 1 else old(poll)
      ensures delivery.notSent == 1 ==> session.queued == old(session.queued)
      ensures delivery.notSent == 0 ==>
                fate.Produced? && session.queued == old(session.queued) + [RecordOf(old(codec.View()), epoch, old(poll) + 1, event)]
    {
      hide Encodable, Advanced, P.WithinLimits, EnvelopeOf, Carrier, P.Size;
      fate := NotEncoded(cancelled);
      delivery := P.Delivery(0, 1, 0);
      var threw: bool := *;
      if threw {
        return EIO, delivery, fate;
      }
      var encoded := Refused;
      if poll < UINT64_MAX {
        encoded := codec.Encode(event, epoch, poll + 1, quit);
      }
      Elsewhere();
      var late: bool := *;
      if !encoded.Encoded? {
        rc := if cancelled then ECANCELED else if encoded.Interrupted? || late then ETIMEDOUT else EINVAL;
      } else if cancelled || ticks == 0 {
        rc := if cancelled then ECANCELED else ETIMEDOUT;
        fate := TooLate(cancelled);
      } else {
        var record := P.Record(encoded.message.key, encoded.message.value);
        var receipt;
        rc, delivery, receipt := session.Produce([record], timeout, ticks);
        assert [record][..1] == [record] && [record][..0] == [];
        fate := Produced(rc, delivery, cancelled);
        if delivery.confirmed + delivery.unknown > 0 {
          poll := poll + 1;
        }
      }
    }

    /** Books the outcome of one message that carried `count` packets. */
    method Settle(ghost m0: Tally, ghost p0: Tally, count: nat, delivery: P.Delivery)
      requires messages == m0.(input := m0.input + 1) && packets == p0.(input := p0.input + count)
      modifies this`messages, this`packets
      ensures messages == Charge(m0, 1, delivery) && packets == Charge(p0, count, delivery)
    {
      messages := Tally(messages.input, messages.confirmed + delivery.confirmed, messages.notSent + delivery.notSent,
                        messages.unknown + delivery.unknown);
      packets := Tally(packets.input, packets.confirmed + count * delivery.confirmed,
                       packets.notSent + count * delivery.notSent, packets.unknown + count * delivery.unknown);
    }

    /** Publishes one poll; `quit` and `ticks` say when the clock runs out. */
    method Write(event: Event, quit: nat, ticks: nat) returns (rc: int, ghost fate: Fate)
      requires |epoch| == 16
      modifies this, codec, session
      ensures Possible(old(View()), event, fate)
      ensures View() == WriteStep(old(View()), event, fate)
      ensures rc == 0 <==> old(phase) == Opened && (PlainTimeout(event) || Succeeds(fate))
      ensures rc != 0 && cancelled ==> rc == ECANCELED
      ensures old(phase) != Opened && !cancelled ==> rc == EINVAL
      ensures old(phase) == Opened && rc != 0 ==> session.cancelled
      ensures old(phase) == Opened && !cancelled && !PlainTimeout(event) ==>
                EndsWith(old(codec.View()), epoch, old(poll), event, ticks, rc, fate)
      ensures session.queued == old(session.queued) + Sent(old(View()), event, fate)
    {
      hide Encodable, Advanced, Charge, PacketCount, RecordOf, Tracked, EnvelopeOf, WriteStep, EndsWith, PlainTimeout;
      ghost var s := View();
      fate := NotEncoded(cancelled);
      if phase != Opened {
        IdleStep(s, event, fate);
        return if cancelled then ECANCELED else EINVAL, fate;
      }
      var plain := SaysNothing(event);
      if plain {
        IdleStep(s, event, fate);
        return 0, fate;
      }
      var count := Packets(event);
      ghost var m0, p0 := messages, packets;
      messages := messages.(input := messages.input + 1);
      packets := packets.(input := packets.input + count);
      phase := Writing;
      Elsewhere();
      var delivery;
      rc, delivery, fate := Publish(event, quit, ticks);
      Elsewhere();
      if !cancelled {
        EndsStill(s.codec, epoch, s.poll, event, ticks, rc, fate, cancelled);
      }
      fate := fate.(cancelled := cancelled);
      Settle(m0, p0, count, delivery);
      if rc != 0 || cancelled {
        Fail();
        BusyStep(s, event, fate, View());
        return if cancelled then ECANCELED else rc, fate;
      }
      phase := Opened;
      BusyStep(s, event, fate, View());
    }

    /**
     * `drained` is the result of waiting for the client's queue to empty. The new
     * state is the step of this call, or of a cancel during the wait and this call.
     */
    method Finish(drained: int) returns (rc: int)
      modifies this, session
      ensures View() == CallStep(old(View()), FinishCall(drained))
              || View() == CallStep(CallStep(old(View()), CancelCall), FinishCall(drained))
      ensures rc == 0 <==> old(phase) == Opened && phase == Finished
      ensures rc != 0 ==> rc == if cancelled then ECANCELED else if old(phase) == Opened then drained else EINVAL
      ensures old(phase) == Opened ==>
                phase == if cancelled then Cancelled else if drained != 0 then Failed else Finished
    {
      if phase != Opened {
        return if cancelled then ECANCELED else EINVAL;
      }
      var arrives: bool := *;
      if arrives {
        Cancel();
      }
      if drained != 0 {
        Fail();
        return if cancelled then ECANCELED else drained;
      }
      phase := if cancelled then Cancelled else Finished;
      rc := if cancelled then ECANCELED else 0;
    }
  }

  // -------------------------------------------------------------- whole runs

  datatype Call =
    | WriteCall(event: Event, fate: Fate)
    | CancelCall
    | FinishCall(drained: int)

  function CallStep(s: WriterState, call: Call): WriterState
    requires call.WriteCall? ==> Possible(s, call.event, call.fate)
  {
    match call
    case WriteCall(event, fate) => WriteStep(s, event, fate)
    case CancelCall =>
      s.(cancelled := true, phase := if s.phase.Finished? || s.phase.Failed? then s.phase else Cancelled)
    case FinishCall(drained) =>
      if !s.phase.Opened? then s
      else s.(phase := if s.cancelled then Cancelled else if drained != 0 then Failed else Finished)
  }

  predicate Feasible(s: WriterState, calls: seq<Call>)
    decreases |calls|
  {
    calls == [] ||
    ((calls[0].WriteCall? ==> Possible(s, calls[0].event, calls[0].fate)) && Feasible(CallStep(s, calls[0]), calls[1..]))
  }

  function Run(s: WriterState, calls: seq<Call>): WriterState
    requires Feasible(s, calls)
    decreases |calls|
  {
    if calls == [] then s else Run(CallStep(s, calls[0]), calls[1..])
  }

  predicate Balanced(t: Tally) {
    t.input == t.confirmed + t.notSent + t.unknown
  }

  /** The writer's books, between calls. */
  predicate BooksBalance(s: WriterState) {
    && Balanced(s.messages) && Balanced(s.packets)
    && s.poll == s.messages.confirmed + s.messages.unknown
    && s.messages.notSent + s.messages.unknown <= 1
    && (s.phase.Opened? ==> s.messages.notSent + s.messages.unknown == 0 && !s.cancelled)
  }

  lemma ChargeBalances(t: Tally, n: nat, d: P.Delivery)
    requires Balanced(t) && d.confirmed + d.notSent + d.unknown == 1
    ensures Balanced(Charge(t, n, d))
  {
    if d.confirmed == 1 {
    } else if d.notSent == 1 {
    } else {
    }
  }

  lemma CallKeepsBooks(s: WriterState, call: Call)
    requires BooksBalance(s) && (call.WriteCall? ==> Possible(s, call.event, call.fate))
    ensures BooksBalance(CallStep(s, call))
  {
    if call.WriteCall? && s.phase.Opened? && !PlainTimeout(call.event) {
      var d := DeliveryOf(call.fate);
      ChargeBalances(s.messages, 1, d);
      ChargeBalances(s.packets, PacketCount(call.event), d);
    }
  }

  /**
   * In any run: input = confirmed + not sent + unknown for messages and packets,
   * the poll number counts the confirmed and unknown messages, and at most one
   * message is not confirmed.
   */
  lemma {:induction false} BooksOverRuns(s: WriterState, calls: seq<Call>)
    requires BooksBalance(s) && Feasible(s, calls)
    ensures BooksBalance(Run(s, calls))
    decreases |calls|
  {
    if calls == [] {
    } else {
      CallKeepsBooks(s, calls[0]);
      BooksOverRuns(CallStep(s, calls[0]), calls[1..]);
    }
  }

  /** A writer that is no longer open never publishes again. */
  lemma {:induction false} ClosedForGood(s: WriterState, calls: seq<Call>)
    requires !s.phase.Opened? && Feasible(s, calls)
    ensures var t := Run(s, calls); !t.phase.Opened? && t.poll == s.poll && t.messages == s.messages && t.packets == s.packets
    decreases |calls|
  {
    if calls == [] {
    } else {
      ClosedForGood(CallStep(s, calls[0]), calls[1..]);
    }
  }
}
