/** The structured result writer: rows become messages, messages become bounded windows. */
module ResultWriter {
  import opened Bytes
  import opened Errno
  import P = Producer

  datatype SinkConfig = SinkConfig(maxMessageBytes: nat, queueMaxMessages: nat, queueMaxBytes: nat, timeout: nat)

  /** What `ParseSinkConfig` accepts. */
  predicate ValidConfig(c: SinkConfig) {
    && 1024 <= c.maxMessageBytes <= 16777216 && 1 <= c.queueMaxMessages <= 65536
    && 1048576 <= c.queueMaxBytes <= 268435456 && 100 <= c.timeout <= 120000
    && c.queueMaxBytes >= c.maxMessageBytes
  }

  function Limits(c: SinkConfig): P.Limits {
    P.Limits(c.maxMessageBytes, c.queueMaxMessages, c.queueMaxBytes, c.timeout)
  }

  type RowData = seq<byte>

  /** `render` turns a row and its ordinal into a message; `None` stands for `invalid_argument`. */
  datatype Codec = Codec(render: (RowData, nat) -> Option<P.Record>)

  /** The codec accepts this message: a short enough key and a size that one message may have. */
  predicate Sendable(c: SinkConfig, m: P.Record) {
    |m.key| <= 4096 && |m.key| + |m.value| <= c.maxMessageBytes
  }

  /** `messages` are those of the first rows of a batch whose first ordinal is `base`. */
  predicate Rendered(codec: Codec, rows: seq<RowData>, base: nat, messages: seq<P.Record>) {
    |messages| <= |rows| && forall i | 0 <= i < |messages| :: codec.render(rows[i], base + i) == Some(messages[i])
  }

  function Flatten<T>(parts: seq<seq<T>>): seq<T> {
    if parts == [] then [] else Flatten(parts[..|parts| - 1]) + parts[|parts| - 1]
  }

  datatype Phase = Created | Ready | Writing | Finished | Failed | Cancelled

  /** Why a write ended: all rows confirmed, a wrong schema, no time or a cancel, a row without a message, or a failed `Produce`. */
  datatype End = Complete | WrongSchema | Stopped(late: bool) | RowRefused(row: nat) | Undelivered(rc: int)

  datatype Report = Report(input: nat, confirmed: nat, notSent: nat, unknown: nat)

  predicate Balanced(r: Report) {
    r.input == r.confirmed + r.notSent + r.unknown
  }

  predicate AllWithin(c: SinkConfig, windows: seq<seq<P.Record>>) {
    forall w | w in windows :: w != [] && P.WithinLimits(Limits(c), w)
  }

  class ResultWriter {
    const config: SinkConfig
    const codec: Codec
    const session: P.ProducerSession
    var cancelled: bool
    var phase: Phase
    var report: Report

    ghost predicate Valid()
      reads this
    {
      ValidConfig(config) && session.limits == Limits(config)
    }

    constructor (config: SinkConfig, codec: Codec, session: P.ProducerSession)
      requires ValidConfig(config) && session.limits == Limits(config)
      ensures Valid() && phase == Created && !cancelled && report == Report(0, 0, 0, 0) && Balanced(report)
      ensures this.session == session && this.codec == codec && this.config == config
    {
      this.config, this.codec, this.session := config, codec, session;
      cancelled, phase, report := false, Created, Report(0, 0, 0, 0);
    }

    method Cancel()
      modifies this, session
      ensures cancelled && session.cancelled && report == old(report) && session.queued == old(session.queued)
      ensures phase == if old(phase) == Finished || old(phase) == Failed then old(phase) else Cancelled
    {
      cancelled := true;
      session.Cancel();
      if phase != Finished && phase != Failed {
        phase := Cancelled;
      }
    }

    /** A cancel from another thread, and the clock: true when the write has to stop. */
    method Interrupted() returns (stop: bool, late: bool)
      modifies this, session
      ensures old(cancelled) ==> cancelled
      ensures stop <==> cancelled || late
      ensures report == old(report) && session.queued == old(session.queued)
      ensures !cancelled ==> phase == old(phase)
    {
      var cancel: bool := *;
      late := *;
      if cancel {
        Cancel();
      }
      stop := cancelled || late;
    }

    method Fail(rc: int) returns (result: int)
      requires rc != 0
      modifies this
      ensures cancelled == old(cancelled) && report == old(report)
      ensures phase == if cancelled then Cancelled else Failed
      ensures result == if cancelled then ECANCELED else rc
    {
      phase := if cancelled then Cancelled else Failed;
      result := if cancelled then ECANCELED else rc;
    }

    /**
     * Publishes a batch. `windows` lists what was handed to `Produce`, call by
     * call; `ticks` bounds the polls inside `Produce`.
     */
    method Write(rows: seq<RowData>, schemaOk: bool, ticks: nat)
      returns (rc: int, ghost windows: seq<seq<P.Record>>, ghost end: End)
      requires Valid()
      modifies this, session
      ensures Valid()
      ensures old(phase) != Ready ==> rc == (if cancelled then ECANCELED else EINVAL)
                                      && report == old(report) && phase == old(phase) && windows == []
      ensures old(phase) == Ready ==> (end == WrongSchema <==> !schemaOk) && (end == WrongSchema ==> windows == [])
      ensures old(phase) == Ready ==> EndsWith(config, codec, rows, old(report.input), cancelled, rc, end)
      ensures old(phase) == Ready ==> report.input == old(report.input) + |rows|
      ensures Balanced(old(report)) ==> Balanced(report)
      ensures forall w | w in windows ::
                && w != [] && |w| <= config.queueMaxMessages && P.TotalSize(w) <= config.queueMaxBytes
                && forall m | m in w :: |m.key| <= 4096 && |m.key| + |m.value| <= config.maxMessageBytes
      ensures |Flatten(windows)| <= |rows|
      ensures forall i | 0 <= i < |Flatten(windows)| ::
                codec.render(rows[i], old(report.input) + i) == Some(Flatten(windows)[i])
      ensures rc == 0 ==> phase == Ready && |Flatten(windows)| == |rows| && report.confirmed == old(report.confirmed) + |rows|
      ensures rc != 0 ==> phase != Ready
      ensures QueuedSome(old(session.queued), windows, session.queued)
    {
      hide Rendered, Flatten, AllWithin, P.WithinLimits;
      windows, end := [], WrongSchema;
      FlattenNil(config, codec, rows, report.input);
      ghost var queue := session.queued;
      if phase != Ready {
        return if cancelled then ECANCELED else EINVAL, windows, end;
      }
      var ordinal := report.input;
      report := report.(input := report.input + |rows|);
      phase := Writing;
      if !schemaOk {
        rc := GiveUp(EINVAL, |rows|, windows, queue);
        return;
      }
      rc, windows, end := WriteRows(rows, ordinal, ticks);
      Explained(config, codec, rows, ordinal, windows);
    }

    /** The windows of a batch, one after another. */
    method WriteRows(rows: seq<RowData>, ordinal: nat, ticks: nat)
      returns (rc: int, ghost windows: seq<seq<P.Record>>, ghost end: End)
      requires Valid() && phase == Writing
      modifies this, session
      ensures Valid() && report.input == old(report.input)
      ensures report.confirmed + report.notSent + report.unknown
              == old(report.confirmed) + old(report.notSent) + old(report.unknown) + |rows|
      ensures AllWithin(config, windows) && Rendered(codec, rows, ordinal, Flatten(windows))
      ensures end != WrongSchema && EndsWith(config, codec, rows, ordinal, cancelled, rc, end)
      ensures rc == 0 ==> phase == Ready && |Flatten(windows)| == |rows| && report.confirmed == old(report.confirmed) + |rows|
      ensures rc != 0 ==> phase != Ready
      ensures QueuedSome(old(session.queued), windows, session.queued)
    {
      hide Rendered, Flatten, AllWithin, Held, Slice, Refused, P.WithinLimits;
      windows, end := [], Complete;
      FlattenNil(config, codec, rows, ordinal);
      ghost var (queue, entry) := (session.queued, report);
      var accounted, row := 0, 0;
      var pending: Option<P.Record> := None;
      HeldNone(config, codec, rows, ordinal, row);
      while row < |rows| || pending.Some?
        invariant phase == Writing || cancelled
        invariant 0 <= accounted <= row <= |rows| && row == accounted + (if pending.Some? then 1 else 0)
        invariant Held(config, codec, rows, ordinal, row, pending)
        invariant AllWithin(config, windows) && |Flatten(windows)| == accounted
        invariant Rendered(codec, rows, ordinal, Flatten(windows))
        invariant report == entry.(confirmed := entry.confirmed + accounted)
        invariant session.queued == queue + Flatten(windows)
        decreases |rows| - accounted
      {
        var stop, late := Interrupted();
        if stop {
          rc := GiveUp(ETIMEDOUT, |rows| - accounted, windows, queue);
          end := Stopped(late);
          return;
        }
        var window, ok;
        ok, window, row, pending := Fill(rows, ordinal, row, pending, accounted);
        if !ok {
          rc := GiveUp(EINVAL, |rows| - accounted, windows, queue);
          end := RowRefused(row - 1);
          return;
        }
        stop, late := Interrupted();
        if stop {
          rc := GiveUp(ETIMEDOUT, |rows| - accounted, windows, queue);
          end := Stopped(late);
          return;
        }
        RenderedOn(codec, rows, ordinal, Flatten(windows), window);
        AllWithinSnoc(config, windows, window);
        FlattenSnoc(windows, window);
        rc := Send(window, ticks, queue, windows);
        windows := windows + [window];
        accounted := accounted + |window|;
        if rc != 0 {
          report := report.(notSent := report.notSent + (|rows| - accounted));
          end := Undelivered(rc);
          rc := Fail(rc);
          return;
        }
      }
      FullPrefix(windows);
      phase := if cancelled then Cancelled else Ready;
      rc := if cancelled then ECANCELED else 0;
    }

    /** Hands one window to `Produce` and books the outcome. */
    method Send(window: seq<P.Record>, ticks: nat, ghost queue: seq<P.Record>, ghost before: seq<seq<P.Record>>)
      returns (rc: int)
      requires session.queued == queue + Flatten(before)
      modifies this, session
      ensures old(cancelled) ==> cancelled
      ensures !cancelled ==> phase == old(phase)
      ensures report.input == old(report.input)
      ensures report.confirmed + report.notSent + report.unknown
              == old(report.confirmed) + old(report.notSent) + old(report.unknown) + |window|
      ensures rc == 0 ==> report == old(report).(confirmed := old(report.confirmed) + |window|)
                          && session.queued == queue + Flatten(before + [window])
      ensures QueuedSome(queue, before + [window], session.queued)
    {
      hide Flatten, P.WithinLimits;
      var delivery, receipt;
      rc, delivery, receipt := session.Produce(window, config.timeout, ticks);
      QueuedPrefix(queue, before, window, |window| - delivery.notSent, session.queued);
      QueuedAll(queue, before, window);
      assert window[..|window|] == window;
      Elsewhere();
      report := Report(report.input, report.confirmed + delivery.confirmed, report.notSent + delivery.notSent,
                       report.unknown + delivery.unknown);
    }

    method Elsewhere()
      modifies this, session
      ensures old(cancelled) ==> cancelled
      ensures report == old(report) && session.queued == old(session.queued)
      ensures !cancelled ==> phase == old(phase)
    {
      var stop, late := Interrupted();
    }

    /** Books the rest of the batch as not sent and fails. */
    method GiveUp(code: int, rest: nat, ghost windows: seq<seq<P.Record>>, ghost queue: seq<P.Record>) returns (rc: int)
      requires code != 0 && session.queued == queue + Flatten(windows)
      modifies this
      ensures report == old(report).(notSent := old(report.notSent) + rest) && cancelled == old(cancelled)
      ensures rc == (if cancelled then ECANCELED else code) && phase == if cancelled then Cancelled else Failed
      ensures QueuedSome(queue, windows, session.queued)
    {
      report := report.(notSent := report.notSent + rest);
      rc := Fail(code);
      FullPrefix(windows);
    }

    /** `ResultCodec::Row`: the rendering of a row, refused when its key or its size is over the limit. */
    method Row(row: RowData, ordinal: nat) returns (message: Option<P.Record>)
      ensures message.Some? ==> codec.render(row, ordinal) == message && Sendable(config, message.value)
      ensures message.None? ==> codec.render(row, ordinal).None? || !Sendable(config, codec.render(row, ordinal).value)
    {
      message := codec.render(row, ordinal);
      if message.Some? {
        var m := message.value;
        if |m.key| > P.MAX_KEY || |m.key| + |m.value| > config.maxMessageBytes {
          message := None;
        }
      }
    }

    /** The carried-over message, or else the next row's, which is refused only if it has none within the limits. */
    method Take(rows: seq<RowData>, ordinal: nat, row0: nat, pending: Option<P.Record>)
      returns (message: Option<P.Record>, row: nat)
      requires row0 <= |rows| && (row0 < |rows| || pending.Some?)
      requires Held(config, codec, rows, ordinal, row0, pending)
      ensures 0 < row <= |rows| && row == row0 + (if pending.Some? then 0 else 1)
      ensures message.Some? ==> codec.render(rows[row - 1], ordinal + row - 1) == message
                                && |message.value.key| <= 4096
                                && |message.value.key| + |message.value.value| <= config.maxMessageBytes
      ensures message.None? ==> Refused(config, codec, rows[row - 1], ordinal + row - 1)
      ensures Held(config, codec, rows, ordinal, row, message) && Held(config, codec, rows, ordinal, row, None)
    {
      if pending.Some? {
        return pending, row0;
      }
      row := row0 + 1;
      message := Row(rows[row0], ordinal + row0);
    }

    /** Fills one window, carrying over the message that would make it too large. */
    method Fill(rows: seq<RowData>, ordinal: nat, row0: nat, pending0: Option<P.Record>, ghost accounted: nat)
      returns (ok: bool, window: seq<P.Record>, row: nat, pending: Option<P.Record>)
      requires Valid() && row0 <= |rows| && (row0 < |rows| || pending0.Some?)
      requires row0 == accounted + (if pending0.Some? then 1 else 0)
      requires Held(config, codec, rows, ordinal, row0, pending0)
      modifies this, session
      ensures Valid() && report == old(report) && session.queued == old(session.queued)
      ensures old(cancelled) ==> cancelled
      ensures !cancelled ==> phase == old(phase)
      ensures ok ==> window != [] && P.WithinLimits(Limits(config), window)
      ensures ok ==> row <= |rows| && row == accounted + |window| + (if pending.Some? then 1 else 0)
      ensures ok ==> Held(config, codec, rows, ordinal, row, pending)
      ensures ok ==> Slice(codec, rows, ordinal, accounted, window)
      ensures !ok ==> 0 < row <= |rows| && Refused(config, codec, rows[row - 1], ordinal + row - 1)
      ensures ok && pending.Some? ==> P.TotalSize(window) + P.Size(pending.value) > config.queueMaxBytes
    {
      hide Held, Slice, Refused, P.WithinLimits, P.TotalSize, P.Size, Filling, ValidConfig;
      window, row, pending := [], row0, pending0;
      var bytes: nat := 0;
      FillStarts(config, codec, rows, ordinal, accounted, row, pending);
      ok := true;
      var more := true;
      while more && |window| < config.queueMaxMessages && (row < |rows| || pending.Some?)
        invariant Filling(config, codec, rows, ordinal, accounted, row, window, pending, bytes) && row <= |rows|
        invariant more && window != [] ==> pending.None?
        invariant window != [] && pending.Some? ==> P.TotalSize(window) + P.Size(pending.value) > config.queueMaxBytes
        invariant window == [] ==> more && (row < |rows| || pending.Some?)
        invariant report == old(report) && session.queued == old(session.queued) && (old(cancelled) ==> cancelled)
        invariant !cancelled ==> phase == old(phase)
        decreases if more then 1 else 0, |rows| - row, if pending.Some? then 1 else 0
      {
        FillParts(config, codec, rows, ordinal, accounted, row, window, pending, bytes);
        ghost var (row1, carried) := (row, pending);
        var message;
        message, row := Take(rows, ordinal, row, pending);
        pending := None;
        if message.None? {
          return false, window, row, pending;
        }
        var n := P.Size(message.value);
        if window != [] && bytes + n > config.queueMaxBytes {
          FillCarries(config, codec, rows, ordinal, accounted, row1, window, bytes, message.value);
          pending := message;
          more := false;
        } else {
          FillGrows(config, codec, rows, ordinal, accounted, row1, window, carried, bytes, row, message.value);
          bytes := bytes + n;
          window := window + [message.value];
          var stop, late := Interrupted();
          more := !stop;
        }
      }
      FillParts(config, codec, rows, ordinal, accounted, row, window, pending, bytes);
      QueueTakesOne(config);
    }

    /** `drained` is the result of waiting for the client's queue to empty; a cancel may arrive during the wait. */
    method Finish(drained: int) returns (rc: int)
      modifies this, session
      ensures report == old(report)
      ensures rc == 0 <==> old(phase) == Ready && phase == Finished
      ensures rc != 0 ==> rc == if cancelled then ECANCELED else if old(phase) == Ready then drained else EINVAL
      ensures old(phase) != Ready ==> phase == old(phase)
      ensures old(phase) == Ready ==> phase == if cancelled then Cancelled else if drained != 0 then Failed else Finished
    {
      if phase != Ready {
        return if cancelled then ECANCELED else EINVAL;
      }
      if cancelled {
        rc := Fail(ECANCELED);
        return;
      }
      Elsewhere();
      if drained != 0 {
        rc := Fail(drained);
        return;
      }
      phase := if cancelled then Cancelled else Finished;
      rc := if cancelled then ECANCELED else 0;
    }
  }

  /** A carried-over message is the encoding of the last row taken. */
  predicate Held(c: SinkConfig, codec: Codec, rows: seq<RowData>, base: nat, row: nat, pending: Option<P.Record>)
    requires row <= |rows|
  {
    pending.Some? ==> row > 0 && codec.render(rows[row - 1], base + row - 1) == pending && Sendable(c, pending.value)
  }

  /** What the result of a write says about how it ended; a cancel takes precedence in the number that is returned. */
  predicate EndsWith(c: SinkConfig, codec: Codec, rows: seq<RowData>, base: nat, cancelled: bool, rc: int, end: End) {
    match end
    case Complete => rc == if cancelled then ECANCELED else 0
    case WrongSchema => rc == if cancelled then ECANCELED else EINVAL
    case Stopped(late) => if cancelled then rc == ECANCELED else late && rc == ETIMEDOUT
    case RowRefused(row) => row < |rows| && Refused(c, codec, rows[row], base + row) && rc == if cancelled then ECANCELED else EINVAL
    case Undelivered(code) => code != 0 && rc == if cancelled then ECANCELED else code
  }

  /** The row has no message within the limits. */
  predicate Refused(c: SinkConfig, codec: Codec, row: RowData, ordinal: nat) {
    var m := codec.render(row, ordinal);
    m.Some? ==> |m.value.key| > 4096 || |m.value.key| + |m.value.value| > c.maxMessageBytes
  }

  /** The window holds the messages of the rows from `from` on, in order. */
  predicate Slice(codec: Codec, rows: seq<RowData>, base: nat, from: nat, window: seq<P.Record>) {
    && from + |window| <= |rows|
    && forall i | 0 <= i < |window| :: codec.render(rows[from + i], base + from + i) == Some(window[i])
  }

  /** A window being filled: `accounted` rows came before it, and `pending` is the message after it, if already encoded. */
  predicate Filling(c: SinkConfig, codec: Codec, rows: seq<RowData>, base: nat, accounted: nat, row: nat,
                    window: seq<P.Record>, pending: Option<P.Record>, bytes: nat)
  {
    && row <= |rows| && row == accounted + |window| + (if pending.Some? then 1 else 0)
    && Held(c, codec, rows, base, row, pending) && Slice(codec, rows, base, accounted, window)
    && bytes == P.TotalSize(window) && P.WithinLimits(Limits(c), window)
  }

  lemma FillStarts(c: SinkConfig, codec: Codec, rows: seq<RowData>, base: nat, accounted: nat, row: nat, pending: Option<P.Record>)
    requires row <= |rows| && row == accounted + (if pending.Some? then 1 else 0) && Held(c, codec, rows, base, row, pending)
    ensures Filling(c, codec, rows, base, accounted, row, [], pending, 0)
  {
  }

  lemma FillParts(c: SinkConfig, codec: Codec, rows: seq<RowData>, base: nat, accounted: nat, row: nat,
                  window: seq<P.Record>, pending: Option<P.Record>, bytes: nat)
    requires Filling(c, codec, rows, base, accounted, row, window, pending, bytes)
    ensures row <= |rows| && row == accounted + |window| + (if pending.Some? then 1 else 0)
    ensures Held(c, codec, rows, base, row, pending) && Slice(codec, rows, base, accounted, window)
    ensures P.WithinLimits(Limits(c), window)
  {
    hide Held, Slice, P.WithinLimits, P.TotalSize;
  }

  lemma FillGrows(c: SinkConfig, codec: Codec, rows: seq<RowData>, base: nat, accounted: nat, row: nat,
                  window: seq<P.Record>, pending: Option<P.Record>, bytes: nat, next: nat, m: P.Record)
    requires ValidConfig(c) && Filling(c, codec, rows, base, accounted, row, window, pending, bytes)
    requires next == row + (if pending.Some? then 0 else 1) && 0 < next <= |rows| && |window| < c.queueMaxMessages
    requires codec.render(rows[next - 1], base + next - 1) == Some(m) && Sendable(c, m)
    requires window == [] || bytes + P.Size(m) <= c.queueMaxBytes
    ensures Filling(c, codec, rows, base, accounted, next, window + [m], None, bytes + P.Size(m))
  {
    hide Slice, P.WithinLimits, P.TotalSize, P.Size, ValidConfig;
    ExtendWindow(c, codec, rows, base, accounted, window, m);
  }

  lemma FillCarries(c: SinkConfig, codec: Codec, rows: seq<RowData>, base: nat, accounted: nat, row: nat,
                    window: seq<P.Record>, bytes: nat, m: P.Record)
    requires Filling(c, codec, rows, base, accounted, row, window, None, bytes) && row < |rows|
    requires codec.render(rows[row], base + row) == Some(m) && Sendable(c, m)
    ensures Filling(c, codec, rows, base, accounted, row + 1, window, Some(m), bytes) && bytes == P.TotalSize(window)
  {
    hide Slice, P.WithinLimits, P.TotalSize;
  }

  lemma QueueTakesOne(c: SinkConfig)
    requires ValidConfig(c)
    ensures c.queueMaxMessages > 0
  {
  }

  lemma ExtendWindow(c: SinkConfig, codec: Codec, rows: seq<RowData>, base: nat, from: nat, window: seq<P.Record>, m: P.Record)
    requires ValidConfig(c) && Slice(codec, rows, base, from, window) && from + |window| < |rows|
    requires codec.render(rows[from + |window|], base + from + |window|) == Some(m) && Sendable(c, m)
    requires P.WithinLimits(Limits(c), window) && |window| < c.queueMaxMessages
    requires window == [] || P.TotalSize(window) + P.Size(m) <= c.queueMaxBytes
    ensures Slice(codec, rows, base, from, window + [m])
    ensures P.WithinLimits(Limits(c), window + [m]) && P.TotalSize(window + [m]) == P.TotalSize(window) + P.Size(m)
  {
    hide Slice, P.WithinLimits;
    SliceSnoc(codec, rows, base, from, window, m);
    P.LimitsSnoc(Limits(c), window, m);
  }

  /** Every message that the codec lets through can be produced in a window of its own, so a carried-over one is never stuck. */
  lemma AloneFits(c: SinkConfig, m: P.Record)
    requires ValidConfig(c) && |m.key| <= 4096 && |m.key| + |m.value| <= c.maxMessageBytes
    ensures P.WithinLimits(Limits(c), [m])
  {
    P.LimitsSnoc(Limits(c), [], m);
    assert [] + [m] == [m];
  }

  lemma SliceSnoc(codec: Codec, rows: seq<RowData>, base: nat, from: nat, window: seq<P.Record>, m: P.Record)
    requires Slice(codec, rows, base, from, window) && from + |window| < |rows|
    requires codec.render(rows[from + |window|], base + from + |window|) == Some(m)
    ensures Slice(codec, rows, base, from, window + [m])
  {
  }

  /** Windows one after another hold the messages of the rows in order. */
  lemma RenderedOn(codec: Codec, rows: seq<RowData>, base: nat, front: seq<P.Record>, window: seq<P.Record>)
    requires Rendered(codec, rows, base, front) && Slice(codec, rows, base, |front|, window)
    ensures Rendered(codec, rows, base, front + window)
  {
    var all := front + window;
    forall i | 0 <= i < |all| ensures codec.render(rows[i], base + i) == Some(all[i]) {
      if i >= |front| {
        var j := i - |front|;
        assert codec.render(rows[|front| + j], base + |front| + j) == Some(window[j]);
      }
    }
  }

  lemma FlattenSnoc<T>(windows: seq<seq<T>>, window: seq<T>)
    ensures Flatten(windows + [window]) == Flatten(windows) + window
  {
    assert (windows + [window])[..|windows|] == windows;
  }

  lemma AllWithinSnoc(c: SinkConfig, windows: seq<seq<P.Record>>, window: seq<P.Record>)
    requires AllWithin(c, windows) && window != [] && P.WithinLimits(Limits(c), window)
    ensures AllWithin(c, windows + [window])
  {
    hide P.WithinLimits;
  }

  /** The queue took the windows' messages in order, up to some point. */
  predicate QueuedSome(queue: seq<P.Record>, windows: seq<seq<P.Record>>, queued: seq<P.Record>) {
    exists k :: 0 <= k <= |Flatten(windows)| && queued == queue + Flatten(windows)[..k]
  }

  lemma FullPrefix(windows: seq<seq<P.Record>>)
    ensures forall queue :: QueuedSome(queue, windows, queue + Flatten(windows))
  {
    forall queue ensures QueuedSome(queue, windows, queue + Flatten(windows)) {
      assert Flatten(windows)[..|Flatten(windows)|] == Flatten(windows);
    }
  }

  lemma FlattenNil(c: SinkConfig, codec: Codec, rows: seq<RowData>, base: nat)
    ensures Flatten<P.Record>([]) == [] && AllWithin(c, []) && Rendered(codec, rows, base, Flatten([]))
    ensures forall queue :: QueuedSome(queue, [], queue) && queue + Flatten([]) == queue
  {
    forall queue ensures QueuedSome(queue, [], queue) && queue + Flatten([]) == queue {
      assert queue == queue + Flatten([])[..0];
    }
  }

  lemma Explained(c: SinkConfig, codec: Codec, rows: seq<RowData>, base: nat, windows: seq<seq<P.Record>>)
    requires AllWithin(c, windows) && Rendered(codec, rows, base, Flatten(windows))
    ensures forall w | w in windows ::
              && w != [] && |w| <= c.queueMaxMessages && P.TotalSize(w) <= c.queueMaxBytes
              && forall m | m in w :: |m.key| <= 4096 && |m.key| + |m.value| <= c.maxMessageBytes
    ensures |Flatten(windows)| <= |rows|
    ensures forall i | 0 <= i < |Flatten(windows)| :: codec.render(rows[i], base + i) == Some(Flatten(windows)[i])
  {
    hide Flatten;
  }

  lemma HeldNone(c: SinkConfig, codec: Codec, rows: seq<RowData>, base: nat, row: nat)
    requires row <= |rows|
    ensures Held(c, codec, rows, base, row, None)
  {
  }

  lemma QueuedAll(queue: seq<P.Record>, before: seq<seq<P.Record>>, window: seq<P.Record>)
    ensures queue + Flatten(before + [window]) == queue + Flatten(before) + window
  {
    FlattenSnoc(before, window);
    Assoc(queue, Flatten(before), window);
  }

  lemma QueuedPrefix(queue: seq<P.Record>, before: seq<seq<P.Record>>, window: seq<P.Record>, k: nat, queued: seq<P.Record>)
    requires k <= |window| && queued == queue + Flatten(before) + window[..k]
    ensures QueuedSome(queue, before + [window], queued)
  {
    FlattenSnoc(before, window);
    var j := |Flatten(before)| + k;
    assert Flatten(before + [window])[..j] == Flatten(before) + window[..k];
    Assoc(queue, Flatten(before), window[..k]);
  }

  /**
   * Ordinals continue without gaps: if each batch was rendered from the number of
   * rows before it on, all messages of all batches are numbered one after another.
   */
  lemma {:induction false} OrdinalsContinue(codec: Codec, batches: seq<seq<RowData>>, sent: seq<seq<P.Record>>, base: nat)
    requires |batches| == |sent|
    requires forall k | 0 <= k < |batches| ::
               && |sent[k]| == |batches[k]|
               && forall i | 0 <= i < |sent[k]| ::
                    codec.render(batches[k][i], base + |Flatten(batches[..k])| + i) == Some(sent[k][i])
    ensures |Flatten(sent)| == |Flatten(batches)|
    ensures forall i | 0 <= i < |Flatten(sent)| :: codec.render(Flatten(batches)[i], base + i) == Some(Flatten(sent)[i])
  {
    if batches != [] {
      var n := |batches| - 1;
      forall k | 0 <= k < n ensures batches[..n][..k] == batches[..k] {
      }
      OrdinalsContinue(codec, batches[..n], sent[..n], base);
      assert Rendered(codec, batches[n], base + |Flatten(batches[..n])|, sent[n]);
      RenderedJoin(codec, Flatten(batches[..n]), batches[n], base, Flatten(sent[..n]), sent[n]);
    }
  }

  lemma RenderedJoin(codec: Codec, a: seq<RowData>, b: seq<RowData>, base: nat, x: seq<P.Record>, y: seq<P.Record>)
    requires |x| == |a| && Rendered(codec, a, base, x) && Rendered(codec, b, base + |a|, y)
    ensures Rendered(codec, a + b, base, x + y)
  {
    var (rows, all) := (a + b, x + y);
    forall i | 0 <= i < |all| ensures codec.render(rows[i], base + i) == Some(all[i]) {
      if i >= |a| {
        var j := i - |a|;
        assert codec.render(b[j], base + |a| + j) == Some(y[j]);
      }
    }
  }
}
