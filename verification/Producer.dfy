/**
 * One synchronous `Produce` call against delivery callbacks that run on
 * another thread.
 */
module Producer {
  import opened Bytes
  import opened Errno

  const MAX_KEY := 4096

  datatype Record = Record(key: seq<byte>, value: seq<byte>)

  datatype Delivery = Delivery(confirmed: nat, notSent: nat, unknown: nat)

  datatype Limits = Limits(maxMessageBytes: nat, queueMaxMessages: nat, queueMaxBytes: nat, timeout: nat)

  function Size(m: Record): nat {
    |m.key| + |m.value|
  }

  function TotalSize(messages: seq<Record>): nat {
    if messages == [] then 0 else TotalSize(messages[..|messages| - 1]) + Size(messages[|messages| - 1])
  }

  /** Every size limit that `Produce` enforces. */
  predicate WithinLimits(c: Limits, messages: seq<Record>) {
    && |messages| <= c.queueMaxMessages
    && (forall m | m in messages :: |m.key| <= MAX_KEY && Size(m) <= c.maxMessageBytes)
    && TotalSize(messages) <= c.queueMaxBytes
  }

  lemma {:induction false} TotalSizePrefix(messages: seq<Record>, k: nat)
    requires k <= |messages|
    ensures TotalSize(messages[..k]) <= TotalSize(messages)
    decreases |messages|
  {
    if k == |messages| {
      assert messages[..k] == messages;
    } else {
      TotalSizePrefix(messages[..|messages| - 1], k);
      assert messages[..|messages| - 1][..k] == messages[..k];
    }
  }

  lemma LimitsSnoc(c: Limits, messages: seq<Record>, m: Record)
    requires WithinLimits(c, messages) && |messages| < c.queueMaxMessages
    requires |m.key| <= MAX_KEY && Size(m) <= c.maxMessageBytes
    ensures TotalSize(messages + [m]) == TotalSize(messages) + Size(m)
    ensures TotalSize(messages) + Size(m) <= c.queueMaxBytes ==> WithinLimits(c, messages + [m])
  {
    assert (messages + [m])[..|messages|] == messages;
  }

  /** The size checks of `Produce`. */
  method CheckSizes(c: Limits, messages: seq<Record>) returns (ok: bool)
    requires |messages| <= c.queueMaxMessages
    ensures ok <==> WithinLimits(c, messages)
  {
    var bytes := 0;
    var i := 0;
    while i < |messages|
      invariant 0 <= i <= |messages|
      invariant bytes == TotalSize(messages[..i]) <= c.queueMaxBytes
      invariant forall j | 0 <= j < i :: |messages[j].key| <= MAX_KEY && Size(messages[j]) <= c.maxMessageBytes
    {
      var m := messages[i];
      assert messages[..i + 1][..i] == messages[..i];
      TotalSizePrefix(messages, i + 1);
      bytes := bytes + |m.key| + |m.value|;
      i := i + 1;
      if |m.key| > 4096 || |m.key| + |m.value| > c.maxMessageBytes || bytes > c.queueMaxBytes {
        assert m in messages;
        return false;
      }
    }
    assert messages[..i] == messages;
    return true;
  }

  /** What a caller may rely on after `Produce`, whatever the callbacks did. */
  predicate Accounted(total: nat, rc: int, d: Delivery) {
    && d.confirmed + d.notSent + d.unknown == total
    && (rc == 0 ==> d.confirmed == total)
  }

  /** What `Produce` takes: a timeout and messages within the limits. */
  predicate Admitted(c: Limits, messages: seq<Record>, timeout: nat) {
    0 < timeout <= c.timeout && WithinLimits(c, messages)
  }

  /** The shared counters; `tags` counts the accepted messages without a callback yet. */
  class Receipt {
    var completed: nat
    var confirmed: nat
    var closed: bool
    var error: bool
    var tags: nat
    ghost var accepted: nat

    ghost predicate Valid()
      reads this
    {
      && confirmed <= completed
      && (error <==> confirmed < completed)
      && completed + tags <= accepted
      && (!closed ==> completed + tags == accepted)
    }

    constructor ()
      ensures Valid() && !closed && !error && completed == confirmed == tags == accepted == 0
    {
      completed, confirmed, tags, accepted := 0, 0, 0, 0;
      closed, error := false, false;
    }

    /** A message entered the queue with its own tag. */
    method Accept()
      requires Valid() && !closed
      modifies this
      ensures Valid() && !closed && accepted == old(accepted) + 1 && tags == old(tags) + 1
      ensures completed == old(completed) && confirmed == old(confirmed) && error == old(error)
    {
      tags := tags + 1;
      accepted := accepted + 1;
    }

    /** The delivery callback consumes its tag; once the receipt is closed it changes nothing else. */
    method Delivered(failed: bool, inTime: bool)
      requires Valid() && tags > 0
      modifies this
      ensures Valid() && accepted == old(accepted) && closed == old(closed) && tags == old(tags) - 1
      ensures closed ==> completed == old(completed) && confirmed == old(confirmed) && error == old(error)
      ensures !closed ==> completed == old(completed) + 1
                          && confirmed == old(confirmed) + (if !failed && inTime then 1 else 0)
                          && error == (old(error) || failed || !inTime)
    {
      tags := tags - 1;
      if closed {
        return;
      }
      completed := completed + 1;
      if !failed && inTime {
        confirmed := confirmed + 1;
      } else {
        error := true;
      }
    }

    /** Any number of callbacks run here, with any outcome. */
    method Callbacks()
      requires Valid()
      modifies this
      ensures Valid() && accepted == old(accepted) && closed == old(closed)
      ensures closed ==> completed == old(completed) && confirmed == old(confirmed) && error == old(error)
    {
      var n: nat := *;
      while n > 0 && tags > 0
        invariant Valid() && accepted == old(accepted) && closed == old(closed)
        invariant closed ==> completed == old(completed) && confirmed == old(confirmed) && error == old(error)
        decreases tags
      {
        var failed: bool := *;
        var inTime: bool := *;
        Delivered(failed, inTime);
        n := n - 1;
      }
    }

    /** Closes the receipt and reads the final counts of a call that queued `sent` of `total` messages. */
    method Close(total: nat, sent: nat, rc: int) returns (result: int, out: Delivery)
      requires Valid() && !closed && sent == accepted <= total
      requires rc == 0 ==> accepted == total && completed == accepted
      modifies this
      ensures Valid() && closed && accepted == old(accepted)
      ensures completed == old(completed) && confirmed == old(confirmed) && error == old(error)
      ensures Accounted(total, result, out) && out.notSent == total - accepted && out.confirmed == confirmed
      ensures result == 0 <==> rc == 0 && !error
      ensures if rc != 0 then result == rc else result in {0, EIO}
    {
      closed := true;
      out := Delivery(confirmed, total - sent, sent - confirmed);
      result := if error && rc == 0 then EIO else rc;
    }
  }

  /** The part of a client session that `Produce` uses. */
  class ProducerSession {
    var cancelled: bool
    var failed: bool
    var authLost: bool
    /** Every message the client's queue has taken, in order. */
    var queued: seq<Record>
    const limits: Limits
    const packet: bool

    constructor (limits: Limits, packet: bool)
      ensures this.limits == limits && this.packet == packet && !cancelled && !failed && !authLost && queued == []
    {
      this.limits := limits;
      this.packet := packet;
      cancelled, failed, authLost := false, false, false;
      queued := [];
    }

    method Cancel()
      modifies this
      ensures cancelled && failed == old(failed) && authLost == old(authLost) && queued == old(queued)
    {
      cancelled := true;
    }

    /** Another thread may cancel, and a callback may report lost credentials, at any time. */
    method Environment()
      modifies this
      ensures old(cancelled) ==> cancelled
      ensures old(authLost) ==> authLost
      ensures failed == old(failed) && queued == old(queued)
    {
      var cancel: bool := *;
      var lost: bool := *;
      cancelled := cancelled || cancel;
      authLost := authLost || lost;
    }

    /**
     * Sends the messages and waits for their callbacks; `ticks` bounds the polls
     * before the deadline.
     */
    method Produce(messages: seq<Record>, timeout: nat, ticks: nat) returns (rc: int, out: Delivery, receipt: Receipt?)
      modifies this
      ensures Accounted(|messages|, rc, out)
      ensures receipt != null ==> fresh(receipt) && receipt.Valid() && receipt.closed
      ensures receipt == null ==> rc != 0 && out == Delivery(0, |messages|, 0) && (old(failed) ==> failed)
      ensures receipt != null ==> Admitted(limits, messages, timeout) && failed == (rc != 0)
      ensures receipt == null && !old(cancelled) && !old(failed) && Admitted(limits, messages, timeout) ==> packet && failed
      ensures old(cancelled) ==> cancelled && receipt == null && rc == ECANCELED
      ensures !old(cancelled) && old(failed) ==> receipt == null && rc == EINVAL
      ensures receipt != null ==> rc in {0, ECANCELED, ETIMEDOUT, EACCES, EIO}
      ensures receipt != null ==> (rc == ECANCELED ==> cancelled) && (rc == EACCES ==> authLost)
      ensures queued == old(queued) + messages[..|messages| - out.notSent]
    {
      hide WithinLimits, Admitted;
      out := Delivery(0, |messages|, 0);
      receipt := null;
      assert messages[..0] == [];
      rc := Screen(messages, timeout);
      if rc != 0 {
        return;
      }
      var shared := new Receipt();
      var left, sent;
      rc, left, sent := SendAll(shared, messages, ticks);
      if rc == 0 {
        rc := Wait(shared, sent, left);
      }
      rc, out := shared.Close(|messages|, sent, rc);
      shared.Callbacks();
      receipt := shared;
      if rc != 0 {
        failed := true;
        shared.Callbacks();
      }
    }

    /** The checks made before anything is queued. */
    method Screen(messages: seq<Record>, timeout: nat) returns (rc: int)
      modifies this`failed
      ensures rc == 0 ==> Admitted(limits, messages, timeout) && !cancelled && !failed
      ensures cancelled ==> rc == ECANCELED
      ensures !cancelled && (old(failed) || !(0 < timeout <= limits.timeout) || |messages| > limits.queueMaxMessages) ==> rc == EINVAL
      ensures !cancelled && !old(failed) && 0 < timeout <= limits.timeout && |messages| <= limits.queueMaxMessages ==>
                !WithinLimits(limits, messages) ==> rc == EMSGSIZE
      ensures failed == (old(failed) || (rc != 0 && !cancelled && packet && Admitted(limits, messages, timeout)))
      ensures rc != 0 && !cancelled && !old(failed) && !packet ==> !Admitted(limits, messages, timeout)
    {
      if cancelled {
        return ECANCELED;
      }
      if failed || timeout == 0 || timeout > limits.timeout || |messages| > limits.queueMaxMessages {
        return EINVAL;
      }
      var sized := CheckSizes(limits, messages);
      if !sized {
        return EMSGSIZE;
      }
      rc := 0;
      if packet {
        rc := *;
        failed := rc != 0;
      }
    }

    /** Offers each message until the queue takes it. */
    method SendAll(shared: Receipt, messages: seq<Record>, ticks: nat) returns (rc: int, left: nat, sent: nat)
      requires shared.Valid() && !shared.closed && shared.accepted == 0
      modifies this, shared
      ensures shared.Valid() && !shared.closed && shared.accepted == sent <= |messages|
      ensures rc == 0 ==> sent == |messages|
      ensures rc in {0, ECANCELED, ETIMEDOUT, EACCES, EIO} && (rc == ECANCELED ==> cancelled) && (rc == EACCES ==> authLost)
      ensures (rc == ETIMEDOUT ==> left == 0) && (old(authLost) ==> authLost)
      ensures queued == old(queued) + messages[..sent]
      ensures failed == old(failed) && (old(cancelled) ==> cancelled)
    {
      left, sent := ticks, 0;
      while sent < |messages|
        invariant 0 <= sent <= |messages|
        invariant shared.Valid() && !shared.closed && shared.accepted == sent
        invariant queued == old(queued) + messages[..sent]
        invariant failed == old(failed) && (old(cancelled) ==> cancelled) && (old(authLost) ==> authLost)
      {
        var taken := false;
        while !taken
          invariant shared.Valid() && !shared.closed && shared.accepted == if taken then sent + 1 else sent
          invariant queued == old(queued) + messages[..if taken then sent + 1 else sent]
          invariant failed == old(failed) && (old(cancelled) ==> cancelled) && (old(authLost) ==> authLost)
          decreases if taken then 0 else 1, left
        {
          Environment();
          if cancelled || left == 0 {
            return if cancelled then ECANCELED else ETIMEDOUT, left, sent;
          }
          if authLost {
            return EACCES, left, sent;
          }
          var accepted: bool := *;
          var full: bool := *;
          if accepted {
            shared.Accept();
            queued := queued + [messages[sent]];
            taken := true;
          } else if !full {
            return EIO, left, sent;
          } else {
            shared.Callbacks();
            left := left - 1;
          }
        }
        shared.Callbacks();
        sent := sent + 1;
      }
      rc := 0;
    }

    /** Waits until every accepted message has had its callback. */
    method Wait(shared: Receipt, sent: nat, ticks: nat) returns (rc: int)
      requires shared.Valid() && !shared.closed && shared.accepted == sent
      modifies this, shared
      ensures shared.Valid() && !shared.closed && shared.accepted == old(shared.accepted)
      ensures rc == 0 ==> shared.completed == shared.accepted && !shared.error
      ensures rc in {0, ECANCELED, ETIMEDOUT, EIO} && (rc == EIO ==> shared.error) && (rc == ECANCELED ==> cancelled)
      ensures queued == old(queued)
      ensures failed == old(failed) && (old(cancelled) ==> cancelled)
    {
      var left := ticks;
      while true
        invariant shared.Valid() && !shared.closed && shared.accepted == old(shared.accepted)
        invariant queued == old(queued)
        invariant failed == old(failed) && (old(cancelled) ==> cancelled)
        decreases left
      {
        shared.Callbacks();
        if shared.error {
          return EIO;
        }
        if shared.completed == sent {
          return 0;
        }
        Environment();
        if cancelled || left == 0 {
          return if cancelled then ECANCELED else ETIMEDOUT;
        }
        shared.Callbacks();
        left := left - 1;
      }
    }
  }
}
