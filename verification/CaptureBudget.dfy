/** How the capture backends divide a reader's buffer budget among their inputs. */
module CaptureBudget {
  import opened Bytes

  const MIB: nat := 1024 * 1024
  const SHARED_ENVELOPE: nat := 2 * MIB
  const MINIMUM_INPUT: nat := MIB
  const DESCRIPTOR_ENVELOPE: nat := 64 * 1024
  const FRAME: nat := 4096
  const BLOCK: nat := MIB
  const MAX_BLOCKS: nat := 0xFFFF_FFFF / BLOCK

  function Total(inputs: seq<nat>): nat {
    if inputs == [] then 0 else Total(inputs[..|inputs| - 1]) + inputs[|inputs| - 1]
  }

  /** What `ParseNetAdapterConfig` demands of the budget. */
  predicate Accepted(buffer: nat, interfaces: nat) {
    interfaces > 0 && buffer >= SHARED_ENVELOPE + interfaces * MINIMUM_INPUT
  }

  /** Each input has its minimum, and all of them with the shared envelope stay within the budget. */
  predicate WithinBudget(buffer: nat, inputs: seq<nat>) {
    (forall i | 0 <= i < |inputs| :: inputs[i] >= MINIMUM_INPUT) && Total(inputs) + SHARED_ENVELOPE <= buffer
  }

  lemma {:induction false} TotalBound(inputs: seq<nat>, each: nat)
    requires forall i | 0 <= i < |inputs| :: inputs[i] <= each
    ensures Total(inputs) <= |inputs| * each
  {
    if inputs != [] {
      var n := |inputs| - 1;
      TotalBound(inputs[..n], each);
      assert |inputs| * each == n * each + each;
    }
  }

  // ---- AF_XDP ----

  /** `frames` doubled once more, with its descriptors, is within one input's share. */
  predicate CanDouble(frames: nat, perInput: nat) {
    frames * 2 * FRAME + DESCRIPTOR_ENVELOPE <= perInput && frames < 1024
  }

  /** The largest of 256, 512 and 1024 frames that an input's share covers. */
  method Frames(perInput: nat) returns (frames: nat)
    requires perInput >= MINIMUM_INPUT + DESCRIPTOR_ENVELOPE
    ensures frames in {256, 512, 1024} && frames * FRAME + DESCRIPTOR_ENVELOPE <= perInput
    ensures forall more | more in {256, 512, 1024} && more * FRAME + DESCRIPTOR_ENVELOPE <= perInput :: more <= frames
    ensures frames < 1024 ==> 2 * frames * FRAME + DESCRIPTOR_ENVELOPE > perInput
  {
    frames := 256;
    while CanDouble(frames, perInput)
      invariant frames in {256, 512, 1024} && frames * FRAME + DESCRIPTOR_ENVELOPE <= perInput
      decreases 1024 - frames
    {
      frames := frames * 2;
    }
  }

  /** A share, taken as often as there are inputs, is within what the budget leaves beside the shared envelope. */
  lemma ShareFits(buffer: nat, inputs: nat, minimum: nat, perInput: nat)
    requires inputs > 0 && minimum >= MINIMUM_INPUT && inputs * minimum + SHARED_ENVELOPE <= buffer
    requires perInput == Max(inputs * minimum, buffer / 2) / inputs
    ensures perInput >= minimum && inputs * perInput <= Max(inputs * minimum, buffer / 2)
    ensures buffer >= 2 * SHARED_ENVELOPE ==> inputs * perInput + SHARED_ENVELOPE <= buffer
    ensures buffer < 2 * SHARED_ENVELOPE ==> inputs == 1 && perInput < 2 * MIB
  {
    var budget := Max(inputs * minimum, buffer / 2);
    assert inputs * (budget / inputs) <= budget;
    DivideAtLeast(budget, inputs, minimum);
    Product(inputs, minimum, inputs, MINIMUM_INPUT);
  }

  lemma Product(a: nat, b: nat, x: nat, y: nat)
    requires a >= x && b >= y
    ensures a * b >= x * y
  {
    assert a * b == x * y + x * (b - y) + (a - x) * b;
  }

  lemma DivideAtLeast(budget: nat, n: nat, minimum: nat)
    requires n > 0 && budget >= n * minimum
    ensures budget / n >= minimum
  {
    var q := budget / n;
    OneMore(n, q, minimum);
    assert budget == n * q + budget % n;
  }

  lemma OneMore(n: nat, q: nat, minimum: nat)
    ensures q < minimum ==> n * q + n <= n * minimum
  {
    if q < minimum {
      Product(n, minimum, n, q + 1);
    }
  }

  /** `queues` are the receive queues of each device, `descriptors` the mapped descriptor bytes of each input. */
  method OpenAfXdp(buffer: nat, queues: seq<nat>, descriptors: seq<nat>) returns (inputs: Option<seq<nat>>)
    requires Total(queues) > 0 && |descriptors| == Total(queues)
    ensures inputs.Some? <==>
      && buffer >= SHARED_ENVELOPE + Total(queues) * (MINIMUM_INPUT + DESCRIPTOR_ENVELOPE)
      && forall i | 0 <= i < |descriptors| :: descriptors[i] <= DESCRIPTOR_ENVELOPE
    ensures inputs.Some? ==> |inputs.value| == Total(queues) && WithinBudget(buffer, inputs.value)
    ensures inputs.Some? ==> exists frames :: UsesFrames(buffer, frames, descriptors, inputs.value)
  {
    var count := Sum(queues);
    var minimum := MINIMUM_INPUT + DESCRIPTOR_ENVELOPE;
    if buffer < SHARED_ENVELOPE || count > (buffer - SHARED_ENVELOPE) / minimum {
      TooSmall(buffer, count, minimum);
      return None;
    }
    LargeEnough(buffer, count, minimum);
    var perInput := Max(count * minimum, buffer / 2) / count;
    ShareFits(buffer, count, minimum, perInput);
    var frames := Frames(perInput);
    inputs := SizeInputs(frames, descriptors);
    if inputs.Some? {
      TotalBound(inputs.value, frames * FRAME + DESCRIPTOR_ENVELOPE);
      XdpWithin(buffer, count, minimum, perInput, frames, Total(inputs.value));
      FramesLargest(buffer, count, perInput, frames);
      assert UsesFrames(buffer, frames, descriptors, inputs.value);
    }
  }

  method Sum(counts: seq<nat>) returns (total: nat)
    ensures total == Total(counts)
  {
    total := 0;
    for i := 0 to |counts|
      invariant total == Total(counts[..i])
    {
      assert counts[..i + 1][..i] == counts[..i];
      total := total + counts[i];
    }
    assert counts[..|counts|] == counts;
  }

  /** The buffers of the inputs, unless one's descriptors exceed what was reserved for them. */
  method SizeInputs(frames: nat, descriptors: seq<nat>) returns (inputs: Option<seq<nat>>)
    ensures inputs.Some? <==> forall i | 0 <= i < |descriptors| :: descriptors[i] <= DESCRIPTOR_ENVELOPE
    ensures inputs.Some? ==> |inputs.value| == |descriptors|
                             && forall i | 0 <= i < |descriptors| :: inputs.value[i] == frames * FRAME + descriptors[i]
  {
    var sizes: seq<nat> := [];
    for i := 0 to |descriptors|
      invariant |sizes| == i
      invariant forall j | 0 <= j < i :: descriptors[j] <= DESCRIPTOR_ENVELOPE && sizes[j] == frames * FRAME + descriptors[j]
    {
      if descriptors[i] > DESCRIPTOR_ENVELOPE {
        return None;
      }
      sizes := sizes + [frames * FRAME + descriptors[i]];
    }
    inputs := Some(sizes);
  }

  lemma FramesLargest(buffer: nat, count: nat, perInput: nat, frames: nat)
    requires count > 0 && perInput == Max(count * (MINIMUM_INPUT + DESCRIPTOR_ENVELOPE), buffer / 2) / count
    requires frames < 1024 ==> 2 * frames * FRAME + DESCRIPTOR_ENVELOPE > perInput
    ensures frames < 1024 ==> count * (2 * frames * FRAME + DESCRIPTOR_ENVELOPE)
                              > Max(count * (MINIMUM_INPUT + DESCRIPTOR_ENVELOPE), buffer / 2)
  {
    if frames < 1024 {
      OverShare(Max(count * (MINIMUM_INPUT + DESCRIPTOR_ENVELOPE), buffer / 2), count, 2 * frames * FRAME + DESCRIPTOR_ENVELOPE);
    }
  }

  /** Every input has the same frames, and twice as many for all would exceed half the budget and the least that is needed. */
  predicate UsesFrames(buffer: nat, frames: nat, descriptors: seq<nat>, inputs: seq<nat>) {
    && |inputs| == |descriptors| && frames in {256, 512, 1024}
    && (forall i | 0 <= i < |inputs| :: inputs[i] == frames * FRAME + descriptors[i])
    && (frames < 1024 ==>
          |inputs| * (2 * frames * FRAME + DESCRIPTOR_ENVELOPE)
          > Max(|inputs| * (MINIMUM_INPUT + DESCRIPTOR_ENVELOPE), buffer / 2))
  }

  lemma OverShare(budget: nat, n: nat, x: nat)
    requires n > 0 && x > budget / n
    ensures n * x > budget
  {
    Product(n, x, n, budget / n + 1);
    assert budget == n * (budget / n) + budget % n;
  }

  lemma TooSmall(buffer: nat, count: nat, minimum: nat)
    requires minimum > 0 && (buffer < SHARED_ENVELOPE || count > (buffer - SHARED_ENVELOPE) / minimum)
    ensures buffer < SHARED_ENVELOPE + count * minimum
  {
    if buffer >= SHARED_ENVELOPE {
      var room := buffer - SHARED_ENVELOPE;
      Product(count, minimum, room / minimum + 1, minimum);
      assert room == room / minimum * minimum + room % minimum;
    }
  }

  lemma LargeEnough(buffer: nat, count: nat, minimum: nat)
    requires minimum > 0 && buffer >= SHARED_ENVELOPE && count <= (buffer - SHARED_ENVELOPE) / minimum
    ensures buffer >= SHARED_ENVELOPE + count * minimum
  {
    var room := buffer - SHARED_ENVELOPE;
    Product(room / minimum, minimum, count, minimum);
    assert room == room / minimum * minimum + room % minimum;
  }

  lemma XdpWithin(buffer: nat, count: nat, minimum: nat, perInput: nat, frames: nat, total: nat)
    requires count > 0 && minimum == MINIMUM_INPUT + DESCRIPTOR_ENVELOPE && buffer >= SHARED_ENVELOPE + count * minimum
    requires perInput == Max(count * minimum, buffer / 2) / count
    requires frames in {256, 512, 1024} && frames * FRAME + DESCRIPTOR_ENVELOPE <= perInput
    requires total <= count * (frames * FRAME + DESCRIPTOR_ENVELOPE)
    ensures total + SHARED_ENVELOPE <= buffer
  {
    ShareFits(buffer, count, minimum, perInput);
    Product(count, perInput, count, frames * FRAME + DESCRIPTOR_ENVELOPE);
  }

  // ---- AF_PACKET ----

  method OpenAfPacket(buffer: nat, interfaces: nat) returns (inputs: Option<seq<nat>>)
    requires interfaces > 0
    ensures inputs.Some? <==> Accepted(buffer, interfaces)
    ensures inputs.Some? ==> |inputs.value| == interfaces && WithinBudget(buffer, inputs.value)
    ensures inputs.Some? ==> exists blocks :: UsesBlocks(buffer, blocks, inputs.value)
  {
    hide Max;
    if buffer < SHARED_ENVELOPE + interfaces * MINIMUM_INPUT {
      return None;
    }
    var share := Max(interfaces * MINIMUM_INPUT, buffer / 2) / interfaces;
    var blocks := if share / BLOCK < MAX_BLOCKS then share / BLOCK else MAX_BLOCKS;
    PacketWithin(buffer, interfaces, share, blocks);
    var sizes: seq<nat> := [];
    for i := 0 to interfaces
      invariant |sizes| == i && forall j | 0 <= j < i :: sizes[j] == blocks * BLOCK
    {
      sizes := sizes + [blocks * BLOCK];
    }
    TotalBound(sizes, blocks * BLOCK);
    if blocks < MAX_BLOCKS {
      OverShare(Max(interfaces * MINIMUM_INPUT, buffer / 2), interfaces, (blocks + 1) * BLOCK);
    }
    assert UsesBlocks(buffer, blocks, sizes);
    inputs := Some(sizes);
  }

  /** Every input has the same blocks, and one more for all would exceed half the budget and the least that is needed. */
  predicate UsesBlocks(buffer: nat, blocks: nat, inputs: seq<nat>) {
    && blocks <= MAX_BLOCKS && (forall i | 0 <= i < |inputs| :: inputs[i] == blocks * BLOCK)
    && (blocks < MAX_BLOCKS ==> |inputs| * ((blocks + 1) * BLOCK) > Max(|inputs| * MINIMUM_INPUT, buffer / 2))
  }

  lemma PacketWithin(buffer: nat, interfaces: nat, share: nat, blocks: nat)
    requires Accepted(buffer, interfaces) && share == Max(interfaces * MINIMUM_INPUT, buffer / 2) / interfaces
    requires blocks == if share / BLOCK < MAX_BLOCKS then share / BLOCK else MAX_BLOCKS
    ensures blocks >= 1 && interfaces * (blocks * BLOCK) + SHARED_ENVELOPE <= buffer
  {
    ShareFits(buffer, interfaces, MINIMUM_INPUT, share);
    assert BLOCK <= share && blocks * BLOCK <= share;
    Product(interfaces, share, interfaces, blocks * BLOCK);
  }

  // ---- CreateReader ----

  /** Sums the inputs and compares with the configured budget. */
  method CheckBudget(buffer: nat, inputs: seq<nat>) returns (ok: bool)
    ensures ok <==> Total(inputs) + SHARED_ENVELOPE <= buffer
  {
    var bytes := Sum(inputs);
    ok := bytes + SHARED_ENVELOPE <= buffer;
  }

  /** An accepted AF_PACKET configuration always opens within its budget. */
  method CreatePacketReader(buffer: nat, interfaces: nat) returns (ok: bool)
    requires Accepted(buffer, interfaces)
    ensures ok
  {
    var inputs := OpenAfPacket(buffer, interfaces);
    ok := CheckBudget(buffer, inputs.value);
  }

  /** Whatever opens on AF_XDP passes the budget comparison. */
  method CreateXdpReader(buffer: nat, queues: seq<nat>, descriptors: seq<nat>) returns (opens: bool, ok: bool)
    requires Total(queues) > 0 && |descriptors| == Total(queues)
    ensures opens ==> ok
    ensures opens <==> buffer >= SHARED_ENVELOPE + Total(queues) * (MINIMUM_INPUT + DESCRIPTOR_ENVELOPE)
                       && forall i | 0 <= i < |descriptors| :: descriptors[i] <= DESCRIPTOR_ENVELOPE
  {
    var inputs := OpenAfXdp(buffer, queues, descriptors);
    opens, ok := inputs.Some?, false;
    if opens {
      ok := CheckBudget(buffer, inputs.value);
    }
  }
}
