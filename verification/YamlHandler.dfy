/** The event-driven YAML checker against a recursive definition on node trees. */
module YamlHandler {
  import opened Bytes

  const MAX_DEPTH: nat := 64

  /** A YAML node; `anchored` says that it carries an anchor. */
  datatype Node =
    | Null(anchored: bool)
    | Scalar(tag: string, anchored: bool, text: string)
    | Sequence(tag: string, anchored: bool, items: seq<Node>)
    | Mapping(tag: string, anchored: bool, entries: seq<Entry>)
    | Alias

  datatype Entry = Entry(key: Node, value: Node)

  const STANDARD_TAG := "tag:yaml.org,2002:"

  /** No tag of its own, or one of the standard types. */
  predicate SafeTag(tag: string) {
    || tag in {"", "?", "!"}
    || (STANDARD_TAG <= tag && tag[|STANDARD_TAG|..] in
          {"null", "bool", "int", "float", "str", "seq", "map", "timestamp", "binary", "set", "omap", "pairs"})
  }

  const KINDS := {"null", "bool", "int", "float", "str", "seq", "map", "timestamp", "binary", "set", "omap", "pairs"}

  /** The list of the source. */
  const SAFE_TAGS := {"", "?", "!"} + set kind | kind in KINDS :: STANDARD_TAG + kind

  /** It has exactly the safe tags. */
  lemma TagsListed(tag: string)
    ensures tag in SAFE_TAGS <==> SafeTag(tag)
  {
    if STANDARD_TAG <= tag {
      assert tag == STANDARD_TAG + tag[|STANDARD_TAG|..];
    }
  }

  // ---- The recursive definition ----

  function Size(n: Node): nat {
    match n
    case Sequence(_, _, items) => 1 + ItemsSize(items)
    case Mapping(_, _, entries) => 1 + EntriesSize(entries)
    case _ => 1
  }

  function ItemsSize(items: seq<Node>): nat {
    if items == [] then 0 else Size(items[0]) + 1 + ItemsSize(items[1..])
  }

  function EntriesSize(entries: seq<Entry>): nat {
    if entries == [] then 0 else EntrySize(entries[0]) + 1 + EntriesSize(entries[1..])
  }

  function EntrySize(e: Entry): (r: nat)
    ensures r >= Size(e.key) && r >= Size(e.value)
  {
    Size(e.key) + Size(e.value)
  }

  /** How deep containers nest. */
  function Nesting(n: Node): nat
    decreases Size(n)
  {
    match n
    case Sequence(_, _, items) => 1 + ItemsNesting(items)
    case Mapping(_, _, entries) => 1 + EntriesNesting(entries)
    case _ => 0
  }

  function ItemsNesting(items: seq<Node>): nat
    decreases ItemsSize(items)
  {
    if items == [] then 0 else Max(Nesting(items[0]), ItemsNesting(items[1..]))
  }

  function EntriesNesting(entries: seq<Entry>): nat
    decreases EntriesSize(entries)
  {
    if entries == [] then 0
    else Max(Max(Nesting(entries[0].key), Nesting(entries[0].value)), EntriesNesting(entries[1..]))
  }

  predicate ScalarNode(n: Node) {
    n.Null? || n.Scalar?
  }

  function KeyText(n: Node): string
    requires ScalarNode(n)
  {
    if n.Null? then "null" else n.text
  }

  /** No alias, anchor or unsafe tag anywhere, every mapping key a scalar, no key text twice in one mapping. */
  predicate Safe(n: Node)
    decreases Size(n)
  {
    match n
    case Null(anchored) => !anchored
    case Scalar(tag, anchored, _) => SafeTag(tag) && !anchored
    case Sequence(tag, anchored, items) => SafeTag(tag) && !anchored && AllSafe(items)
    case Mapping(tag, anchored, entries) => SafeTag(tag) && !anchored && EntriesSafe(entries) && DistinctKeys(entries)
    case Alias => false
  }

  predicate AllSafe(items: seq<Node>)
    decreases ItemsSize(items)
  {
    items != [] ==> Safe(items[0]) && AllSafe(items[1..])
  }

  predicate EntriesSafe(entries: seq<Entry>)
    decreases EntriesSize(entries)
  {
    entries != [] ==>
      ScalarNode(entries[0].key) && Safe(entries[0].key) && Safe(entries[0].value) && EntriesSafe(entries[1..])
  }

  predicate DistinctKeys(entries: seq<Entry>) {
    forall i, j | 0 <= i < j < |entries| && ScalarNode(entries[i].key) && ScalarNode(entries[j].key) ::
      KeyText(entries[i].key) != KeyText(entries[j].key)
  }

  // ---- The events of a tree ----

  datatype Event =
    | OnNull(anchored: bool)
    | OnScalar(tag: string, anchored: bool, text: string)
    | OnAlias
    | OnAnchor
    | OnStart(mapping: bool, tag: string, anchored: bool)
    | OnEnd

  function Anchors(anchored: bool): seq<Event> {
    if anchored then [OnAnchor] else []
  }

  function Events(n: Node): seq<Event>
    decreases Size(n)
  {
    match n
    case Null(anchored) => Anchors(anchored) + [OnNull(anchored)]
    case Scalar(tag, anchored, text) => Anchors(anchored) + [OnScalar(tag, anchored, text)]
    case Sequence(tag, anchored, items) => Anchors(anchored) + [OnStart(false, tag, anchored)] + ItemEvents(items) + [OnEnd]
    case Mapping(tag, anchored, entries) => Anchors(anchored) + [OnStart(true, tag, anchored)] + EntryEvents(entries) + [OnEnd]
    case Alias => [OnAlias]
  }

  function ItemEvents(items: seq<Node>): seq<Event>
    decreases ItemsSize(items)
  {
    if items == [] then [] else Events(items[0]) + ItemEvents(items[1..])
  }

  function EntryEvents(entries: seq<Entry>): seq<Event>
    decreases EntriesSize(entries)
  {
    if entries == [] then [] else Events(entries[0].key) + Events(entries[0].value) + EntryEvents(entries[1..])
  }

  // ---- The handler ----

  datatype Role = Root | KeyRole | ValueRole

  datatype Frame = Frame(mapping: bool, expectsKey: bool, parentRole: Role, keys: set<string>)

  /** `thrown` is set once the depth limit has been exceeded; the parser then stops. */
  datatype State = State(frames: seq<Frame>, failed: bool, thrown: bool)

  const START := State([], false, false)

  function Top(s: State): Frame
    requires s.frames != []
  {
    s.frames[|s.frames| - 1]
  }

  function WithTop(s: State, f: Frame): State
    requires s.frames != []
  {
    s.(frames := s.frames[|s.frames| - 1 := f])
  }

  function Begun(s: State, key: Option<string>): (State, Role) {
    if s.frames == [] then (s, Root)
    else if !Top(s).mapping || !Top(s).expectsKey then (s, ValueRole)
    else if key.None? then (WithTop(s, Top(s).(expectsKey := false)).(failed := true), KeyRole)
    else
      var next := Top(s).(expectsKey := false, keys := Top(s).keys + {key.value});
      (WithTop(s, next).(failed := s.failed || key.value in Top(s).keys), KeyRole)
  }

  function Completed(s: State, role: Role): State {
    if role == ValueRole && s.frames != [] && Top(s).mapping then WithTop(s, Top(s).(expectsKey := true)) else s
  }

  function Checked(s: State, tag: string, anchored: bool): State {
    s.(failed := s.failed || !SafeTag(tag) || anchored)
  }

  function ScalarStep(s: State, tag: string, anchored: bool, text: string): State {
    var (t, role) := Begun(Checked(s, tag, anchored), Some(text));
    Completed(t, role)
  }

  function StartStep(s: State, mapping: bool, tag: string, anchored: bool): State {
    var (t, role) := Begun(Checked(s, tag, anchored), None);
    if |t.frames| + 1 > MAX_DEPTH then t.(thrown := true)
    else t.(frames := t.frames + [Frame(mapping, mapping, role, {})])
  }

  function EndStep(s: State): State {
    if s.frames == [] then s.(failed := true)
    else Completed(s.(frames := s.frames[..|s.frames| - 1]), Top(s).parentRole)
  }

  function Step(s: State, e: Event): State {
    if s.thrown then s
    else
      match e
      case OnNull(anchored) => ScalarStep(s, "tag:yaml.org,2002:null", anchored, "null")
      case OnScalar(tag, anchored, text) => ScalarStep(s, tag, anchored, text)
      case OnAlias => s.(failed := true)
      case OnAnchor => s.(failed := true)
      case OnStart(mapping, tag, anchored) => StartStep(s, mapping, tag, anchored)
      case OnEnd => EndStep(s)
  }

  function Run(s: State, events: seq<Event>): State
    decreases |events|
  {
    if events == [] then s else Run(Step(s, events[0]), events[1..])
  }

  class SafeYamlHandler {
    var frames: seq<Frame>
    var failed: bool
    var thrown: bool

    function View(): State
      reads this
    {
      State(frames, failed, thrown)
    }

    constructor ()
      ensures View() == START
    {
      frames, failed, thrown := [], false, false;
    }

    method Fail()
      modifies this`failed
      ensures failed
    {
      failed := true;
    }

    /** `key` is `None` for a node that cannot be a mapping key. */
    method BeginNode(key: Option<string>) returns (role: Role)
      modifies this`frames, this`failed
      ensures (View(), role) == Begun(old(View()), key)
    {
      if frames == [] {
        return Root;
      }
      var last := |frames| - 1;
      var parent := frames[last];
      if !parent.mapping || !parent.expectsKey {
        return ValueRole;
      }
      if key.None? {
        Fail();
        frames := frames[last := parent.(expectsKey := false)];
        return KeyRole;
      }
      if key.value in parent.keys {
        Fail();
      }
      frames := frames[last := parent.(expectsKey := false, keys := parent.keys + {key.value})];
      role := KeyRole;
    }

    method CompleteNode(role: Role)
      modifies this`frames
      ensures View() == Completed(old(View()), role)
    {
      if role == ValueRole && frames != [] && frames[|frames| - 1].mapping {
        frames := frames[|frames| - 1 := frames[|frames| - 1].(expectsKey := true)];
      }
    }

    method CheckProperties(tag: string, anchored: bool)
      modifies this`failed
      ensures View() == Checked(old(View()), tag, anchored)
    {
      TagsListed(tag);
      if tag !in SAFE_TAGS {
        Fail();
      }
      if anchored {
        Fail();
      }
    }

    method HandleScalar(tag: string, anchored: bool, text: string)
      modifies this`frames, this`failed
      ensures View() == ScalarStep(old(View()), tag, anchored, text)
    {
      CheckProperties(tag, anchored);
      var role := BeginNode(Some(text));
      CompleteNode(role);
    }

    method StartContainer(mapping: bool, tag: string, anchored: bool)
      modifies this
      ensures View() == StartStep(old(View()), mapping, tag, anchored)
    {
      CheckProperties(tag, anchored);
      var role := BeginNode(None);
      if |frames| + 1 > MAX_DEPTH {
        thrown := true;
        return;
      }
      frames := frames + [Frame(mapping, mapping, role, {})];
    }

    method EndContainer()
      modifies this`frames, this`failed
      ensures View() == EndStep(old(View()))
    {
      if frames == [] {
        Fail();
        return;
      }
      var role := frames[|frames| - 1].parentRole;
      frames := frames[..|frames| - 1];
      CompleteNode(role);
    }

    /** The parser hands over events until a handler throws. */
    method Handle(events: seq<Event>)
      modifies this
      ensures View() == Run(old(View()), events)
    {
      hide ScalarStep, StartStep, EndStep, SafeTag;
      for i := 0 to |events|
        invariant Run(View(), events[i..]) == Run(old(View()), events)
      {
        if thrown {
          RunThrown(View(), events[i..]);
          return;
        }
        match events[i] {
          case OnNull(anchored) => HandleScalar("tag:yaml.org,2002:null", anchored, "null");
          case OnScalar(tag, anchored, text) => HandleScalar(tag, anchored, text);
          case OnAlias | OnAnchor => Fail();
          case OnStart(mapping, tag, anchored) => StartContainer(mapping, tag, anchored);
          case OnEnd => EndContainer();
        }
        assert events[i..][1..] == events[i + 1..];
      }
    }
  }

  lemma {:induction false} RunThrown(s: State, events: seq<Event>)
    requires s.thrown
    ensures Run(s, events) == s
    decreases |events|
  {
    if events != [] {
      RunThrown(s, events[1..]);
    }
  }

  lemma {:induction false} RunConcat(s: State, a: seq<Event>, b: seq<Event>)
    ensures Run(s, a + b) == Run(Run(s, a), b)
    decreases |a|
  {
    hide Step;
    if a == [] {
      assert a + b == b;
    } else {
      assert (a + b)[1..] == a[1..] + b;
      RunConcat(Step(s, a[0]), a[1..], b);
    }
  }

  // ---- The handler meets the definition ----

  /** The same stack, but for what the innermost frame has noted. */
  predicate SameShape(a: seq<Frame>, b: seq<Frame>) {
    && |a| == |b|
    && (a != [] ==>
          var n := |a| - 1;
          a[..n] == b[..n] && a[n].mapping == b[n].mapping && a[n].parentRole == b[n].parentRole)
  }

  /** Whether the innermost frame can take the node next. */
  predicate Fits(s: State, n: Node) {
    s.frames != [] && Top(s).mapping && Top(s).expectsKey ==> ScalarNode(n) && KeyText(n) !in Top(s).keys
  }

  /** The stack after a node that fits. */
  function Taken(s: State, n: Node): seq<Frame>
    requires Fits(s, n)
  {
    if s.frames == [] || !Top(s).mapping then s.frames
    else if Top(s).expectsKey then WithTop(s, Top(s).(expectsKey := false, keys := Top(s).keys + {KeyText(n)})).frames
    else WithTop(s, Top(s).(expectsKey := true)).frames
  }

  /** What running a node from `s` to `r` comes to. */
  predicate Outcome(s: State, n: Node, r: State) {
    && (r.thrown <==> |s.frames| + Nesting(n) > MAX_DEPTH)
    && (!r.thrown ==>
          && SameShape(s.frames, r.frames)
          && (!r.failed <==> !s.failed && Safe(n) && Fits(s, n))
          && (!r.failed ==> r.frames == Taken(s, n)))
  }

  predicate Running(s: State) {
    !s.thrown && |s.frames| <= MAX_DEPTH
  }

  lemma {:induction false} NodeRun(s: State, n: Node)
    requires Running(s)
    ensures Outcome(s, n, Run(s, Events(n)))
    decreases Size(n), 1
  {
    hide ScalarStep, StartStep, EndStep;
    match n {
      case Null(_) => ScalarRun(s, n, OnNull(n.anchored));
      case Scalar(_, _, _) => ScalarRun(s, n, OnScalar(n.tag, n.anchored, n.text));
      case Sequence(_, _, _) => SequenceRun(s, n);
      case Mapping(_, _, _) => MappingRun(s, n);
      case Alias => OneEvent(s, OnAlias);
    }
  }

  lemma OneEvent(s: State, e: Event)
    ensures Run(s, [e]) == Step(s, e)
  {
    hide Step;
    assert Run(Step(s, e), []) == Step(s, e);
  }

  lemma ScalarRun(s: State, n: Node, e: Event)
    requires Running(s) && ScalarNode(n)
    requires e == if n.Null? then OnNull(n.anchored) else OnScalar(n.tag, n.anchored, n.text)
    ensures Outcome(s, n, Run(s, Events(n)))
  {
    hide Outcome, Step;
    AnchorRun(s, n.anchored, [e]);
    OneEvent(s.(failed := s.failed || n.anchored), e);
    ScalarMeets(s, n, e);
  }

  lemma ScalarMeets(s: State, n: Node, e: Event)
    requires Running(s) && ScalarNode(n)
    requires e == if n.Null? then OnNull(n.anchored) else OnScalar(n.tag, n.anchored, n.text)
    ensures Outcome(s, n, Step(s.(failed := s.failed || n.anchored), e))
  {
    assert SafeTag("tag:yaml.org,2002:null");
    hide SafeTag;
  }

  /** The anchor event only marks the failure that the node's own event marks again. */
  lemma AnchorRun(s: State, anchored: bool, rest: seq<Event>)
    requires Running(s)
    ensures Run(s, Anchors(anchored) + rest) == Run(s.(failed := s.failed || anchored), rest)
  {
    hide Step;
    RunConcat(s, Anchors(anchored), rest);
    assert anchored ==> Step(s, OnAnchor) == s.(failed := true) by {
      AnchorStep(s);
    }
  }

  lemma AnchorStep(s: State)
    requires Running(s)
    ensures Step(s, OnAnchor) == s.(failed := true)
  {
  }

  /** Opening a container: what it notes in its parent, and whether it is too deep. */
  lemma Opening(s: State, mapping: bool, tag: string, anchored: bool, n: Node)
    requires Running(s) && (n.Sequence? || n.Mapping?)
    ensures var u := StartStep(s.(failed := s.failed || anchored), mapping, tag, anchored);
            && (u.thrown <==> |s.frames| + 1 > MAX_DEPTH)
            && (!u.thrown ==>
                  && |u.frames| == |s.frames| + 1 && Top(u).mapping == Top(u).expectsKey == mapping && Top(u).keys == {}
                  && (u.failed <==> s.failed || !SafeTag(tag) || anchored || !Fits(s, n)))
  {
    hide SafeTag;
  }

  lemma Closing(s: State, mapping: bool, tag: string, anchored: bool, n: Node, inner: State)
    requires Running(s) && (n.Sequence? || n.Mapping?) && |s.frames| < MAX_DEPTH
    requires var u := StartStep(s.(failed := s.failed || anchored), mapping, tag, anchored);
             SameShape(u.frames, inner.frames) && (u.failed ==> inner.failed) && !inner.thrown
    ensures var r := EndStep(inner);
            && !r.thrown && SameShape(s.frames, r.frames) && (r.failed <==> inner.failed)
            && (!inner.failed ==> Fits(s, n) && r.frames == Taken(s, n))
  {
    hide SafeTag;
    var before := Checked(s.(failed := s.failed || anchored), tag, anchored);
    var (t, role) := Begun(before, None);
    var u := StartStep(s.(failed := s.failed || anchored), mapping, tag, anchored);
    assert u.frames[..|u.frames| - 1] == t.frames;
    assert inner.frames[..|inner.frames| - 1] == t.frames && Top(inner).parentRole == role;
    assert EndStep(inner) == Completed(inner.(frames := t.frames), role);
    ContainerTaken(s, before, n, inner);
  }

  lemma ContainerTaken(s: State, before: State, n: Node, inner: State)
    requires (n.Sequence? || n.Mapping?) && before.frames == s.frames && !inner.thrown
    requires Begun(before, None).0.failed ==> inner.failed
    ensures var (t, role) := Begun(before, None);
            var r := Completed(inner.(frames := t.frames), role);
            && !r.thrown && SameShape(s.frames, r.frames) && (r.failed <==> inner.failed)
            && (!inner.failed ==> Fits(s, n) && r.frames == Taken(s, n))
  {
  }

  lemma {:induction false} ItemsRun(s: State, items: seq<Node>)
    requires Running(s) && s.frames != [] && !Top(s).mapping
    ensures var r := Run(s, ItemEvents(items));
            && (r.thrown <==> |s.frames| + ItemsNesting(items) > MAX_DEPTH)
            && (!r.thrown ==>
                  SameShape(s.frames, r.frames) && (!r.failed <==> !s.failed && AllSafe(items)) && (!r.failed ==> r.frames == s.frames))
    decreases ItemsSize(items), 0
  {
    hide Step, Events, Nesting, Safe;
    if items != [] {
      var first := Run(s, Events(items[0]));
      NodeRun(s, items[0]);
      RunConcat(s, Events(items[0]), ItemEvents(items[1..]));
      if first.thrown {
        RunThrown(first, ItemEvents(items[1..]));
      } else {
        ItemsRun(first, items[1..]);
      }
    }
  }

  /** The keys are new to `keys` and to each other. */
  predicate Fresh(keys: set<string>, entries: seq<Entry>)
    decreases |entries|
  {
    entries != [] && ScalarNode(entries[0].key) ==>
      KeyText(entries[0].key) !in keys && Fresh(keys + {KeyText(entries[0].key)}, entries[1..])
  }

  lemma {:induction false} FreshMeans(keys: set<string>, entries: seq<Entry>)
    requires forall e | e in entries :: ScalarNode(e.key)
    ensures Fresh(keys, entries) <==> DistinctKeys(entries) && NoneIn(keys, entries)
    decreases |entries|
  {
    hide KeyText;
    if entries != [] {
      var first, rest := entries[0], entries[1..];
      assert forall e | e in rest :: e in entries;
      assert first in entries;
      FreshMeans(keys + {KeyText(first.key)}, rest);
      DistinctFirst(entries);
      assert entries == [first] + rest;
      assert NoneIn(keys + {KeyText(first.key)}, rest) <==> NoneIn(keys, rest) && NoneIn({KeyText(first.key)}, rest);
      assert NoneIn(keys, entries) <==> KeyText(first.key) !in keys && NoneIn(keys, rest);
    }
  }

  predicate NoneIn(keys: set<string>, entries: seq<Entry>)
    requires forall e | e in entries :: ScalarNode(e.key)
  {
    forall e | e in entries :: KeyText(e.key) !in keys
  }

  lemma DistinctFirst(entries: seq<Entry>)
    requires entries != [] && forall e | e in entries :: ScalarNode(e.key)
    ensures forall e | e in entries[1..] :: ScalarNode(e.key)
    ensures DistinctKeys(entries) <==> DistinctKeys(entries[1..]) && NoneIn({KeyText(entries[0].key)}, entries[1..])
  {
    hide KeyText;
    var rest := entries[1..];
    assert forall e | e in rest :: e in entries;
    assert forall i | 0 <= i < |rest| :: rest[i] == entries[i + 1] && rest[i] in rest;
    if DistinctKeys(rest) && NoneIn({KeyText(entries[0].key)}, rest) {
      forall i, j | 0 <= i < j < |entries| && ScalarNode(entries[i].key) && ScalarNode(entries[j].key)
        ensures KeyText(entries[i].key) != KeyText(entries[j].key)
      {
        assert entries[j] == rest[j - 1];
        if i > 0 {
          assert entries[i] == rest[i - 1];
        }
      }
    }
  }

  lemma {:induction false} SafeKeysAreScalars(entries: seq<Entry>)
    requires EntriesSafe(entries)
    ensures forall e | e in entries :: ScalarNode(e.key)
  {
    if entries != [] {
      SafeKeysAreScalars(entries[1..]);
      assert forall e | e in entries :: e == entries[0] || e in entries[1..];
    }
  }

  lemma {:induction false} EntriesRun(s: State, entries: seq<Entry>)
    requires Running(s) && s.frames != [] && Top(s).mapping && (!s.failed ==> Top(s).expectsKey)
    ensures var r := Run(s, EntryEvents(entries));
            && (r.thrown <==> |s.frames| + EntriesNesting(entries) > MAX_DEPTH)
            && (!r.thrown ==>
                  && SameShape(s.frames, r.frames)
                  && (!r.failed <==> !s.failed && EntriesSafe(entries) && Fresh(Top(s).keys, entries)))
    decreases EntriesSize(entries), 0
  {
    hide Step, Events, Nesting, Safe;
    if entries != [] {
      var (key, value, rest) := (Events(entries[0].key), Events(entries[0].value), EntryEvents(entries[1..]));
      var first := Run(s, key);
      var second := Run(first, value);
      NodeRun(s, entries[0].key);
      RunConcat(s, key + value, rest);
      RunConcat(s, key, value);
      if first.thrown {
        RunThrown(first, value);
        RunThrown(first, rest);
      } else {
        NodeRun(first, entries[0].value);
        if second.thrown {
          RunThrown(second, rest);
        } else {
          EntryTaken(s, entries[0], first, second);
          EntriesRun(second, entries[1..]);
        }
      }
    }
  }

  /** A key and its value return the frame to expecting a key, with the key noted. */
  lemma EntryTaken(s: State, e: Entry, first: State, second: State)
    requires s.frames != [] && Top(s).mapping && (!s.failed ==> Top(s).expectsKey)
    requires !first.thrown && !second.thrown && Outcome(s, e.key, first) && Outcome(first, e.value, second)
    ensures second.frames != [] && Top(second).mapping && SameShape(s.frames, second.frames)
    ensures !second.failed ==>
      ScalarNode(e.key) && Top(second).expectsKey && Top(second).keys == Top(s).keys + {KeyText(e.key)}
    ensures !second.failed <==> !s.failed && ScalarNode(e.key) && Safe(e.key) && KeyText(e.key) !in Top(s).keys && Safe(e.value)
  {
    hide Safe, Nesting;
  }

  lemma {:induction false} SequenceRun(s: State, n: Node)
    requires Running(s) && n.Sequence?
    ensures Outcome(s, n, Run(s, Events(n)))
    decreases Size(n), 0
  {
    hide EndStep, StartStep, Taken, Fits, SafeTag, SameShape;
    var inside := ItemEvents(n.items);
    ContainerEvents(s, n, false, n.tag, inside);
    var u := StartStep(s.(failed := s.failed || n.anchored), false, n.tag, n.anchored);
    Opening(s, false, n.tag, n.anchored, n);
    if u.thrown {
      RunThrown(u, inside + [OnEnd]);
    } else {
      RunConcat(u, inside, [OnEnd]);
      ItemsRun(u, n.items);
      var inner := Run(u, inside);
      if inner.thrown {
        RunThrown(inner, [OnEnd]);
      } else {
        Closing(s, false, n.tag, n.anchored, n, inner);
        OneEvent(inner, OnEnd);
      }
    }
  }

  lemma {:induction false} MappingRun(s: State, n: Node)
    requires Running(s) && n.Mapping?
    ensures Outcome(s, n, Run(s, Events(n)))
    decreases Size(n), 0
  {
    hide EndStep, StartStep, Taken, Fits, SafeTag, SameShape;
    var inside := EntryEvents(n.entries);
    ContainerEvents(s, n, true, n.tag, inside);
    var u := StartStep(s.(failed := s.failed || n.anchored), true, n.tag, n.anchored);
    Opening(s, true, n.tag, n.anchored, n);
    if u.thrown {
      RunThrown(u, inside + [OnEnd]);
    } else {
      RunConcat(u, inside, [OnEnd]);
      EntriesRun(u, n.entries);
      if EntriesSafe(n.entries) {
        SafeKeysAreScalars(n.entries);
        FreshMeans({}, n.entries);
      }
      var inner := Run(u, inside);
      if inner.thrown {
        RunThrown(inner, [OnEnd]);
      } else {
        Closing(s, true, n.tag, n.anchored, n, inner);
        OneEvent(inner, OnEnd);
      }
    }
  }

  lemma ContainerEvents(s: State, n: Node, mapping: bool, tag: string, inside: seq<Event>)
    requires Running(s) && (n.Sequence? || n.Mapping?) && tag == n.tag
    requires Events(n) == Anchors(n.anchored) + [OnStart(mapping, tag, n.anchored)] + inside + [OnEnd]
    ensures Run(s, Events(n))
            == Run(StartStep(s.(failed := s.failed || n.anchored), mapping, tag, n.anchored), inside + [OnEnd])
  {
    hide StartStep, Events;
    var open := OnStart(mapping, tag, n.anchored);
    var rest := [open] + (inside + [OnEnd]);
    assert Events(n) == Anchors(n.anchored) + rest;
    AnchorRun(s, n.anchored, rest);
    assert rest[1..] == inside + [OnEnd];
  }

  /** A document: too deep, or else accepted exactly when it is safe; the stack is empty again. */
  lemma DocumentRun(n: Node)
    ensures var r := Run(START, Events(n));
            && (r.thrown <==> Nesting(n) > MAX_DEPTH)
            && (!r.thrown ==> r.frames == [] && (!r.failed <==> Safe(n)))
  {
    NodeRun(START, n);
  }

  /** Accepts exactly one document that is safe and nests within the limit. */
  method ValidateYaml(documents: seq<Node>) returns (ok: bool)
    ensures ok <==> |documents| == 1 && Nesting(documents[0]) <= MAX_DEPTH && Safe(documents[0])
  {
    if documents == [] {
      return false;
    }
    var handler := new SafeYamlHandler();
    handler.Handle(Events(documents[0]));
    DocumentRun(documents[0]);
    if handler.thrown {
      return false;
    }
    if |documents| > 1 {
      handler.Handle(Events(documents[1]));
      return false;
    }
    ok := !handler.failed;
  }
}
