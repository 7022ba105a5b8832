/** Recording an operator use: dictionaries, bindings and the use in one batch. */
module OperatorUse {
  import opened Bytes
  import opened SemanticsModel
  import opened SemanticsRegistry
  import opened SemanticsRuns

  /** An observed output: its dictionary, its snapshot, and the map from field ids to names. */
  datatype Observed = Observed(port: string, dictionary: Document, snapshot: Snapshot, fieldMap: map<string, string>, body: string)

  /** Names derived by hashing a dictionary and an object key. */
  datatype Names = Names(dictionary: Document -> string, binding: ObjectKey -> string)

  /** Under which name, and after which revision, a binding is to be written. */
  datatype Plan = Plan(name: string, expected: nat)

  predicate ProperOutputs(outputs: seq<Observed>) {
    forall o | o in outputs :: o.dictionary.DictionaryDoc?
  }

  function DictionaryRef(names: Names, o: Observed): Ref {
    Ref(Dictionary, names.dictionary(o.dictionary), 1)
  }

  function BindingRef(p: Plan): Ref {
    Ref(Binding, p.name, p.expected + 1)
  }

  function BindingOf(names: Names, o: Observed): Document {
    BindingDoc(o.snapshot.objectKey, DictionaryRef(names, o), o.fieldMap, o.snapshot.fields, Some(o.snapshot),
               o.snapshot.revision, o.body)
  }

  function DictionaryWrite(names: Names, o: Observed): Request {
    Request(Dictionary, names.dictionary(o.dictionary), Some(o.dictionary), "", 0, 0, false)
  }

  function BindingWrite(names: Names, o: Observed, p: Plan): Request {
    Request(Binding, p.name, Some(BindingOf(names, o)), "", p.expected, 0, true)
  }

  /** The references that the use names: those of the request, then two for each observed output. */
  function UseLinks(names: Names, links: seq<Link>, outputs: seq<Observed>, plans: seq<Plan>, n: nat): seq<Link>
    requires n <= |outputs| && n <= |plans|
  {
    if n == 0 then links
    else
      UseLinks(names, links, outputs, plans, n - 1)
      + [Link(DictionaryRef(names, outputs[n - 1]), outputs[n - 1].port + "/dictionary_ref", map[]),
         Link(BindingRef(plans[n - 1]), outputs[n - 1].port + "/binding_ref", map[])]
  }

  ghost predicate Named(all: seq<Link>, r: Ref) {
    exists l | l in all :: l.target == r
  }

  lemma {:induction false} UseNames(names: Names, links: seq<Link>, outputs: seq<Observed>, plans: seq<Plan>, n: nat, i: nat)
    requires i < n <= |outputs| && n <= |plans|
    ensures Named(UseLinks(names, links, outputs, plans, n), DictionaryRef(names, outputs[i]))
    ensures Named(UseLinks(names, links, outputs, plans, n), BindingRef(plans[i]))
  {
    hide DictionaryRef, BindingRef, Named;
    var front := UseLinks(names, links, outputs, plans, n - 1);
    var d := Link(DictionaryRef(names, outputs[n - 1]), outputs[n - 1].port + "/dictionary_ref", map[]);
    var b := Link(BindingRef(plans[n - 1]), outputs[n - 1].port + "/binding_ref", map[]);
    NamedLast(front, d, b);
    if i < n - 1 {
      UseNames(names, links, outputs, plans, n - 1, i);
      NamedBefore(front, [d, b], DictionaryRef(names, outputs[i]));
      NamedBefore(front, [d, b], BindingRef(plans[i]));
    }
  }

  lemma NamedLast(front: seq<Link>, d: Link, b: Link)
    ensures Named(front + [d, b], d.target) && Named(front + [d, b], b.target)
  {
    assert d in front + [d, b] && b in front + [d, b];
  }

  lemma NamedBefore(front: seq<Link>, back: seq<Link>, r: Ref)
    requires Named(front, r)
    ensures Named(front + back, r)
  {
    var l :| l in front && l.target == r;
    assert l in front + back;
  }

  /** The plan made from a lookup in `t`: the owner of the object key, one revision back if it holds the content already. */
  ghost predicate PlanFor(t: Tables, b: Document, p: Plan) {
    && (forall r | r in t.revisions && Owner(t.revisions[r].document) == Owner(b) && r.revision == Current(t, KeyOf(r)) ::
          r.name == p.name && p.expected == (if t.revisions[r].document == b then r.revision - 1 else r.revision))
    && ((forall r | r in t.revisions :: Owner(t.revisions[r].document) != Owner(b)) ==> p.expected == 0)
  }

  predicate ProperRequests(requests: seq<Request>) {
    forall r | r in requests && r.document.Some? :: DocumentKind(r.document.value) == r.kind && Normalized(r.document.value)
  }

  /** Saves by others, between the steps of one recording. */
  method Others(registry: DataSemanticsRegistry, requests: seq<Request>)
    requires Inv(registry.tables) && ProperRequests(requests)
    modifies registry`tables
    ensures Inv(registry.tables) && Extends(old(registry.tables), registry.tables)
    ensures requests == [] ==> registry.tables == old(registry.tables)
  {
    hide Inv, Extends, SavedStep;
    ghost var t := registry.tables;
    ExtendsItself(t);
    for i := 0 to |requests|
      invariant Inv(registry.tables) && Extends(t, registry.tables)
      invariant requests == [] ==> registry.tables == t
    {
      ghost var u := registry.tables;
      assert requests[i] in requests;
      var o := registry.Save(requests[i]);
      ExtendsOn(t, u, registry.tables);
    }
  }

  /** The plan for one output: the owner of the object key and its current revision, or a new name. */
  method PlanBinding(registry: DataSemanticsRegistry, names: Names, o: Observed) returns (error: Option<Error>, p: Plan)
    requires Inv(registry.tables)
    ensures error.None? ==> PlanFor(registry.tables, BindingOf(names, o), p)
  {
    p := Plan(names.binding(o.snapshot.objectKey), 0);
    var missing, found := registry.BindingLookup(o.snapshot.objectKey);
    if missing.None? {
      var current := found.value.revision;
      var prior := registry.Read(found.value);
      var same := prior == Some(BindingOf(names, o));
      p := Plan(found.value.name, if same then current - 1 else current);
      OwnedAlone(registry.tables, found.value);
      error := None;
    } else {
      error := if missing == Some(NotFound) then None else missing;
    }
  }

  /** Two plans for the same binding expect the same revision. */
  lemma PlansAgree(t: Tables, b: Document, p: Plan, q: Plan)
    requires Inv(t) && b.BindingDoc? && PlanFor(t, b, p) && PlanFor(t, b, q)
    ensures p.expected == q.expected
  {
    if r :| r in t.revisions && Owner(t.revisions[r].document) == Owner(b) {
      var now := Ref(r.kind, r.name, Current(t, KeyOf(r)));
      assert Current(t, KeyOf(r)) > 0 by { StoredIsCounted(t, r); }
      CurrentStored(t, KeyOf(r));
      StoredOwner(t, r);
      assert KeyOf(now) == KeyOf(r) && Owner(t.revisions[now].document) == Owner(b);
    }
  }

  lemma StoredIsCounted(t: Tables, r: Ref)
    requires Inv(t) && r in t.revisions
    ensures 1 <= r.revision <= Current(t, KeyOf(r))
  {
  }

  lemma StoredOwner(t: Tables, r: Ref)
    requires Inv(t) && r in t.revisions
    ensures KeyOf(r) in t.objects && t.objects[KeyOf(r)].owner == Owner(t.revisions[r].document)
  {
  }

  lemma OwnedAlone(t: Tables, r: Ref)
    requires Inv(t) && r in t.revisions && Owner(t.revisions[r].document).Some?
    ensures forall x | x in t.revisions && Owner(t.revisions[x].document) == Owner(t.revisions[r].document) :: KeyOf(x) == KeyOf(r)
  {
    hide KindsMatch, AdjacentDiffer, JournalExact, Earlier, EdgesExact, LinksSound, ObservedExact;
    assert forall x | x in t.revisions :: KeyOf(x) in t.objects;
  }

  function Writes(names: Names, outputs: seq<Observed>, plans: seq<Plan>, n: nat): (r: seq<Request>)
    requires n <= |outputs| && n <= |plans|
    ensures |r| == 2 * n
    ensures forall i | 0 <= i < n :: r[2 * i] == DictionaryWrite(names, outputs[i]) && r[2 * i + 1] == BindingWrite(names, outputs[i], plans[i])
  {
    if n == 0 then []
    else
      Writes(names, outputs, plans, n - 1)
      + [DictionaryWrite(names, outputs[n - 1]), BindingWrite(names, outputs[n - 1], plans[n - 1])]
  }

  predicate Quiet(traffic: seq<seq<Request>>) {
    forall t | t in traffic :: t == []
  }

  /**
   * What stays true of a plan however others save: it expects no more than the
   * current revision, and if exactly that, the content to write is not current.
   */
  ghost predicate Bounded(t: Tables, b: Document, p: Plan) {
    var now := Ref(Binding, p.name, p.expected);
    && p.expected <= Current(t, KeyOf(now))
    && (p.expected == Current(t, KeyOf(now)) > 0 ==> now in t.revisions && t.revisions[now].document != b)
  }

  ghost predicate AllBounded(t: Tables, names: Names, outputs: seq<Observed>, plans: seq<Plan>, n: nat)
    requires n <= |outputs| && n <= |plans|
  {
    forall j | 0 <= j < n :: Bounded(t, BindingOf(names, outputs[j]), plans[j])
  }

  lemma PlanBounded(t: Tables, b: Document, p: Plan)
    requires Inv(t) && b.BindingDoc? && PlanFor(t, b, p)
    ensures Bounded(t, b, p)
  {
    if r :| r in t.revisions && Owner(t.revisions[r].document) == Owner(b) {
      var now := Ref(r.kind, r.name, Current(t, KeyOf(r)));
      StoredIsCounted(t, r);
      StoredIsKind(t, r);
      CurrentStored(t, KeyOf(r));
      StoredOwner(t, r);
      hide Inv;
      assert KeyOf(now) == KeyOf(r) && Owner(t.revisions[now].document) == Owner(b);
      assert p.name == now.name;
    }
  }

  lemma StoredIsKind(t: Tables, r: Ref)
    requires Inv(t) && r in t.revisions && t.revisions[r].document.BindingDoc?
    ensures r.kind == Binding
  {
  }

  lemma StaysBounded(t: Tables, u: Tables, b: Document, p: Plan)
    requires Inv(t) && Inv(u) && Extends(t, u) && Bounded(t, b, p)
    ensures Bounded(u, b, p)
  {
    var now := Ref(Binding, p.name, p.expected);
    hide KindsMatch, AdjacentDiffer, JournalExact, Earlier, EdgesExact, LinksSound, OwnersExact, ObservedExact;
    assert Current(t, KeyOf(now)) <= Current(u, KeyOf(now));
  }

  lemma AllStayBounded(t: Tables, u: Tables, names: Names, outputs: seq<Observed>, plans: seq<Plan>, n: nat)
    requires Inv(t) && Inv(u) && Extends(t, u) && n <= |outputs| && n <= |plans| && AllBounded(t, names, outputs, plans, n)
    ensures AllBounded(u, names, outputs, plans, n)
  {
    hide Inv, Extends, Bounded, BindingOf;
    forall j | 0 <= j < n ensures Bounded(u, BindingOf(names, outputs[j]), plans[j]) {
      StaysBounded(t, u, BindingOf(names, outputs[j]), plans[j]);
    }
  }

  lemma OneMoreBounded(t: Tables, names: Names, outputs: seq<Observed>, plans: seq<Plan>, p: Plan)
    requires Inv(t) && |plans| < |outputs| && AllBounded(t, names, outputs, plans, |plans|)
    requires PlanFor(t, BindingOf(names, outputs[|plans|]), p)
    ensures AllBounded(t, names, outputs, plans + [p], |plans| + 1)
  {
    hide Inv, Bounded, PlanFor;
    PlanBounded(t, BindingOf(names, outputs[|plans|]), p);
    hide BindingOf;
    forall j | 0 <= j < |plans| + 1 ensures Bounded(t, BindingOf(names, outputs[j]), (plans + [p])[j]) {
      if j < |plans| {
        assert (plans + [p])[j] == plans[j];
      }
    }
  }

  /**
   * Records a use. `traffic` lists what others save before each lookup and
   * before the batch. On success the use is stored and every reference it names
   * resolves; on failure the batch leaves nothing. Whatever others saved, `NamedWhen`
   * says exactly when each reference names what was observed, looking at the
   * tables before the batch; when no one interfered, all binding references do.
   */
  method RecordUse(registry: DataSemanticsRegistry, names: Names, name: string, expected: nat, links: seq<Link>,
                   outputs: seq<Observed>, body: string, traffic: seq<seq<Request>>)
    returns (error: Option<Error>, use: Option<Ref>, plans: seq<Plan>, ghost seen: Tables)
    requires Inv(registry.tables) && ProperOutputs(outputs)
    requires |traffic| == |outputs| + 1 && forall t | t in traffic :: ProperRequests(t)
    modifies registry`tables
    ensures Inv(registry.tables) && Extends(old(registry.tables), seen) && Extends(seen, registry.tables)
    ensures Quiet(traffic) ==> seen == old(registry.tables)
    ensures error.Some? ==> registry.tables == seen && use.None?
    ensures error.None? ==> |plans| == |outputs| && use.Some?
                            && Recorded(registry.tables, names, links, outputs, plans, body, use.value)
    ensures error.None? ==> UseKept(seen, registry.tables, name, expected, use.value)
    ensures error.None? ==> UseLists(registry.tables, names, links, outputs, plans, body, use.value)
    ensures expected != Current(seen, Key(OperatorUse, name)) && !CurrentUse(seen, name, body) ==>
              error.Some? && registry.tables == seen
    ensures error.None? ==> ObservationsStored(registry.tables, names, outputs)
    ensures error.None? ==> NamedWhen(seen, registry.tables, names, outputs, plans)
    ensures error.None? && Quiet(traffic) ==> BindingsNamed(registry.tables, names, outputs, plans)
  {
    hide Inv, Extends, PlanFor, UseLinks, Writes, BindingOf, Recorded, NamedWhen, BindingsNamed, AllBounded, UseKept, UseLists,
      ObservationsStored, CurrentUse;
    NothingBounded(registry.tables, names, outputs);
    plans, use := [], None;
    ghost var start, t := registry.tables, registry.tables;
    ExtendsItself(start);
    for i := 0 to |outputs|
      invariant Inv(registry.tables) && Extends(start, registry.tables) && |plans| == i
      invariant AllBounded(registry.tables, names, outputs, plans, i)
      invariant Quiet(traffic) ==> registry.tables == start && Planned(start, names, outputs, plans, i)
    {
      t := registry.tables;
      assert traffic[i] in traffic;
      Others(registry, traffic[i]);
      ExtendsOn(start, t, registry.tables);
      AllStayBounded(t, registry.tables, names, outputs, plans, i);
      var p;
      error, p := PlanBinding(registry, names, outputs[i]);
      if error.Some? {
        seen := registry.tables;
        ExtendsItself(seen);
        return;
      }
      OneMoreBounded(registry.tables, names, outputs, plans, p);
      plans := plans + [p];
    }
    t := registry.tables;
    assert traffic[|outputs|] in traffic;
    Others(registry, traffic[|outputs|]);
    ExtendsOn(start, t, registry.tables);
    AllStayBounded(t, registry.tables, names, outputs, plans, |outputs|);
    seen := registry.tables;
    error, use := Commit(registry, names, name, expected, links, outputs, plans, body);
    if error.None? && expected != Current(seen, Key(OperatorUse, name)) {
      StaleNeedsSame(seen, registry.tables, names, name, expected, links, outputs, plans, body, use.value);
    }
  }

  /** A stale expected revision only succeeds when the use is already there. */
  lemma StaleNeedsSame(seen: Tables, t: Tables, names: Names, name: string, expected: nat, links: seq<Link>,
                       outputs: seq<Observed>, plans: seq<Plan>, body: string, use: Ref)
    requires |plans| == |outputs| && UseKept(seen, t, name, expected, use) && UseLists(t, names, links, outputs, plans, body, use)
    requires expected != Current(seen, Key(OperatorUse, name))
    ensures CurrentUse(seen, name, body)
  {
  }

  /**
   * The use is a new revision, directly after the expected one, which was current;
   * or the revision that was current, with the same document.
   */
  ghost predicate UseKept(seen: Tables, t: Tables, name: string, expected: nat, use: Ref) {
    var before := Current(seen, Key(OperatorUse, name));
    && use.kind == OperatorUse && use.name == name && use in t.revisions
    && (if use in seen.revisions then use.revision == before && seen.revisions[use].document == t.revisions[use].document
        else expected == before && use.revision == expected + 1)
  }

  /** A use of this name with this body is current. */
  ghost predicate CurrentUse(seen: Tables, name: string, body: string) {
    var now := Ref(OperatorUse, name, Current(seen, Key(OperatorUse, name)));
    now in seen.revisions && seen.revisions[now].document.UseDoc? && seen.revisions[now].document.body == body
  }

  /** The use lists the references of the request, then those of each output in order. */
  ghost predicate UseLists(t: Tables, names: Names, links: seq<Link>, outputs: seq<Observed>, plans: seq<Plan>, body: string, use: Ref)
    requires |plans| == |outputs|
  {
    && use in t.revisions && t.revisions[use].document.UseDoc? && t.revisions[use].document.body == body
    && var all := t.revisions[use].document.links;
       && |all| == |links| + 2 * |outputs| && all[..|links|] == links
       && forall i | 0 <= i < |outputs| ::
            var (o, p, at) := (outputs[i], plans[i], |links| + 2 * i);
            && all[at] == Link(Ref(Dictionary, names.dictionary(o.dictionary), 1), o.port + "/dictionary_ref", map[])
            && all[at + 1] == Link(Ref(Binding, p.name, p.expected + 1), o.port + "/binding_ref", map[])
  }

  /** Each observed dictionary and binding is stored under some revision, and the binding is marked as observed. */
  ghost predicate ObservationsStored(t: Tables, names: Names, outputs: seq<Observed>) {
    forall i | 0 <= i < |outputs| :: ObservationStored(t, names, outputs[i])
  }

  ghost predicate ObservationStored(t: Tables, names: Names, o: Observed) {
    && (exists r | r in t.revisions :: KeyOf(r) == Key(Dictionary, names.dictionary(o.dictionary)) && t.revisions[r].document == o.dictionary)
    && (exists r | r in t.revisions && r in t.observed ::
          t.revisions[r].document
          == BindingDoc(o.snapshot.objectKey, Ref(Dictionary, names.dictionary(o.dictionary), 1), o.fieldMap,
                        o.snapshot.fields, Some(o.snapshot), o.snapshot.revision, o.body))
  }

  ghost predicate Planned(t: Tables, names: Names, outputs: seq<Observed>, plans: seq<Plan>, n: nat)
    requires n <= |outputs| && n <= |plans|
  {
    forall j | 0 <= j < n :: PlanFor(t, BindingOf(names, outputs[j]), plans[j])
  }

  /** The use is stored and everything it names resolves. */
  ghost predicate Recorded(t: Tables, names: Names, links: seq<Link>, outputs: seq<Observed>, plans: seq<Plan>, body: string, use: Ref)
    requires |plans| == |outputs|
  {
    var all := UseLinks(names, links, outputs, plans, |outputs|);
    && use in t.revisions && t.revisions[use].document == UseDoc(all, body)
    && (forall l | l in all :: l.target in t.revisions)
    && (forall i | 0 <= i < |outputs| :: DictionaryRef(names, outputs[i]) in t.revisions && BindingRef(plans[i]) in t.revisions)
  }

  lemma NothingBounded(t: Tables, names: Names, outputs: seq<Observed>)
    ensures AllBounded(t, names, outputs, [], 0)
  {
  }

  /** Exactly when the references of the outputs name what was observed. */
  ghost predicate NamedWhen(seen: Tables, t: Tables, names: Names, outputs: seq<Observed>, plans: seq<Plan>)
    requires |plans| == |outputs|
  {
    forall i | 0 <= i < |outputs| :: DictionaryWhen(seen, t, names, outputs[i]) && BindingWhen(seen, t, names, outputs[i], plans[i])
  }

  /** A dictionary reference is right unless a later revision existed and the first one was another document. */
  ghost predicate DictionaryWhen(seen: Tables, t: Tables, names: Names, o: Observed) {
    var d := DictionaryRef(names, o);
    && d in t.revisions
    && (t.revisions[d].document == o.dictionary <==>
          Current(seen, KeyOf(d)) <= 1 || (d in seen.revisions && seen.revisions[d].document == o.dictionary))
  }

  /** A binding reference is right unless the planned revision existed and was another document. */
  ghost predicate BindingWhen(seen: Tables, t: Tables, names: Names, o: Observed, p: Plan) {
    var b := BindingRef(p);
    && b in t.revisions
    && (t.revisions[b].document == BindingOf(names, o) <==>
          b !in seen.revisions || seen.revisions[b].document == BindingOf(names, o))
  }

  ghost predicate BindingsNamed(t: Tables, names: Names, outputs: seq<Observed>, plans: seq<Plan>)
    requires |plans| == |outputs|
  {
    forall i | 0 <= i < |outputs| ::
      BindingRef(plans[i]) in t.revisions && t.revisions[BindingRef(plans[i])].document == BindingOf(names, outputs[i])
  }

  function UseWrite(name: string, expected: nat, all: seq<Link>, body: string): Request {
    Request(OperatorUse, name, Some(UseDoc(all, body)), "", expected, 0, false)
  }

  /** The references of the use and the writes of its batch, output by output. */
  method Collect(names: Names, links: seq<Link>, outputs: seq<Observed>, plans: seq<Plan>)
    returns (all: seq<Link>, writes: seq<Request>)
    requires |plans| == |outputs|
    ensures all == UseLinks(names, links, outputs, plans, |outputs|)
    ensures writes == Writes(names, outputs, plans, |outputs|)
  {
    all, writes := links, [];
    for i := 0 to |outputs|
      invariant all == UseLinks(names, links, outputs, plans, i)
      invariant writes == Writes(names, outputs, plans, i)
    {
      var (o, p) := (outputs[i], plans[i]);
      var dictionary := Ref(Dictionary, names.dictionary(o.dictionary), 1);
      var binding := BindingDoc(o.snapshot.objectKey, dictionary, o.fieldMap, o.snapshot.fields, Some(o.snapshot),
                                o.snapshot.revision, o.body);
      writes := writes + [Request(Dictionary, dictionary.name, Some(o.dictionary), "", 0, 0, false),
                          Request(Binding, p.name, Some(binding), "", p.expected, 0, true)];
      all := all + [Link(dictionary, o.port + "/dictionary_ref", map[]),
                    Link(Ref(Binding, p.name, p.expected + 1), o.port + "/binding_ref", map[])];
    }
  }

  method Commit(registry: DataSemanticsRegistry, names: Names, name: string, expected: nat, links: seq<Link>,
                outputs: seq<Observed>, plans: seq<Plan>, body: string)
    returns (error: Option<Error>, use: Option<Ref>)
    requires Inv(registry.tables) && ProperOutputs(outputs) && |plans| == |outputs|
    requires AllBounded(registry.tables, names, outputs, plans, |outputs|)
    modifies registry`tables
    ensures Inv(registry.tables) && Extends(old(registry.tables), registry.tables)
    ensures error.Some? ==> registry.tables == old(registry.tables) && use.None?
    ensures error.None? ==> use.Some? && Recorded(registry.tables, names, links, outputs, plans, body, use.value)
    ensures error.None? ==> UseKept(old(registry.tables), registry.tables, name, expected, use.value)
    ensures error.None? ==> UseLists(registry.tables, names, links, outputs, plans, body, use.value)
    ensures error.None? ==> ObservationsStored(registry.tables, names, outputs)
    ensures error.None? ==> NamedWhen(old(registry.tables), registry.tables, names, outputs, plans)
    ensures error.None? && Planned(old(registry.tables), names, outputs, plans, |outputs|) ==>
              BindingsNamed(registry.tables, names, outputs, plans)
  {
    hide Inv, Extends, PlanFor, UseLinks, Writes, BindingOf, Recorded, NamedWhen, BindingsNamed, AllBounded, Planned, Chain,
      Normalized, UseKept, UseLists, ObservationsStored;
    ghost var t := registry.tables;
    var all, writes := Collect(names, links, outputs, plans);
    writes := writes + [Request(OperatorUse, name, Some(UseDoc(all, body)), "", expected, 0, false)];
    ProperWrites(names, outputs, plans, UseWrite(name, expected, all, body));
    var outcomes;
    ghost var states;
    error, outcomes, states := registry.WriteBatch(writes, true);
    use := None;
    if error.Some? {
      return;
    }
    ghost var calls := Calls(writes, true);
    UseRecorded(states, calls, outcomes, names, name, expected, links, outputs, plans, body);
    use := Some(outcomes[|outcomes| - 1].reference);
    UseNamedWhen(states, calls, outcomes, names, outputs, plans, UseWrite(name, expected, all, body));
    UseIsKept(states, calls, outcomes, names, outputs, plans, UseWrite(name, expected, all, body));
    LinksListed(names, links, outputs, plans, |outputs|);
    RecordedLists(registry.tables, names, links, outputs, plans, body, use.value);
    AllObservations(states, calls, outcomes, names, outputs, plans, UseWrite(name, expected, all, body));
    if Planned(t, names, outputs, plans, |outputs|) {
      UseBindings(states, calls, outcomes, names, outputs, plans, UseWrite(name, expected, all, body));
    }
  }

  lemma ProperWrites(names: Names, outputs: seq<Observed>, plans: seq<Plan>, use: Request)
    requires ProperOutputs(outputs) && |plans| == |outputs| && use.document.Some? && use.kind == OperatorUse
    requires use.document.value.UseDoc?
    ensures ProperRequests(Writes(names, outputs, plans, |outputs|) + [use])
    ensures ProperCalls(Calls(Writes(names, outputs, plans, |outputs|) + [use], true))
  {
    hide Writes, BindingOf;
    var writes := Writes(names, outputs, plans, |outputs|) + [use];
    forall r | r in writes && r.document.Some? ensures DocumentKind(r.document.value) == r.kind && Normalized(r.document.value) {
      var m :| 0 <= m < |writes| && writes[m] == r;
      WriteKind(names, outputs, plans, use, m);
      if m % 2 == 1 {
        BindingKind(names, outputs[m / 2]);
      }
    }
    ProperOf(writes);
  }

  lemma BindingKind(names: Names, o: Observed)
    ensures DocumentKind(BindingOf(names, o)) == Binding && Normalized(BindingOf(names, o))
  {
  }

  lemma ProperOf(requests: seq<Request>)
    requires ProperRequests(requests)
    ensures ProperCalls(Calls(requests, true))
  {
    hide DocumentKind, Normalized, Calls;
    var calls := Calls(requests, true);
    forall c | c in calls ensures c.request in requests {
      var m :| 0 <= m < |calls| && calls[m] == c;
    }
  }

  /** Every second write is a binding, the ones before are dictionaries, and the last is the use. */
  lemma WriteKind(names: Names, outputs: seq<Observed>, plans: seq<Plan>, use: Request, m: nat)
    requires ProperOutputs(outputs) && |plans| == |outputs| && m <= 2 * |outputs|
    ensures var writes := Writes(names, outputs, plans, |outputs|) + [use];
            if m == 2 * |outputs| then writes[m] == use
            else if m % 2 == 0 then
              m / 2 < |outputs| && writes[m] == DictionaryWrite(names, outputs[m / 2]) && outputs[m / 2].dictionary.DictionaryDoc?
            else m / 2 < |outputs| && writes[m] == BindingWrite(names, outputs[m / 2], plans[m / 2])
  {
    hide BindingOf;
    var front := Writes(names, outputs, plans, |outputs|);
    if m < 2 * |outputs| {
      var i := m / 2;
      assert outputs[i] in outputs;
      assert m == 2 * i || m == 2 * i + 1;
      assert (front + [use])[m] == front[m];
      assert front[2 * i] == DictionaryWrite(names, outputs[i]) && front[2 * i + 1] == BindingWrite(names, outputs[i], plans[i]);
    }
  }

  ghost predicate Batch(states: seq<Tables>, calls: seq<Call>, outcomes: seq<Outcome>, names: Names, outputs: seq<Observed>,
                        plans: seq<Plan>, use: Request) {
    && |plans| == |outputs| && ProperOutputs(outputs)
    && use.kind == OperatorUse && use.document.Some? && use.document.value.UseDoc?
    && calls == Calls(Writes(names, outputs, plans, |outputs|) + [use], true)
    && Chain(states, calls, outcomes) && Inv(states[0])
  }

  lemma BatchFacts(states: seq<Tables>, calls: seq<Call>, outcomes: seq<Outcome>, names: Names, outputs: seq<Observed>,
                   plans: seq<Plan>, use: Request, m: nat)
    requires Batch(states, calls, outcomes, names, outputs, plans, use) && m <= 2 * |outputs|
    ensures Chain(states, calls, outcomes) && ProperCalls(calls) && |calls| == 2 * |outputs| + 1
    ensures |states| == |calls| + 1 && |outcomes| == |calls| && Inv(states[0])
    ensures if m == 2 * |outputs| then calls[m].request == use
            else if m % 2 == 0 then
              m / 2 < |outputs| && calls[m].request == DictionaryWrite(names, outputs[m / 2]) && outputs[m / 2].dictionary.DictionaryDoc?
            else m / 2 < |outputs| && calls[m].request == BindingWrite(names, outputs[m / 2], plans[m / 2])
  {
    hide Inv, SavedStep, Writes, BindingOf;
    ProperWrites(names, outputs, plans, use);
    WriteKind(names, outputs, plans, use, m);
  }

  /** What a save of a batch stored is there in the end. */
  lemma StoredInTheEnd(states: seq<Tables>, calls: seq<Call>, outcomes: seq<Outcome>, m: nat)
    requires Chain(states, calls, outcomes) && ProperCalls(calls) && Inv(states[0]) && m < |calls|
    ensures var (r, o, u) := (calls[m].request, outcomes[m], states[|calls|]);
            && r.document.Some? && o.Saved? && o.reference in u.revisions && u.revisions[o.reference].document == r.document.value
            && o.reference == Ref(r.kind, r.name, Current(states[m + 1], Target(r)))
            && (!o.created ==> Current(states[m + 1], Target(r)) == Current(states[m], Target(r)) && Same(states[m], r))
            && (o.created ==> o.reference.revision == r.expected + 1)
  {
    hide Inv, SavedStep, Same;
    ChainKeeps(states, calls, outcomes, 0, m);
    SavedIsCurrent(states[m], calls[m].request, calls[m].owned, states[m + 1], outcomes[m]);
    HistoryIsImmutable(states, calls, outcomes, m + 1, |calls|, outcomes[m].reference);
  }

  lemma UseRecorded(states: seq<Tables>, calls: seq<Call>, outcomes: seq<Outcome>, names: Names, name: string, expected: nat,
                    links: seq<Link>, outputs: seq<Observed>, plans: seq<Plan>, body: string)
    requires |plans| == |outputs|
    requires var all := UseLinks(names, links, outputs, plans, |outputs|);
             Batch(states, calls, outcomes, names, outputs, plans, UseWrite(name, expected, all, body))
    ensures |states| == |calls| + 1 && |outcomes| == |calls| > 0 && outcomes[|calls| - 1].Saved?
    ensures Recorded(states[|calls|], names, links, outputs, plans, body, outcomes[|calls| - 1].reference)
  {
    hide Inv, UseLinks, Extends, Batch, SavedStep;
    var all := UseLinks(names, links, outputs, plans, |outputs|);
    var use := UseWrite(name, expected, all, body);
    var n := 2 * |outputs|;
    BatchFacts(states, calls, outcomes, names, outputs, plans, use, n);
    ChainKeeps(states, calls, outcomes, 0, n);
    ChainKeeps(states, calls, outcomes, n, n + 1);
    assert SavedStep(states[n], use, calls[n].owned, states[n + 1], outcomes[n]);
    LastStored(states[n], use, calls[n].owned, states[n + 1], outcomes[n]);
    forall i | 0 <= i < |outputs|
      ensures DictionaryRef(names, outputs[i]) in states[n + 1].revisions && BindingRef(plans[i]) in states[n + 1].revisions
    {
      UseNames(names, links, outputs, plans, |outputs|, i);
    }
  }

  /** A saved use document is stored under the returned reference, with all its references resolving. */
  lemma LastStored(t: Tables, use: Request, owned: bool, u: Tables, o: Outcome)
    requires Inv(t) && Extends(t, u) && SavedStep(t, use, owned, u, o)
    ensures use.document.Some? && o.Saved? && o.reference in u.revisions
    ensures u.revisions[o.reference].document == use.document.value
    ensures forall l | l in Links(use.document.value) :: l.target in u.revisions
  {
    SavedIsCurrent(t, use, owned, u, o);
    hide Inv, SemanticsName, OwnerFree, Edges, Links;
    assert forall l | l in Links(use.document.value) :: LinkFits(t, use.document.value, l);
  }

  lemma SavedIsCurrent(t: Tables, r: Request, owned: bool, u: Tables, o: Outcome)
    requires Inv(t) && SavedStep(t, r, owned, u, o)
    ensures o.Saved? && r.document.Some? && o.reference in u.revisions && u.revisions[o.reference].document == r.document.value
    ensures o.reference == Ref(r.kind, r.name, Current(u, Target(r)))
    ensures !o.created ==> Current(u, Target(r)) == Current(t, Target(r)) && Same(t, r)
    ensures o.created ==> o.reference.revision == r.expected + 1
  {
    hide Inv, LinksFit, SemanticsName, OwnerFree, OwnerKept, Edges;
  }

  /** Where a save found its content current: in the tables the batch began with, or made by an earlier write of the batch. */
  lemma FoundCurrent(states: seq<Tables>, calls: seq<Call>, outcomes: seq<Outcome>, m: nat, r: Request)
    returns (k: int)
    requires Chain(states, calls, outcomes) && ProperCalls(calls) && Inv(states[0]) && m <= |calls|
    requires Same(states[m], r) && r.document.Some?
    ensures var now := Ref(r.kind, r.name, Current(states[m], Target(r)));
            if k < 0 then
              now in states[0].revisions && states[0].revisions[now].document == r.document.value
              && now.revision == Current(states[0], Target(r))
            else
              k < m && calls[k].request.document == r.document && Target(calls[k].request) == Target(r)
              && calls[k].request.expected + 1 == now.revision && now !in states[0].revisions
  {
    var t, now := states[0], Ref(r.kind, r.name, Current(states[m], Target(r)));
    hide SavedStep;
    ChainKeeps(states, calls, outcomes, 0, m);
    if now in t.revisions {
      k := -1;
      StoredIsCounted(t, now);
      StoredOwner(t, now);
      hide Inv;
      assert KeyOf(now) == Target(r);
    } else {
      hide Inv, Extends;
      EveryRevisionCreated(states, calls, outcomes, m, now);
      k :| 0 <= k < m && CreatedBy(states[m], calls, outcomes, k, now);
    }
  }

  lemma BindingExact(states: seq<Tables>, calls: seq<Call>, outcomes: seq<Outcome>, names: Names, outputs: seq<Observed>,
                     plans: seq<Plan>, use: Request, i: nat)
    requires Batch(states, calls, outcomes, names, outputs, plans, use) && i < |outputs| == |plans|
    requires Planned(states[0], names, outputs, plans, |outputs|)
    ensures var (b, u) := (BindingRef(plans[i]), states[|calls|]);
            b in u.revisions && u.revisions[b].document == BindingOf(names, outputs[i])
  {
    hide Inv, Extends, BindingOf, Batch, PlanFor, Same, Chain, ProperCalls;
    var m, doc := 2 * i + 1, BindingOf(names, outputs[i]);
    BatchFacts(states, calls, outcomes, names, outputs, plans, use, m);
    StoredInTheEnd(states, calls, outcomes, m);
    IsBinding(names, outputs[i]);
    var r := calls[m].request;
    if !outcomes[m].created {
      var k := FoundCurrent(states, calls, outcomes, m, r);
      if k < 0 {
        PlanMeets(states[0], doc, plans[i], Ref(Binding, plans[i].name, Current(states[m], Target(r))));
      } else {
        BatchFacts(states, calls, outcomes, names, outputs, plans, use, k);
        PlansAgree(states[0], doc, plans[i], plans[k / 2]);
      }
    }
  }

  /** The planned revision of a binding that was free before the batch holds what was observed. */
  lemma BindingFresh(states: seq<Tables>, calls: seq<Call>, outcomes: seq<Outcome>, names: Names, outputs: seq<Observed>,
                     plans: seq<Plan>, use: Request, i: nat)
    requires Batch(states, calls, outcomes, names, outputs, plans, use) && i < |outputs| == |plans|
    requires AllBounded(states[0], names, outputs, plans, |outputs|) && BindingRef(plans[i]) !in states[0].revisions
    ensures var (b, u) := (BindingRef(plans[i]), states[|calls|]);
            b in u.revisions && u.revisions[b].document == BindingOf(names, outputs[i])
  {
    hide Inv, Extends, BindingOf, Batch, Same, Chain, ProperCalls, Bounded;
    var m, doc, b := 2 * i + 1, BindingOf(names, outputs[i]), BindingRef(plans[i]);
    BatchFacts(states, calls, outcomes, names, outputs, plans, use, m);
    StoredInTheEnd(states, calls, outcomes, m);
    IsBinding(names, outputs[i]);
    assert Bounded(states[0], doc, plans[i]);
    FreeIsNext(states[0], doc, plans[i]);
    var r := calls[m].request;
    if !outcomes[m].created {
      var k := FoundCurrent(states, calls, outcomes, m, r);
      var now := Ref(r.kind, r.name, Current(states[m], Target(r)));
      if k < 0 {
        CurrentPositive(states[0], now);
        NotCurrent(states[0], doc, plans[i], now);
      } else {
        BatchFacts(states, calls, outcomes, names, outputs, plans, use, k);
        assert Bounded(states[0], BindingOf(names, outputs[k / 2]), plans[k / 2]);
        FreeIsAbove(states[0], BindingOf(names, outputs[k / 2]), plans[k / 2], plans[i]);
      }
    }
  }

  lemma FreeIsNext(t: Tables, b: Document, p: Plan)
    requires Inv(t) && Bounded(t, b, p) && BindingRef(p) !in t.revisions
    ensures p.expected == Current(t, Key(Binding, p.name))
  {
    hide KindsMatch, AdjacentDiffer, JournalExact, Earlier, EdgesExact, LinksSound, OwnersExact, ObservedExact;
    assert KeyOf(BindingRef(p)) == Key(Binding, p.name);
  }

  lemma FreeIsAbove(t: Tables, b: Document, p: Plan, q: Plan)
    requires Bounded(t, b, p) && p.name == q.name && q.expected == Current(t, Key(Binding, q.name))
    requires BindingRef(p) !in t.revisions && Inv(t)
    ensures p.expected == q.expected
  {
    hide Inv, Bounded;
    FreeIsNext(t, b, p);
  }

  lemma NotCurrent(t: Tables, b: Document, p: Plan, now: Ref)
    requires Bounded(t, b, p) && now in t.revisions && now.revision >= 1 && t.revisions[now].document == b
    requires now == Ref(Binding, p.name, Current(t, Key(Binding, p.name)))
    ensures p.expected != Current(t, Key(Binding, p.name))
  {
  }

  lemma IsBinding(names: Names, o: Observed)
    ensures BindingOf(names, o).BindingDoc?
  {
  }

  lemma PlanMeets(t: Tables, b: Document, p: Plan, now: Ref)
    requires PlanFor(t, b, p) && now in t.revisions && t.revisions[now].document == b && b.BindingDoc?
    requires now.revision == Current(t, KeyOf(now))
    ensures p.expected + 1 == now.revision && p.name == now.name
  {
    assert Owner(t.revisions[now].document) == Owner(b);
  }

  lemma DictionaryExact(states: seq<Tables>, calls: seq<Call>, outcomes: seq<Outcome>, names: Names, outputs: seq<Observed>,
                        plans: seq<Plan>, use: Request, i: nat)
    requires Batch(states, calls, outcomes, names, outputs, plans, use) && i < |outputs| == |plans|
    requires Current(states[0], KeyOf(DictionaryRef(names, outputs[i]))) <= 1
    ensures var (d, u) := (DictionaryRef(names, outputs[i]), states[|calls|]);
            d in u.revisions && u.revisions[d].document == outputs[i].dictionary
  {
    hide Inv, Extends, BindingOf, Batch, Same, Chain, ProperCalls;
    var m := 2 * i;
    BatchFacts(states, calls, outcomes, names, outputs, plans, use, m);
    StoredInTheEnd(states, calls, outcomes, m);
    var r := calls[m].request;
    if !outcomes[m].created {
      var k := FoundCurrent(states, calls, outcomes, m, r);
      if k < 0 {
        CurrentPositive(states[0], Ref(Dictionary, r.name, Current(states[m], Target(r))));
      } else {
        BatchFacts(states, calls, outcomes, names, outputs, plans, use, k);
      }
    }
  }

  lemma CurrentPositive(t: Tables, r: Ref)
    requires Inv(t) && r in t.revisions
    ensures r.revision >= 1
  {
  }

  lemma UseBindings(states: seq<Tables>, calls: seq<Call>, outcomes: seq<Outcome>, names: Names, outputs: seq<Observed>,
                    plans: seq<Plan>, use: Request)
    requires Batch(states, calls, outcomes, names, outputs, plans, use) && |plans| == |outputs| && |states| == |calls| + 1
    requires Planned(states[0], names, outputs, plans, |outputs|)
    ensures BindingsNamed(states[|calls|], names, outputs, plans)
  {
    hide Batch, Planned, BindingOf, BindingRef;
    forall i | 0 <= i < |outputs|
      ensures BindingRef(plans[i]) in states[|calls|].revisions
      ensures states[|calls|].revisions[BindingRef(plans[i])].document == BindingOf(names, outputs[i])
    {
      BindingExact(states, calls, outcomes, names, outputs, plans, use, i);
    }
  }

  lemma BatchDictionary(states: seq<Tables>, calls: seq<Call>, outcomes: seq<Outcome>, names: Names, outputs: seq<Observed>,
                        plans: seq<Plan>, use: Request, i: nat)
    requires Batch(states, calls, outcomes, names, outputs, plans, use) && i < |outputs| == |plans| && |states| == |calls| + 1
    ensures DictionaryWhen(states[0], states[|calls|], names, outputs[i])
  {
    hide Inv, Extends, BindingOf, Batch, Chain, ProperCalls;
    var d := DictionaryRef(names, outputs[i]);
    BatchFacts(states, calls, outcomes, names, outputs, plans, use, 0);
    if Current(states[0], KeyOf(d)) <= 1 {
      DictionaryExact(states, calls, outcomes, names, outputs, plans, use, i);
    } else {
      CountedIsStored(states[0], d);
      HistoryIsImmutable(states, calls, outcomes, 0, |calls|, d);
    }
  }

  lemma CountedIsStored(t: Tables, r: Ref)
    requires Inv(t) && 1 <= r.revision <= Current(t, KeyOf(r))
    ensures r in t.revisions
  {
  }

  lemma BatchBinding(states: seq<Tables>, calls: seq<Call>, outcomes: seq<Outcome>, names: Names, outputs: seq<Observed>,
                     plans: seq<Plan>, use: Request, i: nat)
    requires Batch(states, calls, outcomes, names, outputs, plans, use) && i < |outputs| == |plans| && |states| == |calls| + 1
    requires AllBounded(states[0], names, outputs, plans, |outputs|)
    ensures BindingWhen(states[0], states[|calls|], names, outputs[i], plans[i])
  {
    hide Inv, Extends, BindingOf, Batch, Chain, ProperCalls, AllBounded;
    var b := BindingRef(plans[i]);
    BatchFacts(states, calls, outcomes, names, outputs, plans, use, 0);
    if b in states[0].revisions {
      HistoryIsImmutable(states, calls, outcomes, 0, |calls|, b);
    } else {
      BindingFresh(states, calls, outcomes, names, outputs, plans, use, i);
    }
  }

  /** The exact conditions, for every batch and whatever the tables it met. */
  lemma UseNamedWhen(states: seq<Tables>, calls: seq<Call>, outcomes: seq<Outcome>, names: Names, outputs: seq<Observed>,
                     plans: seq<Plan>, use: Request)
    requires Batch(states, calls, outcomes, names, outputs, plans, use) && |plans| == |outputs| && |states| == |calls| + 1
    requires AllBounded(states[0], names, outputs, plans, |outputs|)
    ensures NamedWhen(states[0], states[|calls|], names, outputs, plans)
  {
    hide Batch, AllBounded, DictionaryWhen, BindingWhen;
    forall i | 0 <= i < |outputs|
      ensures DictionaryWhen(states[0], states[|calls|], names, outputs[i])
      ensures BindingWhen(states[0], states[|calls|], names, outputs[i], plans[i])
    {
      BatchDictionary(states, calls, outcomes, names, outputs, plans, use, i);
      BatchBinding(states, calls, outcomes, names, outputs, plans, use, i);
    }
  }

  // ---- What the batch leaves of the use and of the observations ----

  /** The writes before the last are of other kinds, so they leave the use's current revision alone. */
  lemma UseUntouched(states: seq<Tables>, calls: seq<Call>, outcomes: seq<Outcome>, names: Names, outputs: seq<Observed>,
                     plans: seq<Plan>, use: Request)
    requires Batch(states, calls, outcomes, names, outputs, plans, use)
    ensures |states| == 2 * |outputs| + 2 && Inv(states[0]) && Inv(states[2 * |outputs|])
    ensures Extends(states[0], states[2 * |outputs|])
    ensures Current(states[2 * |outputs|], Target(use)) == Current(states[0], Target(use))
  {
    hide Inv, Extends, Batch, Chain, ProperCalls;
    var n, k := 2 * |outputs|, Target(use);
    BatchFacts(states, calls, outcomes, names, outputs, plans, use, n);
    ChainKeeps(states, calls, outcomes, 0, n);
    CurrentGrows(states[0], states[n], k);
    if Current(states[n], k) > Current(states[0], k) {
      var now := Ref(k.kind, k.name, Current(states[n], k));
      CurrentStored(states[n], k);
      AboveCurrent(states[0], now);
      EveryRevisionCreated(states, calls, outcomes, n, now);
      var i :| 0 <= i < n && CreatedBy(states[n], calls, outcomes, i, now);
      BatchFacts(states, calls, outcomes, names, outputs, plans, use, i);
      BatchShape(states, calls, outcomes, names, outputs, plans, use);
      assert false;
    }
  }

  lemma BatchShape(states: seq<Tables>, calls: seq<Call>, outcomes: seq<Outcome>, names: Names, outputs: seq<Observed>,
                   plans: seq<Plan>, use: Request)
    requires Batch(states, calls, outcomes, names, outputs, plans, use)
    ensures use.kind == OperatorUse && use.document.Some? && |plans| == |outputs|
  {
  }

  lemma CurrentGrows(t: Tables, u: Tables, k: Key)
    requires Extends(t, u)
    ensures Current(t, k) <= Current(u, k)
  {
  }

  lemma AboveCurrent(t: Tables, r: Ref)
    requires Inv(t) && r.revision > Current(t, KeyOf(r))
    ensures r !in t.revisions
  {
  }

  lemma UseIsKept(states: seq<Tables>, calls: seq<Call>, outcomes: seq<Outcome>, names: Names, outputs: seq<Observed>,
                  plans: seq<Plan>, use: Request)
    requires Batch(states, calls, outcomes, names, outputs, plans, use) && |states| == |calls| + 1 && |outcomes| == |calls| > 0
    ensures outcomes[|calls| - 1].Saved?
    ensures UseKept(states[0], states[|calls|], use.name, use.expected, outcomes[|calls| - 1].reference)
  {
    hide Inv, Extends, Batch, Chain, ProperCalls, SavedStep, Appends, Repeats, Acceptable;
    var n := 2 * |outputs|;
    BatchFacts(states, calls, outcomes, names, outputs, plans, use, n);
    BatchShape(states, calls, outcomes, names, outputs, plans, use);
    UseUntouched(states, calls, outcomes, names, outputs, plans, use);
    assert SavedStep(states[n], use, calls[n].owned, states[n + 1], outcomes[n]) by { LastStep(states, calls, outcomes, n); }
    KeptStep(states[0], states[n], use, calls[n].owned, states[n + 1], outcomes[n]);
  }

  lemma LastStep(states: seq<Tables>, calls: seq<Call>, outcomes: seq<Outcome>, n: nat)
    requires Chain(states, calls, outcomes) && n < |calls|
    ensures SavedStep(states[n], calls[n].request, calls[n].owned, states[n + 1], outcomes[n])
  {
  }

  lemma KeptStep(seen: Tables, t: Tables, use: Request, owned: bool, u: Tables, o: Outcome)
    requires Inv(seen) && Inv(t) && Extends(seen, t) && SavedStep(t, use, owned, u, o) && use.kind == OperatorUse
    requires Current(t, Target(use)) == Current(seen, Target(use))
    ensures o.Saved? && UseKept(seen, u, use.name, use.expected, o.reference)
  {
    hide Inv, Extends, Acceptable, Appends, Repeats;
    SavedIsCurrent(t, use, owned, u, o);
    if o.created {
      CreateAdvances(t, use, owned, u, o);
      AboveCurrent(seen, o.reference);
    } else {
      SameIsOld(seen, t, use);
    }
  }

  lemma SameIsOld(seen: Tables, t: Tables, r: Request)
    requires Inv(seen) && Inv(t) && Extends(seen, t) && Same(t, r) && Current(t, Target(r)) == Current(seen, Target(r))
    ensures var now := Ref(r.kind, r.name, Current(seen, Target(r)));
            now in seen.revisions && r.document == Some(seen.revisions[now].document)
  {
    var now := Ref(r.kind, r.name, Current(seen, Target(r)));
    assert KeyOf(now) == Target(r) && now in t.revisions;
    CurrentPositive(t, now);
    CountedIsStored(seen, now);
    hide Inv;
  }

  lemma {:induction false} LinksListed(names: Names, links: seq<Link>, outputs: seq<Observed>, plans: seq<Plan>, n: nat)
    requires n <= |outputs| && n <= |plans|
    ensures var all := UseLinks(names, links, outputs, plans, n);
            && |all| == |links| + 2 * n && all[..|links|] == links
            && forall i | 0 <= i < n ::
                 var (o, p, at) := (outputs[i], plans[i], |links| + 2 * i);
                 && all[at] == Link(Ref(Dictionary, names.dictionary(o.dictionary), 1), o.port + "/dictionary_ref", map[])
                 && all[at + 1] == Link(Ref(Binding, p.name, p.expected + 1), o.port + "/binding_ref", map[])
  {
    if n > 0 {
      LinksListed(names, links, outputs, plans, n - 1);
    }
  }

  lemma RecordedLists(t: Tables, names: Names, links: seq<Link>, outputs: seq<Observed>, plans: seq<Plan>, body: string, use: Ref)
    requires |plans| == |outputs| && Recorded(t, names, links, outputs, plans, body, use)
    ensures UseLists(t, names, links, outputs, plans, body, use)
  {
    LinksListed(names, links, outputs, plans, |outputs|);
    hide UseLinks;
  }

  lemma AllObservations(states: seq<Tables>, calls: seq<Call>, outcomes: seq<Outcome>, names: Names, outputs: seq<Observed>,
                        plans: seq<Plan>, use: Request)
    requires Batch(states, calls, outcomes, names, outputs, plans, use) && |states| == |calls| + 1
    ensures ObservationsStored(states[|calls|], names, outputs)
  {
    hide Batch, ObservationStored;
    BatchShape(states, calls, outcomes, names, outputs, plans, use);
    forall i | 0 <= i < |outputs| ensures ObservationStored(states[|calls|], names, outputs[i]) {
      Observation(states, calls, outcomes, names, outputs, plans, use, i);
    }
  }

  lemma Observation(states: seq<Tables>, calls: seq<Call>, outcomes: seq<Outcome>, names: Names, outputs: seq<Observed>,
                    plans: seq<Plan>, use: Request, i: nat)
    requires Batch(states, calls, outcomes, names, outputs, plans, use) && |states| == |calls| + 1 && i < |outputs| == |plans|
    ensures ObservationStored(states[|calls|], names, outputs[i])
  {
    hide Inv, Extends, Batch, Chain, ProperCalls, SavedStep;
    BatchFacts(states, calls, outcomes, names, outputs, plans, use, 2 * i);
    StoredInTheEnd(states, calls, outcomes, 2 * i);
    BatchFacts(states, calls, outcomes, names, outputs, plans, use, 2 * i + 1);
    StoredInTheEnd(states, calls, outcomes, 2 * i + 1);
    MarkedInTheEnd(states, calls, outcomes, 2 * i + 1);
  }

  lemma MarkedInTheEnd(states: seq<Tables>, calls: seq<Call>, outcomes: seq<Outcome>, m: nat)
    requires Chain(states, calls, outcomes) && ProperCalls(calls) && Inv(states[0]) && m < |calls|
    requires calls[m].request.observed
    ensures outcomes[m].Saved? && outcomes[m].reference in states[|calls|].observed
  {
    hide Inv, SavedStep;
    ChainKeeps(states, calls, outcomes, m + 1, |calls|);
    MarkedHere(states[m], calls[m].request, calls[m].owned, states[m + 1], outcomes[m]);
  }

  lemma MarkedHere(t: Tables, r: Request, owned: bool, u: Tables, o: Outcome)
    requires SavedStep(t, r, owned, u, o) && r.observed
    ensures o.Saved? && o.reference in u.observed
  {
    hide Acceptable, OwnerFree, Edges, Same;
  }
}
