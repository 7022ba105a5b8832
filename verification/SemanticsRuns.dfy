/** What holds over every run of saves and batches, whatever their interleaving. */
module SemanticsRuns {
  import opened Bytes
  import opened SemanticsModel
  import opened SemanticsRegistry

  /** Requests carry documents of their own kind, as `NormalizeSemantics` leaves them. */
  predicate ProperCalls(calls: seq<Call>) {
    forall c | c in calls && c.request.document.Some? ::
      DocumentKind(c.request.document.value) == c.request.kind && Normalized(c.request.document.value)
  }

  /** The invariant holds in every reachable state, and every state keeps what the earlier ones stored. */
  lemma {:induction false} ChainKeeps(states: seq<Tables>, calls: seq<Call>, outcomes: seq<Outcome>, i: nat, j: nat)
    requires Chain(states, calls, outcomes) && ProperCalls(calls) && Inv(states[0]) && i <= j <= |calls|
    ensures Inv(states[i]) && Inv(states[j]) && Extends(states[i], states[j])
    decreases j
  {
    hide Inv, Extends, SavedStep;
    if i < j {
      ChainKeeps(states, calls, outcomes, i, j - 1);
      OneMore(states[j - 1], calls, j - 1, states[j], outcomes[j - 1]);
      ExtendsOn(states[i], states[j - 1], states[j]);
    } else if j > 0 {
      ChainKeeps(states, calls, outcomes, j - 1, j - 1);
      OneMore(states[j - 1], calls, j - 1, states[j], outcomes[j - 1]);
      ExtendsItself(states[j]);
    } else {
      ExtendsItself(states[0]);
    }
  }

  lemma OneMore(t: Tables, calls: seq<Call>, i: nat, u: Tables, o: Outcome)
    requires i < |calls| && ProperCalls(calls) && Inv(t) && SavedStep(t, calls[i].request, calls[i].owned, u, o)
    ensures Inv(u) && Extends(t, u)
  {
    hide Inv, Extends, Appends, Repeats;
    assert calls[i] in calls;
    SaveKeepsInv(t, calls[i].request, calls[i].owned, u, o);
    SaveExtends(t, calls[i].request, calls[i].owned, u, o);
  }

  lemma EmptyInv()
    ensures Inv(EMPTY)
  {
  }

  /** Stored contents never change. */
  lemma HistoryIsImmutable(states: seq<Tables>, calls: seq<Call>, outcomes: seq<Outcome>, i: nat, j: nat, r: Ref)
    requires Chain(states, calls, outcomes) && ProperCalls(calls) && Inv(states[0]) && i <= j <= |calls|
    requires r in states[i].revisions
    ensures r in states[j].revisions && states[j].revisions[r] == states[i].revisions[r]
  {
    ChainKeeps(states, calls, outcomes, i, j);
  }

  // ---- No lost update ----

  ghost predicate Creates(calls: seq<Call>, outcomes: seq<Outcome>, i: int, k: Key) {
    0 <= i < |calls| && i < |outcomes| && Target(calls[i].request) == k && outcomes[i].Saved? && outcomes[i].created
  }

  /** A creating save names the current revision and makes the next. */
  lemma CreateAdvances(t: Tables, r: Request, owned: bool, u: Tables, o: Outcome)
    requires SavedStep(t, r, owned, u, o) && o.created
    ensures r.expected == Current(t, Target(r)) && Current(u, Target(r)) == r.expected + 1
    ensures o.reference.revision == r.expected + 1
  {
    hide Acceptable, OwnerFree, Edges;
  }

  /** Of two saves that create revisions of one object, the later named a later predecessor: neither overwrote the other unseen. */
  lemma NoLostUpdate(states: seq<Tables>, calls: seq<Call>, outcomes: seq<Outcome>, i: nat, j: nat, k: Key)
    requires Chain(states, calls, outcomes) && ProperCalls(calls) && Inv(states[0])
    requires i < j && Creates(calls, outcomes, i, k) && Creates(calls, outcomes, j, k)
    ensures calls[i].request.expected < calls[j].request.expected
  {
    hide Inv, SavedStep;
    CreateAdvances(states[i], calls[i].request, calls[i].owned, states[i + 1], outcomes[i]);
    CreateAdvances(states[j], calls[j].request, calls[j].owned, states[j + 1], outcomes[j]);
    ChainKeeps(states, calls, outcomes, i + 1, j);
  }

  /**
   * A revision that a run did not start with was created by a save that named its
   * direct predecessor and carried its content; for a use, the save came from its execution.
   */
  lemma {:induction false} EveryRevisionCreated(states: seq<Tables>, calls: seq<Call>, outcomes: seq<Outcome>, n: nat, r: Ref)
    requires Chain(states, calls, outcomes) && ProperCalls(calls) && Inv(states[0]) && n <= |calls|
    requires r in states[n].revisions && r !in states[0].revisions
    ensures exists i :: 0 <= i < n && CreatedBy(states[n], calls, outcomes, i, r)
  {
    hide Inv, Acceptable, OwnerFree, Edges;
    assert n > 0;
    var (t, u, call, o) := (states[n - 1], states[n], calls[n - 1], outcomes[n - 1]);
    assert SavedStep(t, call.request, call.owned, u, o);
    if r in t.revisions {
      EveryRevisionCreated(states, calls, outcomes, n - 1, r);
      var i :| 0 <= i < n - 1 && CreatedBy(t, calls, outcomes, i, r);
      HistoryIsImmutable(states, calls, outcomes, n - 1, n, r);
      assert CreatedBy(u, calls, outcomes, i, r);
    } else {
      CreatedHere(t, call.request, call.owned, u, o, r);
      assert CreatedBy(u, calls, outcomes, n - 1, r);
    }
  }

  lemma CreatedHere(t: Tables, r: Request, owned: bool, u: Tables, o: Outcome, x: Ref)
    requires SavedStep(t, r, owned, u, o) && x in u.revisions && x !in t.revisions
    ensures o.Saved? && o.created && o.reference == x && Target(r) == KeyOf(x) && r.expected + 1 == x.revision
    ensures r.document.Some? && u.revisions[x] == Stored(r.document.value, r.base, r.note) && (r.kind == OperatorUse ==> owned)
  {
    hide LinksFit, OwnerKept, OwnerFree, Edges, SemanticsName;
  }

  ghost predicate CreatedBy(t: Tables, calls: seq<Call>, outcomes: seq<Outcome>, i: int, r: Ref) {
    && Creates(calls, outcomes, i, KeyOf(r)) && outcomes[i].reference == r
    && calls[i].request.expected + 1 == r.revision
    && r in t.revisions && calls[i].request.document == Some(t.revisions[r].document)
    && calls[i].request.base == t.revisions[r].base && calls[i].request.note == t.revisions[r].note
    && (r.kind == OperatorUse ==> calls[i].owned)
  }

  /** Saving the same content again succeeds with any expected revision, names the same revision, and changes nothing. */
  lemma RepeatIsNoOp(t: Tables, r: Request, owned: bool, u: Tables, o: Outcome, expected: nat, w: Tables, o2: Outcome)
    requires Inv(t) && SavedStep(t, r, owned, u, o) && expected <= MAX_REVISION
    requires DocumentKind(r.document.value) == r.kind && Normalized(r.document.value)
    ensures Acceptable(u, r.(expected := expected), owned)
    ensures SavedStep(u, r.(expected := expected), owned, w, o2) ==> w == u && !o2.created && o2.reference == o.reference
  {
    RepeatSame(t, r, owned, u, o);
    RepeatAccepted(t, r, owned, u, o, expected);
    hide Inv, Acceptable, Appends;
    var now := Ref(r.kind, r.name, Current(u, Target(r)));
    assert Same(u, r.(expected := expected)) == Same(u, r);
    assert Noted(u.observed, now, r.observed) == u.observed;
  }

  lemma RepeatAccepted(t: Tables, r: Request, owned: bool, u: Tables, o: Outcome, expected: nat)
    requires Inv(t) && SavedStep(t, r, owned, u, o) && expected <= MAX_REVISION
    requires DocumentKind(r.document.value) == r.kind && Normalized(r.document.value)
    ensures Acceptable(u, r.(expected := expected), owned)
  {
    hide Inv, Extends, SavedStep, LinksFit, Admissible, OwnerKept, Same;
    SaveKeepsInv(t, r, owned, u, o);
    SaveExtends(t, r, owned, u, o);
    RepeatSame(t, r, owned, u, o);
    SavedWas(t, r, owned, u, o);
    RepeatLinks(t, u, r.document.value);
    RepeatOwner(u, r);
    if r.base > 0 {
      RepeatBase(t, u, r);
    }
    OtherExpected(u, r, owned, expected);
  }

  lemma SavedWas(t: Tables, r: Request, owned: bool, u: Tables, o: Outcome)
    requires SavedStep(t, r, owned, u, o)
    ensures r.document.Some? && Admissible(r, owned) && LinksFit(t, r.document.value)
    ensures r.base > 0 ==> Ref(r.kind, r.name, r.base) in t.revisions
  {
    hide LinksFit, SemanticsName, OwnerFree, Same, Appends, Repeats;
  }

  lemma RepeatOwner(t: Tables, r: Request)
    requires Inv(t) && Same(t, r) && Current(t, Target(r)) > 0
    ensures r.document.Some? && OwnerKept(t, r)
  {
    CurrentStored(t, Target(r));
    hide Inv;
  }

  /** Which revision a request expects only matters when it is compared with the current one. */
  lemma OtherExpected(t: Tables, r: Request, owned: bool, expected: nat)
    requires Admissible(r, owned) && expected <= MAX_REVISION
    ensures var q := r.(expected := expected);
      && Admissible(q, owned) && (OwnerKept(t, q) <==> OwnerKept(t, r)) && (Same(t, q) <==> Same(t, r))
  {
    hide SemanticsName;
  }

  lemma RepeatSame(t: Tables, r: Request, owned: bool, u: Tables, o: Outcome)
    requires Inv(t) && SavedStep(t, r, owned, u, o)
    ensures Same(u, r) && Current(u, Target(r)) > 0
    ensures r.observed ==> Ref(r.kind, r.name, Current(u, Target(r))) in u.observed
  {
    hide LinksFit, OwnerKept, SemanticsName, OwnerFree, Edges, KindsMatch, AdjacentDiffer, JournalExact, Earlier,
      EdgesExact, LinksSound, OwnersExact, ObservedExact;
  }

  lemma RepeatBase(t: Tables, u: Tables, r: Request)
    requires Extends(t, u) && Ref(r.kind, r.name, r.base) in t.revisions
    ensures Ref(r.kind, r.name, r.base) in u.revisions
  {
  }

  lemma RepeatLinks(t: Tables, u: Tables, d: Document)
    requires LinksFit(t, d) && Extends(t, u)
    ensures LinksFit(u, d)
  {
    hide LinkFits, Links;
    LinkFitsOf(t, u);
  }

  // ---- The reference graph ----

  function Position(journal: seq<Ref>, r: Ref): (i: nat)
    requires r in journal
    ensures i < |journal| && journal[i] == r
  {
    if journal[0] == r then 0 else 1 + Position(journal[1..], r)
  }

  /** Each edge goes from a stored revision to one stored earlier. */
  lemma EdgeEarlier(t: Tables, e: Edge)
    requires Inv(t) && e in t.references
    ensures e.source in t.revisions && e.target in t.revisions
    ensures e.source in t.journal && e.target in t.journal
    ensures Position(t.journal, e.target) < Position(t.journal, e.source)
  {
    hide RevisionsExact, KindsMatch, AdjacentDiffer, OwnersExact, ObservedExact, Links, LinkFits;
    var j := Position(t.journal, e.source);
    assert EarlierAt(t, j);
    var l :| l in Links(t.revisions[e.source].document) && l.target == e.target && l.path == e.path;
    assert e.target in t.journal[..j];
    var i :| 0 <= i < j && t.journal[i] == e.target;
  }

  /** The target is a revision stored before `r`, and the table holds the edge with this path. */
  ghost predicate Refers(t: Tables, r: Ref, target: Ref, path: string) {
    && target in t.revisions && r in t.journal && target in t.journal
    && Position(t.journal, target) < Position(t.journal, r) && Edge(r, target, path) in t.references
  }

  /**
   * In every reachable state, what a stored document names was stored earlier and
   * is in the reference table: the links of contracts and uses, the relations of a
   * dictionary and the dictionary of a binding.
   */
  lemma ReferencesStored(states: seq<Tables>, calls: seq<Call>, outcomes: seq<Outcome>, n: nat, r: Ref)
    requires Chain(states, calls, outcomes) && ProperCalls(calls) && Inv(states[0])
    requires n <= |calls| && r in states[n].revisions
    ensures var (t, d) := (states[n], states[n].revisions[r].document);
            && (d.ContractDoc? ==> r.kind == OperatorContract && forall l | l in d.links :: Refers(t, r, l.target, l.path))
            && (d.UseDoc? ==> r.kind == OperatorUse && forall l | l in d.links :: Refers(t, r, l.target, l.path))
            && (d.DictionaryDoc? ==> r.kind == Dictionary && forall l | l in d.relations :: Refers(t, r, l.target, l.path))
            && (d.BindingDoc? ==> r.kind == Binding && Refers(t, r, d.dictionary, "/dictionary_ref"))
            && (d.StandardDoc? ==> r.kind == Standard)
  {
    hide Inv, Extends, Refers;
    ChainKeeps(states, calls, outcomes, n, n);
    var (t, d) := (states[n], states[n].revisions[r].document);
    StoredKind(t, r);
    forall l | l in Links(d) ensures Refers(t, r, l.target, l.path) {
      LinkRefers(t, r, l);
    }
    if d.BindingDoc? {
      assert Link(d.dictionary, "/dictionary_ref", map[]) in Links(d);
    }
  }

  lemma LinkRefers(t: Tables, r: Ref, l: Link)
    requires Inv(t) && r in t.revisions && l in Links(t.revisions[r].document)
    ensures Refers(t, r, l.target, l.path)
  {
    hide Links, LinkFits;
    var e := Edge(r, l.target, l.path);
    assert HasEdge(t.revisions[r].document, e);
    assert e in t.references;
    EdgeEarlier(t, e);
  }

  /** The reference table holds nothing else. */
  lemma ReferencesOnly(states: seq<Tables>, calls: seq<Call>, outcomes: seq<Outcome>, n: nat, e: Edge)
    requires Chain(states, calls, outcomes) && ProperCalls(calls) && Inv(states[0])
    requires n <= |calls| && e in states[n].references
    ensures e.source in states[n].revisions
    ensures var d := states[n].revisions[e.source].document;
            && !d.StandardDoc?
            && (d.ContractDoc? || d.UseDoc? ==> exists l | l in d.links :: l.target == e.target && l.path == e.path)
            && (d.DictionaryDoc? ==> exists l | l in d.relations :: l.target == e.target && l.path == e.path)
            && (d.BindingDoc? ==> e.target == d.dictionary && e.path == "/dictionary_ref")
  {
    hide Inv, Extends;
    ChainKeeps(states, calls, outcomes, n, n);
    EdgeListed(states[n], e);
  }

  lemma EdgeListed(t: Tables, e: Edge)
    requires Inv(t) && e in t.references
    ensures e.source in t.revisions && HasEdge(t.revisions[e.source].document, e)
  {
    hide Links;
  }

  /** A document that names a revision that is not stored is not saved. */
  lemma AbsentTargetFails(t: Tables, r: Request, owned: bool, target: Ref)
    requires r.document.Some? && target !in t.revisions
    requires var d := r.document.value;
             || ((d.ContractDoc? || d.UseDoc?) && exists l | l in d.links :: l.target == target)
             || (d.DictionaryDoc? && exists l | l in d.relations :: l.target == target)
             || (d.BindingDoc? && d.dictionary == target)
    ensures !Acceptable(t, r, owned)
    ensures forall u, o :: !SavedStep(t, r, owned, u, o)
  {
    hide Admissible, OwnerKept, OwnerFree, Appends, Repeats;
    var d := r.document.value;
    if d.BindingDoc? {
      assert Link(d.dictionary, "/dictionary_ref", map[]) in Links(d);
    }
    var l :| l in Links(d) && l.target == target;
    assert !LinkFits(t, d, l);
  }

  ghost predicate Linked(t: Tables, a: Ref, b: Ref) {
    exists e | e in t.references :: e.source == a && e.target == b
  }

  ghost predicate Path(t: Tables, path: seq<Ref>) {
    |path| >= 2 && forall i | 0 <= i < |path| - 1 :: Linked(t, path[i], path[i + 1])
  }

  lemma {:induction false} PathEarlier(t: Tables, path: seq<Ref>)
    requires Inv(t) && Path(t, path)
    ensures path[0] in t.journal && path[|path| - 1] in t.journal
    ensures Position(t.journal, path[|path| - 1]) < Position(t.journal, path[0])
  {
    hide Inv;
    assert Linked(t, path[0], path[1]);
    var e :| e in t.references && e.source == path[0] && e.target == path[1];
    EdgeEarlier(t, e);
    if |path| > 2 {
      var rest := path[1..];
      forall i | 0 <= i < |rest| - 1 ensures Linked(t, rest[i], rest[i + 1]) {
        assert Linked(t, path[i + 1], path[i + 2]);
      }
      PathEarlier(t, rest);
    }
  }

  /** The references of stored revisions have no cycle. */
  lemma NoCycle(t: Tables, path: seq<Ref>)
    requires Inv(t) && Path(t, path)
    ensures path[0] != path[|path| - 1]
  {
    PathEarlier(t, path);
  }

  // ---- Relations ----

  /** A stored relation to a dictionary maps fields to fields that the dictionary has. */
  lemma RelationFits(t: Tables, r: Ref, l: Link)
    requires Inv(t) && r in t.revisions && t.revisions[r].document.DictionaryDoc?
    requires l in t.revisions[r].document.relations && l.target.kind == Dictionary
    ensures l.target in t.revisions && t.revisions[l.target].document.DictionaryDoc?
    ensures forall k | k in l.fieldMap :: exists f | f in t.revisions[l.target].document.fields :: f.id == l.fieldMap[k]
  {
    hide RevisionsExact, KindsMatch, AdjacentDiffer, JournalExact, Earlier, EdgesExact, OwnersExact, ObservedExact, Ids, BindingFits;
    var d := t.revisions[r].document;
    assert l in Links(d) && LinkFits(t, d, l);
    forall k | k in l.fieldMap ensures exists f | f in t.revisions[l.target].document.fields :: f.id == l.fieldMap[k] {
      IdsAre(t.revisions[l.target].document.fields, l.fieldMap[k]);
      FieldAt(t.revisions[l.target].document.fields, l.fieldMap[k]);
    }
  }

  // ---- Bindings ----

  /** A stored binding maps exactly its dictionary's field ids, each to a source field of its own. */
  lemma BindingIsBijective(t: Tables, r: Ref)
    requires Inv(t) && r in t.revisions && t.revisions[r].document.BindingDoc?
    ensures var b := t.revisions[r].document;
            && b.dictionary in t.revisions && t.revisions[b.dictionary].document.DictionaryDoc?
            && b.fieldMap.Keys == Ids(t.revisions[b.dictionary].document.fields) && Injective(b.fieldMap)
  {
    hide RevisionsExact, KindsMatch, AdjacentDiffer, JournalExact, Earlier, EdgesExact, OwnersExact, ObservedExact, Ids, SchemaFits;
    var b := t.revisions[r].document;
    var l := Link(b.dictionary, "/dictionary_ref", map[]);
    assert l in Links(b) && LinkFits(t, b, l);
    var fields := t.revisions[b.dictionary].document.fields;
    forall k ensures k in b.fieldMap <==> k in Ids(fields) {
      IdsAre(fields, k);
      FieldAt(fields, k);
    }
  }

  /** The schema has distinct names and gives each field of the dictionary a source of its type and nullability. */
  predicate Serves(schema: seq<Source>, fieldMap: map<string, string>, fields: seq<Field>) {
    && (forall i, j | 0 <= i < j < |schema| :: schema[i].name != schema[j].name)
    && forall f | f in fields ::
         f.id in fieldMap && exists x | x in schema :: x.name == fieldMap[f.id] && x.kind == f.kind && x.nullable == f.nullable
  }

  /** The declared schema of a stored binding serves its dictionary. */
  lemma StoredSchemaServes(t: Tables, r: Ref)
    requires Inv(t) && r in t.revisions && t.revisions[r].document.BindingDoc?
    ensures var b := t.revisions[r].document;
            && b.dictionary in t.revisions && t.revisions[b.dictionary].document.DictionaryDoc?
            && (b.declared.Some? && b.declared.value != [] ==>
                  Serves(b.declared.value, b.fieldMap, t.revisions[b.dictionary].document.fields))
  {
    hide RevisionsExact, KindsMatch, AdjacentDiffer, JournalExact, Earlier, EdgesExact, OwnersExact, ObservedExact, MapCovers;
    var b := t.revisions[r].document;
    var l := Link(b.dictionary, "/dictionary_ref", map[]);
    assert l in Links(b) && LinkFits(t, b, l);
    if b.declared.Some? && b.declared.value != [] {
      FitsServes(b.fieldMap, t.revisions[b.dictionary].document.fields, b.declared.value);
    }
  }

  /** The snapshot of a stored binding is of its own object, known, confirmed, and serves the dictionary as well. */
  lemma StoredSnapshotAgrees(t: Tables, r: Ref)
    requires Inv(t) && r in t.revisions && t.revisions[r].document.BindingDoc? && t.revisions[r].document.snapshot.Some?
    ensures var (b, s) := (t.revisions[r].document, t.revisions[r].document.snapshot.value);
            && s.objectKey == b.objectKey && s.known && s.fields.Some? && b.confirmed == s.revision
            && b.dictionary in t.revisions && t.revisions[b.dictionary].document.DictionaryDoc?
            && (s.fields.value != [] ==> Serves(s.fields.value, b.fieldMap, t.revisions[b.dictionary].document.fields))
  {
    hide RevisionsExact, KindsMatch, AdjacentDiffer, JournalExact, Earlier, EdgesExact, OwnersExact, ObservedExact, MapCovers;
    var b := t.revisions[r].document;
    var l := Link(b.dictionary, "/dictionary_ref", map[]);
    assert l in Links(b) && LinkFits(t, b, l);
    var s := b.snapshot.value;
    if s.fields.value != [] {
      FitsServes(b.fieldMap, t.revisions[b.dictionary].document.fields, s.fields.value);
    }
  }

  lemma FitsServes(fieldMap: map<string, string>, fields: seq<Field>, schema: seq<Source>)
    requires schema != [] && SchemaFits(fieldMap, fields, Some(schema))
    ensures Serves(schema, fieldMap, fields)
  {
    forall f | f in fields
      ensures f.id in fieldMap && exists x | x in schema :: x.name == fieldMap[f.id] && x.kind == f.kind && x.nullable == f.nullable
    {
      assert Provided(fieldMap, f, schema);
      assert Source(fieldMap[f.id], f.kind, f.nullable) in schema;
    }
  }

  /** Only bindings with a snapshot are marked as observed. */
  lemma ObservedHasSnapshot(t: Tables, r: Ref)
    requires Inv(t) && r in t.observed
    ensures r in t.revisions && t.revisions[r].document.BindingDoc? && t.revisions[r].document.snapshot.Some?
  {
    hide RevisionsExact, KindsMatch, AdjacentDiffer, JournalExact, Earlier, EdgesExact, LinksSound, OwnersExact;
  }

  /** One object key, one binding name, over all its revisions. */
  lemma ObjectKeyOwnsName(t: Tables, a: Ref, b: Ref)
    requires Inv(t) && a in t.revisions && b in t.revisions
    requires t.revisions[a].document.BindingDoc? && t.revisions[b].document.BindingDoc?
    ensures (t.revisions[a].document.objectKey == t.revisions[b].document.objectKey) <==> (KeyOf(a) == KeyOf(b))
  {
    hide KindsMatch, AdjacentDiffer, JournalExact, Earlier, EdgesExact, LinksSound, ObservedExact;
    assert KeyOf(a) in t.objects && KeyOf(b) in t.objects;
  }
}
