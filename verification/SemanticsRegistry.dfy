/** The versioned semantics registry: append-only revisions, optimistic saves, atomic batches, a reference graph. */
module SemanticsRegistry {
  import opened Bytes
  import opened SemanticsModel

  const MAX_NOTE: nat := 4096

  datatype Key = Key(kind: Kind, name: string)

  datatype Entry = Entry(current: nat, owner: Option<ObjectKey>)

  datatype Stored = Stored(document: Document, base: nat, note: string)

  datatype Edge = Edge(source: Ref, target: Ref, path: string)

  /** The four tables; `journal` lists the revisions in the order of insertion. */
  datatype Tables = Tables(objects: map<Key, Entry>, revisions: map<Ref, Stored>, journal: seq<Ref>,
                           references: set<Edge>, observed: set<Ref>)

  const EMPTY := Tables(map[], map[], [], {}, {})

  /** A save request with its document already normalized; `None` when `NormalizeSemantics` refuses it. */
  datatype Request = Request(kind: Kind, name: string, document: Option<Document>, note: string, expected: nat,
                             base: nat, observed: bool)

  datatype Error =
    | ContractInvalid | InvalidDocument | NotFound | InvalidReference | BindingMismatch
    | RevisionConflict | LimitExceeded | StorageError | Unavailable

  datatype Outcome = Saved(reference: Ref, document: Document, created: bool, check: Option<Check>) | Failed(error: Error)

  function KeyOf(r: Ref): Key {
    Key(r.kind, r.name)
  }

  function Target(r: Request): Key {
    Key(r.kind, r.name)
  }

  function Current(t: Tables, k: Key): nat {
    if k in t.objects then t.objects[k].current else 0
  }

  function Owner(d: Document): Option<ObjectKey> {
    if d.BindingDoc? then Some(d.objectKey) else None
  }

  // ---- The invariant of the tables ----

  /** An object's revisions are exactly 1 .. current. */
  ghost predicate RevisionsExact(t: Tables) {
    && (forall k | k in t.objects :: 1 <= t.objects[k].current <= MAX_REVISION)
    && (forall r :: r in t.revisions <==> 1 <= r.revision <= Current(t, KeyOf(r)))
  }

  ghost predicate KindsMatch(t: Tables) {
    forall r | r in t.revisions ::
      && DocumentKind(t.revisions[r].document) == r.kind && Normalized(t.revisions[r].document)
      && t.revisions[r].base < r.revision && ProperlyNamed(r, t.revisions[r])
  }

  /** Names are valid and notes short; a contract bears the name of its operator. */
  predicate ProperlyNamed(r: Ref, s: Stored) {
    && SemanticsName(r.name) && |s.note| <= MAX_NOTE
    && (s.document.ContractDoc? ==> s.document.operator == r.name)
  }

  /** Saving never stores the content it finds: a revision differs from the one before it. */
  ghost predicate AdjacentDiffer(t: Tables) {
    forall r, p | r in t.revisions && p in t.revisions && KeyOf(p) == KeyOf(r) && p.revision + 1 == r.revision ::
      t.revisions[p].document != t.revisions[r].document
  }

  predicate DistinctRefs(journal: seq<Ref>) {
    forall i, j | 0 <= i < j < |journal| :: journal[i] != journal[j]
  }

  ghost predicate JournalExact(t: Tables) {
    DistinctRefs(t.journal) && forall r :: r in t.journal <==> r in t.revisions
  }

  /** Every reference of the `j`-th stored revision was stored before it. */
  ghost predicate EarlierAt(t: Tables, j: int) {
    0 <= j < |t.journal| && t.journal[j] in t.revisions ==>
      forall l | l in Links(t.revisions[t.journal[j]].document) :: l.target in t.journal[..j]
  }

  ghost predicate Earlier(t: Tables) {
    forall j :: EarlierAt(t, j)
  }

  /** The reference table holds the references of the stored documents and no others. */
  ghost predicate EdgesExact(t: Tables) {
    forall e :: e in t.references <==> e.source in t.revisions && HasEdge(t.revisions[e.source].document, e)
  }

  predicate HasEdge(d: Document, e: Edge) {
    exists l | l in Links(d) :: l.target == e.target && l.path == e.path
  }

  /** What `ValidateLinks` demands of one reference: stored, and for bindings and relations fitting its target. */
  predicate LinkFits(t: Tables, d: Document, l: Link) {
    l.target in t.revisions &&
    var target := t.revisions[l.target].document;
    && (d.BindingDoc? ==> target.DictionaryDoc? && BindingFits(d, target.fields))
    && (d.DictionaryDoc? && l.target.kind == Dictionary ==>
          target.DictionaryDoc? && forall k | k in l.fieldMap :: l.fieldMap[k] in Ids(target.fields))
  }

  /** What the structure check of a saved document says: for a binding, whether its declared schema was compared. */
  function StructureCheck(d: Document): Option<Check> {
    if !d.BindingDoc? then None
    else if d.declared.None? || d.declared.value == [] then Some(Unknown)
    else Some(Matched)
  }

  predicate LinksFit(t: Tables, d: Document) {
    forall l | l in Links(d) :: LinkFits(t, d, l)
  }

  ghost predicate LinksSound(t: Tables) {
    forall r | r in t.revisions :: LinksFit(t, t.revisions[r].document)
  }

  /** Every revision of a binding is for the one object key that its name owns, and no other name owns it. */
  ghost predicate OwnersExact(t: Tables) {
    && (forall r | r in t.revisions && KeyOf(r) in t.objects :: t.objects[KeyOf(r)].owner == Owner(t.revisions[r].document))
    && (forall a, b | a in t.objects && b in t.objects && a != b && t.objects[a].owner.Some? ::
          t.objects[a].owner != t.objects[b].owner)
  }

  ghost predicate ObservedExact(t: Tables) {
    forall r | r in t.observed :: r in t.revisions && HasSnapshot(t.revisions[r].document)
  }

  predicate HasSnapshot(d: Document) {
    d.BindingDoc? && d.snapshot.Some?
  }

  ghost predicate Inv(t: Tables) {
    && RevisionsExact(t) && KindsMatch(t) && AdjacentDiffer(t) && JournalExact(t) && Earlier(t) && EdgesExact(t)
    && LinksSound(t) && OwnersExact(t) && ObservedExact(t)
  }

  /** What each error number of a save says about the request and the tables. */
  predicate ErrorFits(t: Tables, r: Request, owned: bool, e: Error) {
    match e
    case ContractInvalid =>
      (r.kind == OperatorUse && !owned)
      || (r.document.Some? && r.document.value.ContractDoc? && r.name != r.document.value.operator)
    case InvalidDocument =>
      !SemanticsName(r.name) || r.expected > MAX_REVISION || r.base > MAX_REVISION || |r.note| > MAX_NOTE
      || r.document.None? || (r.observed && !HasSnapshot(r.document.value))
    case NotFound =>
      (r.document.Some? && exists l | l in Links(r.document.value) :: l.target !in t.revisions)
      || (r.base > 0 && Ref(r.kind, r.name, r.base) !in t.revisions)
    case InvalidReference => r.document.Some? && r.document.value.DictionaryDoc?
    case BindingMismatch => r.document.Some? && r.document.value.BindingDoc?
    case RevisionConflict => r.expected != Current(t, Target(r))
    case LimitExceeded => Current(t, Target(r)) >= MAX_REVISION
    case StorageError => true
    case Unavailable => false
  }

  /** What one state keeps of an earlier one. */
  ghost predicate Extends(t: Tables, u: Tables) {
    && (forall r | r in t.revisions :: r in u.revisions && u.revisions[r] == t.revisions[r])
    && t.journal <= u.journal && t.references <= u.references && t.observed <= u.observed
    && (forall k | k in t.objects :: k in u.objects && u.objects[k].owner == t.objects[k].owner
                                     && t.objects[k].current <= u.objects[k].current)
  }

  // ---- A save ----

  /** The checks that look at the request alone. */
  predicate Admissible(r: Request, owned: bool) {
    && (r.kind == OperatorUse ==> owned)
    && SemanticsName(r.name) && r.expected <= MAX_REVISION && r.base <= MAX_REVISION && |r.note| <= MAX_NOTE
    && r.document.Some?
    && (r.document.value.ContractDoc? ==> r.name == r.document.value.operator)
    && (r.observed ==> HasSnapshot(r.document.value))
  }

  predicate Same(t: Tables, r: Request) {
    var now := Ref(r.kind, r.name, Current(t, Target(r)));
    now in t.revisions && r.document == Some(t.revisions[now].document)
  }

  predicate OwnerKept(t: Tables, r: Request)
    requires r.document.Some?
  {
    Target(r) in t.objects ==> t.objects[Target(r)].owner == Owner(r.document.value)
  }

  predicate OwnerFree(t: Tables, r: Request)
    requires r.document.Some?
  {
    forall k | k in t.objects :: Owner(r.document.value).Some? && t.objects[k].owner == Owner(r.document.value) ==> k == Target(r)
  }

  /** When a save succeeds, storage failures aside. */
  predicate Acceptable(t: Tables, r: Request, owned: bool) {
    && Admissible(r, owned) && LinksFit(t, r.document.value) && OwnerKept(t, r)
    && (r.base > 0 ==> Ref(r.kind, r.name, r.base) in t.revisions)
    && (Same(t, r) || (r.expected == Current(t, Target(r)) && r.expected < MAX_REVISION && OwnerFree(t, r)))
  }

  function Noted(observed: set<Ref>, r: Ref, seen: bool): set<Ref> {
    if seen then observed + {r} else observed
  }

  ghost function Edges(source: Ref, links: seq<Link>): set<Edge> {
    set l | l in links :: Edge(source, l.target, l.path)
  }

  /** A save that stores the next revision of its object. */
  ghost predicate Appends(t: Tables, r: Request, u: Tables)
    requires r.document.Some?
  {
    var now := Ref(r.kind, r.name, Current(t, Target(r)) + 1);
    && r.expected == Current(t, Target(r)) && r.expected < MAX_REVISION && OwnerFree(t, r)
    && u.revisions == t.revisions[now := Stored(r.document.value, r.base, r.note)]
    && u.objects == t.objects[Target(r) := Entry(now.revision, Owner(r.document.value))]
    && u.journal == t.journal + [now]
    && u.references == t.references + Edges(now, Links(r.document.value))
    && u.observed == Noted(t.observed, now, r.observed)
  }

  /** A save of the content that is current already changes no revision, whatever revision the request expected. */
  ghost predicate Repeats(t: Tables, r: Request, u: Tables) {
    u == t.(observed := Noted(t.observed, Ref(r.kind, r.name, Current(t, Target(r))), r.observed))
  }

  ghost predicate SavedStep(t: Tables, r: Request, owned: bool, u: Tables, o: Outcome) {
    && o.Saved? && Acceptable(t, r, owned) && o.document == r.document.value
    && o.reference == Ref(r.kind, r.name, Current(u, Target(r)))
    && o.created == !Same(t, r) && o.check == StructureCheck(r.document.value)
    && (if Same(t, r) then Repeats(t, r, u) else Appends(t, r, u))
  }

  /** No reference is listed twice at the same place. */
  predicate LinksApart(links: seq<Link>) {
    forall i, j | 0 <= i < j < |links| :: (links[i].target, links[i].path) != (links[j].target, links[j].path)
  }

  class DataSemanticsRegistry {
    var tables: Tables
    var ready: bool
    /** Statements of a healthy database do not fail by themselves. */
    const healthy: bool

    constructor (healthy: bool)
      ensures tables == EMPTY && !ready && Inv(tables) && this.healthy == healthy
    {
      tables, ready := EMPTY, false;
      this.healthy := healthy;
    }

    /** One statement of the database, which fails or not. */
    method Statement() returns (fails: bool)
      ensures fails ==> !healthy
    {
      fails := *;
      fails := fails && !healthy;
    }

    /** Opening may fail in storage; an open registry cannot be opened again. */
    method Open() returns (error: Option<Error>)
      modifies this`ready
      ensures error.None? ==> ready && !old(ready)
      ensures error.Some? ==> ready == old(ready) && (old(ready) || !healthy)
    {
      var fails := Statement();
      if ready || fails {
        return Some(StorageError);
      }
      ready := true;
      error := None;
    }

    method Close()
      modifies this`ready
      ensures !ready
    {
      ready := false;
    }

    method Read(reference: Ref) returns (d: Option<Document>)
      ensures d == if reference in tables.revisions then Some(tables.revisions[reference].document) else None
    {
      d := if reference in tables.revisions then Some(tables.revisions[reference].document) else None;
    }

    /** Reads every target and checks what depends on it; for a binding also gives the structure check. */
    method ValidateLinks(d: Document) returns (error: Option<Error>, check: Option<Check>)
      requires Inv(tables) && Normalized(d)
      ensures error.None? <==> LinksFit(tables, d)
      ensures error.Some? ==> error.value in {NotFound, BindingMismatch, InvalidReference}
      ensures error == Some(NotFound) ==> exists l | l in Links(d) :: l.target !in tables.revisions
      ensures (error == Some(BindingMismatch) ==> d.BindingDoc?) && (error == Some(InvalidReference) ==> d.DictionaryDoc?)
      ensures error.None? ==> check == StructureCheck(d)
    {
      hide Inv, BindingFits;
      error, check := None, None;
      var links := Links(d);
      for i := 0 to |links|
        invariant error.None? && forall j | 0 <= j < i :: LinkFits(tables, d, links[j])
        invariant check == if i == 0 then None else StructureCheck(d)
      {
        error, check := ValidateLink(d, links[i], check);
        if error.Some? {
          assert links[i] in links;
          return;
        }
      }
    }

    method ValidateLink(d: Document, l: Link, before: Option<Check>) returns (error: Option<Error>, check: Option<Check>)
      requires Inv(tables) && Normalized(d) && l in Links(d)
      ensures error.None? <==> LinkFits(tables, d, l)
      ensures error.Some? ==> error.value in {NotFound, BindingMismatch, InvalidReference}
      ensures error == Some(NotFound) <==> l.target !in tables.revisions
      ensures (error == Some(BindingMismatch) ==> d.BindingDoc?) && (error == Some(InvalidReference) ==> d.DictionaryDoc?)
      ensures error.None? ==> check == if d.BindingDoc? then StructureCheck(d) else before
    {
      hide BindingFits, Ids;
      error, check := None, before;
      var target := Read(l.target);
      if target.None? {
        return Some(NotFound), check;
      }
      StoredKind(tables, l.target);
      if d.BindingDoc? {
        check := CheckSemanticsBinding(d, target.value.fields);
        error := if check.None? then Some(BindingMismatch) else None;
      } else if d.DictionaryDoc? && l.target.kind == Dictionary {
        var ids := Ids(target.value.fields);
        var todo := l.fieldMap.Keys;
        while todo != {}
          invariant todo <= l.fieldMap.Keys
          invariant forall k | k in l.fieldMap && k !in todo :: l.fieldMap[k] in ids
          decreases |todo|
        {
          var k :| k in todo;
          if l.fieldMap[k] !in ids {
            return Some(InvalidReference), check;
          }
          todo := todo - {k};
        }
      }
    }

    /** The checks that need no stored revision. */
    method Admit(r: Request, owned: bool) returns (error: Option<Error>)
      ensures error.None? <==> Admissible(r, owned)
      ensures error.None? ==> r.document.Some?
      ensures error.Some? ==> error.value in {ContractInvalid, InvalidDocument} && ErrorFits(tables, r, owned, error.value)
    {
      hide SemanticsName;
      if r.kind == OperatorUse && !owned {
        return Some(ContractInvalid);
      }
      var named := CheckName(r.name);
      if !named || r.expected > MAX_REVISION || r.base > MAX_REVISION || |r.note| > MAX_NOTE || r.document.None? {
        return Some(InvalidDocument);
      }
      var d := r.document.value;
      if d.ContractDoc? && r.name != d.operator {
        return Some(ContractInvalid);
      }
      error := if r.observed && !HasSnapshot(d) then Some(InvalidDocument) else None;
    }

    /** One save inside a transaction; a storage failure may leave part of it, which the caller rolls back. */
    method SaveUnlocked(r: Request, owned: bool) returns (o: Outcome)
      requires Inv(tables)
      requires r.document.Some? ==> DocumentKind(r.document.value) == r.kind && Normalized(r.document.value)
      modifies this`tables
      ensures o.Saved? ==> r.document.Some? && SavedStep(old(tables), r, owned, tables, o)
      ensures o.Failed? && o.error != StorageError ==> !Acceptable(old(tables), r, owned)
      ensures o.Failed? ==> ErrorFits(old(tables), r, owned, o.error)
      ensures o.Failed? && o.error == StorageError && healthy ==> r.document.Some? && !LinksApart(Links(r.document.value))
    {
      hide Inv, LinksFit, Admissible, SemanticsName, OwnerFree, OwnerKept, Same, Links, LinksApart, HasSnapshot;
      var refused := Admit(r, owned);
      if refused.Some? {
        return Failed(refused.value);
      }
      var d := r.document.value;
      var error, check := ValidateLinks(d);
      if error.Some? {
        return Failed(error.value);
      }
      var same;
      error, same := Compare(r);
      if error.Some? {
        return Failed(error.value);
      }
      if same {
        var now := Ref(r.kind, r.name, Current(tables, Target(r)));
        var stored := MarkObserved(now, r.observed);
        return if stored then Saved(now, d, false, check) else Failed(StorageError);
      }
      o := Store(r, check);
    }

    /** What the stored revisions say of a request: whether its content is current already, or else may follow. */
    method Compare(r: Request) returns (error: Option<Error>, same: bool)
      requires Inv(tables) && r.document.Some? && DocumentKind(r.document.value) == r.kind
      ensures error.None? <==>
                && (r.base > 0 ==> Ref(r.kind, r.name, r.base) in tables.revisions) && OwnerKept(tables, r)
                && (Same(tables, r) || (r.expected == Current(tables, Target(r)) < MAX_REVISION && OwnerFree(tables, r)))
      ensures error.None? ==> same == Same(tables, r)
      ensures error.Some? ==> error.value != StorageError && ErrorFits(tables, r, true, error.value)
    {
      hide Inv, OwnerFree, Links, SemanticsName;
      var d, current := r.document.value, Current(tables, Target(r));
      error, same := None, false;
      if r.base > 0 && Ref(r.kind, r.name, r.base) !in tables.revisions {
        return Some(NotFound), false;
      }
      if current > 0 {
        var now := Ref(r.kind, r.name, current);
        CurrentStored(tables, Target(r));
        var previous := tables.revisions[now].document;
        if d.BindingDoc? && previous.objectKey != d.objectKey {
          return Some(BindingMismatch), false;
        }
        if previous == d {
          return None, true;
        }
      }
      NoneStored(tables, Target(r));
      if current != r.expected {
        return Some(RevisionConflict), false;
      }
      if current >= MAX_REVISION {
        return Some(LimitExceeded), false;
      }
      if !OwnerFree(tables, r) {
        OwnedIsBinding(tables, r);
        return Some(BindingMismatch), false;
      }
    }

    /** The four writes of a new revision, any of which may fail. */
    method Store(r: Request, check: Option<Check>) returns (o: Outcome)
      requires Inv(tables) && r.document.Some? && OwnerFree(tables, r) && OwnerKept(tables, r)
      requires r.expected == Current(tables, Target(r)) < MAX_REVISION
      modifies this`tables
      ensures o.Failed? ==> o.error == StorageError
      ensures o.Failed? && healthy ==> !LinksApart(Links(r.document.value))
      ensures o.Saved? ==> Appends(old(tables), r, tables)
      ensures o.Saved? ==> o == Saved(Ref(r.kind, r.name, Current(tables, Target(r))), r.document.value, true, check)
    {
      NewEdges(tables, Ref(r.kind, r.name, Current(tables, Target(r)) + 1));
      hide Inv, OwnerFree, OwnerKept, Links, LinksApart;
      ghost var t := tables;
      var d := r.document.value;
      var next := Current(tables, Target(r)) + 1;
      var exact := Ref(r.kind, r.name, next);
      var fails := Statement();
      if fails {
        return Failed(StorageError);
      }
      tables := tables.(revisions := tables.revisions[exact := Stored(d, r.base, r.note)], journal := tables.journal + [exact]);
      fails := Statement();
      if fails {
        return Failed(StorageError);
      }
      tables := tables.(objects := tables.objects[Target(r) := Entry(next, Owner(d))]);
      var stored := InsertReferences(exact, Links(d));
      if !stored {
        return Failed(StorageError);
      }
      stored := MarkObserved(exact, r.observed);
      o := if stored then Saved(exact, d, true, check) else Failed(StorageError);
    }

    /** A repeated row fails on the table's primary key. */
    method InsertReferences(exact: Ref, links: seq<Link>) returns (stored: bool)
      modifies this`tables
      ensures stored ==> tables == old(tables).(references := old(tables).references + Edges(exact, links))
      ensures (forall e | e in old(tables).references :: e.source != exact) ==>
                (stored ==> LinksApart(links)) && (LinksApart(links) && healthy ==> stored)
    {
      hide LinksApart;
      NoLinks();
      ghost var first := forall e | e in tables.references :: e.source != exact;
      for i := 0 to |links|
        invariant tables == old(tables).(references := old(tables).references + Edges(exact, links[..i]))
        invariant first ==> LinksApart(links[..i])
      {
        var edge := Edge(exact, links[i].target, links[i].path);
        var fails := Statement();
        if first {
          EdgeRepeats(old(tables).references, exact, links, i);
        }
        if fails || edge in tables.references {
          return false;
        }
        assert links[..i + 1] == links[..i] + [links[i]];
        assert Edges(exact, links[..i + 1]) == Edges(exact, links[..i]) + {edge};
        tables := tables.(references := tables.references + {edge});
      }
      assert links[..|links|] == links;
      stored := true;
    }

    method MarkObserved(exact: Ref, seen: bool) returns (stored: bool)
      modifies this`tables
      ensures stored ==> tables == old(tables).(observed := Noted(old(tables).observed, exact, seen))
      ensures !stored ==> tables == old(tables) && !healthy
    {
      if !seen {
        return true;
      }
      var fails := Statement();
      stored := !fails;
      if stored {
        tables := tables.(observed := tables.observed + {exact});
      }
    }

    /** All requests or none: any failure, also of the commit, restores the tables. */
    method WriteBatch(requests: seq<Request>, owned: bool)
      returns (error: Option<Error>, outcomes: seq<Outcome>, ghost states: seq<Tables>)
      requires Inv(tables)
      requires forall r | r in requests && r.document.Some? :: DocumentKind(r.document.value) == r.kind && Normalized(r.document.value)
      modifies this`tables
      ensures Inv(tables) && Extends(old(tables), tables)
      ensures error.Some? ==> tables == old(tables) && outcomes == []
      ensures error.None? ==> Chain(states, Calls(requests, owned), outcomes)
                              && states[0] == old(tables) && states[|requests|] == tables
      ensures !ready ==> error == Some(Unavailable)
      ensures error.Some? && ready && healthy ==> StuckAt(states, requests, owned) && states[0] == old(tables)
    {
      hide Inv, Extends, SavedStep;
      ghost var begin := tables;
      ExtendsItself(tables);
      outcomes, states := [], [tables];
      if !ready {
        return Some(Unavailable), [], states;
      }
      var snapshot := tables;
      var staged: seq<Outcome> := [];
      for i := 0 to |requests|
        invariant Inv(tables) && Extends(begin, tables) && snapshot == begin
        invariant |states| == i + 1 && |staged| == i && states[0] == begin && states[i] == tables
        invariant forall j | 0 <= j < i :: SavedStep(states[j], requests[j], owned, states[j + 1], staged[j])
      {
        ghost var t := tables;
        var o := SaveUnlocked(requests[i], owned);
        if o.Failed? {
          assert healthy ==> Hopeless(t, requests[i], owned);
          tables := snapshot;
          ExtendsItself(tables);
          return Some(o.error), [], states;
        }
        assert requests[i] in requests;
        SaveKeepsInv(t, requests[i], owned, tables, o);
        SaveExtends(t, requests[i], owned, tables, o);
        ExtendsOn(begin, t, tables);
        staged, states := staged + [o], states + [tables];
      }
      var fails := Statement();
      if fails {
        tables := snapshot;
        ExtendsItself(tables);
        return Some(StorageError), [], states;
      }
      return None, staged, states;
    }

    method Save(r: Request) returns (o: Outcome)
      requires Inv(tables)
      requires r.document.Some? ==> DocumentKind(r.document.value) == r.kind && Normalized(r.document.value)
      modifies this`tables
      ensures Inv(tables) && Extends(old(tables), tables)
      ensures o.Saved? ==> SavedStep(old(tables), r, false, tables, o)
      ensures o.Failed? ==> tables == old(tables)
      ensures o.Failed? && ready && healthy ==> Hopeless(old(tables), r, false)
    {
      hide Inv, Extends, Acceptable, Appends, Repeats, Hopeless;
      var error, outcomes;
      ghost var states;
      error, outcomes, states := WriteBatch([r], false);
      if error.Some? {
        return Failed(error.value);
      }
      assert SavedStep(states[0], Calls([r], false)[0].request, false, states[1], outcomes[0]);
      o := outcomes[0];
    }

    /** The current revision of the one binding that owns the object key. */
    method BindingLookup(k: ObjectKey) returns (error: Option<Error>, found: Option<Ref>)
      requires Inv(tables)
      ensures error.None? ==> found.Some? && found.value in tables.revisions
                              && Owner(tables.revisions[found.value].document) == Some(k)
                              && found.value.kind == Binding && found.value.revision == Current(tables, KeyOf(found.value))
      ensures error == Some(NotFound) ==> forall r | r in tables.revisions :: Owner(tables.revisions[r].document) != Some(k)
      ensures error == Some(InvalidDocument) <==> k.provider == "" || k.id == ""
      ensures error.Some? ==> error.value in {InvalidDocument, NotFound, StorageError} && (error.value == StorageError ==> !healthy)
    {
      if k.provider == "" || k.id == "" {
        return Some(InvalidDocument), None;
      }
      var fails := Statement();
      if fails {
        return Some(StorageError), None;
      }
      if name: Key :| name in tables.objects && tables.objects[name].owner == Some(k) {
        CurrentStored(tables, name);
        var r := Ref(name.kind, name.name, tables.objects[name].current);
        return None, Some(r);
      }
      return Some(NotFound), None;
    }
  }

  /** The request is not acceptable, or lists a reference twice, which the reference table refuses. */
  predicate Hopeless(t: Tables, r: Request, owned: bool) {
    !Acceptable(t, r, owned) || (r.document.Some? && !LinksApart(Links(r.document.value)))
  }

  ghost predicate Steps(t: Tables, r: Request, owned: bool, u: Tables) {
    exists o: Outcome :: SavedStep(t, r, owned, u, o)
  }

  /** The requests were saved one after another until one that had to fail. */
  ghost predicate StuckAt(states: seq<Tables>, requests: seq<Request>, owned: bool) {
    && 0 < |states| <= |requests| && Hopeless(states[|states| - 1], requests[|states| - 1], owned)
    && forall j | 0 <= j < |states| - 1 :: Steps(states[j], requests[j], owned, states[j + 1])
  }

  /** A revision that is not stored yet has no edges. */
  lemma NewEdges(t: Tables, now: Ref)
    requires Inv(t)
    ensures now !in t.revisions ==> forall e | e in t.references :: e.source != now
    ensures now.revision == Current(t, KeyOf(now)) + 1 ==> now !in t.revisions
  {
    hide Links, LinkFits;
  }

  lemma OwnedIsBinding(t: Tables, r: Request)
    requires r.document.Some? && !OwnerFree(t, r)
    ensures r.document.value.BindingDoc?
  {
  }

  lemma NoLinks()
    ensures LinksApart([])
  {
  }

  lemma EdgeRepeats(references: set<Edge>, exact: Ref, links: seq<Link>, i: nat)
    requires i < |links| && LinksApart(links[..i]) && forall e | e in references :: e.source != exact
    ensures Edge(exact, links[i].target, links[i].path) in references + Edges(exact, links[..i]) ==> !LinksApart(links)
    ensures Edge(exact, links[i].target, links[i].path) !in references + Edges(exact, links[..i]) ==> LinksApart(links[..i + 1])
  {
    forall j | 0 <= j < i ensures links[..i][j] == links[j] && links[j] in links[..i] {
    }
  }

  lemma StoredKind(t: Tables, r: Ref)
    requires Inv(t) && r in t.revisions
    ensures DocumentKind(t.revisions[r].document) == r.kind
  {
  }

  lemma CurrentStored(t: Tables, k: Key)
    requires Inv(t) && Current(t, k) > 0
    ensures k in t.objects && Ref(k.kind, k.name, Current(t, k)) in t.revisions
    ensures var d := t.revisions[Ref(k.kind, k.name, Current(t, k))].document;
            DocumentKind(d) == k.kind && t.objects[k].owner == Owner(d)
  {
    var r := Ref(k.kind, k.name, Current(t, k));
    assert KeyOf(r) == k;
  }

  lemma NoneStored(t: Tables, k: Key)
    requires Inv(t)
    ensures Current(t, k) == 0 ==> k !in t.objects && Ref(k.kind, k.name, 0) !in t.revisions
  {
  }

  lemma ExtendsItself(t: Tables)
    ensures Extends(t, t)
  {
  }

  lemma ExtendsOn(t: Tables, u: Tables, w: Tables)
    requires Extends(t, u) && Extends(u, w)
    ensures Extends(t, w)
  {
  }

  datatype Call = Call(request: Request, owned: bool)

  function Calls(requests: seq<Request>, owned: bool): (r: seq<Call>)
    ensures |r| == |requests| && forall i | 0 <= i < |requests| :: r[i] == Call(requests[i], owned)
  {
    if requests == [] then [] else Calls(requests[..|requests| - 1], owned) + [Call(requests[|requests| - 1], owned)]
  }

  /** Committed saves one after another. A call that fails leaves no trace, so a run of the registry is such a chain. */
  ghost predicate Chain(states: seq<Tables>, calls: seq<Call>, outcomes: seq<Outcome>) {
    && |states| == |calls| + 1 && |outcomes| == |calls|
    && forall i | 0 <= i < |calls| :: SavedStep(states[i], calls[i].request, calls[i].owned, states[i + 1], outcomes[i])
  }

  // ---- Every save keeps the invariant ----

  lemma SaveKeepsInv(t: Tables, r: Request, owned: bool, u: Tables, o: Outcome)
    requires Inv(t) && SavedStep(t, r, owned, u, o)
    requires DocumentKind(r.document.value) == r.kind && Normalized(r.document.value)
    ensures Inv(u)
  {
    hide Acceptable, RevisionsExact, KindsMatch, AdjacentDiffer, JournalExact, Earlier, EdgesExact, LinksSound, OwnersExact, ObservedExact;
    if Same(t, r) {
      RepeatKeeps(t, r, owned, u);
    } else {
      AppendRevisions(t, r, owned, u);
      AppendJournal(t, r, owned, u);
      AppendLinks(t, r, owned, u);
      AppendOwners(t, r, owned, u);
    }
  }

  lemma RepeatKeeps(t: Tables, r: Request, owned: bool, u: Tables)
    requires Inv(t) && Acceptable(t, r, owned) && Same(t, r) && Repeats(t, r, u)
    ensures Inv(u)
  {
    hide LinkFits, HasEdge, SemanticsName, Links;
    assert forall j :: EarlierAt(t, j) ==> EarlierAt(u, j);
    assert forall k :: Current(u, k) == Current(t, k);
    LinkFitsOf(t, u);
  }

  lemma LinkFitsOf(t: Tables, u: Tables)
    requires forall r | r in t.revisions :: r in u.revisions && u.revisions[r] == t.revisions[r]
    ensures forall d, l :: LinkFits(t, d, l) ==> LinkFits(u, d, l)
  {
    hide BindingFits, Ids;
  }

  /** The revision that a save appends is new. */
  lemma NewRevision(t: Tables, r: Request)
    requires RevisionsExact(t) && JournalExact(t)
    ensures var now := Ref(r.kind, r.name, Current(t, Target(r)) + 1);
            KeyOf(now) == Target(r) && now !in t.revisions && now !in t.journal
  {
  }

  lemma AppendRevisions(t: Tables, r: Request, owned: bool, u: Tables)
    requires Inv(t) && Acceptable(t, r, owned) && !Same(t, r) && Appends(t, r, u)
    requires DocumentKind(r.document.value) == r.kind && Normalized(r.document.value)
    ensures RevisionsExact(u) && KindsMatch(u) && AdjacentDiffer(u)
  {
    hide LinksFit, OwnerKept, OwnerFree, SemanticsName, JournalExact, Earlier, EdgesExact, LinksSound, OwnersExact,
      ObservedExact, Normalized, AdjacentDiffer, Edges;
    var now := Ref(r.kind, r.name, Current(t, Target(r)) + 1);
    assert KeyOf(now) == Target(r);
    forall k ensures Current(u, k) == if k == Target(r) then now.revision else Current(t, k) {
    }
    assert r.base > 0 ==> KeyOf(Ref(r.kind, r.name, r.base)) == Target(r);
    assert RevisionsExact(u);
    AppendDiffers(t, r, u);
  }

  lemma AppendDiffers(t: Tables, r: Request, u: Tables)
    requires r.document.Some? && RevisionsExact(t) && JournalExact(t) && AdjacentDiffer(t) && !Same(t, r) && Appends(t, r, u)
    ensures AdjacentDiffer(u)
  {
    hide OwnerFree, Edges, JournalExact;
    var now := Ref(r.kind, r.name, Current(t, Target(r)) + 1);
    forall x, p | x in u.revisions && p in u.revisions && KeyOf(p) == KeyOf(x) && p.revision + 1 == x.revision
      ensures u.revisions[p].document != u.revisions[x].document
    {
      assert p != now;
      if x == now {
        assert p == Ref(r.kind, r.name, Current(t, Target(r)));
      }
    }
  }

  lemma AppendJournal(t: Tables, r: Request, owned: bool, u: Tables)
    requires Inv(t) && Acceptable(t, r, owned) && Appends(t, r, u)
    ensures JournalExact(u) && Earlier(u) && EdgesExact(u)
  {
    hide OwnerKept, OwnerFree, SemanticsName, KindsMatch, AdjacentDiffer, LinksSound, OwnersExact, ObservedExact, Links;
    var now := Ref(r.kind, r.name, Current(t, Target(r)) + 1);
    NewRevision(t, r);
    forall j ensures EarlierAt(u, j) {
      assert EarlierAt(t, j);
      if 0 <= j < |t.journal| {
        assert u.journal[j] == t.journal[j] && u.journal[..j] == t.journal[..j];
        assert t.journal[j] in t.journal;
      } else if j == |t.journal| {
        assert u.journal[..j] == t.journal;
        forall l | l in Links(r.document.value) ensures l.target in t.journal {
          assert LinkFits(t, r.document.value, l);
        }
      }
    }
    AppendEdges(t, r, u);
  }

  lemma AppendEdges(t: Tables, r: Request, u: Tables)
    requires r.document.Some? && EdgesExact(t) && RevisionsExact(t) && JournalExact(t) && Appends(t, r, u)
    ensures EdgesExact(u)
  {
    hide Links, OwnerFree;
    var now := Ref(r.kind, r.name, Current(t, Target(r)) + 1);
    NewRevision(t, r);
    forall e ensures e in u.references <==> e.source in u.revisions && HasEdge(u.revisions[e.source].document, e) {
      assert e in Edges(now, Links(r.document.value)) <==> e.source == now && HasEdge(r.document.value, e);
    }
  }

  lemma AppendLinks(t: Tables, r: Request, owned: bool, u: Tables)
    requires Inv(t) && Acceptable(t, r, owned) && Appends(t, r, u)
    ensures LinksSound(u) && ObservedExact(u)
  {
    hide LinkFits, OwnerKept, OwnerFree, SemanticsName, KindsMatch, AdjacentDiffer, Earlier, EdgesExact, OwnersExact, Links;
    NewRevision(t, r);
    LinkFitsOf(t, u);
  }

  /** An owner that is free, or the object's own, is still no other object's. */
  lemma OwnersApart(t: Tables, r: Request, objects: map<Key, Entry>, current: nat)
    requires OwnersExact(t) && r.document.Some? && OwnerFree(t, r)
    requires objects == t.objects[Target(r) := Entry(current, Owner(r.document.value))]
    ensures forall a, b | a in objects && b in objects && a != b && objects[a].owner.Some? :: objects[a].owner != objects[b].owner
  {
  }

  lemma AppendOwners(t: Tables, r: Request, owned: bool, u: Tables)
    requires Inv(t) && Acceptable(t, r, owned) && Appends(t, r, u)
    ensures OwnersExact(u)
  {
    hide LinksFit, SemanticsName, KindsMatch, AdjacentDiffer, Earlier, EdgesExact, LinksSound, ObservedExact, Edges;
    var now := Ref(r.kind, r.name, Current(t, Target(r)) + 1);
    NewRevision(t, r);
    OwnersApart(t, r, u.objects, now.revision);
    forall x | x in u.revisions && KeyOf(x) in u.objects
      ensures u.objects[KeyOf(x)].owner == Owner(u.revisions[x].document)
    {
      if x != now {
        assert x in t.revisions && KeyOf(x) in t.objects;
      }
    }
  }

  lemma SaveExtends(t: Tables, r: Request, owned: bool, u: Tables, o: Outcome)
    requires Inv(t) && SavedStep(t, r, owned, u, o)
    ensures Extends(t, u)
  {
    hide LinksFit, SemanticsName, KindsMatch, AdjacentDiffer, Earlier, EdgesExact, LinksSound, ObservedExact, Edges;
    NewRevision(t, r);
  }
}
