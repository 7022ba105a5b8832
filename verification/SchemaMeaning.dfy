/** What a settled answer of the schema evaluator means. */
module SchemaMeaning {
  import opened Bytes
  import opened SchemaEvaluator
  import opened SchemaKeywords
  import opened SchemaRules

  /** A meaning of all schemas at once: the rules, applied to it, give it back. */
  ghost predicate Meaning(c: Context, m: Valuation) {
    Step(c, m) == m
  }

  lemma {:induction false} LevelOfMeaning(c: Context, n: nat, m: Valuation)
    requires Meaning(c, m)
    ensures Level(c, n, m) == m
  {
    if n > 0 {
      LevelOfMeaning(c, n - 1, m);
    }
  }

  /** A settled answer is the answer of every meaning, also with cyclic references. */
  lemma SettledIsMeant(c: Context, n: nat, s: Json, v: Json, ok: bool, m: Valuation)
    requires Decided(c, n, s, v, ok) && Meaning(c, m)
    ensures ((s, v) in m) == ok
  {
    LevelOfMeaning(c, n, m);
    assert ((s, v) in Level(c, n, m)) == ok;
  }

  lemma {:induction false} LevelSplit(c: Context, n: nat, k: nat, g: Valuation)
    ensures Level(c, n + k, g) == Level(c, n, Level(c, k, g))
  {
    if n > 0 {
      LevelSplit(c, n - 1, k, g);
    }
  }

  /** Looking deeper never changes a settled answer. */
  lemma DeeperAgrees(c: Context, n: nat, k: nat, s: Json, v: Json, ok: bool)
    requires Decided(c, n, s, v, ok)
    ensures Decided(c, n + k, s, v, ok)
  {
    var deep := n + k;
    forall g: Valuation ensures ((s, v) in Level(c, deep, g)) == ok {
      LevelSplit(c, n, k, g);
      assert ((s, v) in Level(c, n, Level(c, k, g))) == ok;
    }
  }

  /** The levels of a schema that refers to itself and says nothing else give back whatever is assumed of it. */
  lemma {:induction false} SelfReferenceLevel(c: Context, n: nat, ref: string, v: Json, g: Valuation)
    requires Target(c, Str(ref)) == Some(Obj([Member("$ref", Str(ref))]))
    ensures var s := Obj([Member("$ref", Str(ref))]);
            ((s, v) in Level(c, n, g)) == ((s, v) in g)
  {
    if n > 0 {
      SelfReferenceLevel(c, n - 1, ref, v, g);
      var s := Obj([Member("$ref", Str(ref))]);
      var m := Level(c, n - 1, g);
      OnlyMember(s, "$ref", Str(ref));
      RefAlone(c, m, s, v);
    }
  }

  /** So neither answer is settled for it, at any depth. */
  lemma SelfReferenceUnsettled(c: Context, n: nat, ref: string, v: Json)
    requires Target(c, Str(ref)) == Some(Obj([Member("$ref", Str(ref))]))
    ensures var s := Obj([Member("$ref", Str(ref))]);
            !Decided(c, n, s, v, true) && !Decided(c, n, s, v, false)
  {
    var s := Obj([Member("$ref", Str(ref))]);
    var none, all: Valuation := iset{}, iset{(s, v)};
    SelfReferenceLevel(c, n, ref, v, none);
    SelfReferenceLevel(c, n, ref, v, all);
    assert ((s, v) in Level(c, n, none)) == false;
    assert ((s, v) in Level(c, n, all)) == true;
  }

  /** The evaluator answers every configuration under such a schema with the limit. */
  method ValidateSelfReference(ref: string, instance: Json, contract: Json, host: Host) returns (outcome: Outcome)
    requires host.resolve(Obj([Member("$ref", Str(ref))]), ref) == Some(Obj([Member("$ref", Str(ref))]))
    ensures outcome == LimitExceeded
  {
    var schema := Obj([Member("$ref", Str(ref))]);
    outcome := ValidateOperatorConfiguration(schema, instance, contract, host);
    SelfReferenceUnsettled(Context(schema, contract, host), MAX_DEPTH + 1, ref, instance);
  }

  lemma RefAlone(c: Context, m: Valuation, s: Json, v: Json)
    requires s.Obj? && Find(s, "$ref").Some? && Target(c, Find(s, "$ref").value) == Some(s)
    requires forall key :: key != "$ref" ==> Find(s, key).None?
    ensures Rule(c, m, s, v) == ((s, v) in m)
  {
    hide Find, Target, Holds, Keys;
    assert Holds(Ref, c, m, s, v) == ((s, v) in m) by {
      RefHolds(c, m, s, v);
    }
    forall k: Keyword | k != Ref ensures Holds(k, c, m, s, v) {
      OnlyRef(k);
      SilentKeyword(k, c, m, s, v);
    }
  }

  lemma RefHolds(c: Context, m: Valuation, s: Json, v: Json)
    requires Find(s, "$ref").Some? && Target(c, Find(s, "$ref").value) == Some(s)
    ensures Holds(Ref, c, m, s, v) == ((s, v) in m)
  {
  }

  lemma OnlyMember(s: Json, name: string, value: Json)
    requires s == Obj([Member(name, value)])
    ensures Find(s, name) == Some(value)
    ensures forall key :: key != name ==> Find(s, key).None?
  {
    assert s.members[1..] == [];
    forall key | key != name ensures Find(s, key).None? {
      assert Lookup(s.members[1..], key).None?;
    }
  }

  lemma OnlyRef(k: Keyword)
    requires k != Ref
    ensures "$ref" !in Keys(k)
  {
  }

  // ---- Schemas without references ----

  predicate RefFree(j: Json) {
    match j
    case Obj(members) => forall x | x in members :: x.name != "$ref" && RefFree(x.value)
    case Arr(items) => forall x | x in items :: RefFree(x)
    case _ => true
  }

  function Height(j: Json): nat {
    match j
    case Obj(members) => 1 + MembersHeight(members)
    case Arr(items) => 1 + ItemsHeight(items)
    case _ => 0
  }

  function MembersHeight(members: seq<Member>): nat {
    if members == [] then 0 else Max(Height(members[0].value), MembersHeight(members[1..]))
  }

  function ItemsHeight(items: seq<Json>): nat {
    if items == [] then 0 else Max(Height(items[0]), ItemsHeight(items[1..]))
  }

  ghost predicate Below(t: Json, s: Json) {
    RefFree(t) && Height(t) < Height(s)
  }

  lemma {:induction false} LookupBelow(members: seq<Member>, key: string)
    requires Lookup(members, key).Some?
    ensures Height(Lookup(members, key).value) <= MembersHeight(members)
    ensures exists x :: x in members && x.name == key && x.value == Lookup(members, key).value
  {
    if members[0].name == key {
      assert members[0] in members;
    } else {
      LookupBelow(members[1..], key);
      var x :| x in members[1..] && x.name == key && x.value == Lookup(members[1..], key).value;
      assert x in members;
    }
  }

  lemma FindBelow(s: Json, key: string)
    requires RefFree(s) && Find(s, key).Some?
    ensures Below(Find(s, key).value, s) && key != "$ref"
  {
    LookupBelow(s.members, key);
  }

  lemma {:induction false} ItemBelow(items: seq<Json>, x: Json)
    requires x in items
    ensures Height(x) <= ItemsHeight(items)
  {
    if x != items[0] {
      ItemBelow(items[1..], x);
    }
  }

  lemma ElementBelow(s: Json, key: string, x: Json)
    requires RefFree(s) && Find(s, key).Some? && x in Elements(Find(s, key).value)
    ensures Below(x, s)
  {
    FindBelow(s, key);
    ItemBelow(Elements(Find(s, key).value), x);
  }

  lemma ChildBelow(s: Json, name: string, i: nat)
    requires RefFree(s)
    ensures MemberSchema(s, name).Some? ==> Below(MemberSchema(s, name).value, s)
    ensures ItemSchema(s, i).Some? ==> Below(ItemSchema(s, i).value, s)
  {
    if Find(s, "properties").Some? {
      FindBelow(s, "properties");
      if Find(Find(s, "properties").value, name).Some? {
        FindBelow(Find(s, "properties").value, name);
      }
    }
    if Find(s, "additionalProperties").Some? {
      FindBelow(s, "additionalProperties");
    }
    if Find(s, "items").Some? {
      FindBelow(s, "items");
    }
    if Find(s, "prefixItems").Some? && i < |Elements(Find(s, "prefixItems").value)| {
      ElementBelow(s, "prefixItems", Elements(Find(s, "prefixItems").value)[i]);
    }
  }

  ghost predicate AgreeBelow(a: Valuation, b: Valuation, s: Json) {
    forall t, w :: Below(t, s) ==> ((t, w) in a <==> (t, w) in b)
  }

  lemma FoundAgree(a: Valuation, b: Valuation, s: Json, key: string, v: Json)
    requires RefFree(s) && AgreeBelow(a, b, s) && Find(s, key).Some?
    ensures (Find(s, key).value, v) in a <==> (Find(s, key).value, v) in b
    ensures key != "$ref"
  {
    hide RefFree, Find;
    FindBelow(s, key);
  }

  lemma ElementsAgree(a: Valuation, b: Valuation, s: Json, key: string, v: Json)
    requires RefFree(s) && AgreeBelow(a, b, s) && Find(s, key).Some?
    ensures forall x | x in Elements(Find(s, key).value) :: (x, v) in a <==> (x, v) in b
  {
    hide RefFree, Find, Elements;
    forall x | x in Elements(Find(s, key).value) ensures (x, v) in a <==> (x, v) in b {
      ElementBelow(s, key, x);
    }
  }

  /** The keywords of a reference-free schema look only at smaller schemas. */
  lemma KeywordLocal(k: Keyword, c: Context, a: Valuation, b: Valuation, s: Json, v: Json)
    requires RefFree(s) && AgreeBelow(a, b, s)
    ensures Holds(k, c, a, s, v) == Holds(k, c, b, s, v)
  {
    hide RefFree, Find, AgreeBelow, Holds;
    match k {
      case Ref | Not => OneSchemaLocal(k, c, a, b, s, v);
      case AllOf | AnyOf | OneOf => CombinatorLocal(k, c, a, b, s, v);
      case If => IfLocal(c, a, b, s, v);
      case Members => MembersLocal(c, a, b, s, v);
      case Items => ItemsLocal(c, a, b, s, v);
      case _ => FlatLocal(k, c, a, b, s, v);
    }
  }

  lemma FlatLocal(k: Keyword, c: Context, a: Valuation, b: Valuation, s: Json, v: Json)
    requires Flat(k)
    ensures Holds(k, c, a, s, v) == Holds(k, c, b, s, v)
  {
  }

  lemma OneSchemaLocal(k: Keyword, c: Context, a: Valuation, b: Valuation, s: Json, v: Json)
    requires RefFree(s) && AgreeBelow(a, b, s) && k in {Ref, Not}
    ensures Holds(k, c, a, s, v) == Holds(k, c, b, s, v)
  {
    hide RefFree, Find, AgreeBelow;
    var key := if k == Ref then "$ref" else "not";
    if Find(s, key).Some? {
      FoundAgree(a, b, s, key, v);
    }
  }

  lemma CombinatorLocal(k: Keyword, c: Context, a: Valuation, b: Valuation, s: Json, v: Json)
    requires RefFree(s) && AgreeBelow(a, b, s) && k in {AllOf, AnyOf, OneOf}
    ensures Holds(k, c, a, s, v) == Holds(k, c, b, s, v)
  {
    hide RefFree, Find, Elements, AgreeBelow, ExactlyOne;
    if Find(s, Name(k)).Some? {
      ElementsAgree(a, b, s, Name(k), v);
      OneAgrees(a, b, Elements(Find(s, Name(k)).value), v);
    }
  }

  lemma IfLocal(c: Context, a: Valuation, b: Valuation, s: Json, v: Json)
    requires RefFree(s) && AgreeBelow(a, b, s)
    ensures Holds(If, c, a, s, v) == Holds(If, c, b, s, v)
  {
    hide RefFree, Find, AgreeBelow;
    if Find(s, "if").Some? {
      FoundAgree(a, b, s, "if", v);
      var branch := if (Find(s, "if").value, v) in a then "then" else "else";
      if Find(s, branch).Some? {
        FoundAgree(a, b, s, branch, v);
      }
    }
  }

  lemma MembersLocal(c: Context, a: Valuation, b: Valuation, s: Json, v: Json)
    requires RefFree(s) && AgreeBelow(a, b, s)
    ensures Holds(Members, c, a, s, v) == Holds(Members, c, b, s, v)
  {
    hide RefFree, Find, MemberSchema, Below;
    if v.Obj? {
      forall x | x in v.members ensures MemberHolds(a, s, x) == MemberHolds(b, s, x) {
        ChildBelow(s, x.name, 0);
      }
    }
  }

  lemma ItemsLocal(c: Context, a: Valuation, b: Valuation, s: Json, v: Json)
    requires RefFree(s) && AgreeBelow(a, b, s)
    ensures Holds(Items, c, a, s, v) == Holds(Items, c, b, s, v)
  {
    hide RefFree, Find, ItemSchema, Below;
    if v.Arr? {
      forall i | 0 <= i < |v.items| ensures ItemHolds(a, s, i, v.items[i]) == ItemHolds(b, s, i, v.items[i]) {
        ChildBelow(s, "", i);
      }
    }
  }

  lemma OneAgrees(a: Valuation, b: Valuation, schemas: seq<Json>, v: Json)
    requires forall x | x in schemas :: (x, v) in a <==> (x, v) in b
    ensures ExactlyOne(a, schemas, v) == ExactlyOne(b, schemas, v)
  {
    var n := |schemas|;
    assert forall i | 0 <= i < n :: schemas[i] in schemas;
    assert forall i :: OnlyAt(a, schemas, v, i, n) == OnlyAt(b, schemas, v, i, n);
  }

  /** A reference-free schema nested less deeply than the limit has one meaning, and the levels above the limit give it. */
  lemma {:induction false} RefFreeSettled(c: Context, n: nat, s: Json, v: Json, a: Valuation, b: Valuation)
    requires RefFree(s) && Height(s) < n
    ensures (s, v) in Level(c, n, a) <==> (s, v) in Level(c, n, b)
    decreases n
  {
    hide RefFree, Height, Holds;
    var x, y := Level(c, n - 1, a), Level(c, n - 1, b);
    forall t, w | Below(t, s) ensures (t, w) in x <==> (t, w) in y {
      RefFreeSettled(c, n - 1, t, w, a, b);
    }
    forall k: Keyword ensures Holds(k, c, x, s, v) == Holds(k, c, y, s, v) {
      KeywordLocal(k, c, x, y, s, v);
    }
    assert Rule(c, x, s, v) == Rule(c, y, s, v);
  }

  /** So such a schema is settled, whatever references the rest of the documents hold. */
  lemma RefFreeDecided(c: Context, s: Json, v: Json)
    requires RefFree(s) && Height(s) <= MAX_DEPTH
    ensures Decided(c, MAX_DEPTH + 1, s, v, (s, v) in Level(c, MAX_DEPTH + 1, iset{}))
  {
    var n := MAX_DEPTH + 1;
    var ok := (s, v) in Level(c, n, iset{});
    forall g: Valuation ensures ((s, v) in Level(c, n, g)) == ok {
      RefFreeSettled(c, n, s, v, g, iset{});
    }
  }

  /** And every meaning there is agrees with its settled answer. */
  lemma RefFreeMeant(c: Context, s: Json, v: Json, m: Valuation)
    requires RefFree(s) && Height(s) <= MAX_DEPTH && Meaning(c, m)
    ensures Decided(c, MAX_DEPTH + 1, s, v, (s, v) in m)
  {
    RefFreeDecided(c, s, v);
    SettledIsMeant(c, MAX_DEPTH + 1, s, v, (s, v) in Level(c, MAX_DEPTH + 1, iset{}), m);
  }
}
