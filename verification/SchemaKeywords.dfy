/** The keywords of a schema one by one, in terms of the members that `Find` gives and nothing else of the rules. */
module SchemaKeywords {
  import opened Bytes
  import opened SchemaEvaluator
  import opened SchemaRules

  /** `Lookup` gives the value of the first member of the name. */
  lemma {:induction false} LookupFirst(members: seq<Member>, key: string)
    ensures Lookup(members, key).None? <==> forall x | x in members :: x.name != key
    ensures forall i | 0 <= i < |members| && members[i].name == key && (forall j | 0 <= j < i :: members[j].name != key) ::
              Lookup(members, key) == Some(members[i].value)
  {
    if members != [] {
      var rest := members[1..];
      LookupFirst(rest, key);
      assert members == [members[0]] + rest;
      forall i | 0 <= i < |members| && members[i].name == key && (forall j | 0 <= j < i :: members[j].name != key)
        ensures Lookup(members, key) == Some(members[i].value)
      {
        if i > 0 {
          assert members[0].name != key && rest[i - 1] == members[i];
          assert forall j | 0 <= j < i - 1 :: rest[j] == members[j + 1];
        }
      }
    }
  }

  /** A reference is looked up in the schema, and in the whole document only when the schema does not have it. */
  lemma RefMeans(c: Context, m: Valuation, s: Json, v: Json, ref: string)
    requires Find(s, "$ref") == Some(Str(ref))
    ensures Holds(Ref, c, m, s, v) <==>
      exists t :: (t, v) in m && (c.host.resolve(c.root, ref) == Some(t)
                                  || (c.host.resolve(c.root, ref) == None && c.host.resolve(c.doc, ref) == Some(t)))
  {
    hide Find;
  }

  /**
   * Of an object's members, each that `properties` names must satisfy the schema
   * named there, whatever `additionalProperties` is; each other member must
   * satisfy `additionalProperties`, when that is present.
   */
  lemma MembersMean(c: Context, m: Valuation, s: Json, v: Json)
    requires v.Obj?
    ensures Holds(Members, c, m, s, v) <==>
      forall x | x in v.members ::
        var named := Find(s, "properties");
        if named.Some? && Find(named.value, x.name).Some? then (Find(named.value, x.name).value, x.value) in m
        else Find(s, "additionalProperties").Some? ==> (Find(s, "additionalProperties").value, x.value) in m
  {
    hide Find;
    forall x | x in v.members
      ensures MemberHolds(m, s, x) ==
        var named := Find(s, "properties");
        if named.Some? && Find(named.value, x.name).Some? then (Find(named.value, x.name).value, x.value) in m
        else Find(s, "additionalProperties").Some? ==> (Find(s, "additionalProperties").value, x.value) in m
    {
    }
  }

  /** An item is judged by the entry of `prefixItems` at its place if there is one, else by `items`. */
  lemma ItemsMean(c: Context, m: Valuation, s: Json, v: Json)
    requires v.Arr?
    ensures Holds(Items, c, m, s, v) <==>
      forall i | 0 <= i < |v.items| ::
        var prefix := Find(s, "prefixItems");
        if prefix.Some? && prefix.value.Arr? && i < |prefix.value.items| then (prefix.value.items[i], v.items[i]) in m
        else Find(s, "items").Some? ==> (Find(s, "items").value, v.items[i]) in m
  {
    hide Find;
    forall i | 0 <= i < |v.items|
      ensures ItemHolds(m, s, i, v.items[i]) ==
        var prefix := Find(s, "prefixItems");
        if prefix.Some? && prefix.value.Arr? && i < |prefix.value.items| then (prefix.value.items[i], v.items[i]) in m
        else Find(s, "items").Some? ==> (Find(s, "items").value, v.items[i]) in m
    {
    }
  }

  /** All, or at least one, of the listed schemas must hold. */
  lemma CombinatorsMean(c: Context, m: Valuation, s: Json, v: Json, list: seq<Json>)
    ensures Find(s, "allOf") == Some(Arr(list)) ==> (Holds(AllOf, c, m, s, v) <==> forall x | x in list :: (x, v) in m)
    ensures Find(s, "anyOf") == Some(Arr(list)) ==> (Holds(AnyOf, c, m, s, v) <==> exists x | x in list :: (x, v) in m)
  {
    hide Find;
  }

  /** The schema at exactly one place of the list must hold. */
  lemma OneOfMeans(c: Context, m: Valuation, s: Json, v: Json, list: seq<Json>)
    requires Find(s, "oneOf") == Some(Arr(list))
    ensures Holds(OneOf, c, m, s, v) <==>
      exists i :: 0 <= i < |list| && (list[i], v) in m && forall j | 0 <= j < |list| && j != i :: (list[j], v) !in m
  {
    hide Find;
    if i :| 0 <= i < |list| && (list[i], v) in m && forall j | 0 <= j < |list| && j != i :: (list[j], v) !in m {
      assert OnlyAt(m, list, v, i, |list|);
    }
  }

  /** One of the listed values must be the value; each listed name must be a member's. */
  lemma ListsMean(c: Context, m: Valuation, s: Json, v: Json, list: seq<Json>)
    ensures Find(s, "enum") == Some(Arr(list)) ==> (Holds(Enum, c, m, s, v) <==> exists x | x in list :: Same(x, v))
    ensures Find(s, "required") == Some(Arr(list)) && v.Obj? && (forall x | x in list :: x.Str?) ==>
      (Holds(Required, c, m, s, v) <==> forall x | x in list :: exists y | y in v.members :: y.name == x.text)
  {
    hide Find, Same;
    if Find(s, "required") == Some(Arr(list)) && v.Obj? && forall x | x in list :: x.Str? {
      RequiredMeans(c, m, s, v, list);
    }
  }

  /** A number lies within the bounds, strictly within the exclusive ones. */
  lemma RangeMeans(c: Context, m: Valuation, s: Json, v: Json, low: real, high: real, above: real, below: real, i: bool)
    requires Find(s, "minimum") == Some(Number(low, i)) && Find(s, "maximum") == Some(Number(high, i))
    requires Find(s, "exclusiveMinimum") == Some(Number(above, i)) && Find(s, "exclusiveMaximum") == Some(Number(below, i))
    ensures v.Number? ==> (Holds(Range, c, m, s, v) <==> low <= v.value <= high && above < v.value < below)
  {
    hide Find;
  }

  /** Lengths within their bounds; items all different when that is asked for. */
  lemma BoundsMean(c: Context, m: Valuation, s: Json, v: Json, low: real, high: real, i: bool)
    ensures Find(s, "minItems") == Some(Number(low, i)) && Find(s, "maxItems") == Some(Number(high, i)) && v.Arr? ==>
      (Holds(ItemCount, c, m, s, v) <==> low <= |v.items| as real <= high)
    ensures Find(s, "minLength") == Some(Number(low, i)) && Find(s, "maxLength") == Some(Number(high, i)) && v.Str? ==>
      (Holds(Length, c, m, s, v) <==> low <= |v.text| as real <= high)
    ensures Find(s, "uniqueItems") == Some(Bool(true)) && v.Arr? ==>
      (Holds(Unique, c, m, s, v) <==> forall i, j | 0 <= j < i < |v.items| :: !Same(v.items[i], v.items[j]))
    ensures Find(s, "uniqueItems") == Some(Bool(false)) ==> Holds(Unique, c, m, s, v)
  {
    hide Find, Same;
  }

  lemma RequiredMeans(c: Context, m: Valuation, s: Json, v: Json, list: seq<Json>)
    requires Find(s, "required") == Some(Arr(list)) && v.Obj? && forall x | x in list :: x.Str?
    ensures Holds(Required, c, m, s, v) <==> forall x | x in list :: exists y | y in v.members :: y.name == x.text
  {
    assert forall x | x in list :: Text(x) == x.text;
    forall x | x in list ensures Find(v, x.text).Some? <==> exists y | y in v.members :: y.name == x.text {
      LookupFirst(v.members, x.text);
    }
    hide Find;
  }

  /** The members that a keyword reads. */
  function Keys(k: Keyword): set<string> {
    match k
    case Ref => {"$ref"}
    case Type => {"type"}
    case Const => {"const"}
    case Enum => {"enum"}
    case AllOf => {"allOf"}
    case AnyOf => {"anyOf"}
    case OneOf => {"oneOf"}
    case Not => {"not"}
    case If => {"if"}
    case Required => {"required"}
    case Members => {"properties", "additionalProperties"}
    case ItemCount => {"minItems", "maxItems"}
    case Items => {"prefixItems", "items"}
    case Unique => {"uniqueItems"}
    case Length => {"minLength", "maxLength"}
    case Pattern => {"pattern"}
    case Range => {"minimum", "maximum", "exclusiveMinimum", "exclusiveMaximum"}
  }

  /** A keyword none of whose members is present demands nothing. */
  lemma SilentKeyword(k: Keyword, c: Context, m: Valuation, s: Json, v: Json)
    requires forall key | key in Keys(k) :: Find(s, key).None?
    ensures Holds(k, c, m, s, v)
  {
    hide Holds, Find;
    match k {
      case AllOf | AnyOf | OneOf | Not | If | Ref | Members | Items => SilentSubschemas(k, c, m, s, v);
      case _ => SilentFlat(k, c, m, s, v);
    }
  }

  lemma SilentFlat(k: Keyword, c: Context, m: Valuation, s: Json, v: Json)
    requires Flat(k) && forall key | key in Keys(k) :: Find(s, key).None?
    ensures Holds(k, c, m, s, v)
  {
    hide Find, Elements, OfType, TypeAllows, Same, Quantity;
  }

  lemma SilentSubschemas(k: Keyword, c: Context, m: Valuation, s: Json, v: Json)
    requires !Flat(k) && forall key | key in Keys(k) :: Find(s, key).None?
    ensures Holds(k, c, m, s, v)
  {
    hide Find, Elements, ExactlyOne, Target;
  }

  // ---- An object all of whose members are named ----

  /** `properties` names this member, and its value is settled to satisfy the schema named there. */
  ghost predicate Satisfied(c: Context, n: nat, s: Json, x: Member) {
    && Find(s, "properties").Some? && Find(Find(s, "properties").value, x.name).Some?
    && Decided(c, n, Find(Find(s, "properties").value, x.name).value, x.value, true)
  }

  /** Such an object meets the member keywords, whatever `additionalProperties` is. */
  lemma NamedMembers(c: Context, n: nat, s: Json, v: Json)
    requires v.Obj? && forall x | x in v.members :: Satisfied(c, n, s, x)
    ensures Settled(c, n, Members, s, v, true)
  {
    hide Find, Decided, Holds;
    forall g: Valuation ensures Holds(Members, c, Level(c, n, g), s, v) {
      MembersMean(c, Level(c, n, g), s, v);
      forall x | x in v.members
        ensures (Find(Find(s, "properties").value, x.name).value, x.value) in Level(c, n, g)
      {
        assert Satisfied(c, n, s, x);
        DecidedIn(c, n, Find(Find(s, "properties").value, x.name).value, x.value, g);
      }
    }
  }

  lemma DecidedIn(c: Context, n: nat, s: Json, v: Json, g: Valuation)
    requires Decided(c, n, s, v, true)
    ensures (s, v) in Level(c, n, g)
  {
  }

  /** A rejected object fails a keyword that is not settled to hold. */
  lemma SomeKeywordFails(c: Context, n: nat, s: Json, v: Json)
    requires s.Obj? && Decided(c, n + 1, s, v, false)
    ensures exists k: Keyword :: !Settled(c, n, k, s, v, true)
  {
    if forall k: Keyword :: Settled(c, n, k, s, v, true) {
      AllHold(c, n, s, v);
      NotBoth(c, n + 1, s, v);
    }
  }

  lemma NotBoth(c: Context, n: nat, s: Json, v: Json)
    ensures !(Decided(c, n, s, v, true) && Decided(c, n, s, v, false))
  {
    if Decided(c, n, s, v, true) {
      assert (s, v) in Level(c, n, iset{});
    }
  }

  lemma SilentSettled(k: Keyword, c: Context, n: nat, s: Json, v: Json)
    requires forall key | key in Keys(k) :: Find(s, key).None?
    ensures Settled(c, n, k, s, v, true)
  {
    hide Holds, Find, Level;
    forall g: Valuation ensures Holds(k, c, Level(c, n, g), s, v) {
      SilentKeyword(k, c, Level(c, n, g), s, v);
    }
  }

  /**
   * A configuration whose members are all named in `properties` and satisfy their
   * schemas is never incompatible because of `additionalProperties`: only another
   * keyword can fail, and without other keywords nothing does.
   */
  method ValidateNamedMembers(schema: Json, instance: Json, contract: Json, host: Host) returns (outcome: Outcome)
    requires schema.Obj? && instance.Obj?
    requires forall x | x in instance.members :: Satisfied(Context(schema, contract, host), MAX_DEPTH, schema, x)
    ensures outcome == Incompatible ==>
      exists k: Keyword :: k != Members && !Settled(Context(schema, contract, host), MAX_DEPTH, k, schema, instance, true)
    ensures (forall key :: key !in {"properties", "additionalProperties"} ==> Find(schema, key).None?) ==> outcome != Incompatible
  {
    hide Decided, Settled, Find, Cost, Satisfied, Keys;
    outcome := ValidateOperatorConfiguration(schema, instance, contract, host);
    ghost var c := Context(schema, contract, host);
    if outcome == Incompatible {
      NamedMembers(c, MAX_DEPTH, schema, instance);
      SomeKeywordFails(c, MAX_DEPTH, schema, instance);
      ghost var k: Keyword :| !Settled(c, MAX_DEPTH, k, schema, instance, true);
      if forall key :: key !in {"properties", "additionalProperties"} ==> Find(schema, key).None? {
        OtherKeys(k);
        SilentSettled(k, c, MAX_DEPTH, schema, instance);
      }
    }
  }

  lemma OtherKeys(k: Keyword)
    requires k != Members
    ensures "properties" !in Keys(k) && "additionalProperties" !in Keys(k)
  {
  }

  // ---- What the budget does not allow ----

  /** With `uniqueItems` the first `k` items take a step each and one for every pair of them. */
  lemma {:induction false} PairsToll(c: Context, n: nat, s: Json, items: seq<Json>, k: nat)
    requires k <= |items| && WantsUnique(s)
    ensures 2 * ItemsToll(c, n, s, items, k) >= k * (k + 1)
  {
    if k > 0 {
      PairsToll(c, n, s, items, k - 1);
      assert ItemsToll(c, n, s, items, k) >= ItemsToll(c, n, s, items, k - 1) + k;
      assert k * (k + 1) == (k - 1) * k + 2 * k;
    }
  }

  /** An array whose items must differ is never accepted when it has 447 items or more: comparing them takes the whole budget. */
  method ValidateUnique(schema: Json, instance: Json, contract: Json, host: Host) returns (outcome: Outcome)
    requires Find(schema, "uniqueItems") == Some(Bool(true)) && instance.Arr? && |instance.items| >= 447
    ensures outcome != Accepted
  {
    hide Decided, Cost, Toll, ItemsToll;
    outcome := ValidateOperatorConfiguration(schema, instance, contract, host);
    ghost var (c, n) := (Context(schema, contract, host), |instance.items|);
    PairsToll(c, MAX_DEPTH, schema, instance.items, n);
    TollParts(c, MAX_DEPTH, schema, instance);
    ManyPairs(n);
  }

  lemma ManyPairs(n: nat)
    requires n >= 447
    ensures n * (n + 1) >= 200000
  {
    assert n * (n + 1) >= 447 * 448;
  }
}
