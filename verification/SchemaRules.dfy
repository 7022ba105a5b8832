/**
 * A meaning of schemas that knows no budget, depth or order of evaluation.
 *
 * A valuation is the set of all pairs (schema, value) taken to hold. `Step`
 * applies the rules of the keywords once; a meaning of schemas is a valuation
 * that `Step` leaves unchanged. Nothing here depends on an order of evaluation.
 */
module SchemaRules {
  import opened Bytes

  datatype Member = Member(name: string, value: Json)

  datatype Json =
    | Null
    | Bool(flag: bool)
    | Number(value: real, integral: bool)
    | Str(text: string)
    | Arr(items: seq<Json>)
    | Obj(members: seq<Member>)

  datatype Search = Found | NotFound | BadPattern

  /** JSON Pointer lookup and regular expression search. */
  datatype Host = Host(resolve: (Json, string) -> Option<Json>, search: (string, string) -> Search)

  datatype Context = Context(root: Json, doc: Json, host: Host)

  const MAX_DEPTH: nat := 64
  const BUDGET: nat := 100000

  /** The first member of that name, as `HasMember` and `operator[]` find it. */
  function Find(j: Json, key: string): Option<Json> {
    if j.Obj? then Lookup(j.members, key) else None
  }

  function Lookup(members: seq<Member>, key: string): Option<Json> {
    if members == [] then None
    else if members[0].name == key then Some(members[0].value)
    else Lookup(members[1..], key)
  }

  function Elements(j: Json): seq<Json> {
    if j.Arr? then j.items else []
  }

  function Text(j: Json): string {
    if j.Str? then j.text else ""
  }

  function Quantity(j: Json): real {
    if j.Number? then j.value else 0.0
  }

  /** RapidJSON's equality: numbers by value, objects by members in any order. */
  predicate Same(a: Json, b: Json) {
    match (a, b)
    case (Null, Null) => true
    case (Bool(x), Bool(y)) => x == y
    case (Number(x, _), Number(y, _)) => x == y
    case (Str(x), Str(y)) => x == y
    case (Arr(xs), Arr(ys)) => |xs| == |ys| && forall i | 0 <= i < |xs| :: Same(xs[i], ys[i])
    case (Obj(xs), Obj(ys)) => |xs| == |ys| && forall i | 0 <= i < |xs| ::
      Lookup(ys, xs[i].name).Some? && Same(xs[i].value, Lookup(ys, xs[i].name).value)
    case _ => false
  }

  function Target(c: Context, ref: Json): Option<Json> {
    var inSchema := c.host.resolve(c.root, Text(ref));
    if inSchema.Some? then inSchema else c.host.resolve(c.doc, Text(ref))
  }

  /** The names of a value's types. */
  predicate OfType(v: Json, t: string) {
    match v
    case Null => t == "null"
    case Bool(_) => t == "boolean"
    case Number(_, integral) => t == "number" || (integral && t == "integer")
    case Str(_) => t == "string"
    case Arr(_) => t == "array"
    case Obj(_) => t == "object"
  }

  predicate TypeAllows(t: Json, v: Json) {
    match t
    case Str(name) => OfType(v, name)
    case Arr(names) => exists x | x in names :: x.Str? && OfType(v, x.text)
    case _ => false
  }

  /** The subschema that applies to a member: `properties` first, else `additionalProperties`. */
  function MemberSchema(s: Json, name: string): Option<Json> {
    var properties := Find(s, "properties");
    var named := if properties.Some? then Find(properties.value, name) else None;
    if named.Some? then named else Find(s, "additionalProperties")
  }

  function ItemSchema(s: Json, i: nat): Option<Json> {
    var prefix := Find(s, "prefixItems");
    if prefix.Some? && i < |Elements(prefix.value)| then Some(Elements(prefix.value)[i]) else Find(s, "items")
  }

  predicate WantsUnique(s: Json) {
    Find(s, "uniqueItems") == Some(Bool(true))
  }

  type Valuation = iset<(Json, Json)>

  datatype Keyword =
    | Ref | Type | Const | Enum | AllOf | AnyOf | OneOf | Not | If
    | Required | Members | ItemCount | Items | Unique | Length | Pattern | Range

  /** What keyword `k` of schema `s` demands of `v` when `m` says which pairs hold. An absent keyword demands nothing. */
  ghost predicate Holds(k: Keyword, c: Context, m: Valuation, s: Json, v: Json) {
    match k
    case Ref => Find(s, "$ref").Some? ==>
      var t := Target(c, Find(s, "$ref").value); t.Some? && (t.value, v) in m
    case Type => Find(s, "type").Some? ==> TypeAllows(Find(s, "type").value, v)
    case Const => Find(s, "const").Some? ==> Same(v, Find(s, "const").value)
    case Enum => Find(s, "enum").Some? ==> exists x | x in Elements(Find(s, "enum").value) :: Same(x, v)
    case AllOf => Find(s, "allOf").Some? ==> forall x | x in Elements(Find(s, "allOf").value) :: (x, v) in m
    case AnyOf => Find(s, "anyOf").Some? ==> exists x | x in Elements(Find(s, "anyOf").value) :: (x, v) in m
    case OneOf => Find(s, "oneOf").Some? ==> ExactlyOne(m, Elements(Find(s, "oneOf").value), v)
    case Not => Find(s, "not").Some? ==> (Find(s, "not").value, v) !in m
    case If => Find(s, "if").Some? ==>
      var branch := Find(s, if (Find(s, "if").value, v) in m then "then" else "else");
      branch.Some? ==> (branch.value, v) in m
    case Required => v.Obj? && Find(s, "required").Some? ==>
      forall x | x in Elements(Find(s, "required").value) :: Find(v, Text(x)).Some?
    case Members => v.Obj? ==> forall x | x in v.members :: MemberHolds(m, s, x)
    case ItemCount => v.Arr? ==>
      && (Find(s, "minItems").Some? ==> |v.items| as real >= Quantity(Find(s, "minItems").value))
      && (Find(s, "maxItems").Some? ==> |v.items| as real <= Quantity(Find(s, "maxItems").value))
    case Items => v.Arr? ==> forall i | 0 <= i < |v.items| :: ItemHolds(m, s, i, v.items[i])
    case Unique => v.Arr? && WantsUnique(s) ==>
      forall i, j | 0 <= j < i < |v.items| :: !Same(v.items[i], v.items[j])
    case Length => v.Str? ==>
      && (Find(s, "minLength").Some? ==> |v.text| as real >= Quantity(Find(s, "minLength").value))
      && (Find(s, "maxLength").Some? ==> |v.text| as real <= Quantity(Find(s, "maxLength").value))
    case Pattern => v.Str? && Find(s, "pattern").Some? ==>
      c.host.search(v.text, Text(Find(s, "pattern").value)) == Found
    case Range => v.Number? ==>
      && (Find(s, "minimum").Some? ==> v.value >= Quantity(Find(s, "minimum").value))
      && (Find(s, "maximum").Some? ==> v.value <= Quantity(Find(s, "maximum").value))
      && (Find(s, "exclusiveMinimum").Some? ==> v.value > Quantity(Find(s, "exclusiveMinimum").value))
      && (Find(s, "exclusiveMaximum").Some? ==> v.value < Quantity(Find(s, "exclusiveMaximum").value))
  }

  ghost predicate ExactlyOne(m: Valuation, schemas: seq<Json>, v: Json) {
    OneBelow(m, schemas, v, |schemas|)
  }

  ghost predicate OneBelow(m: Valuation, schemas: seq<Json>, v: Json, n: nat)
    requires n <= |schemas|
  {
    exists i :: OnlyAt(m, schemas, v, i, n)
  }

  ghost predicate OnlyAt(m: Valuation, schemas: seq<Json>, v: Json, i: int, n: nat)
    requires n <= |schemas|
  {
    0 <= i < n && (schemas[i], v) in m && forall j | 0 <= j < n && j != i :: (schemas[j], v) !in m
  }

  ghost predicate MemberHolds(m: Valuation, s: Json, x: Member) {
    MemberSchema(s, x.name).Some? ==> (MemberSchema(s, x.name).value, x.value) in m
  }

  ghost predicate ItemHolds(m: Valuation, s: Json, i: nat, x: Json) {
    ItemSchema(s, i).Some? ==> (ItemSchema(s, i).value, x) in m
  }

  /** A schema holds of a value: a boolean schema is its own answer, an object schema is the conjunction of its keywords. */
  ghost predicate Rule(c: Context, m: Valuation, s: Json, v: Json) {
    match s
    case Bool(b) => b
    case Obj(_) => forall k: Keyword :: Holds(k, c, m, s, v)
    case _ => false
  }

  ghost function Step(c: Context, m: Valuation): Valuation {
    iset p: (Json, Json) | Rule(c, m, p.0, p.1)
  }

  /** `n` levels of subschemas by the rules, with `g` for everything deeper. */
  ghost function Level(c: Context, n: nat, g: Valuation): Valuation {
    if n == 0 then g else Step(c, Level(c, n - 1, g))
  }

  /** `n` levels of subschemas give the answer `ok`, whatever is taken to hold deeper. */
  ghost predicate Decided(c: Context, n: nat, s: Json, v: Json, ok: bool) {
    forall g: Valuation :: ((s, v) in Level(c, n, g)) == ok
  }

  /** The same for one keyword, whose subschemas have `n` levels. */
  ghost predicate Settled(c: Context, n: nat, k: Keyword, s: Json, v: Json, ok: bool) {
    forall g: Valuation :: Holds(k, c, Level(c, n, g), s, v) == ok
  }

  function Fuel(depth: nat): nat {
    if depth <= MAX_DEPTH then MAX_DEPTH + 1 - depth else 0
  }

  /** One failing keyword settles an object schema, whatever the others do. */
  lemma Conclude(c: Context, n: nat, k: Keyword, s: Json, v: Json, ok: bool)
    requires s.Obj? && Settled(c, n, k, s, v, ok)
    ensures !ok ==> Decided(c, n + 1, s, v, false)
  {
    hide Holds;
    if !ok {
      var up := n + 1;
      forall g: Valuation ensures (s, v) !in Level(c, up, g) {
        assert !Holds(k, c, Level(c, n, g), s, v);
      }
    }
  }

  lemma AllHold(c: Context, n: nat, s: Json, v: Json)
    requires s.Obj? && forall k: Keyword :: Settled(c, n, k, s, v, true)
    ensures Decided(c, n + 1, s, v, true)
  {
    hide Holds;
    var up := n + 1;
    forall g: Valuation ensures (s, v) in Level(c, up, g) {
      forall k: Keyword ensures Holds(k, c, Level(c, n, g), s, v) {
        assert Settled(c, n, k, s, v, true);
      }
    }
  }

  lemma PlainDecided(c: Context, n: nat, s: Json, v: Json)
    requires !s.Obj?
    ensures Decided(c, n + 1, s, v, s.Bool? && s.flag)
  {
  }

  /** Keywords without subschemas do not depend on the valuation. */
  predicate Flat(k: Keyword) {
    k in {Type, Const, Enum, Required, ItemCount, Unique, Length, Pattern, Range}
  }

  lemma FlatSettled(c: Context, n: nat, k: Keyword, s: Json, v: Json)
    requires Flat(k)
    ensures Settled(c, n, k, s, v, Holds(k, c, iset{}, s, v))
  {
  }

  /** The steps that evaluating everything takes; passing the depth limit costs the whole budget. */
  ghost function Cost(c: Context, n: nat, s: Json, v: Json): nat
    decreases n, 0
  {
    if n == 0 then BUDGET
    else if !s.Obj? then 1
    else
      1 + RefCost(c, n - 1, s, v) + KeyCost(c, n - 1, s, "allOf", v) + KeyCost(c, n - 1, s, "anyOf", v)
      + KeyCost(c, n - 1, s, "oneOf", v) + FoundCost(c, n - 1, Find(s, "not"), v) + IfCost(c, n - 1, s, v)
      + (if v.Obj? then MembersCost(c, n - 1, s, v.members, |v.members|) else 0)
      + (if v.Arr? then ItemsCost(c, n - 1, s, v.items, |v.items|) else 0)
  }

  ghost function FoundCost(c: Context, n: nat, s: Option<Json>, v: Json): nat
    decreases n, 1
  {
    if s.Some? then Cost(c, n, s.value, v) else 0
  }

  ghost function RefCost(c: Context, n: nat, s: Json, v: Json): nat
    decreases n, 2
  {
    if Find(s, "$ref").Some? then FoundCost(c, n, Target(c, Find(s, "$ref").value), v) else 0
  }

  ghost function KeyCost(c: Context, n: nat, s: Json, key: string, v: Json): nat
    decreases n, 3
  {
    if Find(s, key).Some? then
      var schemas := Elements(Find(s, key).value); ListCost(c, n, schemas, v, |schemas|)
    else 0
  }

  ghost function ListCost(c: Context, n: nat, schemas: seq<Json>, v: Json, k: nat): nat
    requires k <= |schemas|
    decreases n, 2, k
  {
    if k == 0 then 0 else ListCost(c, n, schemas, v, k - 1) + Cost(c, n, schemas[k - 1], v)
  }

  ghost function IfCost(c: Context, n: nat, s: Json, v: Json): nat
    decreases n, 2
  {
    if Find(s, "if").None? then 0
    else
      Cost(c, n, Find(s, "if").value, v) + Max(FoundCost(c, n, Find(s, "then"), v), FoundCost(c, n, Find(s, "else"), v))
  }

  ghost function MembersCost(c: Context, n: nat, s: Json, members: seq<Member>, k: nat): nat
    requires k <= |members|
    decreases n, 2, k
  {
    if k == 0 then 0
    else
      MembersCost(c, n, s, members, k - 1) + FoundCost(c, n, MemberSchema(s, members[k - 1].name), members[k - 1].value)
  }

  ghost function ItemsCost(c: Context, n: nat, s: Json, items: seq<Json>, k: nat): nat
    requires k <= |items|
    decreases n, 3, k
  {
    if k == 0 then 0
    else
      ItemsCost(c, n, s, items, k - 1) + ItemCostOf(c, n, s, k - 1, items[k - 1])
  }

  ghost function ItemCostOf(c: Context, n: nat, s: Json, i: nat, x: Json): nat
    decreases n, 2
  {
    1 + FoundCost(c, n, ItemSchema(s, i), x) + (if WantsUnique(s) then i else 0)
  }

  lemma {:induction false} MembersCostRises(c: Context, n: nat, s: Json, members: seq<Member>, k: nat, all: nat)
    requires k <= all <= |members|
    ensures MembersCost(c, n, s, members, k) <= MembersCost(c, n, s, members, all)
    decreases all
  {
    if k < all {
      MembersCostRises(c, n, s, members, k, all - 1);
    }
  }

  lemma {:induction false} ItemsCostRises(c: Context, n: nat, s: Json, items: seq<Json>, k: nat, all: nat)
    requires k <= all <= |items|
    ensures ItemsCost(c, n, s, items, k) <= ItemsCost(c, n, s, items, all)
    decreases all
  {
    if k < all {
      ItemsCostRises(c, n, s, items, k, all - 1);
    }
  }

  /** A budget larger than the cost lasts. */
  ghost predicate Lasts(start: nat, budget: nat, cost: nat) {
    cost < start <= BUDGET ==> budget >= start - cost
  }

  /** What two parts may spend, their whole may. */
  lemma LastsThen(start: nat, middle: nat, end: nat, first: nat, second: nat)
    requires end <= middle <= start && Lasts(start, middle, first) && Lasts(middle, end, second)
    ensures forall total: nat :: first + second <= total ==> Lasts(start, end, total)
  {
  }

  /** The steps that accepting a value takes at least: one for each schema, item and comparison that cannot be left out. */
  ghost function Toll(c: Context, n: nat, s: Json, v: Json): nat
    decreases n, 0
  {
    if n == 0 || !s.Obj? then 1
    else
      1 + RefToll(c, n - 1, s, v) + (ListToll(s, "allOf") + ListToll(s, "anyOf") + ListToll(s, "oneOf"))
      + ((if Find(s, "not").Some? then 1 else 0) + (if Find(s, "if").Some? then 1 else 0))
      + (if v.Obj? then MembersToll(c, n - 1, s, v.members, |v.members|) else 0)
      + (if v.Arr? then ItemsToll(c, n - 1, s, v.items, |v.items|) else 0)
  }

  ghost function RefToll(c: Context, n: nat, s: Json, v: Json): nat
    decreases n, 2
  {
    if Find(s, "$ref").Some? then FoundToll(c, n, Target(c, Find(s, "$ref").value), v) else 0
  }

  ghost function FoundToll(c: Context, n: nat, s: Option<Json>, v: Json): nat
    decreases n, 1
  {
    if s.Some? then Toll(c, n, s.value, v) else 0
  }

  ghost function ListToll(s: Json, key: string): nat {
    if Find(s, key).Some? then |Elements(Find(s, key).value)| else 0
  }

  ghost function MembersToll(c: Context, n: nat, s: Json, members: seq<Member>, k: nat): nat
    requires k <= |members|
    decreases n, 2, k
  {
    if k == 0 then 0
    else
      MembersToll(c, n, s, members, k - 1) + FoundToll(c, n, MemberSchema(s, members[k - 1].name), members[k - 1].value)
  }

  ghost function ItemsToll(c: Context, n: nat, s: Json, items: seq<Json>, k: nat): nat
    requires k <= |items|
    decreases n, 3, k
  {
    if k == 0 then 0 else ItemsToll(c, n, s, items, k - 1) + ItemToll(c, n, s, k - 1, items[k - 1])
  }

  ghost function ItemToll(c: Context, n: nat, s: Json, i: nat, x: Json): nat
    decreases n, 2
  {
    1 + FoundToll(c, n, ItemSchema(s, i), x) + (if WantsUnique(s) then i else 0)
  }

  /** What is left after paying the toll. */
  ghost predicate Paid(start: nat, budget: nat, ok: bool, toll: nat) {
    ok && budget > 0 ==> budget + toll <= start
  }

  lemma TollParts(c: Context, n: nat, s: Json, v: Json)
    requires s.Obj?
    ensures Toll(c, n + 1, s, v) == 1 + RefToll(c, n, s, v)
      + (ListToll(s, "allOf") + ListToll(s, "anyOf") + ListToll(s, "oneOf"))
      + RestToll(c, n, s, v)
  {
    hide RefToll, ListToll, MembersToll, ItemsToll, Find;
  }

  /** The parts of the conditions, the members and the items. */
  ghost function RestToll(c: Context, n: nat, s: Json, v: Json): nat {
    ((if Find(s, "not").Some? then 1 else 0) + (if Find(s, "if").Some? then 1 else 0))
    + (if v.Obj? then MembersToll(c, n, s, v.members, |v.members|) else 0)
    + (if v.Arr? then ItemsToll(c, n, s, v.items, |v.items|) else 0)
  }

  ghost function RestCost(c: Context, n: nat, s: Json, v: Json): nat {
    (FoundCost(c, n, Find(s, "not"), v) + IfCost(c, n, s, v))
    + (if v.Obj? then MembersCost(c, n, s, v.members, |v.members|) else 0)
    + (if v.Arr? then ItemsCost(c, n, s, v.items, |v.items|) else 0)
  }

  lemma CostParts(c: Context, n: nat, s: Json, v: Json)
    requires s.Obj?
    ensures Cost(c, n + 1, s, v) == 1 + RefCost(c, n, s, v)
      + (KeyCost(c, n, s, "allOf", v) + KeyCost(c, n, s, "anyOf", v) + KeyCost(c, n, s, "oneOf", v)) + RestCost(c, n, s, v)
  {
    hide RefCost, KeyCost, FoundCost, IfCost, MembersCost, ItemsCost, Find;
  }

  // ---- How keywords settle ----

  lemma Everything(c: Context, n: nat, s: Json, v: Json)
    requires s.Obj?
    requires Settled(c, n, Ref, s, v, true) && Settled(c, n, Type, s, v, true) && Settled(c, n, Const, s, v, true)
    requires Settled(c, n, Enum, s, v, true) && Settled(c, n, AllOf, s, v, true) && Settled(c, n, AnyOf, s, v, true)
    requires Settled(c, n, OneOf, s, v, true) && Settled(c, n, Not, s, v, true) && Settled(c, n, If, s, v, true)
    requires Settled(c, n, Required, s, v, true) && Settled(c, n, Members, s, v, true)
    requires Settled(c, n, ItemCount, s, v, true) && Settled(c, n, Items, s, v, true) && Settled(c, n, Unique, s, v, true)
    requires Settled(c, n, Length, s, v, true) && Settled(c, n, Pattern, s, v, true) && Settled(c, n, Range, s, v, true)
    ensures Decided(c, n + 1, s, v, true)
  {
    hide Settled, Decided;
    forall k: Keyword ensures Settled(c, n, k, s, v, true) {
      match k {
        case Ref => case Type => case Const => case Enum => case AllOf => case AnyOf => case OneOf => case Not =>
        case If => case Required => case Members => case ItemCount => case Items => case Unique =>
        case Length => case Pattern => case Range =>
      }
    }
    AllHold(c, n, s, v);
  }

  lemma RefSettled(c: Context, n: nat, s: Json, v: Json, ok: bool)
    requires Find(s, "$ref").None? ==> ok
    requires Find(s, "$ref").Some? && Target(c, Find(s, "$ref").value).None? ==> !ok
    requires Find(s, "$ref").Some? && Target(c, Find(s, "$ref").value).Some? ==>
      Decided(c, n, Target(c, Find(s, "$ref").value).value, v, ok)
    ensures Settled(c, n, Ref, s, v, ok)
  {
  }

  /** How many of the first `n` subschemas hold. */
  ghost function Matches(m: Valuation, schemas: seq<Json>, v: Json, n: nat): (r: nat)
    requires n <= |schemas|
    ensures r <= n
  {
    if n == 0 then 0 else Matches(m, schemas, v, n - 1) + (if (schemas[n - 1], v) in m then 1 else 0)
  }

  lemma {:induction false} MatchesNone(m: Valuation, schemas: seq<Json>, v: Json, n: nat)
    requires n <= |schemas|
    ensures Matches(m, schemas, v, n) == 0 <==> forall i | 0 <= i < n :: (schemas[i], v) !in m
  {
    if n > 0 {
      MatchesNone(m, schemas, v, n - 1);
    }
  }

  lemma {:induction false} MatchesAll(m: Valuation, schemas: seq<Json>, v: Json, n: nat)
    requires n <= |schemas|
    ensures Matches(m, schemas, v, n) == n <==> forall i | 0 <= i < n :: (schemas[i], v) in m
  {
    if n > 0 {
      MatchesAll(m, schemas, v, n - 1);
    }
  }

  lemma {:induction false} MatchesOne(m: Valuation, schemas: seq<Json>, v: Json, n: nat)
    requires n <= |schemas|
    ensures Matches(m, schemas, v, n) == 1 <==> OneBelow(m, schemas, v, n)
  {
    if n > 0 {
      var last := n - 1;
      MatchesNone(m, schemas, v, last);
      MatchesOne(m, schemas, v, last);
      if (schemas[last], v) in m {
        assert Matches(m, schemas, v, n) == 1 ==> OnlyAt(m, schemas, v, last, n);
      } else if i :| OnlyAt(m, schemas, v, i, last) {
        assert OnlyAt(m, schemas, v, i, n);
      }
      if i :| OnlyAt(m, schemas, v, i, n) {
        assert i < last ==> OnlyAt(m, schemas, v, i, last);
      }
    }
  }

  ghost predicate Counted(c: Context, n: nat, schemas: seq<Json>, v: Json, i: nat, matches: nat)
    requires i <= |schemas|
  {
    forall g: Valuation :: Matches(Level(c, n, g), schemas, v, i) == matches
  }

  lemma CountedNext(c: Context, n: nat, schemas: seq<Json>, v: Json, i: nat, matches: nat, ok: bool)
    requires i < |schemas| && Counted(c, n, schemas, v, i, matches) && Decided(c, n, schemas[i], v, ok)
    ensures Counted(c, n, schemas, v, i + 1, matches + if ok then 1 else 0)
  {
  }

  predicate Enough(k: Keyword, matches: nat, size: nat) {
    match k
    case AllOf => matches == size
    case AnyOf => matches > 0
    case _ => matches == 1
  }

  lemma CombinatorSettled(c: Context, n: nat, k: Keyword, s: Json, v: Json, matches: nat)
    requires k in {AllOf, AnyOf, OneOf} && Find(s, Name(k)).Some?
    requires var schemas := Elements(Find(s, Name(k)).value); Counted(c, n, schemas, v, |schemas|, matches)
    ensures Settled(c, n, k, s, v, Enough(k, matches, |Elements(Find(s, Name(k)).value)|))
  {
    hide Level, Elements, Find, Holds, Enough, Matches;
    var schemas := Elements(Find(s, Name(k)).value);
    forall g: Valuation ensures Holds(k, c, Level(c, n, g), s, v) == Enough(k, matches, |schemas|) {
      assert Matches(Level(c, n, g), schemas, v, |schemas|) == matches;
      CombinatorCounts(c, Level(c, n, g), k, s, v);
    }
  }

  lemma CombinatorCounts(c: Context, m: Valuation, k: Keyword, s: Json, v: Json)
    requires k in {AllOf, AnyOf, OneOf} && Find(s, Name(k)).Some?
    ensures var schemas := Elements(Find(s, Name(k)).value);
            Holds(k, c, m, s, v) == Enough(k, Matches(m, schemas, v, |schemas|), |schemas|)
  {
    hide Elements, Find, Matches;
    var schemas := Elements(Find(s, Name(k)).value);
    match k {
      case AllOf => MatchesAll(m, schemas, v, |schemas|);
      case AnyOf => MatchesNone(m, schemas, v, |schemas|);
      case OneOf => MatchesOne(m, schemas, v, |schemas|);
    }
  }

  function Name(k: Keyword): string {
    match k
    case AllOf => "allOf"
    case AnyOf => "anyOf"
    case _ => "oneOf"
  }

  lemma Absent(c: Context, n: nat, k: Keyword, s: Json, v: Json)
    requires k in {AllOf, AnyOf, OneOf} && Find(s, Name(k)).None?
    ensures Settled(c, n, k, s, v, true)
  {
  }

  lemma NotSettled(c: Context, n: nat, s: Json, v: Json, ok: bool)
    requires Find(s, "not").None? ==> ok
    requires Find(s, "not").Some? ==> Decided(c, n, Find(s, "not").value, v, !ok)
    ensures Settled(c, n, Not, s, v, ok)
  {
  }

  lemma IfSettled(c: Context, n: nat, s: Json, v: Json, met: bool, ok: bool)
    requires Find(s, "if").None? ==> ok
    requires Find(s, "if").Some? ==>
      && Decided(c, n, Find(s, "if").value, v, met)
      && var branch := Find(s, if met then "then" else "else");
         if branch.Some? then Decided(c, n, branch.value, v, ok) else ok
    ensures Settled(c, n, If, s, v, ok)
  {
    if Find(s, "if").Some? {
      forall g: Valuation ensures Holds(If, c, Level(c, n, g), s, v) == ok {
        assert ((Find(s, "if").value, v) in Level(c, n, g)) == met;
      }
    }
  }

  ghost predicate MemberDecided(c: Context, n: nat, s: Json, x: Member, ok: bool) {
    forall g: Valuation :: MemberHolds(Level(c, n, g), s, x) == ok
  }

  ghost predicate ItemDecided(c: Context, n: nat, s: Json, i: nat, x: Json, ok: bool) {
    forall g: Valuation :: ItemHolds(Level(c, n, g), s, i, x) == ok
  }

  lemma MemberFails(c: Context, n: nat, s: Json, v: Json, i: nat)
    requires v.Obj? && i < |v.members| && MemberDecided(c, n, s, v.members[i], false)
    ensures Settled(c, n, Members, s, v, false)
  {
    forall g: Valuation ensures !Holds(Members, c, Level(c, n, g), s, v) {
      assert !MemberHolds(Level(c, n, g), s, v.members[i]);
      assert v.members[i] in v.members;
    }
  }

  lemma MembersPass(c: Context, n: nat, s: Json, v: Json)
    requires v.Obj? ==> forall j | 0 <= j < |v.members| :: MemberDecided(c, n, s, v.members[j], true)
    ensures Settled(c, n, Members, s, v, true)
  {
    if v.Obj? {
      forall g: Valuation ensures Holds(Members, c, Level(c, n, g), s, v) {
        forall x | x in v.members ensures MemberHolds(Level(c, n, g), s, x) {
          var j :| 0 <= j < |v.members| && v.members[j] == x;
          assert MemberDecided(c, n, s, v.members[j], true);
        }
      }
    }
  }

  predicate Distinct(items: seq<Json>, n: nat)
    requires n <= |items|
  {
    forall a, b | 0 <= b < a < n :: !Same(items[a], items[b])
  }

  lemma UniqueFails(c: Context, n: nat, s: Json, v: Json, i: nat)
    requires v.Arr? && WantsUnique(s) && i < |v.items| && exists j | 0 <= j < i :: Same(v.items[i], v.items[j])
    ensures Settled(c, n, Unique, s, v, false)
  {
  }

  lemma ItemFails(c: Context, n: nat, s: Json, v: Json, i: nat)
    requires v.Arr? && i < |v.items| && ItemDecided(c, n, s, i, v.items[i], false)
    ensures Settled(c, n, Items, s, v, false)
  {
    forall g: Valuation ensures !Holds(Items, c, Level(c, n, g), s, v) {
      assert !ItemHolds(Level(c, n, g), s, i, v.items[i]);
    }
  }

  lemma ItemsPass(c: Context, n: nat, s: Json, v: Json)
    requires v.Arr? ==> forall j | 0 <= j < |v.items| :: ItemDecided(c, n, s, j, v.items[j], true)
    ensures Settled(c, n, Items, s, v, true)
  {
    if v.Arr? {
      forall g: Valuation ensures Holds(Items, c, Level(c, n, g), s, v) {
        forall j | 0 <= j < |v.items| ensures ItemHolds(Level(c, n, g), s, j, v.items[j]) {
          assert ItemDecided(c, n, s, j, v.items[j], true);
        }
      }
    }
  }
}
