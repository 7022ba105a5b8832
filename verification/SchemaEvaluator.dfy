/** The budgeted schema evaluator, proved against the rules. */
module SchemaEvaluator {
  import opened Bytes
  import opened SchemaRules

  /** `Check`: false with the budget at zero when it runs out or the depth passes the limit; else the answer. */
  method Check(c: Context, s: Json, v: Json, depth: nat, start: nat) returns (ok: bool, budget: nat)
    ensures budget <= start
    ensures budget > 0 ==> Decided(c, Fuel(depth), s, v, ok)
    ensures Lasts(start, budget, Cost(c, Fuel(depth), s, v))
    ensures Paid(start, budget, true, 1) && Paid(start, budget, ok, Toll(c, Fuel(depth), s, v))
    decreases start, 0
  {
    hide Holds, Decided, Settled, Find, KeyCost, RefCost, FoundCost, IfCost, MembersCost, ItemsCost, RefToll, ListToll, MembersToll, ItemsToll;
    if start == 0 || depth > MAX_DEPTH {
      return false, 0;
    }
    if !s.Obj? {
      PlainDecided(c, Fuel(depth + 1), s, v);
      return s.Bool? && s.flag, start - 1;
    }
    ok, budget := CheckKeywords(c, s, v, depth, start - 1);
  }

  /** The keywords of an object schema, in the order of the source. */
  method CheckKeywords(c: Context, s: Json, v: Json, depth: nat, start: nat) returns (ok: bool, budget: nat)
    requires s.Obj? && depth <= MAX_DEPTH
    ensures budget <= start
    ensures budget > 0 ==> Decided(c, Fuel(depth), s, v, ok)
    ensures Lasts(start + 1, budget, Cost(c, Fuel(depth), s, v))
    ensures Paid(start + 1, budget, ok, Toll(c, Fuel(depth), s, v))
    decreases start, 5
  {
    hide Holds, Decided, Settled, Find, Cost, KeyCost, RefCost, RestCost, Lasts, Fuel, Flat, Toll, RefToll, ListToll, RestToll;
    ghost var n := Fuel(depth + 1);
    FuelStep(depth);
    CostParts(c, n, s, v);
    TollParts(c, n, s, v);
    ghost var spent, last := 1, start;
    LastsOne(start);
    ok, budget := CheckRef(c, s, v, depth, start);
    LastsThen(start + 1, last, budget, spent, RefCost(c, n, s, v));
    spent, last := spent + RefCost(c, n, s, v), budget;
    if ok {
      ok := CheckValues(c, n, s, v);
    }
    if !ok {
      return;
    }
    ok, budget := CheckCombinators(c, s, v, depth, budget);
    ghost var part := KeyCost(c, n, s, "allOf", v) + KeyCost(c, n, s, "anyOf", v) + KeyCost(c, n, s, "oneOf", v);
    LastsThen(start + 1, last, budget, spent, part);
    spent, last := spent + part, budget;
    if !ok {
      return;
    }
    ok, budget := CheckRest(c, s, v, depth, budget);
    LastsThen(start + 1, last, budget, spent, RestCost(c, n, s, v));
    if !ok {
      return;
    }
    ok := CheckScalars(c, n, s, v);
    if ok && budget > 0 {
      Everything(c, n, s, v);
    }
  }

  /** The keywords for conditions, objects and arrays. */
  method CheckRest(c: Context, s: Json, v: Json, depth: nat, start: nat) returns (ok: bool, budget: nat)
    requires s.Obj? && depth <= MAX_DEPTH
    ensures budget <= start
    ensures var n := Fuel(depth + 1);
            budget > 0 && ok ==>
              && Settled(c, n, Not, s, v, true) && Settled(c, n, If, s, v, true)
              && Settled(c, n, Required, s, v, true) && Settled(c, n, Members, s, v, true)
              && Settled(c, n, ItemCount, s, v, true) && Settled(c, n, Items, s, v, true) && Settled(c, n, Unique, s, v, true)
    ensures budget > 0 && !ok ==> Decided(c, Fuel(depth), s, v, false)
    ensures Lasts(start, budget, RestCost(c, Fuel(depth + 1), s, v)) && Paid(start, budget, ok, RestToll(c, Fuel(depth + 1), s, v))
    decreases start, 4
  {
    hide Decided, Settled, Find, FoundCost, IfCost, MembersCost, ItemsCost, Lasts, Fuel, MembersToll, ItemsToll;
    ghost var n := Fuel(depth + 1);
    ok, budget := CheckConditions(c, s, v, depth, start);
    ghost var (spent, last) := (FoundCost(c, n, Find(s, "not"), v) + IfCost(c, n, s, v), budget);
    LastsThen(start, start, last, 0, spent);
    if !ok {
      return;
    }
    ok, budget := CheckMembers(c, s, v, depth, budget);
    ghost var part := if v.Obj? then MembersCost(c, n, s, v.members, |v.members|) else 0;
    LastsThen(start, last, budget, spent, part);
    spent, last := spent + part, budget;
    if !ok {
      return;
    }
    ok, budget := CheckItems(c, s, v, depth, budget);
    LastsThen(start, last, budget, spent, if v.Arr? then ItemsCost(c, n, s, v.items, |v.items|) else 0);
  }

  lemma FuelStep(depth: nat)
    requires depth <= MAX_DEPTH
    ensures Fuel(depth) == Fuel(depth + 1) + 1
  {
  }

  lemma LastsOne(start: nat)
    ensures Lasts(start + 1, start, 1)
  {
  }

  method CheckRef(c: Context, s: Json, v: Json, depth: nat, start: nat) returns (ok: bool, budget: nat)
    requires s.Obj? && depth <= MAX_DEPTH
    ensures budget <= start
    ensures budget > 0 && ok ==> Settled(c, Fuel(depth + 1), Ref, s, v, true)
    ensures budget > 0 && !ok ==> Decided(c, Fuel(depth), s, v, false)
    ensures Lasts(start, budget, RefCost(c, Fuel(depth + 1), s, v)) && Paid(start, budget, ok, RefToll(c, Fuel(depth + 1), s, v))
    decreases start, 1
  {
    hide Decided, Cost, Toll;
    ok, budget := true, start;
    var ref := Find(s, "$ref");
    if ref.Some? {
      var target := c.host.resolve(c.root, Text(ref.value));
      if target.None? {
        target := c.host.resolve(c.doc, Text(ref.value));
      }
      if target.Some? {
        ok, budget := Check(c, target.value, v, depth + 1, start);
      } else {
        ok := false;
      }
    }
    if budget > 0 {
      RefSettled(c, Fuel(depth + 1), s, v, ok);
      Conclude(c, Fuel(depth + 1), Ref, s, v, ok);
    }
  }

  /** `type`, `const` and `enum`. */
  method CheckValues(c: Context, ghost n: nat, s: Json, v: Json) returns (ok: bool)
    requires s.Obj?
    ensures ok ==> Settled(c, n, Type, s, v, true) && Settled(c, n, Const, s, v, true) && Settled(c, n, Enum, s, v, true)
    ensures !ok ==> Decided(c, n + 1, s, v, false)
  {
    hide Decided, Settled;
    FlatSettled(c, n, Type, s, v);
    FlatSettled(c, n, Const, s, v);
    FlatSettled(c, n, Enum, s, v);
    ok := true;
    if Find(s, "type").Some? {
      ok := CheckType(Find(s, "type").value, v);
    }
    Conclude(c, n, Type, s, v, ok);
    if !ok {
      return;
    }
    ok := Find(s, "const").Some? ==> Same(v, Find(s, "const").value);
    Conclude(c, n, Const, s, v, ok);
    if !ok {
      return;
    }
    if Find(s, "enum").Some? {
      ok := CheckEnum(c, Elements(Find(s, "enum").value), v);
    }
    Conclude(c, n, Enum, s, v, ok);
  }

  method MatchType(v: Json, t: string) returns (ok: bool)
    ensures ok == OfType(v, t)
  {
    if t == "object" {
      ok := v.Obj?;
    } else if t == "array" {
      ok := v.Arr?;
    } else if t == "string" {
      ok := v.Str?;
    } else if t == "integer" {
      ok := v.Number? && v.integral;
    } else if t == "number" {
      ok := v.Number?;
    } else if t == "boolean" {
      ok := v.Bool?;
    } else if t == "null" {
      ok := v.Null?;
    } else {
      ok := false;
    }
  }

  method CheckType(t: Json, v: Json) returns (valid: bool)
    ensures valid == TypeAllows(t, v)
  {
    hide OfType;
    valid := false;
    if t.Str? {
      valid := MatchType(v, t.text);
    } else if t.Arr? {
      for i := 0 to |t.items|
        invariant valid <==> exists j | 0 <= j < i :: t.items[j].Str? && OfType(v, t.items[j].text)
      {
        if t.items[i].Str? {
          var one := MatchType(v, t.items[i].text);
          valid := valid || one;
        }
      }
      assert forall x | x in t.items :: exists j | 0 <= j < |t.items| :: t.items[j] == x;
    }
  }

  method CheckEnum(c: Context, values: seq<Json>, v: Json) returns (ok: bool)
    ensures ok <==> exists x | x in values :: Same(x, v)
  {
    ok := false;
    for i := 0 to |values|
      invariant ok <==> exists j | 0 <= j < i :: Same(values[j], v)
    {
      ok := ok || Same(values[i], v);
    }
    assert forall x | x in values :: exists j | 0 <= j < |values| :: values[j] == x;
  }

  /** How many of the subschemas hold. */
  method Tally(c: Context, schemas: seq<Json>, v: Json, depth: nat, start: nat) returns (matches: nat, budget: nat)
    ensures budget <= start
    ensures budget > 0 ==> Counted(c, Fuel(depth + 1), schemas, v, |schemas|, matches)
    ensures Lasts(start, budget, ListCost(c, Fuel(depth + 1), schemas, v, |schemas|)) && Paid(start, budget, true, |schemas|)
    decreases start, 1
  {
    hide Decided, Cost, Toll;
    matches, budget := 0, start;
    for i := 0 to |schemas|
      invariant budget <= start && Paid(start, budget, true, i)
      invariant budget > 0 ==> Counted(c, Fuel(depth + 1), schemas, v, i, matches)
      invariant Lasts(start, budget, ListCost(c, Fuel(depth + 1), schemas, v, i))
    {
      ghost var before := budget;
      var ok;
      ok, budget := Check(c, schemas[i], v, depth + 1, budget);
      if budget > 0 {
        CountedNext(c, Fuel(depth + 1), schemas, v, i, matches, ok);
      }
      matches := matches + (if ok then 1 else 0);
    }
  }

  /** `allOf`, `anyOf` and `oneOf`, which count their matches without stopping early. */
  method CheckCombinators(c: Context, s: Json, v: Json, depth: nat, start: nat) returns (ok: bool, budget: nat)
    requires s.Obj? && depth <= MAX_DEPTH
    ensures budget <= start
    ensures budget > 0 && ok ==> Settled(c, Fuel(depth + 1), AllOf, s, v, true)
                                 && Settled(c, Fuel(depth + 1), AnyOf, s, v, true)
                                 && Settled(c, Fuel(depth + 1), OneOf, s, v, true)
    ensures budget > 0 && !ok ==> Decided(c, Fuel(depth), s, v, false)
    ensures var n := Fuel(depth + 1);
            Lasts(start, budget, KeyCost(c, n, s, "allOf", v) + KeyCost(c, n, s, "anyOf", v) + KeyCost(c, n, s, "oneOf", v))
    ensures Paid(start, budget, ok, ListToll(s, "allOf") + ListToll(s, "anyOf") + ListToll(s, "oneOf"))
    decreases start, 3
  {
    hide Decided, Settled, KeyCost, ListToll;
    ok, budget := CheckCombinator(c, AllOf, s, v, depth, start);
    if ok {
      ok, budget := CheckCombinator(c, AnyOf, s, v, depth, budget);
    }
    if ok {
      ok, budget := CheckCombinator(c, OneOf, s, v, depth, budget);
    }
  }

  method CheckCombinator(c: Context, k: Keyword, s: Json, v: Json, depth: nat, start: nat) returns (ok: bool, budget: nat)
    requires s.Obj? && depth <= MAX_DEPTH && k in {AllOf, AnyOf, OneOf}
    ensures budget <= start
    ensures budget > 0 && ok ==> Settled(c, Fuel(depth + 1), k, s, v, true)
    ensures budget > 0 && !ok ==> Decided(c, Fuel(depth), s, v, false)
    ensures Lasts(start, budget, KeyCost(c, Fuel(depth + 1), s, Name(k), v)) && Paid(start, budget, ok, ListToll(s, Name(k)))
    decreases start, 2
  {
    hide Decided, Settled, Holds, Counted, ListCost;
    ghost var n := Fuel(depth + 1);
    var list := Find(s, Name(k));
    if list.None? {
      Absent(c, n, k, s, v);
      return true, start;
    }
    var schemas := Elements(list.value);
    var matches;
    matches, budget := Tally(c, schemas, v, depth, start);
    ok := Enough(k, matches, |schemas|);
    if budget > 0 {
      CombinatorSettled(c, n, k, s, v, matches);
      Conclude(c, n, k, s, v, ok);
    }
  }

  /** `not`, and `if` with its branches. */
  method CheckConditions(c: Context, s: Json, v: Json, depth: nat, start: nat) returns (ok: bool, budget: nat)
    requires s.Obj? && depth <= MAX_DEPTH
    ensures budget <= start
    ensures budget > 0 && ok ==> Settled(c, Fuel(depth + 1), Not, s, v, true) && Settled(c, Fuel(depth + 1), If, s, v, true)
    ensures budget > 0 && !ok ==> Decided(c, Fuel(depth), s, v, false)
    ensures Lasts(start, budget, FoundCost(c, Fuel(depth + 1), Find(s, "not"), v) + IfCost(c, Fuel(depth + 1), s, v))
    ensures Paid(start, budget, ok, (if Find(s, "not").Some? then 1 else 0) + (if Find(s, "if").Some? then 1 else 0))
    decreases start, 2
  {
    hide Decided, Settled, Find, FoundCost, IfCost;
    ok, budget := CheckNot(c, s, v, depth, start);
    if ok {
      ok, budget := CheckIf(c, s, v, depth, budget);
    }
  }

  method CheckNot(c: Context, s: Json, v: Json, depth: nat, start: nat) returns (ok: bool, budget: nat)
    requires s.Obj? && depth <= MAX_DEPTH
    ensures budget <= start
    ensures budget > 0 && ok ==> Settled(c, Fuel(depth + 1), Not, s, v, true)
    ensures budget > 0 && !ok ==> Decided(c, Fuel(depth), s, v, false)
    ensures Lasts(start, budget, FoundCost(c, Fuel(depth + 1), Find(s, "not"), v))
    ensures Paid(start, budget, ok, if Find(s, "not").Some? then 1 else 0)
    decreases start, 1
  {
    hide Decided, Settled, Holds, Cost, Find, Toll;
    ok, budget := true, start;
    var negated := Find(s, "not");
    if negated.Some? {
      ok, budget := Check(c, negated.value, v, depth + 1, budget);
      ok := !ok;
    }
    if budget > 0 {
      NotSettled(c, Fuel(depth + 1), s, v, ok);
      Conclude(c, Fuel(depth + 1), Not, s, v, ok);
    }
  }

  method CheckIf(c: Context, s: Json, v: Json, depth: nat, start: nat) returns (ok: bool, budget: nat)
    requires s.Obj? && depth <= MAX_DEPTH
    ensures budget <= start
    ensures budget > 0 && ok ==> Settled(c, Fuel(depth + 1), If, s, v, true)
    ensures budget > 0 && !ok ==> Decided(c, Fuel(depth), s, v, false)
    ensures Lasts(start, budget, IfCost(c, Fuel(depth + 1), s, v))
    ensures Paid(start, budget, ok, if Find(s, "if").Some? then 1 else 0)
    decreases start, 1
  {
    hide Decided, Settled, Holds, Cost, Find, Toll;
    ghost var n := Fuel(depth + 1);
    ok, budget := true, start;
    var condition := Find(s, "if");
    var met := false;
    if condition.Some? {
      met, budget := Check(c, condition.value, v, depth + 1, budget);
      var branch := Find(s, if met then "then" else "else");
      if branch.Some? {
        ok, budget := Check(c, branch.value, v, depth + 1, budget);
      }
    }
    if budget > 0 {
      IfSettled(c, n, s, v, met, ok);
      Conclude(c, n, If, s, v, ok);
    }
  }

  lemma NoObject(c: Context, s: Json, v: Json)
    requires !v.Obj?
    ensures Holds(Required, c, iset{}, s, v)
  {
  }

  /** The loop over the required names of an object. */
  method CheckRequired(c: Context, s: Json, v: Json) returns (ok: bool)
    requires v.Obj?
    ensures ok == Holds(Required, c, iset{}, s, v)
  {
    if Find(s, "required").Some? {
      var names := Elements(Find(s, "required").value);
      for i := 0 to |names|
        invariant forall j | 0 <= j < i :: Find(v, Text(names[j])).Some?
      {
        if Find(v, Text(names[i])).None? {
          assert names[i] in names;
          return false;
        }
      }
    }
    ok := true;
  }

  /** `required`, then every member against `properties` or `additionalProperties`. */
  method CheckMembers(c: Context, s: Json, v: Json, depth: nat, start: nat) returns (ok: bool, budget: nat)
    requires s.Obj? && depth <= MAX_DEPTH
    ensures budget <= start
    ensures budget > 0 && ok ==> Settled(c, Fuel(depth + 1), Required, s, v, true) && Settled(c, Fuel(depth + 1), Members, s, v, true)
    ensures budget > 0 && !ok ==> Decided(c, Fuel(depth), s, v, false)
    ensures Lasts(start, budget, if v.Obj? then MembersCost(c, Fuel(depth + 1), s, v.members, |v.members|) else 0)
    ensures Paid(start, budget, ok, if v.Obj? then MembersToll(c, Fuel(depth + 1), s, v.members, |v.members|) else 0)
    decreases start, 2
  {
    hide Decided, Settled, MemberDecided, FoundCost, FoundToll, Holds;
    ghost var n := Fuel(depth + 1);
    FlatSettled(c, n, Required, s, v);
    if !v.Obj? {
      NoObject(c, s, v);
    }
    budget := start;
    ok := true;
    if v.Obj? {
      ok := CheckRequired(c, s, v);
      Conclude(c, n, Required, s, v, ok);
      if !ok {
        return;
      }
      for i := 0 to |v.members|
        invariant budget <= start
        invariant budget > 0 ==> forall j | 0 <= j < i :: MemberDecided(c, n, s, v.members[j], true)
        invariant Lasts(start, budget, MembersCost(c, n, s, v.members, i)) && Paid(start, budget, true, MembersToll(c, n, s, v.members, i))
        invariant ok
      {
        MembersCostRises(c, n, s, v.members, i + 1, |v.members|);
        ok, budget := CheckMember(c, s, v.members[i], depth, budget);
        if !ok {
          if budget > 0 {
            MemberFails(c, n, s, v, i);
            Conclude(c, n, Members, s, v, false);
          }
          return;
        }
      }
    }
    if budget > 0 {
      MembersPass(c, n, s, v);
    }
  }

  method CheckMember(c: Context, s: Json, x: Member, depth: nat, start: nat) returns (ok: bool, budget: nat)
    ensures budget <= start
    ensures budget > 0 ==> MemberDecided(c, Fuel(depth + 1), s, x, ok)
    ensures Lasts(start, budget, FoundCost(c, Fuel(depth + 1), MemberSchema(s, x.name), x.value))
    ensures Paid(start, budget, ok, FoundToll(c, Fuel(depth + 1), MemberSchema(s, x.name), x.value))
    decreases start, 1
  {
    hide Cost, Toll;
    ok, budget := true, start;
    var properties := Find(s, "properties");
    var child := None;
    if properties.Some? {
      child := Find(properties.value, x.name);
    }
    if child.None? {
      child := Find(s, "additionalProperties");
    }
    if child.Some? {
      ok, budget := Check(c, child.value, x.value, depth + 1, start);
    }
  }

  /** The array keywords: the counts, then each item against its schema and, for `uniqueItems`, the items before it. */
  method CheckItems(c: Context, s: Json, v: Json, depth: nat, start: nat) returns (ok: bool, budget: nat)
    requires s.Obj? && depth <= MAX_DEPTH
    ensures budget <= start
    ensures budget > 0 && ok ==> Settled(c, Fuel(depth + 1), ItemCount, s, v, true)
                                 && Settled(c, Fuel(depth + 1), Items, s, v, true)
                                 && Settled(c, Fuel(depth + 1), Unique, s, v, true)
    ensures budget > 0 && !ok ==> Decided(c, Fuel(depth), s, v, false)
    ensures Lasts(start, budget, if v.Arr? then ItemsCost(c, Fuel(depth + 1), s, v.items, |v.items|) else 0)
    ensures Paid(start, budget, ok, if v.Arr? then ItemsToll(c, Fuel(depth + 1), s, v.items, |v.items|) else 0)
    decreases start, 3
  {
    hide Decided, Settled, ItemDecided, ItemsCost, ItemsToll;
    ghost var n := Fuel(depth + 1);
    FlatSettled(c, n, ItemCount, s, v);
    FlatSettled(c, n, Unique, s, v);
    ok, budget := true, start;
    if v.Arr? {
      ok := (Find(s, "minItems").Some? ==> |v.items| as real >= Quantity(Find(s, "minItems").value))
            && (Find(s, "maxItems").Some? ==> |v.items| as real <= Quantity(Find(s, "maxItems").value));
      Conclude(c, n, ItemCount, s, v, ok);
      if !ok {
        return;
      }
      ok, budget := CheckEach(c, s, v, depth, start);
      if !ok {
        return;
      }
    }
    if budget > 0 {
      ItemsPass(c, n, s, v);
    }
  }

  method CheckEach(c: Context, s: Json, v: Json, depth: nat, start: nat) returns (ok: bool, budget: nat)
    requires s.Obj? && v.Arr? && depth <= MAX_DEPTH
    ensures budget <= start
    ensures budget > 0 && ok ==> forall j | 0 <= j < |v.items| :: ItemDecided(c, Fuel(depth + 1), s, j, v.items[j], true)
    ensures budget > 0 && ok && WantsUnique(s) ==> Distinct(v.items, |v.items|)
    ensures budget > 0 && !ok ==> Decided(c, Fuel(depth), s, v, false)
    ensures Lasts(start, budget, ItemsCost(c, Fuel(depth + 1), s, v.items, |v.items|))
    ensures Paid(start, budget, ok, ItemsToll(c, Fuel(depth + 1), s, v.items, |v.items|))
    decreases start, 2
  {
    hide Decided, Settled, ItemDecided, Find, WantsUnique, ItemCostOf, ItemToll, Holds;
    ghost var n := Fuel(depth + 1);
    ok, budget := true, start;
    for i := 0 to |v.items|
      invariant budget <= start
      invariant budget > 0 ==> forall j | 0 <= j < i :: ItemDecided(c, n, s, j, v.items[j], true)
      invariant budget > 0 && WantsUnique(s) ==> Distinct(v.items, i)
      invariant Lasts(start, budget, ItemsCost(c, n, s, v.items, i)) && Paid(start, budget, true, ItemsToll(c, n, s, v.items, i))
      invariant ok
    {
      ItemsCostRises(c, n, s, v.items, i + 1, |v.items|);
      ok, budget := CheckNext(c, s, v, i, depth, budget);
      if !ok {
        return;
      }
    }
  }

  /** One item, and for `uniqueItems` the items before it. */
  method CheckNext(c: Context, s: Json, v: Json, i: nat, depth: nat, start: nat) returns (ok: bool, budget: nat)
    requires s.Obj? && v.Arr? && i < |v.items| && depth <= MAX_DEPTH
    ensures budget <= start
    ensures budget > 0 && ok ==> ItemDecided(c, Fuel(depth + 1), s, i, v.items[i], true)
    ensures budget > 0 && ok && WantsUnique(s) ==> forall j | 0 <= j < i :: !Same(v.items[i], v.items[j])
    ensures budget > 0 && !ok ==> Decided(c, Fuel(depth), s, v, false)
    ensures Lasts(start, budget, ItemCostOf(c, Fuel(depth + 1), s, i, v.items[i]))
    ensures Paid(start, budget, ok, ItemToll(c, Fuel(depth + 1), s, i, v.items[i]))
    decreases start, 1
  {
    hide Decided, Settled, ItemDecided, FoundCost, FoundToll, Find, Holds, Same;
    ghost var n := Fuel(depth + 1);
    if start == 0 {
      return false, 0;
    }
    ok, budget := CheckItem(c, s, i, v.items[i], depth, start - 1);
    if !ok {
      if budget > 0 {
        ItemFails(c, n, s, v, i);
        Conclude(c, n, Items, s, v, false);
      }
      return;
    }
    if Find(s, "uniqueItems") == Some(Bool(true)) {
      ok, budget := CheckUnique(c, v.items, i, budget);
      if !ok && budget > 0 {
        UniqueFails(c, n, s, v, i);
        Conclude(c, n, Unique, s, v, false);
      }
    }
  }

  method CheckItem(c: Context, s: Json, i: nat, x: Json, depth: nat, start: nat) returns (ok: bool, budget: nat)
    ensures budget <= start
    ensures budget > 0 ==> ItemDecided(c, Fuel(depth + 1), s, i, x, ok)
    ensures Lasts(start, budget, FoundCost(c, Fuel(depth + 1), ItemSchema(s, i), x))
    ensures Paid(start, budget, ok, FoundToll(c, Fuel(depth + 1), ItemSchema(s, i), x))
    decreases start, 1
  {
    hide Cost, Toll;
    ok, budget := true, start;
    var prefix := Find(s, "prefixItems");
    var child;
    if prefix.Some? && prefix.value.Arr? && i < |prefix.value.items| {
      child := Some(prefix.value.items[i]);
    } else {
      child := Find(s, "items");
    }
    if child.Some? {
      ok, budget := Check(c, child.value, x, depth + 1, start);
    }
  }

  method CheckUnique(c: Context, items: seq<Json>, i: nat, start: nat) returns (ok: bool, budget: nat)
    requires i < |items|
    ensures budget <= start
    ensures budget > 0 ==> (ok <==> forall j | 0 <= j < i :: !Same(items[i], items[j]))
    ensures Lasts(start, budget, i) && Paid(start, budget, ok, i)
  {
    budget := start;
    for j := 0 to i
      invariant budget <= start && Lasts(start, budget, j) && Paid(start, budget, true, j)
      invariant forall b | 0 <= b < j :: !Same(items[i], items[b])
    {
      if budget == 0 {
        return false, 0;
      }
      budget := budget - 1;
      if Same(items[i], items[j]) {
        return false, budget;
      }
    }
    ok := true;
  }

  /** The string and number keywords. */
  method CheckScalars(c: Context, ghost n: nat, s: Json, v: Json) returns (ok: bool)
    requires s.Obj?
    ensures ok ==> Settled(c, n, Length, s, v, true) && Settled(c, n, Pattern, s, v, true) && Settled(c, n, Range, s, v, true)
    ensures !ok ==> Decided(c, n + 1, s, v, false)
  {
    hide Decided, Settled;
    FlatSettled(c, n, Length, s, v);
    FlatSettled(c, n, Pattern, s, v);
    FlatSettled(c, n, Range, s, v);
    ok := true;
    if v.Str? {
      ok := (Find(s, "minLength").Some? ==> |v.text| as real >= Quantity(Find(s, "minLength").value))
            && (Find(s, "maxLength").Some? ==> |v.text| as real <= Quantity(Find(s, "maxLength").value));
      Conclude(c, n, Length, s, v, ok);
      if !ok {
        return;
      }
      ok := Find(s, "pattern").Some? ==> c.host.search(v.text, Text(Find(s, "pattern").value)) == Found;
      Conclude(c, n, Pattern, s, v, ok);
      if !ok {
        return;
      }
    }
    if v.Number? {
      ok := (Find(s, "minimum").Some? ==> v.value >= Quantity(Find(s, "minimum").value))
            && (Find(s, "maximum").Some? ==> v.value <= Quantity(Find(s, "maximum").value))
            && (Find(s, "exclusiveMinimum").Some? ==> v.value > Quantity(Find(s, "exclusiveMinimum").value))
            && (Find(s, "exclusiveMaximum").Some? ==> v.value < Quantity(Find(s, "exclusiveMaximum").value));
      Conclude(c, n, Range, s, v, ok);
    }
  }

  datatype Outcome = Accepted | Incompatible | LimitExceeded

  method ValidateOperatorConfiguration(schema: Json, instance: Json, contract: Json, host: Host) returns (outcome: Outcome)
    ensures var c := Context(schema, contract, host);
            && (outcome == Accepted ==> Decided(c, MAX_DEPTH + 1, schema, instance, true))
            && (outcome == Incompatible ==> Decided(c, MAX_DEPTH + 1, schema, instance, false))
            && (Cost(c, MAX_DEPTH + 1, schema, instance) < BUDGET ==> outcome != LimitExceeded)
            && (Toll(c, MAX_DEPTH + 1, schema, instance) >= BUDGET ==> outcome != Accepted)
  {
    hide Cost, Toll, Decided;
    var c := Context(schema, contract, host);
    var ok, budget := Check(c, schema, instance, 0, BUDGET);
    outcome := if budget == 0 then LimitExceeded else if ok then Accepted else Incompatible;
  }
}
