/**
 * JSON content: what the validator accepts, and what equality of accepted values
 * means. `const`, `enum` and `uniqueItems` rest on that equality.
 */
module JsonContent {
  import opened Bytes
  import opened SchemaKeywords
  import opened SchemaMeaning
  import opened SchemaRules

  datatype PathStep = At(index: nat) | Named(name: string)

  /** The value that a path leads to. */
  function Walk(j: Json, path: seq<PathStep>): Option<Json>
    decreases |path|
  {
    if path == [] then Some(j)
    else
      match (j, path[0])
      case (Arr(items), At(i)) => if i < |items| then Walk(items[i], path[1..]) else None
      case (Obj(members), Named(n)) => if Lookup(members, n).Some? then Walk(Lookup(members, n).value, path[1..]) else None
      case _ => None
  }

  /** What can be seen of a value without looking inside. */
  datatype Outline = Nothing | Scalar(j: Json) | Array(size: nat) | Object(size: nat)

  function OutlineOf(j: Option<Json>): Outline {
    match j
    case None => Nothing
    case Some(Arr(items)) => Array(|items|)
    case Some(Obj(members)) => Object(|members|)
    case Some(Number(x, _)) => Scalar(Number(x, false))
    case Some(scalar) => Scalar(scalar)
  }

  /** No path tells the two apart. */
  ghost predicate Alike(a: Json, b: Json) {
    forall path: seq<PathStep> :: OutlineOf(Walk(a, path)) == OutlineOf(Walk(b, path))
  }

  predicate NamesApart(members: seq<Member>) {
    forall i, k | 0 <= i < k < |members| :: members[i].name != members[k].name
  }

  /** No object in it has a name twice. */
  predicate Unambiguous(j: Json) {
    match j
    case Arr(items) => forall x | x in items :: Unambiguous(x)
    case Obj(members) =>
      NamesApart(members) && forall x | x in members :: Unambiguous(x.value)
    case _ => true
  }

  function MemberNames(members: seq<Member>): set<string> {
    set x | x in members :: x.name
  }

  lemma NamesOf(x: Member, rest: seq<Member>)
    ensures MemberNames([x] + rest) == MemberNames(rest) + {x.name}
  {
    assert forall y :: y in [x] + rest <==> y == x || y in rest;
  }

  lemma RestApart(members: seq<Member>)
    requires members != [] && NamesApart(members)
    ensures NamesApart(members[1..]) && members[0].name !in MemberNames(members[1..])
  {
  }

  lemma {:induction false} NamesCount(members: seq<Member>)
    ensures |MemberNames(members)| <= |members|
    ensures NamesApart(members) ==> |MemberNames(members)| == |members|
  {
    if members != [] {
      var rest := members[1..];
      NamesCount(rest);
      assert members == [members[0]] + rest;
      NamesOf(members[0], rest);
      if NamesApart(members) {
        RestApart(members);
      }
      hide MemberNames, NamesApart;
    }
  }

  /** An object that has all names of another, which are distinct and as many as its members, has no further ones. */
  lemma NoOtherName(xs: seq<Member>, ys: seq<Member>, name: string)
    requires |xs| == |ys| && NamesApart(xs)
    requires forall i | 0 <= i < |xs| :: Lookup(ys, xs[i].name).Some?
    requires Lookup(xs, name).None?
    ensures Lookup(ys, name).None?
  {
    NamesCount(xs);
    NamesCount(ys);
    LookupFirst(xs, name);
    LookupFirst(ys, name);
    forall n | n in MemberNames(xs) ensures n in MemberNames(ys) {
      var i :| 0 <= i < |xs| && xs[i].name == n;
      LookupFirst(ys, n);
    }
    SubsetOfSize(MemberNames(xs), MemberNames(ys));
    assert name !in MemberNames(xs);
  }

  lemma SubsetOfSize(a: set<string>, b: set<string>)
    requires a <= b && |b| <= |a|
    ensures a == b
  {
    assert |b - a| == |b| - |a|;
  }

  lemma FoundAt(members: seq<Member>, name: string) returns (i: nat)
    requires Lookup(members, name).Some?
    ensures i < |members| && members[i].name == name && Lookup(members, name) == Some(members[i].value)
  {
    if members[0].name == name {
      i := 0;
    } else {
      var k := FoundAt(members[1..], name);
      i := k + 1;
    }
  }

  lemma {:induction false} SameWalks(a: Json, b: Json, path: seq<PathStep>)
    requires Unambiguous(a) && Same(a, b)
    ensures OutlineOf(Walk(a, path)) == OutlineOf(Walk(b, path))
    decreases |path|
  {
    if path != [] {
      match (a, path[0]) {
        case (Arr(items), At(i)) =>
          if i < |items| {
            SameWalks(items[i], b.items[i], path[1..]);
          }
        case (Obj(members), Named(n)) =>
          if Lookup(members, n).Some? {
            var i := FoundAt(members, n);
            SameWalks(members[i].value, Lookup(b.members, n).value, path[1..]);
          } else {
            NoOtherName(members, b.members, n);
          }
        case _ =>
      }
    }
  }

  lemma AlikeStep(a: Json, b: Json, step: PathStep, x: Json, y: Json)
    requires Alike(a, b) && Walk(a, [step]) == Some(x) && Walk(b, [step]) == Some(y)
    ensures Alike(x, y)
  {
    forall path: seq<PathStep> ensures OutlineOf(Walk(x, path)) == OutlineOf(Walk(y, path)) {
      var long := [step] + path;
      assert long[0] == step && long[1..] == path && [step][1..] == [];
      assert Walk(a, long) == Walk(x, path) && Walk(b, long) == Walk(y, path);
      assert OutlineOf(Walk(a, long)) == OutlineOf(Walk(b, long));
    }
  }

  /** The converse. */
  lemma {:induction false} AlikeSame(a: Json, b: Json)
    requires Unambiguous(a) && Alike(a, b)
    ensures Same(a, b)
    decreases a
  {
    assert OutlineOf(Walk(a, [])) == OutlineOf(Walk(b, []));
    match a {
      case Arr(items) =>
        forall i | 0 <= i < |items| ensures Same(items[i], b.items[i]) {
          AlikeStep(a, b, At(i), items[i], b.items[i]);
          AlikeSame(items[i], b.items[i]);
        }
      case Obj(members) =>
        forall i | 0 <= i < |members|
          ensures Lookup(b.members, members[i].name).Some? && Same(members[i].value, Lookup(b.members, members[i].name).value)
        {
          var name := members[i].name;
          LookupFirst(members, name);
          assert Walk(a, [Named(name)]) == Some(members[i].value);
          assert OutlineOf(Walk(a, [Named(name)])) == OutlineOf(Walk(b, [Named(name)]));
          AlikeStep(a, b, Named(name), members[i].value, Lookup(b.members, name).value);
          AlikeSame(members[i].value, Lookup(b.members, name).value);
        }
      case _ =>
    }
  }

  /** Two values are the same if and only if no path tells them apart: order of members and integrality aside. */
  lemma SameMeans(a: Json, b: Json)
    requires Unambiguous(a)
    ensures Same(a, b) <==> Alike(a, b)
  {
    if Same(a, b) {
      forall path: seq<PathStep> ensures OutlineOf(Walk(a, path)) == OutlineOf(Walk(b, path)) {
        SameWalks(a, b, path);
      }
    }
    if Alike(a, b) {
      AlikeSame(a, b);
    }
  }

  // ---- What the validator accepts ----

  const MAX_NESTING: nat := 64

  /** `ValidateJsonNode`: true for values without repeated keys whose containers are at most 64 deep. */
  method ValidateJsonNode(value: Json, depth: nat) returns (ok: bool)
    ensures ok <==> Unambiguous(value) && (Height(value) > 0 ==> depth + Height(value) <= MAX_NESTING + 1)
    decreases value
  {
    if (value.Obj? || value.Arr?) && depth > MAX_NESTING {
      return false;
    }
    if value.Obj? {
      ok := ValidateMembers(value, depth);
    } else if value.Arr? {
      ok := ValidateItems(value, depth);
    } else {
      ok := true;
    }
  }

  method ValidateMembers(value: Json, depth: nat) returns (ok: bool)
    requires value.Obj? && depth <= MAX_NESTING
    ensures ok <==> Unambiguous(value) && depth + Height(value) <= MAX_NESTING + 1
    decreases value, 0
  {
    hide Unambiguous, Height, MembersHeight;
    var keys: set<string> := {};
    for i := 0 to |value.members|
      invariant forall n :: n in keys <==> exists j :: 0 <= j < i && value.members[j].name == n
      invariant NamesApart(value.members[..i])
      invariant forall j | 0 <= j < i :: Unambiguous(value.members[j].value) && Shallow(value.members[j].value, depth)
    {
      var member := value.members[i];
      if member.name in keys {
        MembersMeet(value, depth);
        return false;
      }
      keys := keys + {member.name};
      var inner := ValidateJsonNode(member.value, depth + 1);
      if !inner {
        assert member in value.members;
        MembersMeet(value, depth);
        return false;
      }
      assert value.members[..i + 1] == value.members[..i] + [member];
    }
    assert value.members[..|value.members|] == value.members;
    MembersMeet(value, depth);
    ok := true;
  }

  method ValidateItems(value: Json, depth: nat) returns (ok: bool)
    requires value.Arr? && depth <= MAX_NESTING
    ensures ok <==> Unambiguous(value) && depth + Height(value) <= MAX_NESTING + 1
    decreases value, 0
  {
    hide Unambiguous, Height, ItemsHeight;
    ItemsMeet(value, depth);
    for i := 0 to |value.items|
      invariant forall j | 0 <= j < i :: Unambiguous(value.items[j]) && Shallow(value.items[j], depth)
    {
      var inner := ValidateJsonNode(value.items[i], depth + 1);
      if !inner {
        assert value.items[i] in value.items;
        return false;
      }
    }
    ok := true;
  }

  /** What a container at this depth allows a value inside it. */
  predicate Shallow(x: Json, depth: nat) {
    Height(x) > 0 ==> depth + 1 + Height(x) <= MAX_NESTING + 1
  }

  lemma {:induction false} MembersShallow(members: seq<Member>, depth: nat)
    requires depth <= MAX_NESTING
    ensures depth + 1 + MembersHeight(members) <= MAX_NESTING + 1 <==> forall x | x in members :: Shallow(x.value, depth)
  {
    if members != [] {
      MembersShallow(members[1..], depth);
      assert members[0] in members && forall x :: x in members <==> x == members[0] || x in members[1..];
    }
  }

  lemma {:induction false} ItemsShallow(items: seq<Json>, depth: nat)
    requires depth <= MAX_NESTING
    ensures depth + 1 + ItemsHeight(items) <= MAX_NESTING + 1 <==> forall x | x in items :: Shallow(x, depth)
  {
    if items != [] {
      ItemsShallow(items[1..], depth);
      assert items[0] in items && forall x :: x in items <==> x == items[0] || x in items[1..];
    }
  }

  lemma MembersMeet(value: Json, depth: nat)
    requires value.Obj? && depth <= MAX_NESTING
    ensures Unambiguous(value) && depth + Height(value) <= MAX_NESTING + 1 <==>
      NamesApart(value.members) && forall x | x in value.members :: Unambiguous(x.value) && Shallow(x.value, depth)
  {
    MembersShallow(value.members, depth);
    hide Shallow, NamesApart, MembersHeight;
  }

  lemma ItemsMeet(value: Json, depth: nat)
    requires value.Arr? && depth <= MAX_NESTING
    ensures Unambiguous(value) && depth + Height(value) <= MAX_NESTING + 1 <==>
      forall x | x in value.items :: Unambiguous(x) && Shallow(x, depth)
  {
    ItemsShallow(value.items, depth);
    hide Shallow, ItemsHeight;
  }

  /** A parsed document is accepted exactly when it has no repeated key and is nested at most 64 deep. */
  method ValidateJson(document: Json) returns (ok: bool)
    ensures ok <==> Unambiguous(document) && Height(document) <= 64
  {
    ok := ValidateJsonNode(document, 1);
  }
}
