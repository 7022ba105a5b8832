/** Semantics documents: exact references as text, and the check of a binding against its dictionary. */
module SemanticsModel {
  import opened Bytes

  const MAX_REVISION: nat := 9007199254740991

  datatype Kind = Standard | Dictionary | Binding | OperatorContract | OperatorUse

  datatype Ref = Ref(kind: Kind, name: string, revision: nat)

  // ---- Exact references as text: kind.name@revision ----

  function KindText(k: Kind): string {
    match k
    case Standard => "standard"
    case Dictionary => "dictionary"
    case Binding => "binding"
    case OperatorContract => "operator_contract"
    case OperatorUse => "operator_use"
  }

  function KindOf(text: string): Option<Kind> {
    match text
    case "standard" => Some(Standard)
    case "dictionary" => Some(Dictionary)
    case "binding" => Some(Binding)
    case "operator_contract" => Some(OperatorContract)
    case "operator_use" => Some(OperatorUse)
    case _ => None
  }

  predicate NameChar(c: char) {
    'a' <= c <= 'z' || '0' <= c <= '9' || c == '.' || c == '_' || c == '-'
  }

  predicate SemanticsName(n: string) {
    0 < |n| <= 128 && 'a' <= n[0] <= 'z' && forall c | c in n :: NameChar(c)
  }

  /** The loop over the characters of a name. */
  method CheckName(n: string) returns (ok: bool)
    ensures ok <==> SemanticsName(n)
  {
    if n == "" || |n| > 128 || n[0] < 'a' || n[0] > 'z' {
      return false;
    }
    for i := 0 to |n|
      invariant forall j | 0 <= j < i :: NameChar(n[j])
    {
      var c := n[i];
      if !('a' <= c && c <= 'z') && !('0' <= c && c <= '9') && c != '.' && c != '_' && c != '-' {
        assert n[i] in n && !NameChar(n[i]);
        return false;
      }
    }
    ok := true;
  }

  /** `find`: the first index of `c` from `from` on, or the length. */
  function First(text: string, c: char, from: nat): (i: nat)
    requires from <= |text|
    ensures from <= i <= |text|
    ensures forall j | from <= j < i :: text[j] != c
    ensures i < |text| ==> text[i] == c
    decreases |text| - from
  {
    if from == |text| || text[from] == c then from else First(text, c, from + 1)
  }

  /** `rfind`: one more than the last index of `c` below `end`, or 0. */
  function Last(text: string, c: char, end: nat): (i: nat)
    requires end <= |text|
    ensures i <= end
    ensures i > 0 ==> text[i - 1] == c
    ensures forall j | i <= j < end :: text[j] != c
  {
    if end == 0 || text[end - 1] == c then end else Last(text, c, end - 1)
  }

  predicate Digit(c: char) {
    '0' <= c <= '9'
  }

  function DigitChar(d: nat): (c: char)
    requires d < 10
    ensures Digit(c) && c as int - '0' as int == d
  {
    (d + '0' as int) as char
  }

  function Decimal(n: nat): (r: string)
    ensures |r| > 0 && forall c | c in r :: Digit(c)
    ensures n > 0 ==> r[0] != '0'
  {
    if n < 10 then [DigitChar(n)] else Decimal(n / 10) + [DigitChar(n % 10)]
  }

  function DecimalValue(s: string): nat
    requires forall c | c in s :: Digit(c)
  {
    if s == [] then 0
    else
      var last := s[|s| - 1];
      assert last in s && Digit(last);
      DecimalValue(s[..|s| - 1]) * 10 + (last as int - '0' as int)
  }

  lemma {:induction false} DecimalRoundTrip(n: nat)
    ensures DecimalValue(Decimal(n)) == n
  {
    if n >= 10 {
      DecimalRoundTrip(n / 10);
      ValueSnoc(Decimal(n / 10), DigitChar(n % 10));
    } else {
      ValueSnoc([], DigitChar(n));
    }
  }

  lemma {:induction false} DecimalUnique(s: string)
    requires s != [] && s[0] != '0' && forall c | c in s :: Digit(c)
    ensures DecimalValue(s) > 0 && Decimal(DecimalValue(s)) == s
  {
    hide Decimal, DecimalValue;
    var front, last := s[..|s| - 1], s[|s| - 1];
    assert last in s && Digit(last);
    assert s == front + [last];
    assert forall c | c in front :: c in s;
    var d := last as int - '0' as int;
    ValueSnoc(front, last);
    if front != [] {
      DecimalUnique(front);
      DecimalSnoc(DecimalValue(front), d);
    } else {
      OneDigit(last);
    }
    assert DigitChar(d) == last;
  }

  lemma ValueSnoc(front: string, last: char)
    requires Digit(last) && forall c | c in front :: Digit(c)
    ensures DecimalValue(front + [last]) == DecimalValue(front) * 10 + (last as int - '0' as int)
  {
    assert (front + [last])[..|front|] == front;
  }

  lemma DecimalSnoc(n: nat, d: nat)
    requires n > 0 && d < 10
    ensures Decimal(n * 10 + d) == Decimal(n) + [DigitChar(d)]
  {
    DigitSplit(n, d);
  }

  lemma DigitSplit(n: nat, d: nat)
    requires d < 10
    ensures (n * 10 + d) / 10 == n && (n * 10 + d) % 10 == d
  {
  }

  lemma OneDigit(c: char)
    requires Digit(c)
    ensures DecimalValue([]) == 0 && Decimal(c as int - '0' as int) == [DigitChar(c as int - '0' as int)]
  {
  }

  function Exact(r: Ref): string {
    KindText(r.kind) + "." + r.name + "@" + Decimal(r.revision)
  }

  predicate Proper(r: Ref) {
    SemanticsName(r.name) && 1 <= r.revision <= MAX_REVISION
  }

  function ParseSemanticsReference(text: string): (r: Option<Ref>)
    ensures r.Some? ==> Proper(r.value)
  {
    var dot := First(text, '.', 0);
    var at := Last(text, '@', |text|);
    if dot == |text| || at == 0 || at - 1 <= dot + 1 then None
    else
      var kind := KindOf(text[..dot]);
      var name := text[dot + 1..at - 1];
      var rev := text[at..];
      if kind.None? || !SemanticsName(name) || rev == [] || rev[0] == '0' then None
      else if exists c | c in rev :: !Digit(c) then None
      else if DecimalValue(rev) > MAX_REVISION then None
      else
        DecimalUnique(rev);
        Some(Ref(kind.value, name, DecimalValue(rev)))
  }

  lemma KindRoundTrip(k: Kind)
    ensures KindOf(KindText(k)) == Some(k)
    ensures '.' !in KindText(k)
  {
  }

  lemma KindUnique(text: string)
    requires KindOf(text).Some?
    ensures KindText(KindOf(text).value) == text
  {
  }

  lemma Marks(k: string, n: string, d: string)
    requires '.' !in k && '@' !in d
    ensures var text := k + "." + n + "@" + d; var at := |k| + 1 + |n|;
            && First(text, '.', 0) == |k| && Last(text, '@', |text|) == at + 1 <= |text|
            && text[..|k|] == k && text[|k| + 1..at] == n && text[at + 1..] == d
  {
    hide First, Last;
    var text, at := k + "." + n + "@" + d, |k| + 1 + |n|;
    assert text[|k|] == '.' && text[at] == '@';
    assert forall j | 0 <= j < |k| :: text[j] == k[j];
    assert forall j | at < j < |text| :: text[j] == d[j - at - 1];
    FirstIs(text, '.', |k|);
    LastIs(text, '@', at + 1);
  }

  lemma FirstIs(text: string, c: char, i: nat)
    requires i < |text| && text[i] == c && forall j | 0 <= j < i :: text[j] != c
    ensures First(text, c, 0) == i
  {
    var found := First(text, c, 0);
  }

  lemma LastIs(text: string, c: char, i: nat)
    requires 0 < i <= |text| && text[i - 1] == c && forall j | i <= j < |text| :: text[j] != c
    ensures Last(text, c, |text|) == i
  {
    var found := Last(text, c, |text|);
  }

  lemma ParseOfExact(r: Ref)
    requires Proper(r)
    ensures ParseSemanticsReference(Exact(r)) == Some(r)
  {
    hide SemanticsName, KindOf, KindText, Decimal, DecimalValue, First, Last;
    var d := Decimal(r.revision);
    KindRoundTrip(r.kind);
    DecimalRoundTrip(r.revision);
    NameHasNoAt(r.name);
    assert '@' !in d;
    Marks(KindText(r.kind), r.name, d);
  }

  lemma NameHasNoAt(n: string)
    requires SemanticsName(n)
    ensures n != [] && '@' !in n
  {
  }

  /** An accepted reference is the text of what it parses to, so distinct texts never name the same revision. */
  lemma ExactOfParse(text: string)
    requires ParseSemanticsReference(text).Some?
    ensures Exact(ParseSemanticsReference(text).value) == text
  {
    hide SemanticsName, KindOf, KindText, Decimal, DecimalValue;
    var dot := First(text, '.', 0);
    var at := Last(text, '@', |text|);
    KindUnique(text[..dot]);
    DecimalUnique(text[at..]);
    assert text == text[..dot] + [text[dot]] + text[dot + 1..at - 1] + [text[at - 1]] + text[at..];
  }

  /** One text of each kind. */
  lemma ReferenceExamples()
    ensures ParseSemanticsReference("standard.iso8601@1") == Some(Ref(Standard, "iso8601", 1))
    ensures ParseSemanticsReference("dictionary.net.flow@12") == Some(Ref(Dictionary, "net.flow", 12))
    ensures ParseSemanticsReference("binding.a@1") == Some(Ref(Binding, "a", 1))
    ensures ParseSemanticsReference("operator_contract.a@2") == Some(Ref(OperatorContract, "a", 2))
    ensures ParseSemanticsReference("operator_use.a@30") == Some(Ref(OperatorUse, "a", 30))
  {
    hide First, Last, DecimalValue, ParseSemanticsReference;
    assert Exact(Ref(Standard, "iso8601", 1)) == "standard.iso8601@1";
    ParseOfExact(Ref(Standard, "iso8601", 1));
    assert Exact(Ref(Dictionary, "net.flow", 12)) == "dictionary.net.flow@12";
    ParseOfExact(Ref(Dictionary, "net.flow", 12));
    assert Exact(Ref(Binding, "a", 1)) == "binding.a@1";
    ParseOfExact(Ref(Binding, "a", 1));
    assert Exact(Ref(OperatorContract, "a", 2)) == "operator_contract.a@2";
    ParseOfExact(Ref(OperatorContract, "a", 2));
    assert Exact(Ref(OperatorUse, "a", 30)) == "operator_use.a@30";
    ParseOfExact(Ref(OperatorUse, "a", 30));
  }

  // ---- Documents ----

  datatype ObjectKey = ObjectKey(provider: string, id: string)

  datatype Field = Field(id: string, kind: string, nullable: bool)

  datatype Source = Source(name: string, kind: string, nullable: bool)

  datatype Snapshot = Snapshot(objectKey: ObjectKey, known: bool, fields: Option<seq<Source>>, revision: string)

  /** A reference inside a document; a dictionary relation also maps its fields to the target's. */
  datatype Link = Link(target: Ref, path: string, fieldMap: map<string, string>)

  /** A normalized document; `body` stands for the parts that no check looks at. */
  datatype Document =
    | StandardDoc(body: string)
    | DictionaryDoc(fields: seq<Field>, relations: seq<Link>, body: string)
    | BindingDoc(objectKey: ObjectKey, dictionary: Ref, fieldMap: map<string, string>, declared: Option<seq<Source>>,
                 snapshot: Option<Snapshot>, confirmed: string, body: string)
    | ContractDoc(operator: string, links: seq<Link>, body: string)
    | UseDoc(links: seq<Link>, body: string)

  function DocumentKind(d: Document): Kind {
    match d
    case StandardDoc(_) => Standard
    case DictionaryDoc(_, _, _) => Dictionary
    case BindingDoc(_, _, _, _, _, _, _) => Binding
    case ContractDoc(_, _, _) => OperatorContract
    case UseDoc(_, _) => OperatorUse
  }

  /** The references that `NormalizeSemantics` collects. */
  function Links(d: Document): seq<Link> {
    match d
    case StandardDoc(_) => []
    case DictionaryDoc(_, relations, _) => relations
    case BindingDoc(_, dictionary, _, _, _, _, _) => [Link(dictionary, "/dictionary_ref", map[])]
    case ContractDoc(_, links, _) => links
    case UseDoc(links, _) => links
  }

  /** What `NormalizeSemantics` promises of the kinds of references. */
  predicate Normalized(d: Document) {
    d.BindingDoc? ==> d.dictionary.kind == Dictionary
  }

  // ---- A binding against its dictionary ----

  predicate DistinctIds(fields: seq<Field>) {
    forall i, j | 0 <= i < j < |fields| :: fields[i].id != fields[j].id
  }

  predicate Injective(m: map<string, string>) {
    forall a, b | a in m && b in m && a != b :: m[a] != m[b]
  }

  /** The map takes each of the dictionary's field ids, and nothing else, to a source field of its own. */
  predicate MapCovers(m: map<string, string>, fields: seq<Field>) {
    && DistinctIds(fields) && Injective(m)
    && (forall f | f in fields :: f.id in m)
    && (forall k | k in m :: exists f | f in fields :: f.id == k)
  }

  predicate DistinctNames(sources: seq<Source>) {
    forall i, j | 0 <= i < j < |sources| :: sources[i].name != sources[j].name
  }

  predicate Provided(m: map<string, string>, f: Field, sources: seq<Source>) {
    f.id in m && Source(m[f.id], f.kind, f.nullable) in sources
  }

  /** A schema that is present provides every field with its type and nullability. */
  predicate SchemaFits(m: map<string, string>, fields: seq<Field>, schema: Option<seq<Source>>) {
    schema.Some? && schema.value != [] ==>
      DistinctNames(schema.value) && forall f | f in fields :: Provided(m, f, schema.value)
  }

  predicate SnapshotConsistent(b: Document)
    requires b.BindingDoc? && b.snapshot.Some?
  {
    var s := b.snapshot.value;
    s.objectKey == b.objectKey && s.known && s.fields.Some? && b.confirmed == s.revision
  }

  predicate BindingFits(b: Document, fields: seq<Field>)
    requires b.BindingDoc?
  {
    && MapCovers(b.fieldMap, fields) && SchemaFits(b.fieldMap, fields, b.declared)
    && (b.snapshot.Some? ==> SnapshotConsistent(b) && SchemaFits(b.fieldMap, fields, b.snapshot.value.fields))
  }

  datatype Check = Unknown | Matched

  method CheckSemanticsBinding(b: Document, fields: seq<Field>) returns (check: Option<Check>)
    requires b.BindingDoc?
    ensures check.Some? <==> BindingFits(b, fields)
    ensures check.Some? ==> (check.value.Matched? <==> b.declared.Some? && b.declared.value != [])
    decreases if b.snapshot.Some? then 1 else 0
  {
    hide MapCovers, SchemaFits;
    if b.snapshot.Some? {
      var s := b.snapshot.value;
      if s.objectKey != b.objectKey || !s.known || s.fields.None? || b.confirmed != s.revision {
        return None;
      }
      var observed := b.(snapshot := None, declared := b.snapshot.value.fields);
      var inner := CheckSemanticsBinding(observed, fields);
      if inner.None? {
        if MapCovers(b.fieldMap, fields) && SchemaFits(b.fieldMap, fields, b.declared) {
          assert !SchemaFits(b.fieldMap, fields, observed.declared);
        }
        return None;
      }
    }
    var covers := CheckMap(b.fieldMap, fields);
    if !covers {
      return None;
    }
    if b.declared.None? || b.declared.value == [] {
      NoSchema(b.fieldMap, fields, b.declared);
      return Some(Unknown);
    }
    var fits := CheckSchema(b.fieldMap, fields, b.declared.value);
    check := if fits then Some(Matched) else None;
  }

  lemma NoSchema(m: map<string, string>, fields: seq<Field>, schema: Option<seq<Source>>)
    requires schema.None? || schema.value == []
    ensures SchemaFits(m, fields, schema)
  {
  }

  function Ids(fields: seq<Field>): set<string> {
    if fields == [] then {} else Ids(fields[..|fields| - 1]) + {fields[|fields| - 1].id}
  }

  lemma {:induction false} IdsAre(fields: seq<Field>, k: string)
    ensures k in Ids(fields) <==> exists i :: 0 <= i < |fields| && fields[i].id == k
  {
    if fields != [] {
      var front := fields[..|fields| - 1];
      IdsAre(front, k);
      if i :| 0 <= i < |fields| && fields[i].id == k {
        assert i < |front| ==> front[i].id == k;
      }
      if i :| 0 <= i < |front| && front[i].id == k {
        assert fields[i].id == k;
      }
    }
  }

  lemma {:induction false} IdsSize(fields: seq<Field>)
    ensures |Ids(fields)| <= |fields|
    ensures DistinctIds(fields) ==> |Ids(fields)| == |fields|
  {
    if fields != [] {
      var front, last := fields[..|fields| - 1], fields[|fields| - 1];
      IdsSize(front);
      IdsAre(front, last.id);
      if DistinctIds(fields) {
        assert forall i | 0 <= i < |front| :: front[i] == fields[i];
        assert DistinctIds(front);
      }
    }
  }

  lemma FieldAt(fields: seq<Field>, k: string)
    ensures (exists f | f in fields :: f.id == k) <==> (exists i :: 0 <= i < |fields| && fields[i].id == k)
  {
    if f :| f in fields && f.id == k {
      var i :| 0 <= i < |fields| && fields[i] == f;
    }
    if i :| 0 <= i < |fields| && fields[i].id == k {
      assert fields[i] in fields;
    }
  }

  /** Taken together, the count and the loop are exactly the coverage. */
  lemma CountCovers(m: map<string, string>, fields: seq<Field>)
    requires DistinctIds(fields) && forall f | f in fields :: f.id in m
    ensures |m| == |fields| <==> forall k | k in m :: exists f | f in fields :: f.id == k
  {
    IdsSize(fields);
    forall k ensures k in Ids(fields) <==> exists f | f in fields :: f.id == k {
      IdsAre(fields, k);
      FieldAt(fields, k);
    }
    assert Ids(fields) <= m.Keys;
    if |m| == |fields| {
      SubsetOfEqualSize(Ids(fields), m.Keys);
    }
    if forall k | k in m :: exists f | f in fields :: f.id == k {
      assert m.Keys == Ids(fields);
    }
  }

  lemma SubsetOfEqualSize<T>(a: set<T>, b: set<T>)
    requires a <= b && |a| == |b|
    ensures a == b
  {
    assert |b - a| == |b| - |a|;
  }

  predicate DistinctSources(m: map<string, string>, fields: seq<Field>, n: nat)
    requires n <= |fields|
  {
    && (forall j | 0 <= j < n :: fields[j].id in m)
    && (forall j, k | 0 <= j < k < n :: m[fields[j].id] != m[fields[k].id])
  }

  lemma SourcesCover(m: map<string, string>, fields: seq<Field>)
    ensures MapCovers(m, fields) <==> |m| == |fields| && DistinctSources(m, fields, |fields|)
  {
    if DistinctSources(m, fields, |fields|) {
      CountCovers(m, fields);
      if |m| == |fields| {
        forall a, b | a in m && b in m && a != b ensures m[a] != m[b] {
          FieldAt(fields, a);
          FieldAt(fields, b);
        }
      }
    }
    if MapCovers(m, fields) {
      CountCovers(m, fields);
      assert forall j | 0 <= j < |fields| :: fields[j] in fields;
    }
  }

  method CheckMap(m: map<string, string>, fields: seq<Field>) returns (ok: bool)
    ensures ok <==> MapCovers(m, fields)
    ensures ok ==> forall f | f in fields :: f.id in m
  {
    hide MapCovers;
    SourcesCover(m, fields);
    if |m| != |fields| {
      return false;
    }
    var names: set<string> := {};
    for i := 0 to |fields|
      invariant DistinctSources(m, fields, i)
      invariant forall n :: n in names <==> exists j :: 0 <= j < i && m[fields[j].id] == n
    {
      var key := fields[i].id;
      if key !in m || m[key] in names {
        return false;
      }
      names := names + {m[key]};
    }
    ok := true;
  }

  method CheckSchema(m: map<string, string>, fields: seq<Field>, sources: seq<Source>) returns (ok: bool)
    requires sources != [] && forall f | f in fields :: f.id in m
    ensures ok <==> SchemaFits(m, fields, Some(sources))
  {
    var names: set<string> := {};
    for i := 0 to |sources|
      invariant forall n :: n in names <==> exists j :: 0 <= j < i && sources[j].name == n
      invariant forall j, k | 0 <= j < k < i :: sources[j].name != sources[k].name
    {
      if sources[i].name in names {
        return false;
      }
      names := names + {sources[i].name};
    }
    for i := 0 to |fields|
      invariant forall j | 0 <= j < i :: Provided(m, fields[j], sources)
    {
      var source := FindSource(sources, m[fields[i].id]);
      if source.None? || source.value.kind != fields[i].kind || source.value.nullable != fields[i].nullable {
        assert fields[i] in fields;
        return false;
      }
    }
    ok := true;
  }

  /** The last source of that name. */
  method FindSource(sources: seq<Source>, name: string) returns (r: Option<Source>)
    requires DistinctNames(sources)
    ensures r.Some? ==> r.value in sources && r.value.name == name
    ensures forall s | s in sources && s.name == name :: r == Some(s)
  {
    r := None;
    for i := 0 to |sources|
      invariant r.Some? ==> r.value in sources[..i] && r.value.name == name
      invariant forall j | 0 <= j < i && sources[j].name == name :: r == Some(sources[j])
    {
      if sources[i].name == name {
        r := Some(sources[i]);
      }
    }
  }
}
