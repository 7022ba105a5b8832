/** Recordings that name documents other than the observed ones. */
module UseExamples {
  import opened Bytes
  import opened SemanticsModel
  import opened SemanticsRegistry
  import opened SemanticsRuns
  import opened OperatorUse

  const FIELDS: seq<Field> := [Field("f", "int", false)]
  const SOURCES: seq<Source> := [Source("c", "int", false)]
  const OBJECT := ObjectKey("p", "o")
  const SNAPSHOT := Snapshot(OBJECT, true, Some(SOURCES), "1")

  /** What is observed, and what others stored under the same names before. */
  const DICTIONARY := DictionaryDoc(FIELDS, [], "observed")
  const OTHER_DICTIONARY := DictionaryDoc(FIELDS, [], "other")
  const OBSERVED := Observed("out", DICTIONARY, SNAPSHOT, map["f" := "c"], "observed")

  function Hashed(): Names {
    Names((d: Document) => "out_d", (k: ObjectKey) => "out_b")
  }

  function BindingWith(body: string): Document {
    BindingDoc(OBJECT, Ref(Dictionary, "out_d", 1), map["f" := "c"], Some(SOURCES), Some(SNAPSHOT), "1", body)
  }

  lemma WithIsObserved()
    ensures BindingOf(Hashed(), OBSERVED) == BindingWith("observed")
  {
  }

  function DictionarySave(d: Document, expected: nat): Request {
    Request(Dictionary, "out_d", Some(d), "", expected, 0, false)
  }

  function BindingSave(body: string, expected: nat): Request {
    Request(Binding, "out_b", Some(BindingWith(body)), "", expected, 0, true)
  }

  /** The tables after a save that stores a new revision. */
  ghost function After(t: Tables, r: Request): Tables
    requires r.document.Some?
  {
    var now := Ref(r.kind, r.name, Current(t, Target(r)) + 1);
    Tables(t.objects[Target(r) := Entry(now.revision, Owner(r.document.value))],
           t.revisions[now := Stored(r.document.value, r.base, r.note)],
           t.journal + [now],
           t.references + Edges(now, Links(r.document.value)),
           Noted(t.observed, now, r.observed))
  }

  /** One successful save leads from t to u. */
  ghost predicate OneSave(t: Tables, r: Request, u: Tables) {
    exists o :: SavedStep(t, r, true, u, o)
  }

  lemma Saving(t: Tables, r: Request)
    requires Inv(t) && Acceptable(t, r, true) && !Same(t, r)
    requires DocumentKind(r.document.value) == r.kind && Normalized(r.document.value)
    ensures var u := After(t, r);
      var o := Saved(Ref(r.kind, r.name, Current(u, Target(r))), r.document.value, true, StructureCheck(r.document.value));
      SavedStep(t, r, true, u, o) && OneSave(t, r, u) && Inv(u) && Extends(t, u)
  {
    var u := After(t, r);
    var o := Saved(Ref(r.kind, r.name, Current(u, Target(r))), r.document.value, true, StructureCheck(r.document.value));
    assert SavedStep(t, r, true, u, o) by {
      hide Inv, Acceptable, Same, Edges, Links;
      SaveAppends(t, r, u);
    }
    SaveKeepsInv(t, r, true, u, o);
    SaveExtends(t, r, true, u, o);
  }

  lemma SaveAppends(t: Tables, r: Request, u: Tables)
    requires Acceptable(t, r, true) && !Same(t, r) && u == After(t, r)
    ensures Appends(t, r, u)
  {
    hide LinksFit, OwnerKept, OwnerFree, Links, Edges;
  }

  // ---- What others saved: a dictionary and a binding of two revisions each ----

  const DK := Key(Dictionary, "out_d")
  const BK := Key(Binding, "out_b")
  const D1 := Ref(Dictionary, "out_d", 1)
  const D2 := Ref(Dictionary, "out_d", 2)
  const B1 := Ref(Binding, "out_b", 1)
  const B2 := Ref(Binding, "out_b", 2)

  ghost function OneDictionary(): Tables {
    After(EMPTY, DictionarySave(OTHER_DICTIONARY, 0))
  }

  ghost function TwoDictionaries(): Tables {
    After(OneDictionary(), DictionarySave(DICTIONARY, 1))
  }

  ghost function OneBinding(): Tables {
    After(TwoDictionaries(), BindingSave("other", 0))
  }

  ghost function Before(): Tables {
    After(OneBinding(), BindingSave("observed", 1))
  }

  lemma NamesFit()
    ensures SemanticsName("out_d") && SemanticsName("out_b") && SemanticsName("u")
  {
  }

  lemma WithFits(body: string)
    ensures BindingFits(BindingWith(body), FIELDS)
  {
    var m := map["f" := "c"];
    assert FIELDS[0] in FIELDS && SOURCES[0] in SOURCES;
    assert MapCovers(m, FIELDS);
    assert SchemaFits(m, FIELDS, Some(SOURCES));
  }

  lemma DictionaryAccepted(t: Tables, d: Document, expected: nat)
    requires d.DictionaryDoc? && d.relations == [] && expected < 10
    requires t.objects == if expected == 0 then map[] else map[DK := Entry(expected, None)]
    requires var now := Ref(Dictionary, "out_d", expected); now in t.revisions ==> t.revisions[now].document != d
    ensures var r := DictionarySave(d, expected); Acceptable(t, r, true) && !Same(t, r)
  {
    NamesFit();
    hide SemanticsName;
  }

  lemma DictionaryStep(t: Tables, d: Document, expected: nat)
    requires Inv(t) && d.DictionaryDoc? && d.relations == [] && expected < 10
    requires t.objects == if expected == 0 then map[] else map[DK := Entry(expected, None)]
    requires var now := Ref(Dictionary, "out_d", expected); now in t.revisions ==> t.revisions[now].document != d
    ensures var u := After(t, DictionarySave(d, expected));
            && OneSave(t, DictionarySave(d, expected), u)
            && Inv(u) && Extends(t, u) && u.objects == map[DK := Entry(expected + 1, None)]
            && u.revisions == t.revisions[Ref(Dictionary, "out_d", expected + 1) := Stored(d, 0, "")]
  {
    hide Inv, Extends, Acceptable, Same, SavedStep, OneSave, Edges, Links;
    DictionaryAccepted(t, d, expected);
    Saving(t, DictionarySave(d, expected));
  }

  lemma BindingAccepted(t: Tables, body: string, expected: nat)
    requires expected < 10 && D1 in t.revisions && t.revisions[D1].document == OTHER_DICTIONARY
    requires t.objects == if expected == 0 then map[DK := Entry(2, None)] else map[DK := Entry(2, None), BK := Entry(expected, Some(OBJECT))]
    requires var now := Ref(Binding, "out_b", expected); now in t.revisions ==> t.revisions[now].document != BindingWith(body)
    ensures var r := BindingSave(body, expected); Acceptable(t, r, true) && !Same(t, r)
  {
    NamesFit();
    WithFits(body);
    hide SemanticsName, BindingFits;
    assert LinksFit(t, BindingWith(body));
  }

  lemma BindingStep(t: Tables, body: string, expected: nat)
    requires Inv(t) && expected < 10 && D1 in t.revisions && t.revisions[D1].document == OTHER_DICTIONARY
    requires t.objects == if expected == 0 then map[DK := Entry(2, None)] else map[DK := Entry(2, None), BK := Entry(expected, Some(OBJECT))]
    requires var now := Ref(Binding, "out_b", expected); now in t.revisions ==> t.revisions[now].document != BindingWith(body)
    ensures var u := After(t, BindingSave(body, expected));
            && OneSave(t, BindingSave(body, expected), u)
            && Inv(u) && Extends(t, u) && u.objects == map[DK := Entry(2, None), BK := Entry(expected + 1, Some(OBJECT))]
            && u.revisions == t.revisions[Ref(Binding, "out_b", expected + 1) := Stored(BindingWith(body), 0, "")]
            && Ref(Binding, "out_b", expected + 1) in u.observed
  {
    hide Inv, Extends, Acceptable, Same, SavedStep, OneSave, Edges, Links;
    BindingAccepted(t, body, expected);
    Saving(t, BindingSave(body, expected));
  }

  /** The tables before the batch: under both names revision 1 is something else, and revision 2 is what is observed. */
  ghost predicate Crossed(t: Tables) {
    && Inv(t) && Extends(EMPTY, t)
    && t.objects == map[DK := Entry(2, None), BK := Entry(2, Some(OBJECT))]
    && {D1, D2, B1, B2} <= t.revisions.Keys && B2 in t.observed
    && t.revisions[D1].document == OTHER_DICTIONARY && t.revisions[D2].document == DICTIONARY
    && t.revisions[B1].document == BindingWith("other") && t.revisions[B2].document == BindingWith("observed")
  }

  /** Four saves lead from empty tables to the tables before the batch. */
  ghost predicate FourSaves() {
    && OneSave(EMPTY, DictionarySave(OTHER_DICTIONARY, 0), OneDictionary())
    && OneSave(OneDictionary(), DictionarySave(DICTIONARY, 1), TwoDictionaries())
    && OneSave(TwoDictionaries(), BindingSave("other", 0), OneBinding())
    && OneSave(OneBinding(), BindingSave("observed", 1), Before())
  }

  lemma BeforeCrossed()
    ensures Crossed(Before()) && FourSaves()
  {
    hide Inv, Extends, After, OneSave, BindingWith, DictionarySave, BindingSave;
    EmptyInv();
    ExtendsItself(EMPTY);
    DictionaryStep(EMPTY, OTHER_DICTIONARY, 0);
    DictionaryStep(OneDictionary(), DICTIONARY, 1);
    ExtendsOn(EMPTY, OneDictionary(), TwoDictionaries());
    BindingStep(TwoDictionaries(), "other", 0);
    ExtendsOn(EMPTY, TwoDictionaries(), OneBinding());
    DifferentBodies();
    BindingStep(OneBinding(), "observed", 1);
    ExtendsOn(EMPTY, OneBinding(), Before());
  }

  lemma DifferentBodies()
    ensures BindingWith("other") != BindingWith("observed") && OTHER_DICTIONARY != DICTIONARY
  {
    assert "other"[1] != "observed"[1];
  }

  // ---- The batch over these tables ----

  /** Both documents are current, so both writes succeed whatever they expect, and change nothing. */
  lemma DictionaryRepeats(t: Tables)
    requires Crossed(t)
    ensures SavedStep(t, DictionaryWrite(Hashed(), OBSERVED), true, t, Saved(D2, DICTIONARY, false, None))
  {
    hide Inv, Extends, SemanticsName;
    NamesFit();
  }

  lemma BindingRepeats(t: Tables, expected: nat)
    requires Crossed(t) && expected < 2
    ensures SavedStep(t, BindingWrite(Hashed(), OBSERVED, Plan("out_b", expected)), true, t,
                      Saved(B2, BindingWith("observed"), false, Some(Matched)))
  {
    hide Inv, Extends, SemanticsName, BindingFits;
    NamesFit();
    WithFits("observed");
    WithIsObserved();
    assert LinksFit(t, BindingWith("observed"));
    assert t.(observed := Noted(t.observed, B2, true)) == t;
  }

  function TheUse(expected: nat): Request {
    UseWrite("u", 0, UseLinks(Hashed(), [], [OBSERVED], [Plan("out_b", expected)], 1), "")
  }

  lemma UseAccepted(t: Tables, expected: nat)
    requires Crossed(t) && expected < 2
    ensures Acceptable(t, TheUse(expected), true) && !Same(t, TheUse(expected))
  {
    hide Inv, Extends, SemanticsName, BindingWith;
    NamesFit();
    var none := Ref(OperatorUse, "u", 0);
    if none in t.revisions {
      CurrentPositive(t, none);
    }
    var d := TheUse(expected).document.value;
    var (l, m) := (Link(D1, OBSERVED.port + "/dictionary_ref", map[]),
                   Link(BindingRef(Plan("out_b", expected)), OBSERVED.port + "/binding_ref", map[]));
    assert DictionaryRef(Hashed(), OBSERVED) == D1;
    assert UseLinks(Hashed(), [], [OBSERVED], [Plan("out_b", expected)], 1) == [] + [l, m];
    assert Links(d) == [l, m];
    assert l.target in t.revisions && m.target in t.revisions;
  }

  function TheCalls(expected: nat): seq<Call> {
    Calls(Writes(Hashed(), [OBSERVED], [Plan("out_b", expected)], 1) + [TheUse(expected)], true)
  }

  function TheOutcomes(expected: nat): seq<Outcome> {
    [Saved(D2, DICTIONARY, false, None), Saved(B2, BindingWith("observed"), false, Some(Matched)),
     Saved(Ref(OperatorUse, "u", 1), TheUse(expected).document.value, true, None)]
  }

  /** The batch succeeds, and the use names revision 1 of the dictionary and one past what the plan expects. */
  lemma BatchSucceeds(expected: nat)
    requires expected < 2
    ensures var t := Before();
            && Crossed(t) && FourSaves()
            && Batch([t, t, t, After(t, TheUse(expected))], TheCalls(expected), TheOutcomes(expected), Hashed(), [OBSERVED],
                     [Plan("out_b", expected)], TheUse(expected))
  {
    var (t, plan, use) := (Before(), Plan("out_b", expected), TheUse(expected));
    BeforeCrossed();
    hide Before, FourSaves, OneSave, Crossed, Inv, Acceptable, Same, After, SavedStep, BindingWith;
    DictionaryRepeats(t);
    BindingRepeats(t, expected);
    UseAccepted(t, expected);
    CrossedInv(t);
    Saving(t, use);
    UseCurrent(t, expected);
    var writes := Writes(Hashed(), [OBSERVED], [plan], 1) + [use];
    assert writes[0] == DictionaryWrite(Hashed(), OBSERVED) && writes[1] == BindingWrite(Hashed(), OBSERVED, plan) && writes[2] == use;
  }

  lemma CrossedInv(t: Tables)
    requires Crossed(t)
    ensures Inv(t)
  {
  }

  lemma UseCurrent(t: Tables, expected: nat)
    requires Crossed(t)
    ensures Current(After(t, TheUse(expected)), Target(TheUse(expected))) == 1
  {
    hide Inv, Extends;
  }

  /**
   * With nobody interfering, the lookup finds binding revision 2, which holds the
   * observed content, and the binding reference is right; the dictionary
   * reference names revision 1, another document.
   */
  lemma DictionaryMissed()
    ensures var (t, plan) := (Before(), Plan("out_b", 1));
      var (states, u) := ([t, t, t, After(t, TheUse(1))], After(t, TheUse(1)));
      && FourSaves() && Inv(t) && PlanFor(t, BindingOf(Hashed(), OBSERVED), plan)
      && Batch(states, TheCalls(1), TheOutcomes(1), Hashed(), [OBSERVED], [plan], TheUse(1))
      && DictionaryRef(Hashed(), OBSERVED) in u.revisions
      && u.revisions[DictionaryRef(Hashed(), OBSERVED)].document == OTHER_DICTIONARY != OBSERVED.dictionary
  {
    BatchSucceeds(1);
    DifferentBodies();
    WithIsObserved();
    hide Batch, FourSaves, Before, PlanFor, After, TheCalls, TheOutcomes, TheUse, BindingWith, BindingOf;
    PlanIsCurrent(Before());
    UseKeeps(Before(), 1);
  }

  /**
   * A lookup in empty tables plans revision 1; then others save two revisions of
   * the binding, the second one being what is observed. The batch still succeeds,
   * and the binding reference names the first one, another document.
   */
  lemma BindingMissed()
    ensures var (t, plan) := (Before(), Plan("out_b", 0));
      var (states, u) := ([t, t, t, After(t, TheUse(0))], After(t, TheUse(0)));
      && FourSaves() && PlanFor(EMPTY, BindingOf(Hashed(), OBSERVED), plan) && Inv(EMPTY) && Inv(t) && Extends(EMPTY, t)
      && Batch(states, TheCalls(0), TheOutcomes(0), Hashed(), [OBSERVED], [plan], TheUse(0))
      && BindingRef(plan) in u.revisions
      && u.revisions[BindingRef(plan)].document != BindingOf(Hashed(), OBSERVED)
  {
    BatchSucceeds(0);
    DifferentBodies();
    WithIsObserved();
    EmptyInv();
    EmptyPlan(BindingWith("observed"), "out_b");
    hide Batch, FourSaves, Before, Inv, Extends, PlanFor, After, TheCalls, TheOutcomes, TheUse, BindingWith, BindingOf;
    UseKeeps(Before(), 0);
  }

  lemma PlanIsCurrent(t: Tables)
    requires Crossed(t)
    ensures PlanFor(t, BindingWith("observed"), Plan("out_b", 1))
  {
    hide BindingWith;
    hide KindsMatch, AdjacentDiffer, JournalExact, Earlier, EdgesExact, LinksSound, ObservedExact, Extends;
    WithOwner("observed");
    forall r | r in t.revisions && Owner(t.revisions[r].document) == Some(OBJECT) && r.revision == Current(t, KeyOf(r))
      ensures r == B2
    {
      assert KeyOf(r) in t.objects && t.objects[KeyOf(r)].owner == Some(OBJECT);
    }
    assert Owner(t.revisions[B2].document) == Some(OBJECT);
  }

  lemma EmptyPlan(b: Document, name: string)
    ensures PlanFor(EMPTY, b, Plan(name, 0))
  {
  }

  lemma WithOwner(body: string)
    ensures Owner(BindingWith(body)) == Some(OBJECT)
  {
  }

  lemma UseKeeps(t: Tables, expected: nat)
    requires Crossed(t)
    ensures var u := After(t, TheUse(expected));
      && {D1, B1} <= u.revisions.Keys
      && u.revisions[D1].document == OTHER_DICTIONARY && u.revisions[B1].document == BindingWith("other")
  {
    hide Inv, Extends, BindingWith;
  }
}
