/** Publishing configuration revisions, and walking them page by page while others publish. */
module ConfigPaging {
  import opened Bytes

  const MAX_LIMIT: nat := 100
  const MAX_NAME: nat := 64
  const MAX_SCHEMA: nat := 255
  const MAX_CONTENT: nat := 8 * 1024 * 1024

  /** A stored revision: what identical publications are compared by, and the revision it was based on. */
  datatype Revision = Revision(format: string, schema: string, content: seq<byte>, base: nat)

  /** A request; `sound` says that the UTF-8 checks, the lengths of file name and note, and the content check pass. */
  datatype Publication = Publication(name: string, revision: Revision, expected: nat, sound: bool)

  predicate NameChar(c: char) {
    'a' <= c <= 'z' || '0' <= c <= '9' || c == '_' || c == '-'
  }

  predicate ValidName(n: string) {
    0 < |n| <= MAX_NAME && 'a' <= n[0] <= 'z' && forall c | c in n :: NameChar(c)
  }

  predicate ValidRequest(p: Publication) {
    && ValidName(p.name) && p.revision.format in {"json", "yaml", "xml"} && 0 < |p.revision.schema| <= MAX_SCHEMA
    && 0 < |p.revision.content| <= MAX_CONTENT && p.expected <= INT64_MAX && p.revision.base <= INT64_MAX && p.sound
  }

  /** The loop over the characters of a name. */
  method CheckName(name: string) returns (ok: bool)
    ensures ok <==> ValidName(name)
  {
    if name == [] || |name| > 64 || name[0] < 'a' || name[0] > 'z' {
      return false;
    }
    for i := 0 to |name|
      invariant forall j | 0 <= j < i :: NameChar(name[j])
    {
      var c := name[i];
      if (c < 'a' || c > 'z') && (c < '0' || c > '9') && c != '_' && c != '-' {
        assert name[i] in name && !NameChar(name[i]);
        return false;
      }
    }
    ok := true;
  }

  /** `Validate`: the checks of a request. */
  method Validate(p: Publication) returns (ok: bool)
    ensures ok <==> ValidRequest(p)
  {
    hide ValidName;
    var named := CheckName(p.name);
    if !named || (p.revision.format != "json" && p.revision.format != "yaml" && p.revision.format != "xml")
       || p.revision.schema == [] || |p.revision.schema| > 255 || p.revision.content == [] || !p.sound {
      return false;
    }
    if |p.revision.content| > MAX_CONTENT {
      return false;
    }
    ok := p.expected <= INT64_MAX && p.revision.base <= INT64_MAX;
  }

  /** Byte order of names, as `ORDER BY name` sorts them. */
  predicate Less(a: string, b: string) {
    b != [] && (a == [] || a[0] < b[0] || (a[0] == b[0] && Less(a[1..], b[1..])))
  }

  /** The order, without recursion: a proper prefix, or a smaller character at the first difference. */
  lemma {:induction false} LessMeans(a: string, b: string)
    ensures Less(a, b) <==>
      (|a| < |b| && a == b[..|a|]) || exists k :: 0 <= k < |a| && k < |b| && a[..k] == b[..k] && a[k] < b[k]
    decreases |a|
  {
    if a != [] && b != [] && a[0] == b[0] {
      var (x, y) := (a[1..], b[1..]);
      LessMeans(x, y);
      assert a == [a[0]] + x && b == [a[0]] + y;
      if |x| < |y| && x == y[..|x|] {
        assert b[..|a|] == [a[0]] + y[..|x|];
      }
      if |a| < |b| && a == b[..|a|] {
        assert x == y[..|x|];
      }
      if k :| 0 <= k < |x| && k < |y| && x[..k] == y[..k] && x[k] < y[k] {
        assert a[..k + 1] == [a[0]] + x[..k] && b[..k + 1] == [a[0]] + y[..k] && a[k + 1] < b[k + 1];
      }
      if k :| 0 <= k < |a| && k < |b| && a[..k] == b[..k] && a[k] < b[k] {
        assert k > 0 && x[..k - 1] == a[..k][1..] && y[..k - 1] == b[..k][1..] && x[k - 1] < y[k - 1];
      }
    } else if a != [] && b != [] {
      assert a[..0] == b[..0];
      if k :| 0 <= k < |a| && k < |b| && a[..k] == b[..k] && a[k] < b[k] {
        assert k > 0 ==> a[..k][0] == b[..k][0];
      }
    }
  }

  lemma {:induction false} LessTotal(a: string, b: string)
    ensures a == b || Less(a, b) || Less(b, a)
    decreases |a|
  {
    if a != [] && b != [] && a[0] == b[0] {
      LessTotal(a[1..], b[1..]);
      assert a[1..] == b[1..] ==> a == [a[0]] + a[1..] == [b[0]] + b[1..] == b;
    }
  }

  lemma {:induction false} LessStrict(a: string)
    ensures !Less(a, a)
    decreases |a|
  {
    if a != [] {
      LessStrict(a[1..]);
    }
  }

  lemma {:induction false} LessTransitive(a: string, b: string, c: string)
    requires Less(a, b) && Less(b, c)
    ensures Less(a, c)
    decreases |a|
  {
    if a != [] && a[0] == b[0] && b[0] == c[0] {
      LessTransitive(a[1..], b[1..], c[1..]);
    }
  }

  predicate Ascending(names: seq<string>) {
    forall i, j | 0 <= i < j < |names| :: Less(names[i], names[j])
  }

  /** n, n - 1, ..., down to but without `low`. */
  function Down(n: nat, low: nat): (r: seq<nat>)
    ensures |r| == if n <= low then 0 else n - low
    decreases n
  {
    if n <= low then [] else [n] + Down(n - 1, low)
  }

  lemma {:induction false} DownSplit(n: nat, middle: nat, low: nat)
    requires low <= middle <= n
    ensures Down(n, low) == Down(n, middle) + Down(middle, low)
    decreases n
  {
    if n > middle {
      DownSplit(n - 1, middle, low);
    }
  }

  lemma DownNone(n: nat)
    ensures Down(n, n) == []
  {
  }

  lemma DownLast(n: nat, low: nat)
    requires low < n
    ensures Down(n, low)[n - low - 1] == low + 1
  {
    DownSplit(n, low + 1, low);
    OneDown(low);
    hide Down;
    assert |Down(n, low + 1)| == n - low - 1;
  }

  lemma OneDown(low: nat)
    ensures Down(low + 1, low) == [low + 1]
  {
  }

  lemma OneLower(n: nat, r: nat)
    requires 0 < r <= n
    ensures Down(n, r - 1) == Down(n, r) + [r]
  {
    DownSplit(n, r, r - 1);
    OneDown(r - 1);
  }

  datatype Outcome = Published(revision: nat, created: bool) | Invalid | Conflict | BaseMissing | StorageError

  class ConfigChannelProvider {
    /** The revisions of each channel, the first one first. */
    var channels: map<string, seq<Revision>>
    /** Statements of a healthy database do not fail by themselves. */
    const healthy: bool

    ghost predicate Valid()
      reads this
    {
      forall n | n in channels :: ValidName(n) && 0 < |channels[n]| <= INT64_MAX
    }

    constructor (healthy: bool)
      ensures Valid() && channels == map[] && this.healthy == healthy
    {
      channels := map[];
      this.healthy := healthy;
    }

    /** One statement of the database, which fails or not. */
    method Statement() returns (fails: bool)
      ensures fails ==> !healthy
    {
      fails := *;
      fails := fails && !healthy;
    }

    function Current(name: string): nat
      reads this
    {
      if name in channels then |channels[name]| else 0
    }

    /** The request has the content of the current revision; the base and the other data of a request do not matter. */
    ghost predicate Repeats(p: Publication)
      reads this
    {
      var n := Current(p.name);
      n > 0 && channels[p.name][n - 1].(base := 0) == p.revision.(base := 0)
    }

    /** Appends a revision, unless the request is invalid, repeats the current one, or expected another. */
    method Publish(p: Publication) returns (o: Outcome)
      requires Valid()
      modifies this
      ensures Valid()
      ensures o == Invalid <==> !ValidRequest(p)
      ensures o.Published? && o.created ==>
        && channels == old(channels)[p.name := (if p.name in old(channels) then old(channels)[p.name] else []) + [p.revision]]
        && p.expected == old(Current(p.name)) >= p.revision.base && o.revision == p.expected + 1
      ensures !(o.Published? && o.created) ==> channels == old(channels)
      ensures o.Published? && !o.created ==> o.revision == Current(p.name) > 0
      ensures o.Published? ==> (!o.created <==> old(Repeats(p)))
      ensures o == Conflict ==> p.expected != Current(p.name) && !Repeats(p)
      ensures o == BaseMissing ==> p.revision.base > Current(p.name) && !Repeats(p)
      ensures o == StorageError && healthy ==> Current(p.name) == INT64_MAX && !Repeats(p)
    {
      hide ValidRequest;
      var valid := Validate(p);
      if !valid {
        return Invalid;
      }
      assert ValidName(p.name) by { RequestName(p); }
      hide ValidName;
      var begin := channels;
      var current := Current(p.name);
      if current > 0 {
        var last := channels[p.name][current - 1];
        if last.format == p.revision.format && last.schema == p.revision.schema && last.content == p.revision.content {
          var fails := Statement();
          return if fails then StorageError else Published(current, false);
        }
      }
      if current != p.expected {
        return Conflict;
      }
      if current >= INT64_MAX {
        return StorageError;
      }
      if p.revision.base > current {
        return BaseMissing;
      }
      channels := channels[p.name := (if p.name in channels then channels[p.name] else []) + [p.revision]];
      var fails := Statement();
      if fails {
        channels := begin;
        return StorageError;
      }
      o := Published(current + 1, true);
    }

    /** What publishing keeps: channels stay, and their revisions only grow. */
    twostate predicate Grown()
      reads this
    {
      forall n | n in old(channels) :: n in channels && old(channels[n]) <= channels[n]
    }

    method PublishAll(ps: seq<Publication>)
      requires Valid()
      modifies this
      ensures Valid() && Grown() && old(channels.Keys) <= channels.Keys <= old(channels.Keys) + Names(ps)
    {
      hide ValidName;
      for i := 0 to |ps|
        invariant Valid() && Grown() && channels.Keys <= old(channels.Keys) + Names(ps)
      {
        assert ps[i] in ps;
        var o := Publish(ps[i]);
      }
    }

    /** The query for one page more than asked: newest first, below `before` unless that is 0. */
    method ListHistory(name: string, before: nat, limit: nat) returns (ok: bool, items: seq<nat>, next: nat)
      ensures ok <==> name in channels && 1 <= limit <= MAX_LIMIT && before <= INT64_MAX
      ensures ok ==> var top := if before == 0 || before > Current(name) then Current(name) else before - 1;
        var low := if top > limit then top - limit else 0;
        items == Down(top, low) && next == if low > 0 then low + 1 else 0
    {
      hide Down;
      items, next := [], 0;
      if name !in channels || limit == 0 || limit > MAX_LIMIT || before > INT64_MAX {
        return false, items, next;
      }
      var top: nat := if before == 0 || before > Current(name) then Current(name) else before - 1;
      var r: nat := top;
      DownNone(top);
      while r > 0 && |items| < limit + 1
        invariant 0 <= r <= top && items == Down(top, r) && |items| == top - r <= limit + 1
      {
        OneLower(top, r);
        items := items + [r];
        r := r - 1;
      }
      if |items| > limit {
        OneLower(top, r + 1);
        DownLast(top, r + 1);
        items := items[..limit];
        next := items[limit - 1];
      }
      ok := true;
    }

    /**
     * Walks a history by its cursor, with any page limits, while others publish
     * between the pages: every revision up to the first page's newest, exactly
     * once, newest first.
     */
    method WalkHistory(name: string, limits: nat -> nat, traffic: nat -> seq<Publication>) returns (seen: seq<nat>)
      requires Valid() && name in channels
      requires forall i :: 1 <= limits(i) <= MAX_LIMIT
      modifies this
      ensures Valid() && seen == Down(old(Current(name)), 0)
    {
      hide Down, ValidName;
      var newest: nat := Current(name);
      var ok: bool;
      var cursor: nat;
      ok, seen, cursor := ListHistory(name, 0, limits(0));
      var page := 1;
      while cursor != 0
        invariant Valid() && name in channels && Current(name) >= newest
        invariant cursor <= newest <= INT64_MAX && seen == Down(newest, if cursor == 0 then 0 else cursor - 1)
        decreases cursor
      {
        PublishAll(traffic(page));
        var items;
        ghost var top := cursor - 1;
        ok, items, cursor := ListHistory(name, cursor, limits(page));
        DownSplit(newest, top, if cursor == 0 then 0 else cursor - 1);
        seen := seen + items;
        page := page + 1;
      }
    }

    /** The least channel name after `after`. */
    method NextName(after: string) returns (r: Option<string>)
      ensures r.Some? ==> r.value in channels && Less(after, r.value)
      ensures r.Some? ==> forall n | n in channels && Less(after, n) :: n == r.value || Less(r.value, n)
      ensures r.None? ==> forall n | n in channels :: !Less(after, n)
    {
      hide Less;
      r := None;
      var todo := channels.Keys;
      while todo != {}
        invariant todo <= channels.Keys
        invariant r.Some? ==> r.value in channels && Less(after, r.value)
        invariant forall n | n in channels && n !in todo && Less(after, n) :: r.Some? && (n == r.value || Less(r.value, n))
        decreases |todo|
      {
        var n :| n in todo;
        todo := todo - {n};
        if Less(after, n) && (r.None? || Less(n, r.value)) {
          forall x | x in channels && x !in todo && Less(after, x) ensures x == n || Less(n, x) {
            if x != n {
              LessThrough(n, r.value, x);
            }
          }
          r := Some(n);
        } else if r.Some? {
          LessTotal(n, r.value);
        }
      }
    }

    lemma NamesValid()
      requires Valid()
      ensures AllValid(channels.Keys)
    {
      hide ValidName;
    }

    /** The query for one page more than asked: names after the cursor in order. */
    method ListChannels(cursor: string, limit: nat) returns (ok: bool, items: seq<string>, next: string)
      requires Valid()
      ensures ok <==> 1 <= limit <= MAX_LIMIT && (cursor == [] || ValidName(cursor))
      ensures ok ==> Listed(channels.Keys, cursor, limit, items, next)
    {
      hide Less, ValidName;
      items, next := [], [];
      NamesValid();
      NotEmpty(channels.Keys);
      if limit == 0 || limit > 100 {
        return false, items, next;
      }
      if cursor != [] {
        ok := CheckName(cursor);
        if !ok {
          return;
        }
      }
      var more := true;
      while more && |items| < limit + 1
        invariant |items| <= limit + 1 && Page(channels.Keys, cursor, items)
        invariant !more ==> forall n | n in channels && Less(cursor, n) :: n in items
        decreases limit + 1 - |items|, more
      {
        var after := if items == [] then cursor else items[|items| - 1];
        var n := NextName(after);
        if n.None? {
          PageComplete(channels.Keys, cursor, items);
          more := false;
        } else {
          PageGrows(channels.Keys, cursor, items, n.value);
          items := items + [n.value];
        }
      }
      if |items| > limit {
        PageShrinks(channels.Keys, cursor, items, limit);
        ghost var beyond := items[limit];
        assert beyond in items;
        items := items[..limit];
        next := items[limit - 1];
        assert next in items;
      }
      ok := true;
    }

    /**
     * Walks the channels by their cursor, with any page limits, while others
     * publish whatever they like between the pages. The walk ends, because names
     * are never removed and only finitely many are valid. What is seen is in strict
     * order, so nothing is seen twice, and every channel of the start is seen.
     */
    method WalkChannels(limits: nat -> nat, traffic: nat -> seq<Publication>) returns (seen: seq<string>, ghost steps: seq<Step>)
      requires Valid()
      requires forall i :: 1 <= limits(i) <= MAX_LIMIT
      modifies this
      ensures Valid() && Ascending(seen) && forall n | n in seen :: n in channels
      ensures forall n | n in old(channels) :: n in seen
      ensures |steps| <= |seen| || |steps| == 1
      ensures |seen| <= NameCount(old(channels.Keys), traffic, |steps|) && |seen| <= |ValidNames()|
      ensures Walk(limits, traffic, steps) && Ended(steps) && steps[0].keys == old(channels.Keys) && seen == Items(steps)
    {
      hide Less, Page, Ascending, Listed, Walk, Items, NameCount, Ended, InWalk, Valid, Names, TrafficNames, Grown, ValidName,
        ValidNames, AllValid;
      ghost var start := channels.Keys;
      seen, steps := [], [];
      var cursor: string := [];
      var finished := false;
      NamesValid();
      WalkStarts(limits, traffic, start);
      var page := 0;
      while !finished
        invariant Valid() && |steps| == page
        invariant InWalk(limits, traffic, start, channels.Keys, seen, cursor, finished, steps)
        decreases !finished, |ValidNames()| - |seen|
      {
        CursorValid(limits, traffic, start, channels.Keys, seen, cursor, steps);
        var ok, items, next;
        ok, items, next := ListChannels(cursor, limits(page));
        ghost var now := channels.Keys;
        PublishAll(traffic(page));
        NamesValid();
        WalkGoesOn(limits, traffic, start, now, channels.Keys, seen, cursor, steps, items, next);
        seen, cursor, finished, steps := seen + items, next, next == [], steps + [Step(now, cursor, items, next)];
        SeenBounded(limits, traffic, start, channels.Keys, seen, cursor, finished, steps);
        page := page + 1;
      }
      WalkStops(limits, traffic, start, channels.Keys, seen, cursor, steps);
    }
  }

  lemma RequestName(p: Publication)
    requires ValidRequest(p)
    ensures ValidName(p.name)
  {
  }

  // ---- Names ----

  ghost function Chars(): set<char> {
    set c: char | NameChar(c)
  }

  /** All strings of at most k name characters. */
  ghost function AllNames(k: nat): set<string> {
    if k == 0 then {[]} else AllNames(k - 1) + set c, n | c in Chars() && n in AllNames(k - 1) :: [c] + n
  }

  lemma {:induction false} NameIn(n: string, k: nat)
    requires |n| <= k && forall c | c in n :: NameChar(c)
    ensures n in AllNames(k)
    decreases k
  {
    if n == [] {
      EmptyIn(k);
    } else {
      NameIn(n[1..], k - 1);
      assert n[0] in n && n == [n[0]] + n[1..];
    }
  }

  lemma {:induction false} EmptyIn(k: nat)
    ensures [] in AllNames(k)
  {
    if k > 0 {
      EmptyIn(k - 1);
    }
  }

  /** A finite set that holds every valid name. */
  ghost function ValidNames(): set<string> {
    AllNames(MAX_NAME)
  }

  lemma NamesFinite(n: string)
    requires ValidName(n)
    ensures n in ValidNames()
  {
    hide AllNames;
    NameIn(n, MAX_NAME);
  }

  ghost predicate AllValid(keys: set<string>) {
    forall n | n in keys :: ValidName(n)
  }

  lemma NotEmpty(keys: set<string>)
    requires AllValid(keys)
    ensures [] !in keys
  {
  }

  lemma LessThrough(a: string, b: string, c: string)
    requires Less(a, b) && (c == b || Less(b, c))
    ensures Less(a, c)
  {
    if c != b {
      LessTransitive(a, b, c);
    }
  }

  /** Every name after the cursor and up to the last item is among the items. */
  ghost predicate Covers(keys: set<string>, cursor: string, items: seq<string>) {
    items != [] ==> forall n | n in keys && Less(cursor, n) && !Less(items[|items| - 1], n) :: n in items
  }

  /** The first names after the cursor, in order. */
  ghost predicate Page(keys: set<string>, cursor: string, items: seq<string>) {
    Ascending(items) && (forall n | n in items :: n in keys && Less(cursor, n)) && Covers(keys, cursor, items)
  }

  /** What one call gives: a full page and its last name if names are left after it, else all that were left. */
  ghost predicate Listed(keys: set<string>, cursor: string, limit: nat, items: seq<string>, next: string) {
    && Page(keys, cursor, items) && |items| <= limit
    && (next == [] ==> forall n | n in keys && Less(cursor, n) :: n in items)
    && (next != [] ==> |items| == limit > 0 && next == items[limit - 1] && exists n :: n in keys && Less(next, n))
  }

  /** One page of a walk: the names at that time, the cursor given, and what the call gave. */
  datatype Step = Step(keys: set<string>, cursor: string, items: seq<string>, next: string)

  /** Pages one after another by their cursors, with publishing in between. */
  ghost predicate Walk(limits: nat -> nat, traffic: nat -> seq<Publication>, steps: seq<Step>) {
    && (steps != [] ==> steps[0].cursor == [])
    && (forall i | 0 <= i < |steps| :: Listed(steps[i].keys, steps[i].cursor, limits(i), steps[i].items, steps[i].next))
    && (forall i | 0 < i < |steps| :: Follows(steps[i - 1], steps[i], traffic(i - 1)))
  }

  predicate Follows(a: Step, b: Step, between: seq<Publication>) {
    a.next != [] && b.cursor == a.next && a.keys <= b.keys <= a.keys + Names(between)
  }

  predicate Ended(steps: seq<Step>) {
    steps != [] && steps[|steps| - 1].next == []
  }

  function Items(steps: seq<Step>): seq<string> {
    if steps == [] then [] else Items(steps[..|steps| - 1]) + steps[|steps| - 1].items
  }

  function Names(ps: seq<Publication>): set<string> {
    set p | p in ps && ValidName(p.name) :: p.name
  }

  /** The names published in the first `n` intervals between pages. */
  function TrafficNames(traffic: nat -> seq<Publication>, n: nat): set<string> {
    if n == 0 then {} else TrafficNames(traffic, n - 1) + Names(traffic(n - 1))
  }

  /** A walk from the names `start` that may go on at `cursor` with the names `now`. */
  ghost predicate Walked(limits: nat -> nat, traffic: nat -> seq<Publication>, start: set<string>, now: set<string>,
                         cursor: string, steps: seq<Step>)
  {
    && Walk(limits, traffic, steps)
    && if steps == [] then now == start && cursor == [] else
         var last := steps[|steps| - 1];
         && steps[0].keys == start && cursor == last.next
         && last.keys <= now <= last.keys + Names(traffic(|steps| - 1))
  }

  /** All that is known of a walk so far: what it saw, where it is, and the pages it read. */
  ghost predicate InWalk(limits: nat -> nat, traffic: nat -> seq<Publication>, start: set<string>, now: set<string>,
                         seen: seq<string>, cursor: string, finished: bool, steps: seq<Step>)
  {
    && start <= now && AllValid(now) && Within(start, now, traffic, |steps|) && Seen(start, now, seen, cursor, finished)
    && (|steps| <= |seen| || (finished && |steps| == 1))
    && (!finished && steps != [] ==> exists n :: n in now && Less(cursor, n))
    && Walked(limits, traffic, start, now, cursor, steps) && seen == Items(steps) && (finished <==> Ended(steps))
  }

  lemma WalkStarts(limits: nat -> nat, traffic: nat -> seq<Publication>, start: set<string>)
    requires AllValid(start)
    ensures InWalk(limits, traffic, start, start, [], [], false, [])
  {
    hide Within, Seen, Walked, Items, Ended;
    WithinStart(start, traffic);
    NothingSeen(start, start);
    NoSteps(limits, traffic, start);
  }

  /** One more page, and what others publish after it. */
  lemma WalkGoesOn(limits: nat -> nat, traffic: nat -> seq<Publication>, start: set<string>, now: set<string>, later: set<string>,
                   seen: seq<string>, cursor: string, steps: seq<Step>, items: seq<string>, next: string)
    requires InWalk(limits, traffic, start, now, seen, cursor, false, steps)
    requires Listed(now, cursor, limits(|steps|), items, next) && limits(|steps|) > 0
    requires AllValid(later) && now <= later <= now + Names(traffic(|steps|))
    ensures items != [] || next == []
    ensures InWalk(limits, traffic, start, later, seen + items, next, next == [], steps + [Step(now, cursor, items, next)])
  {
    hide Within, Seen, Walked, Items, Ended, Listed, Page, Less, Names, ValidName, AllValid;
    NotEmpty(now);
    ListedMore(now, cursor, limits(|steps|), items, next);
    ListedParts(now, cursor, limits(|steps|), items, next);
    SeenMore(start, now, seen, cursor, items, next);
    SeenLater(start, now, later, seen + items, next, next == []);
    WithinNext(start, now, later, traffic, |steps|);
    WalkedOn(limits, traffic, start, now, cursor, steps, items, next, later);
  }

  lemma CursorValid(limits: nat -> nat, traffic: nat -> seq<Publication>, start: set<string>, now: set<string>,
                    seen: seq<string>, cursor: string, steps: seq<Step>)
    requires InWalk(limits, traffic, start, now, seen, cursor, false, steps)
    ensures cursor == [] || ValidName(cursor)
  {
    hide Within, Walked, Items, Ended, Less, ValidName, Ascending, Covers;
    if seen != [] {
      assert seen[|seen| - 1] in seen;
    }
  }

  lemma SeenBounded(limits: nat -> nat, traffic: nat -> seq<Publication>, start: set<string>, now: set<string>,
                    seen: seq<string>, cursor: string, finished: bool, steps: seq<Step>)
    requires InWalk(limits, traffic, start, now, seen, cursor, finished, steps)
    ensures |seen| <= NameCount(start, traffic, |steps|) && |seen| <= |ValidNames()|
  {
    hide Within, Seen, Walked, Items, Ended, Less, NameCount, ValidNames, ValidName, Ascending, Covers;
    SeenParts(start, now, seen, cursor, finished);
    SeenFit(seen, now);
    WithinFewer(start, now, traffic, |steps|);
    forall n | n in seen ensures n in ValidNames() {
      NamesFinite(n);
    }
    SeenFit(seen, ValidNames());
  }

  lemma WalkStops(limits: nat -> nat, traffic: nat -> seq<Publication>, start: set<string>, now: set<string>,
                  seen: seq<string>, cursor: string, steps: seq<Step>)
    requires InWalk(limits, traffic, start, now, seen, cursor, true, steps)
    ensures Ascending(seen) && (forall n | n in seen :: n in now) && forall n | n in start :: n in seen
    ensures |steps| <= |seen| || |steps| == 1
    ensures |seen| <= NameCount(start, traffic, |steps|) && |seen| <= |ValidNames()|
    ensures Walk(limits, traffic, steps) && Ended(steps) && steps != [] && steps[0].keys == start && seen == Items(steps)
  {
    SeenBounded(limits, traffic, start, now, seen, cursor, true, steps);
    hide Within, Seen, Walked, Walk, Items, Less, NameCount, ValidNames, AllValid, Ascending, Covers;
    SeenParts(start, now, seen, cursor, true);
    WalkedParts(limits, traffic, start, now, cursor, steps);
  }

  lemma NoSteps(limits: nat -> nat, traffic: nat -> seq<Publication>, start: set<string>)
    ensures Walked(limits, traffic, start, start, [], []) && Items([]) == [] && !Ended([])
  {
  }

  lemma WalkedParts(limits: nat -> nat, traffic: nat -> seq<Publication>, start: set<string>, now: set<string>,
                    cursor: string, steps: seq<Step>)
    requires Walked(limits, traffic, start, now, cursor, steps)
    ensures Walk(limits, traffic, steps)
    ensures steps != [] ==> steps[0].keys == start
  {
    hide Walk;
  }

  lemma WalkedOn(limits: nat -> nat, traffic: nat -> seq<Publication>, start: set<string>, now: set<string>,
                 cursor: string, steps: seq<Step>, items: seq<string>, next: string, later: set<string>)
    requires Walked(limits, traffic, start, now, cursor, steps) && !Ended(steps)
    requires Listed(now, cursor, limits(|steps|), items, next)
    requires now <= later <= now + Names(traffic(|steps|))
    ensures var on := steps + [Step(now, cursor, items, next)];
      Walked(limits, traffic, start, later, next, on) && Items(on) == Items(steps) + items && (Ended(on) <==> next == [])
  {
    hide Walk, Listed, Items;
    WalkGrows(limits, traffic, steps, Step(now, cursor, items, next));
  }

  lemma ListedParts(keys: set<string>, cursor: string, limit: nat, items: seq<string>, next: string)
    requires Listed(keys, cursor, limit, items, next)
    ensures Page(keys, cursor, items)
    ensures next == [] ==> forall n | n in keys && Less(cursor, n) :: n in items
    ensures next != [] ==> items != [] && next == items[|items| - 1]
  {
    hide Less, Page;
  }

  /** A page has items if names were left before it, and names are left after it if there is a cursor. */
  lemma ListedMore(keys: set<string>, cursor: string, limit: nat, items: seq<string>, next: string)
    requires Listed(keys, cursor, limit, items, next) && limit > 0
    ensures (exists n :: n in keys && Less(cursor, n)) ==> items != []
    ensures next != [] ==> items != [] && exists n :: n in keys && Less(next, n)
  {
    hide Less, Page;
  }

  lemma WalkGrows(limits: nat -> nat, traffic: nat -> seq<Publication>, steps: seq<Step>, step: Step)
    requires Walk(limits, traffic, steps)
    requires Listed(step.keys, step.cursor, limits(|steps|), step.items, step.next)
    requires if steps == [] then step.cursor == [] else Follows(steps[|steps| - 1], step, traffic(|steps| - 1))
    ensures Walk(limits, traffic, steps + [step]) && Items(steps + [step]) == Items(steps) + step.items
  {
    hide Listed, Follows;
    var on := steps + [step];
    assert on[..|steps|] == steps;
    forall i | 0 <= i < |on|
      ensures Listed(on[i].keys, on[i].cursor, limits(i), on[i].items, on[i].next)
    {
      if i < |steps| {
        assert on[i] == steps[i];
      }
    }
    forall i | 0 < i < |on| ensures Follows(on[i - 1], on[i], traffic(i - 1)) {
      if i < |steps| {
        assert on[i - 1] == steps[i - 1] && on[i] == steps[i];
      }
    }
  }

  /** How many names were there at the start or are published in the first n intervals. */
  function NameCount(start: set<string>, traffic: nat -> seq<Publication>, n: nat): nat {
    |start + TrafficNames(traffic, n)|
  }

  /** Every name now was there at the start or was published in the first n intervals. */
  ghost predicate Within(start: set<string>, now: set<string>, traffic: nat -> seq<Publication>, n: nat) {
    now <= start + TrafficNames(traffic, n)
  }

  lemma WithinStart(start: set<string>, traffic: nat -> seq<Publication>)
    ensures Within(start, start, traffic, 0)
  {
  }

  lemma WithinNext(start: set<string>, now: set<string>, later: set<string>, traffic: nat -> seq<Publication>, n: nat)
    requires Within(start, now, traffic, n) && later <= now + Names(traffic(n))
    ensures Within(start, later, traffic, n + 1)
  {
    hide Names;
  }

  lemma WithinFewer(start: set<string>, now: set<string>, traffic: nat -> seq<Publication>, n: nat)
    requires Within(start, now, traffic, n)
    ensures |now| <= NameCount(start, traffic, n)
  {
    hide TrafficNames;
    SubsetCount(now, start + TrafficNames(traffic, n));
  }

  /** Names in strict order are no more than the names they come from. */
  lemma {:induction false} SeenFit(seen: seq<string>, keys: set<string>)
    requires Ascending(seen) && forall n | n in seen :: n in keys
    ensures |seen| <= |keys|
    decreases |seen|
  {
    if seen != [] {
      var (front, last) := (seen[..|seen| - 1], seen[|seen| - 1]);
      forall n | n in front ensures n != last {
        LessStrict(last);
      }
      SeenFit(front, keys - {last});
    }
  }

  // ---- When a walk ends ----

  /** The names after the cursor. */
  ghost function Left(keys: set<string>, cursor: string): set<string> {
    set n | n in keys && Less(cursor, n)
  }

  function Elements(items: seq<string>): set<string> {
    set n | n in items
  }

  lemma {:induction false} ElementCount(items: seq<string>)
    requires Ascending(items)
    ensures |Elements(items)| == |items|
    decreases |items|
  {
    hide Less;
    if items != [] {
      var (front, last) := (items[..|items| - 1], items[|items| - 1]);
      forall n | n in front ensures n != last {
        LessStrict(last);
      }
      ElementCount(front);
      assert items == front + [last];
      assert Elements(items) == Elements(front) + {last};
    }
  }

  /** What is left after a page are the names that were left before it, without its items. */
  lemma LeftAfter(keys: set<string>, cursor: string, items: seq<string>)
    requires Page(keys, cursor, items) && items != []
    ensures Elements(items) <= Left(keys, cursor)
    ensures Left(keys, items[|items| - 1]) == Left(keys, cursor) - Elements(items)
  {
    hide Less;
    var last := items[|items| - 1];
    assert last in items;
    forall n | n in items ensures !Less(last, n) {
      LessStrict(n);
      if n != last && Less(last, n) {
        LessTransitive(n, last, n);
      }
    }
    forall n | n in keys && Less(last, n) ensures Less(cursor, n) {
      LessTransitive(cursor, last, n);
    }
  }

  /** A page is the last one exactly if its limit takes all the names that are left; else that many fewer are left. */
  lemma PageEnds(keys: set<string>, cursor: string, limit: nat, items: seq<string>, next: string)
    requires Listed(keys, cursor, limit, items, next) && limit > 0
    ensures next == [] <==> |Left(keys, cursor)| <= limit
    ensures next != [] ==> |Left(keys, next)| == |Left(keys, cursor)| - limit
  {
    hide Less, Page, Ascending;
    PageAscends(keys, cursor, items);
    ElementCount(items);
    if next == [] {
      assert Left(keys, cursor) <= Elements(items);
      SubsetCount(Left(keys, cursor), Elements(items));
    } else {
      LeftAfter(keys, cursor, items);
      var n :| n in keys && Less(next, n);
      assert n in Left(keys, next);
      assert |Left(keys, cursor) - Elements(items)| == |Left(keys, cursor)| - |Elements(items)|;
    }
  }

  lemma PageAscends(keys: set<string>, cursor: string, items: seq<string>)
    requires Page(keys, cursor, items)
    ensures Ascending(items)
  {
  }

  lemma SubsetCount(a: set<string>, b: set<string>)
    requires a <= b
    ensures |a| <= |b|
  {
    assert b == a + (b - a);
  }

  lemma WalkStep(limits: nat -> nat, traffic: nat -> seq<Publication>, steps: seq<Step>, i: nat)
    requires Walk(limits, traffic, steps) && i < |steps|
    ensures Listed(steps[i].keys, steps[i].cursor, limits(i), steps[i].items, steps[i].next)
    ensures steps[i].cursor == if i == 0 then [] else steps[i - 1].next
  {
    hide Listed;
    if i > 0 {
      assert Follows(steps[i - 1], steps[i], traffic(i - 1));
    }
  }

  /** So for any limits and traffic, a walk ends with the first page whose limit takes all that is left at that time. */
  lemma WalkEnds(limits: nat -> nat, traffic: nat -> seq<Publication>, steps: seq<Step>, i: nat)
    requires Walk(limits, traffic, steps) && i < |steps| && limits(i) > 0
    ensures steps[i].next == [] <==> |Left(steps[i].keys, steps[i].cursor)| <= limits(i)
    ensures i < |steps| - 1 ==> |Left(steps[i].keys, steps[i].cursor)| > limits(i)
  {
    hide Walk, Listed;
    WalkStep(limits, traffic, steps, i);
    PageEnds(steps[i].keys, steps[i].cursor, limits(i), steps[i].items, steps[i].next);
    if i < |steps| - 1 {
      WalkGoes(limits, traffic, steps, i);
    }
  }

  lemma WalkGoes(limits: nat -> nat, traffic: nat -> seq<Publication>, steps: seq<Step>, i: nat)
    requires Walk(limits, traffic, steps) && i < |steps| - 1
    ensures steps[i].next != []
  {
    hide Listed;
    assert Follows(steps[i], steps[i + 1], traffic(i + 1 - 1));
  }

  /** The names that the first n pages may take. */
  function Total(limits: nat -> nat, n: nat): nat {
    if n == 0 then 0 else Total(limits, n - 1) + limits(n - 1)
  }

  /** When no name is added, page i + 1 is the last exactly if it is the first up to which the limits take all names. */
  lemma {:induction false} QuietWalkEnds(limits: nat -> nat, traffic: nat -> seq<Publication>, steps: seq<Step>, start: set<string>, i: nat)
    requires Walk(limits, traffic, steps) && i < |steps| && [] !in start
    requires forall j | 0 <= j < |steps| :: limits(j) > 0 && steps[j].keys == start
    ensures |Left(start, steps[i].cursor)| == |start| - Total(limits, i)
    ensures steps[i].next == [] <==> |start| <= Total(limits, i + 1)
  {
    hide Walk, Listed, Left;
    WalkStep(limits, traffic, steps, i);
    if i == 0 {
      AllLeft(start);
    } else {
      QuietWalkEnds(limits, traffic, steps, start, i - 1);
      WalkGoes(limits, traffic, steps, i - 1);
      WalkStep(limits, traffic, steps, i - 1);
      PageEnds(start, steps[i - 1].cursor, limits(i - 1), steps[i - 1].items, steps[i - 1].next);
    }
    PageEnds(start, steps[i].cursor, limits(i), steps[i].items, steps[i].next);
  }

  lemma AllLeft(start: set<string>)
    requires [] !in start
    ensures Left(start, []) == start
  {
  }

  /** What was seen: in order, complete up to its last name, where the cursor is, and complete if finished. */
  ghost predicate Seen(start: set<string>, now: set<string>, seen: seq<string>, cursor: string, finished: bool) {
    && Covers(start, [], seen) && Ascending(seen) && (forall n | n in seen :: n in now)
    && (!finished ==> cursor == if seen == [] then [] else seen[|seen| - 1])
    && (finished ==> forall n | n in start :: n in seen)
  }

  lemma NothingSeen(start: set<string>, now: set<string>)
    ensures Seen(start, now, [], [], false)
  {
  }

  lemma SeenParts(start: set<string>, now: set<string>, seen: seq<string>, cursor: string, finished: bool)
    requires Seen(start, now, seen, cursor, finished)
    ensures Covers(start, [], seen) && Ascending(seen)
    ensures forall n | n in seen :: n in now
    ensures finished ==> forall n | n in start :: n in seen
  {
  }

  lemma SeenLater(start: set<string>, now: set<string>, later: set<string>, seen: seq<string>, cursor: string, finished: bool)
    requires Seen(start, now, seen, cursor, finished) && now <= later
    ensures Seen(start, later, seen, cursor, finished)
  {
    hide Covers, Ascending;
  }

  lemma SeenMore(start: set<string>, now: set<string>, seen: seq<string>, cursor: string, items: seq<string>, next: string)
    requires start <= now && [] !in now && Seen(start, now, seen, cursor, false) && Page(now, cursor, items)
    requires next == [] ==> forall n | n in now && Less(cursor, n) :: n in items
    requires next != [] ==> items != [] && next == items[|items| - 1]
    ensures Seen(start, now, seen + items, next, next == [])
  {
    hide Less, Covers, Ascending, Page;
    PagesJoin(start, now, cursor, seen, items, next);
  }

  lemma PageGrows(keys: set<string>, cursor: string, items: seq<string>, n: string)
    requires Page(keys, cursor, items) && n in keys
    requires var after := if items == [] then cursor else items[|items| - 1];
             Less(after, n) && forall m | m in keys && Less(after, m) :: m == n || Less(n, m)
    ensures Page(keys, cursor, items + [n])
  {
    hide Less;
    var now := items + [n];
    if items != [] {
      var last := items[|items| - 1];
      assert last in items;
      LessTransitive(cursor, last, n);
      forall i | 0 <= i < |items| ensures Less(items[i], n) {
        if i < |items| - 1 {
          LessTransitive(items[i], last, n);
        }
      }
    }
    forall m | m in keys && Less(cursor, m) && !Less(n, m) ensures m in now {
    }
  }

  lemma PageComplete(keys: set<string>, cursor: string, items: seq<string>)
    requires Page(keys, cursor, items)
    requires var after := if items == [] then cursor else items[|items| - 1]; forall n | n in keys :: !Less(after, n)
    ensures forall n | n in keys && Less(cursor, n) :: n in items
  {
    hide Less, Ascending;
  }

  lemma PageShrinks(keys: set<string>, cursor: string, items: seq<string>, limit: nat)
    requires Page(keys, cursor, items) && 0 < limit < |items|
    ensures Page(keys, cursor, items[..limit])
  {
    hide Less;
    var (now, last, end) := (items[..limit], items[limit - 1], items[|items| - 1]);
    assert forall k | limit <= k < |items| :: Less(last, items[k]);
    forall n | n in keys && Less(cursor, n) && !Less(last, n) ensures n in now {
      if Less(end, n) {
        LessTransitive(last, end, n);
      }
      var k :| 0 <= k < |items| && items[k] == n;
      assert now[k] == n;
    }
  }

  /** A page read after what was seen extends it, whatever was published meanwhile. */
  lemma PagesJoin(start: set<string>, keys: set<string>, cursor: string, seen: seq<string>, items: seq<string>, next: string)
    requires start <= keys && Covers(start, [], seen) && Ascending(seen) && Page(keys, cursor, items) && [] !in keys
    requires cursor == if seen == [] then [] else seen[|seen| - 1]
    requires next == [] ==> forall n | n in keys && Less(cursor, n) :: n in items
    requires forall n | n in seen :: n in keys
    ensures forall n | n in seen + items :: n in keys
    ensures Covers(start, [], seen + items) && Ascending(seen + items)
    ensures next == [] ==> forall n | n in start :: n in seen + items
  {
    hide Less;
    var all := seen + items;
    forall i, j | 0 <= i < j < |all| ensures Less(all[i], all[j]) {
      if i < |seen| <= j {
        assert all[j] == items[j - |seen|] && all[j] in items;
        if i < |seen| - 1 {
          LessTransitive(seen[i], cursor, all[j]);
        }
      } else if |seen| <= i {
        assert all[i] == items[i - |seen|] && all[j] == items[j - |seen|];
      }
    }
    forall n | n in start ensures Less([], n) {
      EmptyLess(n);
    }
    forall n | n in start && (next == [] || (all != [] && !Less(all[|all| - 1], n))) ensures n in all {
      if !Less(cursor, n) {
        assert seen != [] && n in seen;
      } else {
        assert items != [] ==> all[|all| - 1] == items[|items| - 1];
      }
    }
  }

  lemma EmptyLess(n: string)
    requires n != []
    ensures Less([], n)
  {
  }
}
