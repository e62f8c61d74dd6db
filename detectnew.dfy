/** The `detect_new` action: at most once a day, compare the stored snapshot
    of WordPress.org's featured themes with a fresh one and report the slugs
    that differ. */
module DetectNew {
  import opened Wrappers
  import opened ThemeData
  import opened Publish

  /** Python's ordering of strings: by code point, a prefix first. */
  predicate LexLe(a: string, b: string)
    decreases |a|
  {
    a == [] || (b != [] && (a[0] < b[0] || (a[0] == b[0] && LexLe(a[1..], b[1..]))))
  }

  lemma {:induction false} LexLeTotal(a: string, b: string)
    ensures LexLe(a, b) || LexLe(b, a)
    decreases |a|
  {
    if a != [] && b != [] && a[0] == b[0] {
      LexLeTotal(a[1..], b[1..]);
    }
  }

  lemma {:induction false} LexLeReflexive(a: string)
    ensures LexLe(a, a)
    decreases |a|
  {
    if a != [] {
      LexLeReflexive(a[1..]);
    }
  }

  lemma {:induction false} LexLeTrans(a: string, b: string, c: string)
    requires LexLe(a, b) && LexLe(b, c)
    ensures LexLe(a, c)
    decreases |a|
  {
    if a != [] && a[0] == b[0] && b[0] == c[0] {
      LexLeTrans(a[1..], b[1..], c[1..]);
    }
  }

  lemma {:induction false} LexLeAntisymmetric(a: string, b: string)
    requires LexLe(a, b) && LexLe(b, a)
    ensures a == b
    decreases |a|
  {
    if a != [] {
      LexLeAntisymmetric(a[1..], b[1..]);
      assert a == [a[0]] + a[1..] && b == [b[0]] + b[1..];
    }
  }

  predicate Sorted(s: seq<string>) {
    forall i, j :: 0 <= i < j < |s| ==> LexLe(s[i], s[j])
  }

  /** One step of the sort: `x` put in front of the first element it does not
      come after. */
  function Insert(x: string, s: seq<string>): (r: seq<string>)
    ensures multiset(r) == multiset(s) + multiset{x}
  {
    if s == [] then [x]
    else if LexLe(x, s[0]) then [x] + s
    else
      assert s == [s[0]] + s[1..];
      [s[0]] + Insert(x, s[1..])
  }

  /** `list.sort()`, as a sort by insertion. */
  function Sort(s: seq<string>): (r: seq<string>)
    ensures multiset(r) == multiset(s)
  {
    if s == [] then []
    else
      assert s == [s[0]] + s[1..];
      Insert(s[0], Sort(s[1..]))
  }

  /** A sorted list stays sorted with a head no greater than its elements. */
  lemma SortedCons(h: string, t: seq<string>)
    requires Sorted(t)
    requires forall j :: 0 <= j < |t| ==> LexLe(h, t[j])
    ensures Sorted([h] + t)
  {
    var r := [h] + t;
    forall i, j | 0 <= i < j < |r| ensures LexLe(r[i], r[j]) {
      if i == 0 {
        assert r[j] == t[j - 1];
      } else {
        assert r[i] == t[i - 1] && r[j] == t[j - 1];
      }
    }
  }

  /** A lower bound of `x` and of `s` bounds what Insert makes of them. */
  lemma InsertBound(x: string, s: seq<string>, lo: string)
    requires LexLe(lo, x)
    requires forall j :: 0 <= j < |s| ==> LexLe(lo, s[j])
    ensures forall j :: 0 <= j < |Insert(x, s)| ==> LexLe(lo, Insert(x, s)[j])
  {
    var r := Insert(x, s);
    forall j | 0 <= j < |r| ensures LexLe(lo, r[j]) {
      assert r[j] in multiset(r);
      if r[j] != x {
        assert r[j] in multiset(s);
        var k :| 0 <= k < |s| && s[k] == r[j];
      }
    }
  }

  lemma {:induction false} InsertSorted(x: string, s: seq<string>)
    requires Sorted(s)
    ensures Sorted(Insert(x, s))
  {
    if s == [] {
    } else if LexLe(x, s[0]) {
      forall j | 0 <= j < |s| ensures LexLe(x, s[j]) {
        if j > 0 { LexLeTrans(x, s[0], s[j]); }
      }
      SortedCons(x, s);
    } else {
      LexLeTotal(x, s[0]);
      InsertSorted(x, s[1..]);
      InsertBound(x, s[1..], s[0]);
      SortedCons(s[0], Insert(x, s[1..]));
    }
  }

  /** The sort orders its input. */
  lemma {:induction false} SortSorted(s: seq<string>)
    ensures Sorted(Sort(s))
  {
    if s != [] {
      SortSorted(s[1..]);
      InsertSorted(s[0], Sort(s[1..]));
    }
  }

  /** Two sorted orderings of the same strings start alike. */
  lemma SortedSameHead(a: seq<string>, b: seq<string>)
    requires Sorted(a) && Sorted(b) && multiset(a) == multiset(b) && a != []
    ensures b != [] && a[0] == b[0]
  {
    assert a[0] in multiset(b);
    assert b[0] in multiset(a);
    var i :| 0 <= i < |b| && b[i] == a[0];
    var j :| 0 <= j < |a| && a[j] == b[0];
    LexLeReflexive(a[0]);
    assert LexLe(a[0], a[j]);
    assert LexLe(b[0], b[i]);
    LexLeAntisymmetric(a[0], b[0]);
  }

  /** Two orderings of the same strings that are both sorted are the same list:
      the sort's result does not depend on how its input was arranged. */
  lemma {:induction false} SortedUnique(a: seq<string>, b: seq<string>)
    requires Sorted(a) && Sorted(b) && multiset(a) == multiset(b)
    ensures a == b
    decreases |a|
  {
    if a == [] {
      assert |b| == |multiset(b)| == 0;
    } else {
      SortedSameHead(a, b);
      assert a == [a[0]] + a[1..] && b == [b[0]] + b[1..];
      assert multiset(a[1..]) == multiset(a) - multiset{a[0]};
      assert multiset(b[1..]) == multiset(b) - multiset{b[0]};
      SortedUnique(a[1..], b[1..]);
    }
  }

  /** `[c for c in old if c not in new]`. */
  function Minus(olds: seq<string>, news: seq<string>): (r: seq<string>)
    ensures forall c :: c in r <==> c in olds && c !in news
  {
    if olds == [] then []
    else (if olds[0] !in news then [olds[0]] else []) + Minus(olds[1..], news)
  }

  /** Each slug is kept as often as the first list has it, or dropped altogether. */
  lemma {:induction false} MinusCounts(olds: seq<string>, news: seq<string>, c: string)
    ensures multiset(Minus(olds, news))[c] == if c in news then 0 else multiset(olds)[c]
  {
    if olds != [] {
      MinusCounts(olds[1..], news, c);
      assert olds == [olds[0]] + olds[1..];
    }
  }

  /** Filtering keeps the order. */
  lemma {:induction false} MinusSorted(olds: seq<string>, news: seq<string>)
    requires Sorted(olds)
    ensures Sorted(Minus(olds, news))
  {
    if olds != [] {
      MinusSorted(olds[1..], news);
      var rest := Minus(olds[1..], news);
      if olds[0] !in news {
        forall j | 0 <= j < |rest| ensures LexLe(olds[0], rest[j]) {
          assert rest[j] in rest;
          var k :| 0 <= k < |olds[1..]| && olds[1..][k] == rest[j];
          assert olds[k + 1] == rest[j];
        }
        SortedCons(olds[0], rest);
      }
    }
  }

  /** The list detect_new reports: the old slugs, sorted, that are missing from
      the new ones. */
  function NewThemeList(oldSlugs: seq<string>, newSlugs: seq<string>): seq<string> {
    Minus(Sort(oldSlugs), Sort(newSlugs))
  }

  /** The list holds exactly the old slugs that are not among the new. */
  lemma NewThemeListMembers(oldSlugs: seq<string>, newSlugs: seq<string>)
    ensures forall c :: c in NewThemeList(oldSlugs, newSlugs) <==> c in oldSlugs && c !in newSlugs
  {
    forall c ensures (c in Sort(oldSlugs) <==> c in oldSlugs) && (c in Sort(newSlugs) <==> c in newSlugs) {
      assert c in multiset(Sort(oldSlugs)) <==> c in multiset(oldSlugs);
      assert c in multiset(Sort(newSlugs)) <==> c in multiset(newSlugs);
    }
  }

  /** The list is sorted. */
  lemma NewThemeListSorted(oldSlugs: seq<string>, newSlugs: seq<string>)
    ensures Sorted(NewThemeList(oldSlugs, newSlugs))
  {
    SortSorted(oldSlugs);
    MinusSorted(Sort(oldSlugs), Sort(newSlugs));
  }

  /** Each reported slug appears as often as in the old list. */
  lemma NewThemeListCounts(oldSlugs: seq<string>, newSlugs: seq<string>, c: string)
    ensures multiset(NewThemeList(oldSlugs, newSlugs))[c] == if c in newSlugs then 0 else multiset(oldSlugs)[c]
  {
    assert c in multiset(Sort(newSlugs)) <==> c in multiset(newSlugs);
    MinusCounts(Sort(oldSlugs), Sort(newSlugs), c);
  }

  /** Nothing is reported exactly when every old slug is still featured. */
  lemma NothingReportedIffAllKept(oldSlugs: seq<string>, newSlugs: seq<string>)
    ensures NewThemeList(oldSlugs, newSlugs) == [] <==> forall c :: c in oldSlugs ==> c in newSlugs
  {
    NewThemeListMembers(oldSlugs, newSlugs);
    var r := NewThemeList(oldSlugs, newSlugs);
    if r != [] {
      assert r[0] in r;
    }
  }

  /** A theme added to the featured list is not reported. */
  lemma AddedThemeNotReported(oldSlugs: seq<string>, added: string)
    ensures NewThemeList(oldSlugs, oldSlugs + [added]) == []
  {
    NothingReportedIffAllKept(oldSlugs, oldSlugs + [added]);
  }

  /** A theme that left the featured list is the one reported. */
  lemma DroppedThemeReported(newSlugs: seq<string>, dropped: string)
    requires dropped !in newSlugs
    ensures NewThemeList(newSlugs + [dropped], newSlugs) == [dropped]
  {
    var olds := newSlugs + [dropped];
    var r := NewThemeList(olds, newSlugs);
    assert multiset(olds) == multiset(newSlugs) + multiset{dropped};
    forall c ensures multiset(r)[c] == multiset{dropped}[c] {
      NewThemeListCounts(olds, newSlugs, c);
    }
    assert multiset(r) == multiset{dropped};
    assert |r| == |multiset(r)| == 1;
    assert r[0] in multiset(r);
  }

  /** `f.readline()`: up to and including the first newline. */
  function FirstLine(s: string): (r: string)
    ensures |r| <= |s| && r == s[..|r|]
    ensures forall i :: 0 <= i < |r| - 1 ==> r[i] != '\n'
    ensures |r| < |s| ==> |r| > 0 && r[|r| - 1] == '\n'
    ensures (forall i :: 0 <= i < |s| ==> s[i] != '\n') ==> r == s
  {
    var i := IndexOf(s, 0, '\n');
    if i == |s| then s else s[..i + 1]
  }

  /** The slugs of a featured-theme response, in its order. */
  function FeaturedSlugs(themes: seq<CatalogEntry>): seq<string> {
    seq(|themes|, k requires 0 <= k < |themes| => themes[k].slug)
  }

  /** A featured-theme response as it is stored. */
  datatype Featured = Featured(themes: seq<CatalogEntry>)

  /** The files detect_new reads and writes: `.lastrun`, `lastfeatured.json`
      and `thisfeatured.json`, None when absent. */
  datatype Files = Files(lastRun: Option<string>, lastFeatured: Option<Featured>, thisFeatured: Option<Featured>)

  datatype Detection = NotDue | Failed(error: Error) | NoNewThemes | NewThemes(slugs: seq<string>)

  /** The date read back from `.lastrun`, `''` when there is none. */
  function LastRunDate(f: Files): string {
    if f.lastRun.Some? then FirstLine(f.lastRun.value) else ""
  }

  /** Reference definition of detect_new, for the day `today` and the response
      `fetched` that the featured-theme query returns. */
  function DetectNewSpec(f: Files, today: string, fetched: Featured): (Detection, Files) {
    if LastRunDate(f) == today then (NotDue, f)
    else if f.lastFeatured.None? then (Failed(KeyError("themes")), f)
    else
      var found := NewThemeList(FeaturedSlugs(f.lastFeatured.value.themes), FeaturedSlugs(fetched.themes));
      var queried := f.(thisFeatured := Some(fetched));
      if found == [] then (NoNewThemes, queried)
      else (NewThemes(found), queried.(lastRun := Some(today), lastFeatured := Some(fetched)))
  }

  /** The gate: run on the day written in `.lastrun` and nothing happens. */
  lemma NotDueLeavesFiles(f: Files, today: string, fetched: Featured)
    requires LastRunDate(f) == today
    ensures DetectNewSpec(f, today, fetched) == (NotDue, f)
  {
  }

  /** The snapshot and the marker change only when new themes were found, and
      then hold the fresh response and today; the fresh response is saved as
      soon as the stored one loaded. */
  lemma WritesOnlyWhenNew(f: Files, today: string, fetched: Featured)
    ensures var (d, g) := DetectNewSpec(f, today, fetched);
      && (g.lastRun != f.lastRun || g.lastFeatured != f.lastFeatured ==> d.NewThemes?)
      && (d.NewThemes? ==> g.lastRun == Some(today) && g.lastFeatured == Some(fetched) && d.slugs != [])
      && (g.thisFeatured != f.thisFeatured ==> d.NewThemes? || d.NoNewThemes?)
      && (d.NewThemes? || d.NoNewThemes? ==> g.thisFeatured == Some(fetched))
  {
  }

  /** A day's second run does nothing: the date it wrote stops it. */
  lemma SecondRunSameDay(f: Files, today: string, fetched: Featured, again: Featured)
    requires forall i :: 0 <= i < |today| ==> today[i] != '\n'
    ensures var (d, g) := DetectNewSpec(f, today, fetched);
      d.NewThemes? ==> DetectNewSpec(g, today, again) == (NotDue, g)
  {
  }

  /** A missing snapshot stops detect_new before the query: nothing is written. */
  lemma MissingSnapshotFails(f: Files, today: string, fetched: Featured)
    requires f.lastFeatured.None? && LastRunDate(f) != today
    ensures DetectNewSpec(f, today, fetched) == (Failed(KeyError("themes")), f)
  {
  }

  /** The loop that appends each theme's slug. */
  method CollectSlugs(themes: seq<CatalogEntry>) returns (slugs: seq<string>)
    ensures slugs == FeaturedSlugs(themes)
  {
    slugs := [];
    for k := 0 to |themes|
      invariant slugs == FeaturedSlugs(themes[..k])
    {
      slugs := slugs + [themes[k].slug];
    }
    assert themes[..|themes|] == themes;
  }

  /** The data directory detect_new works on. */
  class DataDir {
    var lastRun: Option<string>
    var lastFeatured: Option<Featured>
    var thisFeatured: Option<Featured>

    function Contents(): Files
      reads this
    {
      Files(lastRun, lastFeatured, thisFeatured)
    }

    constructor(f: Files)
      ensures Contents() == f
    {
      lastRun, lastFeatured, thisFeatured := f.lastRun, f.lastFeatured, f.thisFeatured;
    }

    /** The `detect_new` branch of main, up to the test run it starts. */
    method Detect(today: string, fetched: Featured) returns (d: Detection)
      modifies this
      ensures (d, Contents()) == DetectNewSpec(old(Contents()), today, fetched)
    {
      var last := "";
      if lastRun.Some? {
        last := FirstLine(lastRun.value);
      }
      if last == today {
        return NotDue;
      }
      if lastFeatured.None? {
        return Failed(KeyError("themes"));
      }
      var oldList := CollectSlugs(lastFeatured.value.themes);
      thisFeatured := Some(fetched);
      var newList := CollectSlugs(fetched.themes);
      oldList := Sort(oldList);
      newList := Sort(newList);
      var found := Minus(oldList, newList);
      if found != [] {
        lastFeatured := Some(fetched);
        lastRun := Some(today);
        d := NewThemes(found);
      } else {
        d := NoNewThemes;
      }
    }
  }

  /** Two calls on one day: the second does nothing once the first found new themes. */
  method DetectTwice(dir: DataDir, today: string, first: Featured, second: Featured)
    returns (d1: Detection, d2: Detection)
    requires forall i :: 0 <= i < |today| ==> today[i] != '\n'
    modifies dir
    ensures d1.NewThemes? ==> d2 == NotDue && dir.Contents() == DetectNewSpec(old(dir.Contents()), today, first).1
  {
    d1 := dir.Detect(today, first);
    d2 := dir.Detect(today, second);
    SecondRunSameDay(old(dir.Contents()), today, first, second);
  }
}
