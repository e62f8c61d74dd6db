/** load_theme_data: the catalog's theme list without the bundled default theme. */
module LoadThemes {
  import opened ThemeData

  /** The theme that ships with WordPress and is never tested. */
  const Bundled := "twentyseventeen"

  /** The catalog list with every bundled-theme entry removed, order kept. */
  function WithoutBundled(themes: seq<Theme>): (r: seq<Theme>)
    ensures |r| <= |themes|
  {
    if themes == [] then []
    else (if themes[0].entry.slug != Bundled then [themes[0]] else []) + WithoutBundled(themes[1..])
  }

  /** The loop of load_theme_data, appending each kept theme to `goodthemes`. */
  method LoadThemeData(themes: seq<Theme>) returns (goodthemes: seq<Theme>)
    ensures goodthemes == WithoutBundled(themes)
    ensures forall i :: 0 <= i < |goodthemes| ==> goodthemes[i].entry.slug != Bundled
  {
    goodthemes := [];
    var i := 0;
    while i < |themes|
      invariant 0 <= i <= |themes|
      invariant goodthemes == WithoutBundled(themes[..i])
    {
      WithoutBundledAppend(themes[..i], [themes[i]]);
      assert themes[..i + 1] == themes[..i] + [themes[i]];
      if themes[i].entry.slug != Bundled {
        goodthemes := goodthemes + [themes[i]];
      }
      i := i + 1;
    }
    assert themes[..i] == themes;
    WithoutBundledMembers(themes);
  }

  /** Filtering distributes over concatenation, so relative order is kept. */
  lemma {:induction false} WithoutBundledAppend(a: seq<Theme>, b: seq<Theme>)
    ensures WithoutBundled(a + b) == WithoutBundled(a) + WithoutBundled(b)
  {
    if a == [] {
      assert a + b == b;
    } else {
      assert (a + b)[1..] == a[1..] + b;
      WithoutBundledAppend(a[1..], b);
    }
  }

  /** Exactly the themes whose slug is not the bundled one are kept. */
  lemma {:induction false} WithoutBundledMembers(themes: seq<Theme>)
    ensures forall t :: t in WithoutBundled(themes) <==> t in themes && t.entry.slug != Bundled
  {
    if themes != [] {
      WithoutBundledMembers(themes[1..]);
      assert themes == [themes[0]] + themes[1..];
    }
  }

  /** A list without the bundled theme is passed through unchanged. */
  lemma {:induction false} WithoutBundledNoop(themes: seq<Theme>)
    requires forall i :: 0 <= i < |themes| ==> themes[i].entry.slug != Bundled
    ensures WithoutBundled(themes) == themes
  {
    if themes != [] {
      WithoutBundledNoop(themes[1..]);
    }
  }

  /** Loading twice removes nothing more. */
  lemma WithoutBundledIdempotent(themes: seq<Theme>)
    ensures WithoutBundled(WithoutBundled(themes)) == WithoutBundled(themes)
  {
    var r := WithoutBundled(themes);
    WithoutBundledMembers(themes);
    assert forall i :: 0 <= i < |r| ==> r[i] in r;
    WithoutBundledNoop(r);
  }
}
