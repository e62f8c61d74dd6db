/** build_acfdata: one flat record of post-meta values per theme, merging the
    catalog entry with the GTMetrix result, collected in a dictionary keyed by
    slug. */
module AcfData {
  import opened Wrappers
  import opened ThemeData

  /** The `acfdata` dictionary of one theme. The `gt_*` keys are the fields of
      `gt` (from `results`) and of `gtResources` (from `resources`), one for one. */
  datatype AcfRecord = AcfRecord(
    themeName: string, themeSlug: string, themeAuthor: string, themeRating: int,
    themeNumRatings: int, themeDownloaded: int, themeLastUpdated: string,
    themeHomepage: string, themeDescription: string, themeSections: map<string, string>,
    themeVersion: string, themeVersions: map<string, string>, themeDownloadLink: string,
    themeTags: map<string, string>, themeTemplate: string, themeParentSlug: string,
    themeScreenshotUrl: string, themeActiveInstalls: int,
    gt: GtResults, gtResources: GtResources)

  /** The loop body of build_acfdata for one theme. Lookups run in the order of
      the source, so the KeyError raised is that of the first missing key:
      `description` in `sections`, then the theme's own `version` in its
      `versions`, then `gtmetrix`, `results` and `resources`. */
  function Merge(t: Theme): (r: Result<AcfRecord>)
    ensures r.Ok? <==>
      && "description" in t.entry.sections
      && t.entry.version in t.entry.versions
      && t.gtmetrix.Some? && t.gtmetrix.value.results.Some? && t.gtmetrix.value.resources.Some?
    ensures "description" !in t.entry.sections ==> r == Err(KeyError("description"))
    ensures "description" in t.entry.sections && t.entry.version !in t.entry.versions ==>
      r == Err(KeyError(t.entry.version))
    ensures "description" in t.entry.sections && t.entry.version in t.entry.versions ==>
      && (t.gtmetrix.None? ==> r == Err(KeyError("gtmetrix")))
      && (t.gtmetrix.Some? && t.gtmetrix.value.results.None? ==> r == Err(KeyError("results")))
      && (t.gtmetrix.Some? && t.gtmetrix.value.results.Some? && t.gtmetrix.value.resources.None? ==>
            r == Err(KeyError("resources")))
    ensures r.Ok? ==>
      && r.value.themeName == t.entry.name
      && r.value.themeSlug == t.entry.slug
      && r.value.themeAuthor == t.entry.author
      && r.value.themeRating == t.entry.rating
      && r.value.themeNumRatings == t.entry.numRatings
      && r.value.themeDownloaded == t.entry.downloaded
      && r.value.themeLastUpdated == t.entry.lastUpdated
      && r.value.themeHomepage == t.entry.homepage
      && r.value.themeSections == t.entry.sections
      && r.value.themeVersions == t.entry.versions
      && r.value.themeTags == t.entry.tags
      && r.value.themeScreenshotUrl == t.entry.screenshotUrl
      && r.value.themeActiveInstalls == t.entry.activeInstalls
      && r.value.themeDownloadLink == t.entry.versions[t.entry.version]
      && r.value.themeVersion == t.entry.version
      && r.value.themeDescription == t.entry.sections["description"]
      && r.value.themeTemplate == (if t.entry.template.Some? then t.entry.template.value else "")
      && r.value.themeParentSlug == (if t.entry.parent.Some? then t.entry.parent.value.slug else "")
      && r.value.gt == t.gtmetrix.value.results.value
      && r.value.gtResources == t.gtmetrix.value.resources.value
  {
    var e := t.entry;
    if "description" !in e.sections then Err(KeyError("description"))
    else if e.version !in e.versions then Err(KeyError(e.version))
    else if t.gtmetrix.None? then Err(KeyError("gtmetrix"))
    else if t.gtmetrix.value.results.None? then Err(KeyError("results"))
    else if t.gtmetrix.value.resources.None? then Err(KeyError("resources"))
    else
      // the download link is looked up in the theme's own version map
      var downloadLink := e.versions[e.version];
      var template := if e.template.Some? then e.template.value else "";
      var parentSlug := if e.parent.Some? then e.parent.value.slug else "";
      Ok(AcfRecord(
        e.name, e.slug, e.author, e.rating, e.numRatings, e.downloaded, e.lastUpdated,
        e.homepage, e.sections["description"], e.sections, e.version, e.versions,
        downloadLink, e.tags, template, parentSlug, e.screenshotUrl, e.activeInstalls,
        t.gtmetrix.value.results.value, t.gtmetrix.value.resources.value))
  }

  /** The run state of the stored GTMetrix response plays no part in the merge:
      a response in state `error` that carries results and resources is merged
      like a completed one. */
  lemma MergeIgnoresState(t: Theme, d: GtmetrixData, state: string)
    ensures Merge(t.(gtmetrix := Some(d.(state := state)))) == Merge(t.(gtmetrix := Some(d)))
  {
  }

  /** What the loop needs of one theme besides the theme itself: whether its
      screenshot is already on disk, and whether downloading it would succeed. */
  datatype AcfInput = AcfInput(theme: Theme, imageCached: bool, downloadOk: bool)
  /** One iteration of build_acfdata: in a live run a screenshot that is not on
      disk is downloaded first, and a failed download raises HTTPError before
      any key is read; then the record is merged. */
  function Prepare(dryRun: bool, x: AcfInput): (r: Result<AcfRecord>)
    ensures r == Err(HTTPError) <==> !dryRun && !x.imageCached && !x.downloadOk
    ensures r != Err(HTTPError) ==> r == Merge(x.theme)
  {
    if !dryRun && !x.imageCached && !x.downloadOk then Err(HTTPError) else Merge(x.theme)
  }
  /** Reference definition of the whole loop: `res[acfdata['theme_slug']] = acfdata`
      theme after theme, stopping at the first exception. */
  function AcfTable(dryRun: bool, items: seq<AcfInput>): Result<map<string, AcfRecord>>
  {
    if items == [] then Ok(map[])
    else
      match AcfTable(dryRun, items[..|items| - 1])
      case Err(e) => Err(e)
      case Ok(res) =>
        match Prepare(dryRun, items[|items| - 1])
        case Err(e) => Err(e)
        case Ok(acf) => Ok(res[acf.themeSlug := acf])
  }

  /** build_acfdata's loop over the themes. */
  method BuildAcfData(dryRun: bool, items: seq<AcfInput>) returns (res: Result<map<string, AcfRecord>>)
    ensures res == AcfTable(dryRun, items)
  {
    var table: map<string, AcfRecord> := map[];
    var i := 0;
    while i < |items|
      invariant 0 <= i <= |items|
      invariant AcfTable(dryRun, items[..i]) == Ok(table)
    {
      assert items[..i + 1][..i] == items[..i];
      var acfdata := Prepare(dryRun, items[i]);
      if acfdata.Err? {
        assert AcfTable(dryRun, items[..i + 1]) == Err(acfdata.error);
        AcfTableStopsAtError(dryRun, items, i + 1);
        return Err(acfdata.error);
      }
      table := table[acfdata.value.themeSlug := acfdata.value];
      i := i + 1;
    }
    assert items[..i] == items;
    res := Ok(table);
  }

  /** Once a prefix fails, the whole list fails with the same error. */
  lemma {:induction false} AcfTableStopsAtError(dryRun: bool, items: seq<AcfInput>, n: nat)
    requires n <= |items| && AcfTable(dryRun, items[..n]).Err?
    ensures AcfTable(dryRun, items) == AcfTable(dryRun, items[..n])
    decreases |items| - n
  {
    if n < |items| {
      assert items[..n + 1][..n] == items[..n];
      AcfTableStopsAtError(dryRun, items, n + 1);
    } else {
      assert items[..n] == items;
    }
  }

  /** The merge succeeds exactly when every theme's merge does. */
  lemma {:induction false} AcfTableOk(dryRun: bool, items: seq<AcfInput>)
    ensures AcfTable(dryRun, items).Ok? <==> forall i :: 0 <= i < |items| ==> Prepare(dryRun, items[i]).Ok?
  {
    if items != [] {
      var front := items[..|items| - 1];
      AcfTableOk(dryRun, front);
      assert forall i :: 0 <= i < |front| ==> front[i] == items[i];
    }
  }

  /** A failure is the exception of the first theme that fails. */
  lemma {:induction false} AcfTableFirstError(dryRun: bool, items: seq<AcfInput>)
    requires AcfTable(dryRun, items).Err?
    ensures exists i :: (0 <= i < |items|
      && Prepare(dryRun, items[i]).Err?
      && AcfTable(dryRun, items).error == Prepare(dryRun, items[i]).error
      && forall j :: 0 <= j < i ==> Prepare(dryRun, items[j]).Ok?)
  {
    var n := |items| - 1;
    var front := items[..n];
    assert forall i :: 0 <= i < |front| ==> front[i] == items[i];
    if AcfTable(dryRun, front).Err? {
      AcfTableFirstError(dryRun, front);
      var i :| 0 <= i < |front| && Prepare(dryRun, front[i]).Err? && AcfTable(dryRun, front).error == Prepare(dryRun, front[i]).error
        && forall j :: 0 <= j < i ==> Prepare(dryRun, front[j]).Ok?;
      assert Prepare(dryRun, items[i]).Err?;
    } else {
      AcfTableOk(dryRun, front);
      assert Prepare(dryRun, items[n]).Err?;
    }
  }

  function Slugs(items: seq<AcfInput>): set<string> {
    set i | 0 <= i < |items| :: items[i].theme.entry.slug
  }

  lemma SlugsOfSnoc(items: seq<AcfInput>)
    requires items != []
    ensures Slugs(items) == Slugs(items[..|items| - 1]) + {items[|items| - 1].theme.entry.slug}
  {
    var n := |items| - 1;
    var front := items[..n];
    forall x | x in Slugs(items) ensures x in Slugs(front) + {items[n].theme.entry.slug} {
      var i :| 0 <= i < |items| && items[i].theme.entry.slug == x;
      if i < n { assert front[i] == items[i]; }
    }
    forall x | x in Slugs(front) ensures x in Slugs(items) {
      var i :| 0 <= i < |front| && front[i].theme.entry.slug == x;
      assert items[i] == front[i];
    }
  }

  /** The keys of the result are exactly the slugs of the themes. */
  lemma {:induction false} AcfTableKeys(dryRun: bool, items: seq<AcfInput>)
    requires AcfTable(dryRun, items).Ok?
    ensures AcfTable(dryRun, items).value.Keys == Slugs(items)
  {
    if items != [] {
      var n := |items| - 1;
      var front := items[..n];
      AcfTableKeys(dryRun, front);
      var acf := Prepare(dryRun, items[n]).value;
      assert AcfTable(dryRun, items).value == AcfTable(dryRun, front).value[acf.themeSlug := acf];
      SlugsOfSnoc(items);
    }
  }

  /** Each slug maps to the record of the LAST theme with that slug: a later
      theme with the same slug overwrites an earlier one. */
  lemma {:induction false} AcfTableLastWins(dryRun: bool, items: seq<AcfInput>, i: nat)
    requires AcfTable(dryRun, items).Ok?
    requires i < |items|
    requires forall j :: i < j < |items| ==> items[j].theme.entry.slug != items[i].theme.entry.slug
    ensures Prepare(dryRun, items[i]).Ok?
    ensures items[i].theme.entry.slug in AcfTable(dryRun, items).value
    ensures AcfTable(dryRun, items).value[items[i].theme.entry.slug] == Prepare(dryRun, items[i]).value
  {
    var n := |items| - 1;
    var front := items[..n];
    AcfTableOk(dryRun, items);
    if i < n {
      assert front[i] == items[i];
      forall j | i < j < |front| ensures front[j].theme.entry.slug != front[i].theme.entry.slug {
        assert front[j] == items[j];
      }
      AcfTableLastWins(dryRun, front, i);
    }
  }
}
