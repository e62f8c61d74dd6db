/** post_rundown: gather the report posts of the last half day, lay their
    featured images out as one montage and announce them in a rundown post. */
module Rundown {
  import opened Wrappers
  import opened PyStr
  import opened ThemeData
  import opened Publish

  /** One post of the WordPress REST response, as far as post_rundown reads it. */
  datatype WpPost = WpPost(id: nat, slug: string)

  /** What a report's slug carries after the theme's own slug. */
  const SlugMarker := "-wordpress-theme-performance"

  /** `slug.split('-wordpress-theme-performance')[0]`. */
  function ThemeName(slug: string): (r: string)
    ensures |r| <= |slug| && r == slug[..|r|]
    ensures forall i :: 0 <= i < |r| ==> !IsAt(slug, i, SlugMarker)
    ensures |r| < |slug| ==> IsAt(slug, |r|, SlugMarker)
  {
    BeforeFirst(slug, SlugMarker)
  }

  lemma BeforeFirstWhole(s: string, sep: string)
    requires |sep| > 0
    requires forall i :: 0 <= i < |s| ==> !IsAt(s, i, sep)
    ensures BeforeFirst(s, sep) == s
  {
  }

  /** Cutting the name out again changes nothing. */
  lemma ThemeNameIdempotent(slug: string)
    ensures ThemeName(ThemeName(slug)) == ThemeName(slug)
  {
    var r := ThemeName(slug);
    forall i | 0 <= i < |r| && IsAt(r, i, SlugMarker) ensures IsAt(slug, i, SlugMarker) {
      assert r[i..i + |SlugMarker|] == slug[i..i + |SlugMarker|];
    }
    BeforeFirstWhole(r, SlugMarker);
  }

  /** The slug of a report, the theme's slug plus the marker and anything after
      it, gives back the theme's slug when the marker first starts there. */
  lemma ThemeNameOfReport(name: string, tail: string)
    requires forall i :: 0 <= i < |name| ==> !IsAt(name + SlugMarker + tail, i, SlugMarker)
    ensures ThemeName(name + SlugMarker + tail) == name
  {
    var s := name + SlugMarker + tail;
    var r := ThemeName(s);
    assert IsAt(s, |name|, SlugMarker) by {
      assert s[|name|..|name| + |SlugMarker|] == SlugMarker;
    }
  }

  /** The image list post_rundown builds, one `<path>/<name>.jpg ` per post. */
  function ImageList(imagesPath: string, posts: seq<WpPost>): string {
    if posts == [] then ""
    else
      var last := posts[|posts| - 1];
      ImageList(imagesPath, posts[..|posts| - 1]) + imagesPath + "/" + ThemeName(last.slug) + ".jpg "
  }

  /** The id list before it is stripped, one `<id> ` per post. */
  function IdList(posts: seq<WpPost>): string {
    if posts == [] then ""
    else IdList(posts[..|posts| - 1]) + NatToString(posts[|posts| - 1].id) + " "
  }

  /** The ids as `str(key['id'])` gives them. */
  function Ids(posts: seq<WpPost>): seq<string> {
    seq(|posts|, k requires 0 <= k < |posts| => NatToString(posts[k].id))
  }

  /** The counters of post_rundown's loop. */
  datatype Tally = Tally(themeImages: string, postIds: string, themeCount: nat, lastPostId: Option<string>)

  /** Reference definition of the loop and the strip after it. */
  function TallySpec(imagesPath: string, posts: seq<WpPost>): Tally {
    Tally(ImageList(imagesPath, posts), Strip(IdList(posts)), |posts|,
          if posts == [] then None else Some(NatToString(posts[|posts| - 1].id)))
  }

  /** The loop of post_rundown over the posts. */
  method Accumulate(imagesPath: string, posts: seq<WpPost>) returns (t: Tally)
    ensures t == TallySpec(imagesPath, posts)
  {
    var themeImages := "";
    var postIds := "";
    var themeCount := 0;
    var lastPostId: Option<string> := None;
    for i := 0 to |posts|
      invariant themeImages == ImageList(imagesPath, posts[..i])
      invariant postIds == IdList(posts[..i])
      invariant themeCount == i
      invariant lastPostId == if i == 0 then None else Some(NatToString(posts[i - 1].id))
    {
      var postId := NatToString(posts[i].id);
      var themeName := ThemeName(posts[i].slug);
      assert posts[..i + 1][..i] == posts[..i];
      themeImages := themeImages + imagesPath + "/" + themeName + ".jpg ";
      postIds := postIds + postId + " ";
      themeCount := themeCount + 1;
      lastPostId := Some(postId);
    }
    assert posts[..|posts|] == posts;
    t := Tally(themeImages, Strip(postIds), themeCount, lastPostId);
  }

  /** Words joined with single spaces. */
  function JoinSpace(xs: seq<string>): string {
    if |xs| == 0 then ""
    else if |xs| == 1 then xs[0]
    else xs[0] + " " + JoinSpace(xs[1..])
  }

  lemma {:induction false} JoinSpaceSnoc(xs: seq<string>, y: string)
    requires |xs| > 0
    ensures JoinSpace(xs + [y]) == JoinSpace(xs) + " " + y
    decreases |xs|
  {
    if |xs| > 1 {
      assert (xs + [y])[1..] == xs[1..] + [y];
      JoinSpaceSnoc(xs[1..], y);
    }
  }

  /** Before the strip, the id list is the ids joined by spaces plus one more. */
  lemma {:induction false} IdListJoined(posts: seq<WpPost>)
    requires posts != []
    ensures IdList(posts) == JoinSpace(Ids(posts)) + " "
    decreases |posts|
  {
    var init := posts[..|posts| - 1];
    if init != [] {
      IdListJoined(init);
      assert Ids(posts) == Ids(init) + [NatToString(posts[|posts| - 1].id)];
      JoinSpaceSnoc(Ids(init), NatToString(posts[|posts| - 1].id));
    }
  }

  /** A join of digit strings starts and ends with a digit. */
  lemma {:induction false} JoinSpaceEnds(xs: seq<string>)
    requires |xs| > 0
    requires forall k :: 0 <= k < |xs| ==> |xs[k]| > 0 && forall j :: 0 <= j < |xs[k]| ==> IsDigit(xs[k][j])
    ensures |JoinSpace(xs)| > 0
    ensures IsDigit(JoinSpace(xs)[0]) && IsDigit(JoinSpace(xs)[|JoinSpace(xs)| - 1])
    decreases |xs|
  {
    if |xs| > 1 {
      JoinSpaceEnds(xs[1..]);
      assert JoinSpace(xs)[0] == xs[0][0];
    }
  }

  lemma StripOneTrailingSpace(x: string)
    requires x != [] && !IsSpace(x[0]) && !IsSpace(x[|x| - 1])
    ensures Strip(x + " ") == x
  {
    var s := x + " ";
    assert StripLeft(s) == s;
    var r := StripRight(s);
    assert s[|s| - 1] == ' ';
    assert s[|x| - 1] == x[|x| - 1];
    assert |r| == |x|;
    assert r == s[..|x|] == x;
  }

  /** `post_ids.strip()` leaves exactly the ids joined by single spaces: no
      space in front, none at the end. */
  lemma PostIdsJoined(imagesPath: string, posts: seq<WpPost>)
    ensures TallySpec(imagesPath, posts).postIds == JoinSpace(Ids(posts))
  {
    if posts != [] {
      IdListJoined(posts);
      JoinSpaceEnds(Ids(posts));
      StripOneTrailingSpace(JoinSpace(Ids(posts)));
    }
  }

  /** PHP's `explode(" ", s)`: the pieces between single spaces. */
  function Explode(s: string): (r: seq<string>)
    ensures |r| > 0
    decreases |s|
  {
    var i := IndexOf(s, 0, ' ');
    if i == |s| then [s] else [s[..i]] + Explode(s[i + 1..])
  }

  lemma ExplodeFirst(x: string, rest: string)
    requires forall j :: 0 <= j < |x| ==> x[j] != ' '
    ensures Explode(x + " " + rest) == [x] + Explode(rest)
  {
    var s := x + " " + rest;
    IndexOfFirst(s, 0, ' ', |x|);
    assert s[..|x|] == x;
    assert s[|x| + 1..] == rest;
  }

  lemma ExplodeWhole(x: string)
    requires forall j :: 0 <= j < |x| ==> x[j] != ' '
    ensures Explode(x) == [x]
  {
  }

  /** Words without spaces, joined and exploded again, come back one for one. */
  lemma {:induction false} ExplodeJoinSpace(xs: seq<string>)
    requires |xs| > 0
    requires forall k, j :: 0 <= k < |xs| && 0 <= j < |xs[k]| ==> xs[k][j] != ' '
    ensures Explode(JoinSpace(xs)) == xs
    decreases |xs|
  {
    if |xs| == 1 {
      ExplodeWhole(xs[0]);
    } else {
      ExplodeJoinSpace(xs[1..]);
      ExplodeFirst(xs[0], JoinSpace(xs[1..]));
      assert xs == [xs[0]] + xs[1..];
    }
  }

  /** The shortcode's `explode(" ", $att)` in plugin.php recovers the ids in
      order whenever there was at least one post. */
  lemma PostIdsRoundTrip(imagesPath: string, posts: seq<WpPost>)
    requires posts != []
    ensures Explode(TallySpec(imagesPath, posts).postIds) == Ids(posts)
  {
    PostIdsJoined(imagesPath, posts);
    forall k, j | 0 <= k < |posts| && 0 <= j < |Ids(posts)[k]| ensures Ids(posts)[k][j] != ' ' {
      assert IsDigit(NatToString(posts[k].id)[j]);
    }
    ExplodeJoinSpace(Ids(posts));
  }

  /** With no post at all the shortcode gets one empty id. */
  lemma NoPostsOneEmptyId(imagesPath: string)
    ensures Explode(TallySpec(imagesPath, []).postIds) == [""]
  {
  }

  /** The montage grid for a batch size, as the `if/elif` chain picks it. */
  function TileLayout(n: int): Option<string> {
    if 16 <= n <= 18 then Some("4x4")
    else if 14 <= n <= 15 then Some("5x3")
    else if 10 <= n <= 13 then Some("4x3")
    else if 8 <= n <= 9 then Some("3x3")
    else if 8 <= n <= 7 then Some("3x2")
    else None
  }

  /** The table in both directions: each layout for its range and only there,
      no layout outside 8 to 18. */
  lemma TileLayoutTable(n: int)
    ensures TileLayout(n) == Some("4x4") <==> 16 <= n <= 18
    ensures TileLayout(n) == Some("5x3") <==> 14 <= n <= 15
    ensures TileLayout(n) == Some("4x3") <==> 10 <= n <= 13
    ensures TileLayout(n) == Some("3x3") <==> 8 <= n <= 9
    ensures TileLayout(n).None? <==> n < 8 || 18 < n
  {
  }

  /** A layout exists exactly for 8 to 18 posts. */
  lemma TileLayoutDefined(n: int)
    ensures TileLayout(n).Some? <==> 8 <= n <= 18
  {
  }

  /** The `3x2` branch can never be taken. */
  lemma ThreeByTwoUnreachable(n: int)
    ensures TileLayout(n) != Some("3x2")
  {
  }

  /** A blank first tile for a batch of ten. */
  function MontageImages(themeCount: nat, themeImages: string): string {
    if themeCount == 10 then "null: " + themeImages else themeImages
  }

  /** The options between the image list and the layout, as line 470 writes
      them (`100%%` in the format string is `100%`). */
  const MontageOptions := " -thumbnail 240x240 -sharpen 10  -background snow -geometry '240x240-50-30' +polaroid -resize 100% -tile "

  /** The montage command of post_rundown. */
  function MontageCommand(dryRun: bool, images: string, tile: string, imageFile: string): string {
    (if dryRun then "echo " else "") + "montage " + images + MontageOptions + tile + " " + imageFile
  }

  /** The rundown post's text before the id list (line 451). */
  const RundownContentHead := "<p>Hey back with another rundown</p> <!--more--> [themetest_results_rundown post_ids=\""

  /** The content of the rundown post, for create_wp_post. */
  function RundownContent(postIds: string): string {
    RundownContentHead + postIds + "\"]"
  }

  const RundownTitlePrefix := "WordPress Theme Performance Rundown - "
  const RundownImagePrefix := "../tmp/rundown_featured-"

  /** What post_rundown builds once the tile layout is known: the montage of
      `images` with layout `tile` into `imageFile`, then its import as the
      featured image of the post whose id, unstripped, is `postId`; the
      import line strips it. */
  datatype Montage = Montage(images: string, tile: string, imageFile: string, postId: string)

  /** The commands post_rundown builds and logs, before they are rendered as
      text: the `post create` of a live run, and the montage and its import, or
      the exception that stops the action first. Which of them reach the shell
      is `RundownExecuted`. */
  datatype RundownCommands = RundownCommands(create: Option<CreatePost>, montage: Result<Montage>)

  /** The arguments post_rundown gives create_wp_post. */
  datatype CreatePost = CreatePost(content: string, category: string, title: string)

  /** One command of post_rundown, in the order it builds them: the draft's
      `post create`, the montage, the featured image's `media import`. */
  datatype RundownStep = CreateDraft | MakeMontage | ImportImage

  /** The steps built and logged: `post create` (none in a dry run), then the
      montage and the media import (none once the action has failed). */
  function BuiltSteps(c: RundownCommands): seq<RundownStep> {
    (if c.create.Some? then [CreateDraft] else []) + (if c.montage.Ok? then [MakeMontage, ImportImage] else [])
  }

  /** The steps handed to the shell: the montage runs in both modes, echoed in
      a dry run, while a dry run's media import is only logged. */
  function ShelledSteps(dryRun: bool, c: RundownCommands): seq<RundownStep> {
    (if c.create.Some? then [CreateDraft] else [])
    + (if c.montage.Ok? then [MakeMontage] + (if dryRun then [] else [ImportImage]) else [])
  }

  /** The text of one step; empty for a step that `c` does not hold. */
  function StepLine(cfg: Config, dryRun: bool, c: RundownCommands, s: RundownStep): string {
    match s
    case CreateDraft => CreateLine(cfg, dryRun, c)
    case MakeMontage => MontageLine(dryRun, c)
    case ImportImage => ImportLine(cfg, dryRun, c)
  }

  function CreateLine(cfg: Config, dryRun: bool, c: RundownCommands): string {
    if c.create.Some? then
      CreatePostCommand(cfg, dryRun, c.create.value.content, c.create.value.category, "", c.create.value.title, "draft")
    else ""
  }

  function MontageLine(dryRun: bool, c: RundownCommands): string {
    if c.montage.Ok? then MontageCommand(dryRun, c.montage.value.images, c.montage.value.tile, c.montage.value.imageFile)
    else ""
  }

  function ImportLine(cfg: Config, dryRun: bool, c: RundownCommands): string {
    if c.montage.Ok? then MediaImportCommand(cfg, dryRun, c.montage.value.imageFile, c.montage.value.postId)
    else ""
  }

  function StepLines(cfg: Config, dryRun: bool, c: RundownCommands, steps: seq<RundownStep>): (r: seq<string>)
    ensures |r| == |steps|
    ensures forall k :: 0 <= k < |steps| ==> r[k] == StepLine(cfg, dryRun, c, steps[k])
  {
    seq(|steps|, k requires 0 <= k < |steps| => StepLine(cfg, dryRun, c, steps[k]))
  }

  /** The command lines built and logged, in order. */
  function RundownCommandLines(cfg: Config, dryRun: bool, c: RundownCommands): seq<string> {
    StepLines(cfg, dryRun, c, BuiltSteps(c))
  }

  /** The command lines post_rundown hands to the shell, in order. */
  function RundownExecuted(cfg: Config, dryRun: bool, c: RundownCommands): seq<string> {
    StepLines(cfg, dryRun, c, ShelledSteps(dryRun, c))
  }

  /** post_rundown, given the posts the REST query returned, the two dates it
      formats (`%B %d %Y` for the title, `%y%m%d` for the file) and wp-cli's
      output for `post create`. A live run posts first and may fail after:
      with no layout for the count, `tile_string` is unbound. In a dry run the
      id passed to `media import` is the loop's last `post_id`. */
  function PostRundown(cfg: Config, dryRun: bool, posts: seq<WpPost>, rundownCategory: string,
                       titleDate: string, fileDate: string, createOutput: string): RundownCommands
  {
    var t := TallySpec(cfg.imagesPath, posts);
    RundownCommands(RundownCreate(dryRun, t, rundownCategory, titleDate),
                    RundownMontage(t, RundownPostId(dryRun, t, createOutput), fileDate))
  }

  /** The `post create` of a live run. */
  function RundownCreate(dryRun: bool, t: Tally, rundownCategory: string, titleDate: string): Option<CreatePost> {
    if dryRun then None else Some(CreatePost(RundownContent(t.postIds), rundownCategory, RundownTitlePrefix + titleDate))
  }

  /** The `post_id` bound when the montage runs: the new post's, or in a dry
      run the loop's last one, unbound with no post at all. */
  function RundownPostId(dryRun: bool, t: Tally, createOutput: string): Option<string> {
    if dryRun then t.lastPostId else Some(CreatedPostId(false, createOutput))
  }

  /** The montage, or the NameError of the first unbound name it needs. */
  function RundownMontage(t: Tally, postId: Option<string>, fileDate: string): Result<Montage> {
    var tile := TileLayout(t.themeCount);
    if tile.None? then Err(NameError("tile_string"))
    else if postId.None? then Err(NameError("post_id"))
    else Ok(Montage(MontageImages(t.themeCount, t.themeImages), tile.value,
                    RundownImagePrefix + fileDate + ".jpg", postId.value))
  }

  /** A live run always creates the rundown post, even when the action fails
      afterwards, and its shortcode carries the batch's ids in order; a dry
      run creates none. */
  lemma RundownPostCreated(cfg: Config, dryRun: bool, posts: seq<WpPost>, rundownCategory: string,
                           titleDate: string, fileDate: string, createOutput: string)
    ensures var r := PostRundown(cfg, dryRun, posts, rundownCategory, titleDate, fileDate, createOutput);
      && (dryRun ==> r.create.None?)
      && (!dryRun ==> r.create == Some(CreatePost(RundownContent(JoinSpace(Ids(posts))), rundownCategory,
                                                  RundownTitlePrefix + titleDate)))
  {
    PostIdsJoined(cfg.imagesPath, posts);
  }

  /** The montage and its import are built exactly for batches of 8 to 18
      posts, whatever the mode; otherwise the action stops with NameError on
      `tile_string`. The montage lists every post's image with the table's
      layout; the import names the new post, or in a dry run the last post of
      the batch. */
  lemma PostRundownOutcome(cfg: Config, dryRun: bool, posts: seq<WpPost>, rundownCategory: string,
                           titleDate: string, fileDate: string, createOutput: string)
    ensures var m := PostRundown(cfg, dryRun, posts, rundownCategory, titleDate, fileDate, createOutput).montage;
      && (m.Ok? <==> 8 <= |posts| <= 18)
      && (m.Err? ==> m.error == NameError("tile_string"))
      && (m.Ok? ==>
          && m.value.tile == TileLayout(|posts|).value
          && m.value.images == MontageImages(|posts|, ImageList(cfg.imagesPath, posts))
          && m.value.postId == (if dryRun then NatToString(posts[|posts| - 1].id) else CreatedPostId(false, createOutput)))
  {
    var t := TallySpec(cfg.imagesPath, posts);
    assert PostRundown(cfg, dryRun, posts, rundownCategory, titleDate, fileDate, createOutput).montage
      == RundownMontage(t, RundownPostId(dryRun, t, createOutput), fileDate);
    TileLayoutDefined(|posts|);
  }

  /** wp-cli's porcelain reply, a number and a newline, reads back as that number. */
  lemma PorcelainIdStripped(n: nat)
    ensures Strip(CreatedPostId(false, NatToString(n) + "\n")) == NatToString(n)
  {
    var id := NatToString(n);
    CreatedPostIdPorcelain(n);
    assert IsDigit(id[0]) && IsDigit(id[|id| - 1]);
    StripOneTrailingSpace(id);
  }

  /** When wp-cli prints the new post's id, the featured image goes to that post. */
  lemma RundownImageOnNewPost(cfg: Config, posts: seq<WpPost>, rundownCategory: string,
                              titleDate: string, fileDate: string, n: nat)
    requires 8 <= |posts| <= 18
    ensures var m := PostRundown(cfg, false, posts, rundownCategory, titleDate, fileDate, NatToString(n) + "\n").montage;
      m.Ok? && Strip(m.value.postId) == NatToString(n)
  {
    var out := NatToString(n) + "\n";
    var t := TallySpec(cfg.imagesPath, posts);
    assert PostRundown(cfg, false, posts, rundownCategory, titleDate, fileDate, out).montage
      == RundownMontage(t, Some(CreatedPostId(false, out)), fileDate);
    TileLayoutDefined(|posts|);
    PorcelainIdStripped(n);
  }

  /** The montage runs exactly for batches of 8 to 18 posts. */
  lemma MontageRuns(cfg: Config, dryRun: bool, posts: seq<WpPost>, rundownCategory: string,
                    titleDate: string, fileDate: string, createOutput: string)
    ensures PostRundown(cfg, dryRun, posts, rundownCategory, titleDate, fileDate, createOutput).montage.Ok?
      <==> 8 <= |posts| <= 18
  {
    var t := TallySpec(cfg.imagesPath, posts);
    assert PostRundown(cfg, dryRun, posts, rundownCategory, titleDate, fileDate, createOutput).montage
      == RundownMontage(t, RundownPostId(dryRun, t, createOutput), fileDate);
    TileLayoutDefined(|posts|);
  }

  /** post_rundown builds `post create` in a live run, then the montage and
      its import for batches of 8 to 18 posts, whatever the mode. */
  lemma RundownLinesBuilt(cfg: Config, dryRun: bool, posts: seq<WpPost>, rundownCategory: string,
                          titleDate: string, fileDate: string, createOutput: string)
    ensures BuiltSteps(PostRundown(cfg, dryRun, posts, rundownCategory, titleDate, fileDate, createOutput))
      == (if dryRun then [] else [CreateDraft]) + (if 8 <= |posts| <= 18 then [MakeMontage, ImportImage] else [])
  {
    MontageRuns(cfg, dryRun, posts, rundownCategory, titleDate, fileDate, createOutput);
    RundownPostCreated(cfg, dryRun, posts, rundownCategory, titleDate, fileDate, createOutput);
  }

  /** What post_rundown runs: in a live run `post create`, then the montage and
      the media import for batches of 8 to 18 posts; in a dry run only the
      echoed montage, and only for such a batch. */
  lemma RundownExecutedSteps(cfg: Config, dryRun: bool, posts: seq<WpPost>, rundownCategory: string,
                             titleDate: string, fileDate: string, createOutput: string)
    ensures ShelledSteps(dryRun, PostRundown(cfg, dryRun, posts, rundownCategory, titleDate, fileDate, createOutput))
      == (if dryRun then [] else [CreateDraft])
         + (if 8 <= |posts| <= 18 then [MakeMontage] + (if dryRun then [] else [ImportImage]) else [])
  {
    MontageRuns(cfg, dryRun, posts, rundownCategory, titleDate, fileDate, createOutput);
    RundownPostCreated(cfg, dryRun, posts, rundownCategory, titleDate, fileDate, createOutput);
  }

  /** A live run runs every line it builds; a dry run runs them all but the
      media import. */
  lemma ShelledAreBuilt(dryRun: bool, c: RundownCommands)
    ensures !dryRun ==> ShelledSteps(dryRun, c) == BuiltSteps(c)
    ensures forall s :: s in ShelledSteps(dryRun, c) <==> s in BuiltSteps(c) && !(dryRun && s == ImportImage)
  {
  }

  /** In a live run the first command line is the `post create` of a draft
      whose shortcode carries the batch's ids. */
  lemma RundownCreateLine(cfg: Config, posts: seq<WpPost>, rundownCategory: string,
                          titleDate: string, fileDate: string, createOutput: string)
    ensures var lines := RundownCommandLines(cfg, false,
                           PostRundown(cfg, false, posts, rundownCategory, titleDate, fileDate, createOutput));
      |lines| > 0 && lines[0] == CreatePostCommand(cfg, false, RundownContent(JoinSpace(Ids(posts))),
                                                  rundownCategory, "", RundownTitlePrefix + titleDate, "draft")
  {
    var r := PostRundown(cfg, false, posts, rundownCategory, titleDate, fileDate, createOutput);
    RundownPostCreated(cfg, false, posts, rundownCategory, titleDate, fileDate, createOutput);
    assert BuiltSteps(r)[0] == CreateDraft;
  }

  /** A dry run of 8 to 18 posts runs one line, the echoed montage; what it
      lists and how it lays the images out is `PostRundownOutcome`. */
  lemma RundownDryRunMontage(cfg: Config, posts: seq<WpPost>, rundownCategory: string,
                             titleDate: string, fileDate: string, createOutput: string)
    requires 8 <= |posts| <= 18
    ensures var m := PostRundown(cfg, true, posts, rundownCategory, titleDate, fileDate, createOutput).montage;
      && m.Ok?
      && RundownExecuted(cfg, true, PostRundown(cfg, true, posts, rundownCategory, titleDate, fileDate, createOutput))
         == [MontageCommand(true, m.value.images, m.value.tile, m.value.imageFile)]
  {
    var r := PostRundown(cfg, true, posts, rundownCategory, titleDate, fileDate, createOutput);
    RundownPostCreated(cfg, true, posts, rundownCategory, titleDate, fileDate, createOutput);
    MontageRuns(cfg, true, posts, rundownCategory, titleDate, fileDate, createOutput);
    DryRunShellsMontage(cfg, r);
  }

  lemma DryRunShellsMontage(cfg: Config, c: RundownCommands)
    requires c.create.None? && c.montage.Ok?
    ensures RundownExecuted(cfg, true, c)
      == [MontageCommand(true, c.montage.value.images, c.montage.value.tile, c.montage.value.imageFile)]
  {
    var ex := RundownExecuted(cfg, true, c);
    assert ShelledSteps(true, c) == [MakeMontage];
    assert |ex| == 1 && ex[0] == MontageLine(true, c);
  }
}
