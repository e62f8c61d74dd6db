/** The names generate_sites and test_gtmetrix derive from a theme's slug, and
    the wp-cli commands generate_sites issues for one theme. */
module Naming {
  import opened PyStr
  import opened ThemeData

  /** `wp_instance_name`: the test site's name. */
  function InstanceName(slug: string): string { slug + "01" }

  /** `prefix_db` of generate_sites: the instance name with every `.` and `-`
      removed, then `_` appended. */
  function DbPrefix(slug: string): (r: string)
    ensures |r| > 0 && r[|r| - 1] == '_'
    ensures '.' !in r && '-' !in r
    ensures forall x :: x in InstanceName(slug) && x != '.' && x != '-' ==> x in r
    ensures forall x :: x in r ==> x == '_' || x in InstanceName(slug)
  {
    var noDots := ReplaceChar(InstanceName(slug), '.', "");
    ReplaceCharMembers(InstanceName(slug), '.', "");
    ReplaceCharMembers(noDots, '-', "");
    var r := ReplaceChar(noDots, '-', "") + "_";
    assert '.' !in r by {
      assert '.' !in ReplaceChar(noDots, '-', "");
    }
    r
  }

  /** `s` with `.` and `-` removed, one character at a time. */
  function WithoutDotsAndDashes(s: string): string {
    if s == [] then []
    else (if s[0] == '.' || s[0] == '-' then [] else [s[0]]) + WithoutDotsAndDashes(s[1..])
  }

  /** The two chained `replace` calls remove exactly the dots and dashes,
      keeping every other character in its order. */
  lemma {:induction false} DbPrefixIsFiltered(slug: string)
    ensures DbPrefix(slug) == WithoutDotsAndDashes(InstanceName(slug)) + "_"
  {
    ReplaceChainFilters(InstanceName(slug));
  }

  lemma {:induction false} ReplaceChainFilters(s: string)
    ensures ReplaceChar(ReplaceChar(s, '.', ""), '-', "") == WithoutDotsAndDashes(s)
  {
    if s != [] {
      ReplaceChainFilters(s[1..]);
      var head := if s[0] == '.' then "" else [s[0]];
      ReplaceCharAppend(head, ReplaceChar(s[1..], '.', ""), '-', "");
    }
  }

  /** A slug without dots and dashes gets the prefix `slug + "01_"`. */
  lemma DbPrefixPlain(slug: string)
    requires '.' !in slug && '-' !in slug
    ensures DbPrefix(slug) == slug + "01_"
  {
    DbPrefixIsFiltered(slug);
    WithoutDotsAndDashesNoop(slug + "01");
  }

  lemma {:induction false} WithoutDotsAndDashesNoop(s: string)
    requires '.' !in s && '-' !in s
    ensures WithoutDotsAndDashes(s) == s
  {
    if s != [] {
      assert s[0] in s;
      assert forall x :: x in s[1..] ==> x in s;
      WithoutDotsAndDashesNoop(s[1..]);
    }
  }

  lemma {:induction false} WithoutDotsAndDashesAppend(a: string, b: string)
    ensures WithoutDotsAndDashes(a + b) == WithoutDotsAndDashes(a) + WithoutDotsAndDashes(b)
  {
    if a == [] {
      assert a + b == b;
    } else {
      assert (a + b)[1..] == a[1..] + b;
      WithoutDotsAndDashesAppend(a[1..], b);
    }
  }

  lemma WithoutDotsAndDashesDrops(a: string, b: string, c: char)
    requires c == '.' || c == '-'
    ensures WithoutDotsAndDashes(a + [c] + b) == WithoutDotsAndDashes(a + b)
  {
    assert a + [c] + b == a + ([c] + b);
    WithoutDotsAndDashesAppend(a, [c] + b);
    WithoutDotsAndDashesAppend([c], b);
    WithoutDotsAndDashesAppend(a, b);
    assert WithoutDotsAndDashes([c]) == [];
  }

  /** Slugs that differ only by a dot or a dash share one table prefix in the
      same database: the prefix does not tell such test sites apart. */
  lemma DbPrefixCollides(a: string, b: string, c: char)
    requires c == '.' || c == '-'
    ensures a + [c] + b != a + b
    ensures DbPrefix(a + [c] + b) == DbPrefix(a + b)
  {
    assert |a + [c] + b| != |a + b|;
    var tail := b + "01";
    assert DbPrefix(a + [c] + b) == WithoutDotsAndDashes(a + [c] + tail) + "_" by {
      DbPrefixIsFiltered(a + [c] + b);
      assert InstanceName(a + [c] + b) == a + [c] + tail;
    }
    assert DbPrefix(a + b) == WithoutDotsAndDashes(a + tail) + "_" by {
      DbPrefixIsFiltered(a + b);
      assert InstanceName(a + b) == a + tail;
    }
    WithoutDotsAndDashesDrops(a, tail, c);
  }

  function SiteUrl(cfg: Config, slug: string): string { cfg.testsiteBaseurl + InstanceName(slug) }

  function SitePath(cfg: Config, slug: string): string { cfg.testsiteBasedir + InstanceName(slug) }

  /** `gtmetrix_data_filename` of test_gtmetrix. */
  function GtDataFilename(slug: string): string { "../data/" + InstanceName(slug) + "-test.log" }

  /** `wp_cli_base`; a dry run puts `echo ` in front so the command is only printed. */
  function WpCliBase(cfg: Config, slug: string, dryRun: bool): string {
    (if dryRun then "echo " else "") + "wp --path=" + SitePath(cfg, slug) + " "
  }

  /** The wp-cli subcommands generate_sites runs, with the values they carry. */
  datatype WpArgs =
    | CoreDownload
    | CoreConfig(dbhost: string, dbname: string, dbprefix: string, dbuser: string, dbpass: string)
    | CoreInstall(url: string, adminPassword: string)
    | ThemeInstall(theme: string)
    | PluginInstallImporter
    | ImportTestData(wpPath: string)

  /** One command: the `wp_cli_base` prefix and the subcommand after it. */
  datatype WpCommand = WpCommand(base: string, args: WpArgs)

  /** The text of a subcommand as the format strings of generate_sites spell it. */
  function ArgsText(a: WpArgs): string {
    match a
    case CoreDownload => "core download"
    case CoreConfig(host, name, prefix, user, pass) =>
      "core config --dbhost=" + host + " --dbname=" + name + " --dbprefix=" + prefix
        + " --dbuser=" + user + " --dbpass=" + pass
    case CoreInstall(url, pass) =>
      "core install --url=" + url + " --title='Your Blog Title' --admin_name=wpadmin --admin_password="
        + pass + " --admin_email=you@example.com"
    case ThemeInstall(theme) => "theme install " + theme + " --activate"
    case PluginInstallImporter => "plugin install wordpress-importer --activate"
    case ImportTestData(path) => "import " + path + "wp-content/plugins/themetest/data/testdata.xml --authors=skip"
  }

  /** The string handed to os.system. */
  function CommandLine(c: WpCommand): (r: string)
    ensures StartsWith(r, c.base)
  {
    assert (c.base + ArgsText(c.args))[..|c.base|] == c.base;
    c.base + ArgsText(c.args)
  }

  /** The subcommands generate_sites runs for one theme: fetch WordPress,
      write its configuration with the theme's own table prefix, install it
      at the theme's site URL, then install and activate the theme and the
      importer, and import the sample content. */
  function SiteArgs(cfg: Config, slug: string): seq<WpArgs> {
    [ CoreDownload,
      CoreConfig(cfg.dbhost, cfg.dbname, DbPrefix(slug), cfg.dbuser, cfg.dbpass),
      CoreInstall(SiteUrl(cfg, slug), cfg.wpAdminPassword),
      ThemeInstall(slug),
      PluginInstallImporter,
      ImportTestData(cfg.wpPath) ]
  }

  /** The six commands of one theme, each behind the site's `wp_cli_base`. */
  function SiteCommands(cfg: Config, slug: string, dryRun: bool): seq<WpCommand> {
    var base := WpCliBase(cfg, slug, dryRun);
    var args := SiteArgs(cfg, slug);
    seq(6, k requires 0 <= k < 6 => WpCommand(base, args[k]))
  }

  /** Prefixing the base with `echo ` prefixes the whole command line. */
  lemma EchoCommandLine(base: string, args: WpArgs)
    ensures CommandLine(WpCommand("echo " + base, args)) == "echo " + CommandLine(WpCommand(base, args))
  {
    var text := ArgsText(args);
    assert ("echo " + base) + text == "echo " + (base + text);
  }

  /** A dry run prints exactly the command lines a real run executes. */
  lemma DryRunEchoes(cfg: Config, slug: string, k: nat)
    requires k < 6
    ensures CommandLine(SiteCommands(cfg, slug, true)[k]) == "echo " + CommandLine(SiteCommands(cfg, slug, false)[k])
  {
    var live := WpCliBase(cfg, slug, false);
    assert WpCliBase(cfg, slug, true) == "echo " + live;
    EchoCommandLine(live, SiteArgs(cfg, slug)[k]);
  }

  /** Blocks of six commands, concatenated in order. */
  function Flatten6(blocks: seq<seq<WpCommand>>): (r: seq<WpCommand>)
    requires forall i :: 0 <= i < |blocks| ==> |blocks[i]| == 6
    ensures |r| == 6 * |blocks|
  {
    if blocks == [] then [] else Flatten6(blocks[..|blocks| - 1]) + blocks[|blocks| - 1]
  }

  lemma {:induction false} Flatten6At(blocks: seq<seq<WpCommand>>, i: nat)
    requires forall i :: 0 <= i < |blocks| ==> |blocks[i]| == 6
    requires i < |blocks|
    ensures 6 * i + 6 <= |Flatten6(blocks)| && Flatten6(blocks)[6 * i..6 * i + 6] == blocks[i]
  {
    var n := |blocks| - 1;
    var front := Flatten6(blocks[..n]);
    assert |front| == 6 * n;
    assert Flatten6(blocks) == front + blocks[n];
    if i < n {
      Flatten6At(blocks[..n], i);
      assert blocks[..n][i] == blocks[i];
      assert (front + blocks[n])[6 * i..6 * i + 6] == front[6 * i..6 * i + 6];
    } else {
      assert |blocks[n]| == 6;
      assert (front + blocks[n])[6 * n..6 * n + 6] == blocks[n];
    }
  }

  /** The six-command block of each theme, in order. */
  function ThemeBlocks(cfg: Config, themes: seq<Theme>, dryRun: bool): (r: seq<seq<WpCommand>>)
    ensures |r| == |themes|
    ensures forall i :: 0 <= i < |r| ==> |r[i]| == 6
  {
    seq(|themes|, i requires 0 <= i < |themes| => SiteCommands(cfg, themes[i].entry.slug, dryRun))
  }

  /** All commands of generate_sites for a list of themes, in order. */
  function SitesCommands(cfg: Config, themes: seq<Theme>, dryRun: bool): (r: seq<WpCommand>)
    ensures |r| == 6 * |themes|
  {
    Flatten6(ThemeBlocks(cfg, themes, dryRun))
  }

  /** The commands for the `i`-th theme are the six at positions `6*i` to `6*i+5`. */
  lemma SitesCommandsAt(cfg: Config, themes: seq<Theme>, dryRun: bool, i: nat)
    requires i < |themes|
    ensures 6 * i + 6 <= |SitesCommands(cfg, themes, dryRun)|
    ensures SitesCommands(cfg, themes, dryRun)[6 * i..6 * i + 6] == SiteCommands(cfg, themes[i].entry.slug, dryRun)
  {
    Flatten6At(ThemeBlocks(cfg, themes, dryRun), i);
  }

  /** The loop of generate_sites: the commands issued, theme after theme. */
  method GenerateSites(cfg: Config, themes: seq<Theme>, dryRun: bool) returns (commands: seq<WpCommand>)
    ensures commands == SitesCommands(cfg, themes, dryRun)
  {
    commands := [];
    ghost var all := ThemeBlocks(cfg, themes, dryRun);
    for i := 0 to |themes|
      invariant commands == Flatten6(all[..i])
    {
      var issued := SiteCommands(cfg, themes[i].entry.slug, dryRun);
      assert issued == all[i];
      assert all[..i + 1][..i] == all[..i];
      commands := commands + issued;
    }
    assert all[..|themes|] == all;
  }
}
