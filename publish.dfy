/** post_pages and create_wp_post: the text clean-up applied before values are
    pasted into wp-cli command lines, the commands built, and the post id read
    back from wp-cli's output. The shell itself is modelled only as far as
    quoting goes (POSIX Shell Command Language, section 2.2.1 "Escape Character
    (Backslash)" and section 2.2.2 "Single-Quotes"). */
module Publish {
  import opened Wrappers
  import opened PyStr
  import opened ThemeData
  import opened AcfData

  /** `.encode('ascii', 'ignore').replace('\n', ' ').replace('\r', '')`: the
      clean-up of create_wp_post's excerpt, and the first steps of post_pages'. */
  function FlattenAscii(s: string): (r: string)
    ensures forall i :: 0 <= i < |r| ==> IsAscii(r[i]) && !IsLineBreak(r[i])
  {
    var ascii := EncodeAsciiIgnore(s);
    var spaced := ReplaceChar(ascii, '\n', " ");
    var r := ReplaceChar(spaced, '\r', "");
    ReplaceCharMembers(ascii, '\n', " ");
    ReplaceCharMembers(spaced, '\r', "");
    assert forall i :: 0 <= i < |r| ==> r[i] in r;
    assert forall i :: 0 <= i < |ascii| ==> ascii[i] in ascii;
    r
  }

  /** What FlattenAscii makes of one character. */
  function FlatChar(c: char): string {
    if !IsAscii(c) || c == '\r' then ""
    else if c == '\n' then " "
    else [c]
  }

  /** Reference definition: FlattenAscii character by character. */
  function FlatChars(s: string): string {
    if s == [] then [] else FlatChar(s[0]) + FlatChars(s[1..])
  }

  /** The clean-up acts on each character on its own: non-ASCII characters and
      `\r` vanish, `\n` becomes a space, and every other character is kept, in
      order. */
  lemma {:induction false} FlattenAsciiIsPerChar(s: string)
    ensures FlattenAscii(s) == FlatChars(s)
  {
    if s != [] {
      FlattenAsciiIsPerChar(s[1..]);
      var c := s[0];
      assert s == [c] + s[1..];
      EncodeAsciiIgnoreAppend([c], s[1..]);
      var a0 := EncodeAsciiIgnore([c]);
      var a1 := EncodeAsciiIgnore(s[1..]);
      ReplaceCharAppend(a0, a1, '\n', " ");
      var b0 := ReplaceChar(a0, '\n', " ");
      var b1 := ReplaceChar(a1, '\n', " ");
      ReplaceCharAppend(b0, b1, '\r', "");
      assert ReplaceChar(b0, '\r', "") == FlatChar(c);
    }
  }

  /** `.replace("'", "'\\''")`: close the quote, an escaped quote, reopen. */
  function EscapeQuotes(s: string): string {
    ReplaceChar(s, '\'', "'\\''")
  }

  /** The value of post_pages' `value_asc`, pasted between single quotes. */
  function ShellSafe(s: string): (r: string)
    ensures forall i :: 0 <= i < |r| ==> IsAscii(r[i]) && !IsLineBreak(r[i])
  {
    var flat := FlattenAscii(s);
    var r := EscapeQuotes(flat);
    ReplaceCharMembers(flat, '\'', "'\\''");
    assert forall i :: 0 <= i < |flat| ==> flat[i] in flat;
    assert forall i :: 0 <= i < |r| ==> r[i] in r && (r[i] in flat || r[i] in "'\\''");
    r
  }

  /** What ShellSafe makes of one character. */
  function SafeChar(c: char): string {
    if !IsAscii(c) || c == '\r' then ""
    else if c == '\n' then " "
    else if c == '\'' then "'\\''"
    else [c]
  }

  /** Reference definition: ShellSafe character by character. */
  function SafeChars(s: string): string {
    if s == [] then [] else SafeChar(s[0]) + SafeChars(s[1..])
  }

  /** The chain of replacements acts on each character on its own: non-ASCII
      and `\r` vanish, `\n` becomes a space, `'` becomes `'\''`, and every
      other character is kept, in order. */
  lemma {:induction false} ShellSafeIsPerChar(s: string)
    ensures ShellSafe(s) == SafeChars(s)
  {
    if s != [] {
      ShellSafeIsPerChar(s[1..]);
      var c := s[0];
      assert s == [c] + s[1..];
      EncodeAsciiIgnoreAppend([c], s[1..]);
      var a0 := EncodeAsciiIgnore([c]);
      var a1 := EncodeAsciiIgnore(s[1..]);
      ReplaceCharAppend(a0, a1, '\n', " ");
      var b0 := ReplaceChar(a0, '\n', " ");
      var b1 := ReplaceChar(a1, '\n', " ");
      ReplaceCharAppend(b0, b1, '\r', "");
      var c0 := ReplaceChar(b0, '\r', "");
      var c1 := ReplaceChar(b1, '\r', "");
      ReplaceCharAppend(c0, c1, '\'', "'\\''");
      assert EscapeQuotes(c0) == SafeChar(c);
    }
  }

  /** Index of the first `c` in `s` at or after `from`, or `|s|`. */
  function IndexOf(s: string, from: nat, c: char): (i: nat)
    requires from <= |s|
    ensures from <= i <= |s|
    ensures forall j :: from <= j < i ==> s[j] != c
    ensures i < |s| ==> s[i] == c
    decreases |s| - from
  {
    if from == |s| || s[from] == c then from else IndexOf(s, from + 1, c)
  }

  /** Characters the model lets stand unquoted in a word: anything but blanks
      and the characters the shell gives a meaning to. */
  predicate ShellPlain(c: char) {
    && c != ' ' && c != '\t' && c != '\n' && c != '|' && c != '&' && c != ';' && c != '<'
    && c != '>' && c != '(' && c != ')' && c != '$' && c != '`' && c != '\\' && c != '"'
    && c != '\'' && c != '*' && c != '?' && c != '[' && c != '#' && c != '~' && c != '='
    && c != '%'
  }

  /** `u` in front of a word read, failure kept. */
  function Prepend(u: string, w: Option<string>): Option<string> {
    match w
    case None => None
    case Some(x) => Some(u + x)
  }

  /** How the shell reads one word made of single-quoted spans (taken literally
      up to the next `'`), backslash escapes (the next character, literally) and
      plain characters; None when the text is not one such word (an unclosed
      quote, a blank or a special character outside quotes). */
  function ShellWord(s: string): Option<string>
    decreases |s|
  {
    if s == [] then Some([])
    else if s[0] == '\'' then
      var j := IndexOf(s, 1, '\'');
      if j == |s| then None else Prepend(s[1..j], ShellWord(s[j + 1..]))
    else if s[0] == '\\' then
      if |s| < 2 || s[1] == '\n' then None else Prepend([s[1]], ShellWord(s[2..]))
    else if ShellPlain(s[0]) then Prepend([s[0]], ShellWord(s[1..]))
    else None
  }

  lemma ReplaceCharNoop(s: string, c: char, sub: string)
    requires forall j :: 0 <= j < |s| ==> s[j] != c
    ensures ReplaceChar(s, c, sub) == s
  {
  }

  /** A single-quoted span without quotes inside is taken as it stands. */
  lemma QuotedSpan(u: string, rest: string)
    requires forall j :: 0 <= j < |u| ==> u[j] != '\''
    ensures ShellWord("'" + u + "'" + rest) == Prepend(u, ShellWord(rest))
  {
    var s := "'" + u + "'" + rest;
    forall j | 1 <= j < |u| + 1 ensures s[j] != '\'' { assert s[j] == u[j - 1]; }
    IndexOfFirst(s, 1, '\'', |u| + 1);
    assert s[1..|u| + 1] == u;
    assert s[|u| + 2..] == rest;
  }

  /** A backslash makes the next character, a quote among others, literal. */
  lemma EscapedChar(c: char, rest: string)
    requires c != '\n'
    ensures ShellWord("\\" + [c] + rest) == Prepend([c], ShellWord(rest))
  {
    var s := "\\" + [c] + rest;
    assert s[2..] == rest;
  }

  /** Escaping splits at the first quote. */
  lemma EscapeQuotesAtFirst(u: string, v: string)
    requires forall j :: 0 <= j < |u| ==> u[j] != '\''
    ensures EscapeQuotes(u + "'" + v) == u + "'\\''" + EscapeQuotes(v)
  {
    ReplaceCharNoop(u, '\'', "'\\''");
    ReplaceCharAppend(u, "'" + v, '\'', "'\\''");
    ReplaceCharAppend("'", v, '\'', "'\\''");
    assert u + "'" + v == u + ("'" + v);
  }

  /** Any text, quotes escaped and wrapped in single quotes, reads back as itself. */
  lemma {:induction false} QuotedRoundTrip(t: string)
    ensures ShellWord("'" + EscapeQuotes(t) + "'") == Some(t)
    decreases |t|
  {
    var q := IndexOf(t, 0, '\'');
    if q == |t| {
      QuoteFreeRoundTrip(t);
    } else {
      var u, v := t[..q], t[q + 1..];
      assert t == u + "'" + v;
      QuotedRoundTrip(v);
      QuoteStepRoundTrip(u, v);
    }
  }

  lemma QuoteFreeRoundTrip(t: string)
    requires forall j :: 0 <= j < |t| ==> t[j] != '\''
    ensures ShellWord("'" + EscapeQuotes(t) + "'") == Some(t)
  {
    ReplaceCharNoop(t, '\'', "'\\''");
    QuotedSpan(t, []);
    assert "'" + t + "'" + [] == "'" + t + "'";
    assert t + [] == t;
  }

  /** A quote-free span, then an escaped quote, then a word. */
  lemma SpanThenEscapedQuote(u: string, tail: string, x: string)
    requires forall j :: 0 <= j < |u| ==> u[j] != '\''
    requires ShellWord(tail) == Some(x)
    ensures ShellWord("'" + u + "'" + ("\\" + "'" + tail)) == Some(u + "'" + x)
  {
    var w := "\\" + "'" + tail;
    assert ShellWord(w) == Some("'" + x) by { EscapedChar('\'', tail); }
    QuotedSpan(u, w);
    assert u + ("'" + x) == u + "'" + x;
  }

  /** The text up to and including its first quote, given the rest reads back. */
  lemma QuoteStepRoundTrip(u: string, v: string)
    requires forall j :: 0 <= j < |u| ==> u[j] != '\''
    requires ShellWord("'" + EscapeQuotes(v) + "'") == Some(v)
    ensures ShellWord("'" + EscapeQuotes(u + "'" + v) + "'") == Some(u + "'" + v)
  {
    var tail := "'" + EscapeQuotes(v) + "'";
    EscapeQuotesAtFirst(u, v);
    assert "'" + EscapeQuotes(u + "'" + v) + "'" == "'" + u + "'" + ("\\" + "'" + tail);
    SpanThenEscapedQuote(u, tail, v);
  }

  lemma IndexOfFirst(s: string, from: nat, c: char, k: nat)
    requires from <= k < |s| && s[k] == c
    requires forall j :: from <= j < k ==> s[j] != c
    ensures IndexOf(s, from, c) == k
  {
  }

  /** The shell hands wp-cli exactly the ASCII, newline-flattened text: every
      quote of the input survives as a quote and nothing escapes the word. */
  lemma ShellSafeRoundTrip(s: string)
    ensures ShellWord("'" + ShellSafe(s) + "'") == Some(FlattenAscii(s))
  {
    QuotedRoundTrip(FlattenAscii(s));
  }

  /** `wpcli_base` of post_pages and create_wp_post. */
  function PublisherBase(cfg: Config, dryRun: bool): string {
    (if dryRun then "echo " else "") + cfg.wpCliPath + " --path=" + cfg.wpPath + " "
  }

  /** create_wp_post's `post_content`: a value not ending in `.html` is passed
      as a `--post_content` option. */
  function PostContentArg(content: string): string {
    if |content| >= 5 && content[|content| - 5..] == ".html" then content
    else "--post_content='" + content + "'"
  }

  /** The `post create` command line of create_wp_post. */
  function CreatePostCommand(cfg: Config, dryRun: bool, content: string, category: string,
                             excerpt: string, title: string, status: string): string
  {
    PublisherBase(cfg, dryRun) + "post create " + PostContentArg(content) + " --post_status='" + status
      + "' --post_category=" + category + " --post_excerpt=\"" + FlattenAscii(excerpt)
      + "\" --porcelain --post_title=\"" + title + "\" "
  }

  /** The value create_wp_post returns: the dry-run placeholder, or wp-cli's
      output with newlines turned into spaces and carriage returns dropped. */
  function CreatedPostId(dryRun: bool, output: string): (id: string)
    ensures dryRun ==> id == "4321"
    ensures !dryRun ==> forall i :: 0 <= i < |id| ==> !IsLineBreak(id[i])
  {
    if dryRun then "4321"
    else
      var spaced := ReplaceChar(output, '\n', " ");
      var id := ReplaceChar(spaced, '\r', "");
      ReplaceCharMembers(output, '\n', " ");
      ReplaceCharMembers(spaced, '\r', "");
      assert forall i :: 0 <= i < |id| ==> id[i] in id;
      id
  }

  /** What create_wp_post makes of one character of wp-cli's output. */
  function IdChar(c: char): string {
    if c == '\r' then "" else if c == '\n' then " " else [c]
  }

  /** Reference definition: the live post id character by character. */
  function IdChars(s: string): string {
    if s == [] then [] else IdChar(s[0]) + IdChars(s[1..])
  }

  /** In a live run each newline of the output becomes a space, each carriage
      return is dropped, and every other character is kept, in order. */
  lemma {:induction false} CreatedPostIdIsPerChar(output: string)
    ensures CreatedPostId(false, output) == IdChars(output)
  {
    if output != [] {
      CreatedPostIdIsPerChar(output[1..]);
      var c := output[0];
      assert output == [c] + output[1..];
      ReplaceCharAppend([c], output[1..], '\n', " ");
      ReplaceCharAppend(ReplaceChar([c], '\n', " "), ReplaceChar(output[1..], '\n', " "), '\r', "");
      assert ReplaceChar(ReplaceChar([c], '\n', " "), '\r', "") == IdChar(c);
    }
  }

  lemma {:induction false} IdCharsAppend(a: string, b: string)
    ensures IdChars(a + b) == IdChars(a) + IdChars(b)
  {
    if a == [] {
      assert a + b == b;
    } else {
      assert (a + b)[1..] == a[1..] + b;
      IdCharsAppend(a[1..], b);
    }
  }

  lemma {:induction false} IdCharsNoop(s: string)
    requires forall j :: 0 <= j < |s| ==> !IsLineBreak(s[j])
    ensures IdChars(s) == s
  {
    if s != [] {
      IdCharsNoop(s[1..]);
      assert s == [s[0]] + s[1..];
    }
  }

  /** wp-cli's `--porcelain` output, an id and a newline, comes back from
      create_wp_post as the id and a trailing space. */
  lemma CreatedPostIdPorcelain(n: nat)
    ensures CreatedPostId(false, NatToString(n) + "\n") == NatToString(n) + " "
  {
    var id := NatToString(n);
    CreatedPostIdIsPerChar(id + "\n");
    IdCharsAppend(id, "\n");
    forall j | 0 <= j < |id| ensures !IsLineBreak(id[j]) { assert IsDigit(id[j]); }
    IdCharsNoop(id);
    assert IdChars("\n") == " ";
  }

  const ReportTitleSuffix := " - WordPress Theme Performance Report"

  function ReportTitle(rec: AcfRecord): string {
    rec.themeName + ReportTitleSuffix
  }

  /** The fixed options of post_pages' `post create`, up to the excerpt. */
  const ReportCreateOptions :=
    "post create --post_status=publish --post_content='[themetest_results_full]' --post_category=theme-performance-reports --post_excerpt='"

  /** post_pages' `post create` command up to the title: the options and the
      quoted, escaped excerpt. */
  function ReportCreateHead(cfg: Config, dryRun: bool, rec: AcfRecord): string {
    PublisherBase(cfg, dryRun) + ReportCreateOptions + ShellSafe(rec.themeDescription) + "' --post_title="
  }

  /** post_pages' `post create` command as written: the title goes between
      single quotes without its quotes escaped. */
  function ReportCreateCommandAsWritten(cfg: Config, dryRun: bool, rec: AcfRecord): string {
    ReportCreateHead(cfg, dryRun, rec) + TitleArgAsWritten(rec) + " --porcelain"
  }

  /** The quoting post_pages applies to the title: none. */
  function TitleArgAsWritten(rec: AcfRecord): string { "'" + ReportTitle(rec) + "'" }

  /** A theme name with an apostrophe ends the title's quotes early: the shell
      no longer reads the title as one argument. */
  lemma TitleArgAsWrittenBreaks(rec: AcfRecord)
    requires rec.themeName == "Writer's Blog"
    ensures ShellWord(TitleArgAsWritten(rec)) == None
  {
    var rest := "Blog" + ReportTitleSuffix + "'";
    assert TitleArgAsWritten(rec) == "'" + "Writer" + "'" + ("s " + rest);
    QuoteClosedBeforeBlank("Writer", 's', rest);
  }

  /** For the same name, the quote the script puts after `Report` opens a
      quoted span that nothing on the line closes, so the shell rejects the
      whole `post create` line. */
  lemma TitleAsWrittenLeavesQuoteOpen(cfg: Config, dryRun: bool, rec: AcfRecord)
    requires rec.themeName == "Writer's Blog"
    ensures var tail := "s Blog" + ReportTitleSuffix;
      && ReportCreateCommandAsWritten(cfg, dryRun, rec)
           == ReportCreateHead(cfg, dryRun, rec) + "'Writer'" + tail + "' --porcelain"
      && (forall j :: 0 <= j < |tail| ==> tail[j] != '\'')
      && ShellWord("' --porcelain") == None
  {
    WriterCommandLayout(cfg, dryRun, rec);
    WriterTailNoQuote();
    OpenQuoteUnclosed();
  }

  lemma WriterCommandLayout(cfg: Config, dryRun: bool, rec: AcfRecord)
    requires rec.themeName == "Writer's Blog"
    ensures ReportCreateCommandAsWritten(cfg, dryRun, rec)
      == ReportCreateHead(cfg, dryRun, rec) + "'Writer'" + ("s Blog" + ReportTitleSuffix) + "' --porcelain"
  {
    assert rec.themeName == "Writer'" + "s Blog";
    Regroup(ReportCreateHead(cfg, dryRun, rec), "Writer'", "s Blog", ReportTitleSuffix, " --porcelain");
  }

  lemma WriterTailNoQuote()
    ensures var tail := "s Blog" + ReportTitleSuffix;
      forall j :: 0 <= j < |tail| ==> tail[j] != '\''
  {
    SuffixHasNoQuote();
    var tail := "s Blog" + ReportTitleSuffix;
    forall j | 0 <= j < |tail| ensures tail[j] != '\'' {
      if j >= 6 { assert tail[j] == ReportTitleSuffix[j - 6]; }
    }
  }

  lemma OpenQuoteUnclosed()
    ensures ShellWord("' --porcelain") == None
  {
    var q := "' --porcelain";
    assert IndexOf(q, 1, '\'') == |q| by {
      assert forall j :: 1 <= j < |q| ==> q[j] != '\'';
    }
  }

  lemma Regroup(h: string, a: string, b: string, suffix: string, p: string)
    ensures h + ("'" + (a + b + suffix) + "'") + p == h + ("'" + a) + (b + suffix) + ("'" + p)
  {
  }

  lemma SuffixHasNoQuote()
    ensures forall j :: 0 <= j < |ReportTitleSuffix| ==> ReportTitleSuffix[j] != '\''
  {
  }

  /** A quoted span closed in the middle of a word that goes on to a blank. */
  lemma QuoteClosedBeforeBlank(u: string, c: char, rest: string)
    requires forall j :: 0 <= j < |u| ==> u[j] != '\''
    requires ShellPlain(c)
    ensures ShellWord("'" + u + "'" + ([c, ' '] + rest)) == None
  {
    QuotedSpan(u, [c, ' '] + rest);
    var w := [c, ' '] + rest;
    assert w[1..] == [' '] + rest;
  }

  /** The title argument with the same escaping as the excerpt. */
  function TitleArg(rec: AcfRecord): string { "'" + ShellSafe(ReportTitle(rec)) + "'" }

  /** With that escaping the shell reads the title back, whatever the name. */
  lemma TitleArgRoundTrip(rec: AcfRecord)
    ensures ShellWord(TitleArg(rec)) == Some(FlattenAscii(ReportTitle(rec)))
  {
    ShellSafeRoundTrip(ReportTitle(rec));
  }

  /** post_pages' `post create` command, its title quoted like its excerpt. */
  function ReportCreateCommand(cfg: Config, dryRun: bool, rec: AcfRecord): string {
    ReportCreateHead(cfg, dryRun, rec) + TitleArg(rec) + " --porcelain"
  }

  /** For a theme name without quotes, line breaks or non-ASCII characters, the
      corrected command is the command the code builds. */
  lemma ReportCreateCommandAgrees(cfg: Config, dryRun: bool, rec: AcfRecord)
    requires forall j :: 0 <= j < |rec.themeName| ==>
      IsAscii(rec.themeName[j]) && !IsLineBreak(rec.themeName[j]) && rec.themeName[j] != '\''
    ensures ReportCreateCommand(cfg, dryRun, rec) == ReportCreateCommandAsWritten(cfg, dryRun, rec)
  {
    var t := ReportTitle(rec);
    forall j | 0 <= j < |t| ensures IsAscii(t[j]) && !IsLineBreak(t[j]) && t[j] != '\'' {
      if j >= |rec.themeName| {
        assert t[j] == ReportTitleSuffix[j - |rec.themeName|];
      }
    }
    ShellSafeIsPerChar(t);
    SafeCharsNoop(t);
    assert TitleArg(rec) == TitleArgAsWritten(rec);
  }

  /** post_pages' post id: the dry-run placeholder, or the last line of wp-cli's
      output; output with no line at all raises IndexError. */
  function ReportPostId(dryRun: bool, output: string): (r: Result<string>)
    ensures dryRun ==> r == Ok("4321")
    ensures !dryRun ==> (r.Err? <==> output == [])
    ensures !dryRun && r.Ok? ==>
      && r.value == SplitLines(output)[|SplitLines(output)| - 1]
      && forall i :: 0 <= i < |r.value| ==> !IsLineBreak(r.value[i])
  {
    if dryRun then Ok("4321")
    else
      var lines := SplitLines(output);
      if lines == [] then Err(IndexError)
      else
        var last := lines[|lines| - 1];
        ReplaceCharNoop(last, '\n', " ");
        ReplaceCharNoop(last, '\r', "");
        Ok(ReplaceChar(ReplaceChar(last, '\n', " "), '\r', ""))
  }

  /** With `--porcelain` wp-cli prints the new id and a newline; the id is read back. */
  lemma PorcelainIdReadBack(n: nat)
    ensures ReportPostId(false, NatToString(n) + "\n") == Ok(NatToString(n))
  {
    var id := NatToString(n);
    var out := id + "\n";
    assert FirstBreak(out, 0) == |id| by {
      forall j | 0 <= j < |id| ensures !IsLineBreak(out[j]) { assert out[j] == id[j] && IsDigit(id[j]); }
      FirstBreakAt(out, 0, |id|);
    }
    assert out[..|id|] == id;
    assert out[|id| + 1..] == [];
  }


  /** A record value as post_pages' meta loop sees it: an int, text, or a
      dictionary already rendered by `json.dumps`. */
  datatype MetaValue = IntValue(i: int) | TextValue(text: string) | DictValue(json: string)

  /** `str(i)`. */
  function IntToString(i: int): (r: string)
    ensures |r| > 0
    ensures r[0] == '-' <==> i < 0
    ensures forall j :: 0 < j < |r| ==> IsDigit(r[j])
  {
    if i < 0 then "-" + NatToString(-i) else NatToString(i)
  }

  /** The digits after the sign denote the magnitude of `i`. */
  lemma IntToStringValue(i: int)
    ensures i >= 0 ==> DecimalValue(IntToString(i)) == i
    ensures i < 0 ==> |IntToString(i)| > 1 && DecimalValue(IntToString(i)[1..]) == -i
  {
    if i < 0 {
      var n: nat := -i;
      NatToStringRoundTrip(n);
      assert IntToString(i)[1..] == NatToString(n);
    } else {
      NatToStringRoundTrip(i);
    }
  }

  /** The text the meta loop sends for a value. */
  function MetaText(v: MetaValue): string {
    match v
    case IntValue(i) => IntToString(i)
    case TextValue(t) => t
    case DictValue(j) => j
  }

  /** A meta value as the quoted shell argument post_pages pastes it as. */
  function MetaArg(value: string): string { "'" + ShellSafe(value) + "'" }

  /** One `post meta set` command of post_pages, for a key and its value as text. */
  function MetaSetCommand(cfg: Config, dryRun: bool, postId: string, key: string, value: string): string {
    PublisherBase(cfg, dryRun) + "post meta set " + postId + " " + key + " " + MetaArg(value) + " "
  }

  /** Text with no character the clean-up would touch is left as it is. */
  lemma {:induction false} SafeCharsNoop(s: string)
    requires forall j :: 0 <= j < |s| ==> IsAscii(s[j]) && !IsLineBreak(s[j]) && s[j] != '\''
    ensures SafeChars(s) == s
  {
    if s != [] {
      SafeCharsNoop(s[1..]);
      assert s == [s[0]] + s[1..];
    }
  }

  /** An int value reaches wp-cli as exactly its decimal text. */
  lemma IntMetaExact(i: int)
    ensures ShellWord(MetaArg(MetaText(IntValue(i)))) == Some(IntToString(i))
  {
    var t := IntToString(i);
    ShellSafeIsPerChar(t);
    SafeCharsNoop(t);
    QuotedSpan(t, []);
    assert "'" + t + "'" + [] == MetaArg(t);
    assert t + [] == t;
  }

  /** The commands post_pages builds and logs, before they are rendered as
      text; a live run hands each to the shell, a dry run none. */
  datatype PostCommand =
    | CreateReport(rec: AcfRecord)
    | MetaSet(postId: string, key: string, value: string)
    | MediaImport(file: string, postId: string)

  /** The command line of each command. */
  function PostCommandLine(cfg: Config, dryRun: bool, c: PostCommand): string {
    match c
    case CreateReport(rec) => ReportCreateCommand(cfg, dryRun, rec)
    case MetaSet(postId, key, value) => MetaSetCommand(cfg, dryRun, postId, key, value)
    case MediaImport(file, postId) => MediaImportCommand(cfg, dryRun, file, postId)
  }

  /** The meta loop of post_pages, keys in the order given. */
  function MetaCommands(postId: string, meta: seq<(string, MetaValue)>): seq<PostCommand> {
    seq(|meta|, k requires 0 <= k < |meta| => MetaSet(postId, meta[k].0, MetaText(meta[k].1)))
  }

  /** Each `post meta set` of a record is for the post's id and the k-th key,
      and its value reaches wp-cli as one argument holding the flattened text. */
  lemma MetaValuesReachWpCli(postId: string, meta: seq<(string, MetaValue)>, k: nat)
    requires k < |meta|
    ensures var c := MetaCommands(postId, meta)[k];
      && c.postId == postId && c.key == meta[k].0
      && ShellWord(MetaArg(c.value)) == Some(FlattenAscii(MetaText(meta[k].1)))
  {
    ShellSafeRoundTrip(MetaText(meta[k].1));
  }

  /** The meta loop: one `post meta set` per key, in order. */
  method PostMeta(cfg: Config, dryRun: bool, postId: string, meta: seq<(string, MetaValue)>)
    returns (cmds: seq<string>)
    ensures |cmds| == |meta|
    ensures forall k :: 0 <= k < |meta| ==>
      cmds[k] == PostCommandLine(cfg, dryRun, MetaCommands(postId, meta)[k])
  {
    cmds := [];
    for k := 0 to |meta|
      invariant |cmds| == k
      invariant forall j :: 0 <= j < k ==>
        cmds[j] == MetaSetCommand(cfg, dryRun, postId, meta[j].0, MetaText(meta[j].1))
    {
      cmds := cmds + [MetaSetCommand(cfg, dryRun, postId, meta[k].0, MetaText(meta[k].1))];
    }
  }

  /** The `media import` command that sets a post's featured image. */
  function MediaImportCommand(cfg: Config, dryRun: bool, file: string, postId: string): string {
    PublisherBase(cfg, dryRun) + "media import \"" + file + "\" --post_id=" + Strip(postId)
      + " --featured_image --porcelain"
  }

  function ReportImageFilename(cfg: Config, rec: AcfRecord): string {
    cfg.imagesPath + "/" + rec.themeSlug + ".jpg"
  }

  /** What follows `post create` for one record: the id read back, the meta
      commands and the media import. */
  datatype ReportRest = ReportRest(postId: string, meta: seq<PostCommand>, mediaImport: PostCommand)

  /** The commands post_pages builds for one record: `post create` always;
      the rest needs the id it prints, or in a dry run the placeholder id. */
  datatype ReportRun = ReportRun(create: PostCommand, rest: Result<ReportRest>)

  /** What post_pages needs for one record: the record, its meta pairs in
      iteration order, and wp-cli's output for `post create`. */
  datatype PostInput = PostInput(rec: AcfRecord, meta: seq<(string, MetaValue)>, createOutput: string)

  /** post_pages for one record. */
  function PublishReport(cfg: Config, dryRun: bool, p: PostInput): (r: ReportRun)
    ensures r.create == CreateReport(p.rec)
    ensures r.rest.Err? <==> !dryRun && p.createOutput == []
    ensures r.rest.Err? ==> r.rest.error == IndexError
    ensures dryRun ==> r.rest.Ok? && r.rest.value.postId == "4321"
    ensures r.rest.Ok? ==>
      && ReportPostId(dryRun, p.createOutput) == Ok(r.rest.value.postId)
      && r.rest.value.meta == MetaCommands(r.rest.value.postId, p.meta)
      && r.rest.value.mediaImport == MediaImport(ReportImageFilename(cfg, p.rec), r.rest.value.postId)
  {
    var rest := match ReportPostId(dryRun, p.createOutput)
      case Err(e) => Err(e)
      case Ok(postId) =>
        Ok(ReportRest(postId, MetaCommands(postId, p.meta), MediaImport(ReportImageFilename(cfg, p.rec), postId)));
    ReportRun(CreateReport(p.rec), rest)
  }

  /** Every command line built for one record, in order. */
  function ReportLines(cfg: Config, dryRun: bool, run: ReportRun): seq<string> {
    [PostCommandLine(cfg, dryRun, run.create)]
    + (if run.rest.Ok? then
         MetaLines(cfg, dryRun, run.rest.value.meta) + [PostCommandLine(cfg, dryRun, run.rest.value.mediaImport)]
       else [])
  }

  function MetaLines(cfg: Config, dryRun: bool, cs: seq<PostCommand>): (r: seq<string>)
    ensures |r| == |cs|
    ensures forall k :: 0 <= k < |r| ==> r[k] == PostCommandLine(cfg, dryRun, cs[k])
  {
    seq(|cs|, k requires 0 <= k < |cs| => PostCommandLine(cfg, dryRun, cs[k]))
  }

  /** The command lines one record hands to the shell: in a dry run `post
      create`, `post meta set` and `media import` are only logged. */
  function ReportExecuted(cfg: Config, dryRun: bool, run: ReportRun): seq<string> {
    if dryRun then [] else ReportLines(cfg, dryRun, run)
  }

  /** The lines of a run: `post create` first, then, once the id is known,
      the meta commands in order and the media import last. */
  lemma ReportLinesLayout(cfg: Config, dryRun: bool, run: ReportRun)
    ensures var ls := ReportLines(cfg, dryRun, run);
      && |ls| == (if run.rest.Ok? then 2 + |run.rest.value.meta| else 1)
      && ls[0] == PostCommandLine(cfg, dryRun, run.create)
      && (run.rest.Ok? ==>
            && (forall k :: 0 <= k < |run.rest.value.meta| ==>
                  ls[k + 1] == PostCommandLine(cfg, dryRun, run.rest.value.meta[k]))
            && ls[|ls| - 1] == PostCommandLine(cfg, dryRun, run.rest.value.mediaImport))
  {
    ReportLinesEnds(cfg, dryRun, run);
    if run.rest.Ok? {
      ReportLinesMeta(cfg, dryRun, run);
    }
  }

  lemma ReportLinesEnds(cfg: Config, dryRun: bool, run: ReportRun)
    ensures var ls := ReportLines(cfg, dryRun, run);
      && |ls| == (if run.rest.Ok? then 2 + |run.rest.value.meta| else 1)
      && ls[0] == PostCommandLine(cfg, dryRun, run.create)
      && (run.rest.Ok? ==> ls[|ls| - 1] == PostCommandLine(cfg, dryRun, run.rest.value.mediaImport))
  {
  }

  lemma ReportLinesMeta(cfg: Config, dryRun: bool, run: ReportRun)
    requires run.rest.Ok?
    ensures forall k :: 0 <= k < |run.rest.value.meta| ==>
      1 + k < |ReportLines(cfg, dryRun, run)| &&
      ReportLines(cfg, dryRun, run)[k + 1] == PostCommandLine(cfg, dryRun, run.rest.value.meta[k])
  {
    var ms := MetaLines(cfg, dryRun, run.rest.value.meta);
    var first := PostCommandLine(cfg, dryRun, run.create);
    var last := PostCommandLine(cfg, dryRun, run.rest.value.mediaImport);
    assert ReportLines(cfg, dryRun, run) == [first] + (ms + [last]);
    forall k | 0 <= k < |run.rest.value.meta|
      ensures 1 + k < |ReportLines(cfg, dryRun, run)|
      ensures ReportLines(cfg, dryRun, run)[k + 1] == PostCommandLine(cfg, dryRun, run.rest.value.meta[k])
    {
      MiddleAt(first, ms, last, k);
    }
  }

  lemma MiddleAt(a: string, ms: seq<string>, z: string, k: nat)
    requires k < |ms|
    ensures 1 + k < |[a] + (ms + [z])| && ([a] + (ms + [z]))[k + 1] == ms[k]
  {
  }

  /** A dry run of a record runs nothing; a live run runs `post create`, and
      when it printed an id, one `post meta set` per key for that id and the
      media import. */
  lemma ReportExecutedLines(cfg: Config, dryRun: bool, p: PostInput)
    ensures var run := PublishReport(cfg, dryRun, p);
      var ex := ReportExecuted(cfg, dryRun, run);
      && |ex| == (if dryRun then 0 else if p.createOutput == [] then 1 else 2 + |p.meta|)
      && (!dryRun ==> ex[0] == PostCommandLine(cfg, false, CreateReport(p.rec)))
      && (!dryRun && p.createOutput != [] ==> forall k :: 0 <= k < |p.meta| ==>
            ex[k + 1] == PostCommandLine(cfg, false, MetaSet(run.rest.value.postId, p.meta[k].0, MetaText(p.meta[k].1))))
  {
    var run := PublishReport(cfg, dryRun, p);
    ReportLinesLayout(cfg, dryRun, run);
    if run.rest.Ok? {
      var ms := run.rest.value.meta;
      assert |ms| == |p.meta|;
      assert forall k :: 0 <= k < |p.meta| ==> ms[k] == MetaSet(run.rest.value.postId, p.meta[k].0, MetaText(p.meta[k].1));
    }
  }

  /** The exception a record's run raises, if any. */
  function ReportFailure(run: ReportRun): Option<Error> {
    if run.rest.Err? then Some(run.rest.error) else None
  }

  /** Runs taken in order up to and including the first that fails: the runs
      made, and the failure if there is one. */
  function RunsThrough<T>(rs: seq<T>, failure: T -> Option<Error>): (r: (seq<T>, Option<Error>))
    ensures |r.0| <= |rs| && r.0 == rs[..|r.0|]
    ensures r.1.None? ==> |r.0| == |rs| && forall k :: 0 <= k < |rs| ==> failure(rs[k]).None?
    ensures r.1.Some? ==> |r.0| > 0 && failure(rs[|r.0| - 1]) == r.1
    ensures forall k :: 0 <= k < |r.0| - 1 ==> failure(rs[k]).None?
  {
    if rs == [] then ([], None)
    else if failure(rs[0]).Some? then ([rs[0]], failure(rs[0]))
    else
      var rest := RunsThrough(rs[1..], failure);
      assert [rs[0]] + rest.0 == rs[..|rest.0| + 1];
      assert forall k :: 1 <= k < |rs| ==> rs[k] == rs[1..][k - 1];
      ([rs[0]] + rest.0, rest.1)
  }

  /** post_pages record by record. */
  function Publications(cfg: Config, dryRun: bool, inputs: seq<PostInput>): seq<ReportRun> {
    seq(|inputs|, k requires 0 <= k < |inputs| => PublishReport(cfg, dryRun, inputs[k]))
  }

  /** Reference definition of post_pages: record after record, stopping after
      the first one that raises. */
  function PostPagesSpec(cfg: Config, dryRun: bool, inputs: seq<PostInput>): (seq<ReportRun>, Option<Error>) {
    RunsThrough(Publications(cfg, dryRun, inputs), ReportFailure)
  }

  /** post_pages fails exactly when some `post create` printed nothing, with
      IndexError; the commands of the records before it are built in full, and
      of the failing one only `post create`; a dry run builds every record's
      commands (and, by `ReportExecuted`, runs none). */
  lemma PostPagesOutcome(cfg: Config, dryRun: bool, inputs: seq<PostInput>)
    ensures var r := PostPagesSpec(cfg, dryRun, inputs);
      && |r.0| <= |inputs|
      && (forall k :: 0 <= k < |r.0| ==> r.0[k] == PublishReport(cfg, dryRun, inputs[k]))
      && (r.1.None? <==> dryRun || forall k :: 0 <= k < |inputs| ==> inputs[k].createOutput != [])
      && (r.1.None? ==> |r.0| == |inputs|)
      && (r.1.Some? ==> r.1 == Some(IndexError) && |r.0| > 0 && inputs[|r.0| - 1].createOutput == [])
      && (forall k :: 0 <= k < |r.0| - 1 ==> r.0[k].rest.Ok?)
  {
    var rs := Publications(cfg, dryRun, inputs);
    var r := RunsThrough(rs, ReportFailure);
    forall k | 0 <= k < |r.0| ensures r.0[k] == PublishReport(cfg, dryRun, inputs[k]) {
      assert r.0[k] == rs[k];
    }
    if r.1.None? && !dryRun {
      forall k | 0 <= k < |inputs| ensures inputs[k].createOutput != [] {
        assert ReportFailure(rs[k]).None?;
      }
    }
    if r.1.Some? {
      assert ReportFailure(rs[|r.0| - 1]).Some?;
    }
  }

  /** A dry run of post_pages builds every record's commands in full, with
      the placeholder id, and hands none of them to the shell. */
  lemma PostPagesDryRun(cfg: Config, inputs: seq<PostInput>)
    ensures var r := PostPagesSpec(cfg, true, inputs);
      && r.1.None? && |r.0| == |inputs|
      && forall k :: 0 <= k < |inputs| ==>
           && r.0[k].rest.Ok? && r.0[k].rest.value.postId == "4321"
           && |ReportLines(cfg, true, r.0[k])| == 2 + |inputs[k].meta|
           && ReportExecuted(cfg, true, r.0[k]) == []
  {
    PostPagesOutcome(cfg, true, inputs);
    var r := PostPagesSpec(cfg, true, inputs);
    forall k | 0 <= k < |inputs|
      ensures r.0[k].rest.Ok? && r.0[k].rest.value.postId == "4321"
      ensures |ReportLines(cfg, true, r.0[k])| == 2 + |inputs[k].meta|
    {
      ReportLinesEnds(cfg, true, r.0[k]);
    }
  }

  /** The loop of post_pages over its per-record runs: take them in order,
      stop after the first that raises. */
  method TakeThrough<T>(rs: seq<T>, failure: T -> Option<Error>) returns (runs: seq<T>, failed: Option<Error>)
    ensures (runs, failed) == RunsThrough(rs, failure)
  {
    ghost var spec := RunsThrough(rs, failure);
    runs := [];
    var i := 0;
    while i < |rs|
      invariant 0 <= i <= |rs|
      invariant runs == rs[..i]
      invariant forall k :: 0 <= k < i ==> failure(rs[k]).None?
    {
      runs := runs + [rs[i]];
      assert runs == rs[..i + 1];
      failed := failure(rs[i]);
      if failed.Some? {
        assert |spec.0| == i + 1;
        return;
      }
      i := i + 1;
    }
    assert runs == rs;
    failed := None;
  }

  /** post_pages over all records. */
  method PostPages(cfg: Config, dryRun: bool, inputs: seq<PostInput>)
    returns (runs: seq<ReportRun>, failure: Option<Error>)
    ensures (runs, failure) == PostPagesSpec(cfg, dryRun, inputs)
  {
    runs, failure := TakeThrough(Publications(cfg, dryRun, inputs), ReportFailure);
  }

}
