/**
 * `parse_config`: the configuration file is read with `fgets` into a
 * `MAXLINE` buffer, each buffer is tokenised into a directive and an option,
 * the directive is looked up in the directive table and its setter is called
 * with the option. A bad line marks the load as failed but never stops it.
 */
module ConfigParser {
  import opened Wrappers
  import opened CStrings
  import opened Config

  /** Characters skipped before a directive and ending it. */
  const Whitespace: set<char> := {' ', '\t', '\n', '\r', '\U{C}'}

  /** Characters separating the directive from its option and ending the
      option: the whitespace characters and the comma. */
  const Delimiters: set<char> := {' ', ',', '\t', '\n', '\U{C}', '\r'}

  /* ---------------------------------------------------------------- fgets */

  /** The length of the next chunk `fgets(buf, MAXLINE, f)` returns from the
      unread text `s`: up to and including the first newline, but never more
      than `MaxLine - 1` characters. */
  function ChunkLength(s: string): (n: nat)
    requires |s| > 0
    ensures 0 < n <= |s| && n < MaxLine
    ensures forall i :: 0 <= i < n - 1 ==> s[i] != '\n'
    ensures n < |s| ==> s[n - 1] == '\n' || n == MaxLine - 1
  {
    var k := CSpan(s, {'\n'});
    var withNewline := if k < |s| then k + 1 else k;
    if withNewline < MaxLine then withNewline else MaxLine - 1
  }

  /** The successive buffers `fgets` fills while reading the text `s`. */
  function FgetsLines(s: string): (lines: seq<string>)
    ensures |lines| == 0 <==> |s| == 0
    ensures forall i :: 0 <= i < |lines| ==> 0 < |lines[i]| < MaxLine
    ensures forall i, j :: 0 <= i < |lines| && 0 <= j < |lines[i]| - 1 ==> lines[i][j] != '\n'
    // every buffer but the last is as long as `fgets` can make it
    ensures forall i :: 0 <= i < |lines| - 1 ==>
              lines[i][|lines[i]| - 1] == '\n' || |lines[i]| == MaxLine - 1
    decreases |s|
  {
    if |s| == 0 then []
    else
      var n := ChunkLength(s);
      var rest := FgetsLines(s[n..]);
      assert forall i :: 1 <= i < |rest| + 1 ==> ([s[..n]] + rest)[i] == rest[i - 1];
      [s[..n]] + rest
  }

  /** All buffers of a sequence, one after another. */
  function Concat(lines: seq<string>): string {
    if |lines| == 0 then [] else lines[0] + Concat(lines[1..])
  }

  /** `fgets` loses and invents nothing: its buffers, put back together, are
      the file. */
  lemma {:induction false} FgetsLinesConcat(s: string)
    ensures Concat(FgetsLines(s)) == s
    decreases |s|
  {
    if |s| > 0 {
      var n := ChunkLength(s);
      FgetsLinesConcat(s[n..]);
      assert FgetsLines(s)[1..] == FgetsLines(s[n..]);
      assert s == s[..n] + s[n..];
    }
  }

  /** A line longer than the buffer is not read as one line: `fgets` returns
      its first `MaxLine - 1` characters, and the rest of it is read as if it
      were a line of its own. */
  lemma LongLineIsSplit(text: string)
    requires |text| >= MaxLine
    requires forall i :: 0 <= i < MaxLine - 1 ==> text[i] != '\n'
    ensures |FgetsLines(text)| >= 2
    ensures FgetsLines(text)[0] == text[..MaxLine - 1]
    ensures FgetsLines(text)[1..] == FgetsLines(text[MaxLine - 1..])
  {
    assert ChunkLength(text) == MaxLine - 1;
  }

  /* ------------------------------------------------------- tokenising */

  /** What one buffer says: nothing, or a directive and its option. */
  datatype Tokens = Blank | Command(directive: CString, option: CString)

  /** The tokenising of one buffer, in `parse_config`'s order: skip leading
      whitespace, cut at the first '#', and read what is left. */
  function Tokenize(buf: string): (r: Tokens)
    ensures r.Command? ==> '#' !in r.directive && '#' !in r.option
    ensures r.Command? ==> forall i :: 0 <= i < |r.directive| ==> r.directive[i] !in Whitespace
    ensures r.Command? ==> forall i :: 0 <= i < |r.option| ==> r.option[i] !in Delimiters
  {
    var s := CStr(buf);
    var t := Drop(s, Span(s, Whitespace));
    TokenizeText(CutAt(t, '#'))
  }

  /** Reading the text after the leading whitespace, comment removed: stop on
      an empty text, take the directive up to whitespace, skip delimiters,
      take the option up to a delimiter. */
  function TokenizeText(bp: CString): (r: Tokens)
    ensures r.Blank? <==> |bp| == 0
    ensures r.Command? ==> |r.directive| <= |bp| && r.directive == bp[..|r.directive|]
    ensures r.Command? ==> forall i :: 0 <= i < |r.directive| ==> r.directive[i] !in Whitespace
    ensures r.Command? ==> forall i :: 0 <= i < |r.option| ==> r.option[i] !in Delimiters
  {
    if |bp| == 0 then Blank
    else
      var dirLength := CSpan(bp, Whitespace);
      var rest := Drop(bp, dirLength);
      var opt := Drop(rest, Span(rest, Delimiters));
      Command(Take(bp, dirLength), Take(opt, CSpan(opt, Delimiters)))
  }

  /** The part of a buffer that carries meaning: its C string up to the first
      '#'. */
  function Uncommented(buf: string): (u: CString)
    ensures '#' !in u
    ensures |u| <= |buf| && u == buf[..|u|]
    ensures |u| < |buf| ==> buf[|u|] == '#' || buf[|u|] == EOS
  {
    CutAt(CStr(buf), '#')
  }

  /** The code skips whitespace before it looks for '#'; since whitespace is
      never '#', that is the same as looking at the uncommented text with its
      leading whitespace skipped. */
  lemma SkipThenCut(buf: string)
    ensures var u := Uncommented(buf);
            Tokenize(buf) == TokenizeText(Drop(u, Span(u, Whitespace)))
  {
    var s := CStr(buf);
    var k := Span(s, Whitespace);
    assert forall i :: 0 <= i < k ==> s[..k][i] == s[i];
    CutAtSuffix(s, '#', k);
    var u := Uncommented(buf);
    assert forall i :: 0 <= i < k ==> u[i] == s[i];
    SpanUnique(u, Whitespace, k);
  }

  /** A buffer is blank exactly when its uncommented text is all whitespace. */
  lemma TokenizeBlank(buf: string)
    ensures Tokenize(buf) == Blank <==>
            forall i :: 0 <= i < |Uncommented(buf)| ==> Uncommented(buf)[i] in Whitespace
  {
    SkipThenCut(buf);
    var u := Uncommented(buf);
    if forall i :: 0 <= i < |u| ==> u[i] in Whitespace {
      SpanUnique(u, Whitespace, |u|);
    }
  }

  /** The shape of a non-blank line, independently of the tokeniser: leading
      whitespace, a non-empty directive free of whitespace (it may hold a
      comma), delimiters, an option free of delimiters, and a rest the option
      cannot be extended into. Every piece is as long as it can be. */
  ghost predicate IsCommandSplit(u: string, lead: string, dir: string, sep: string, opt: string, tail: string) {
    && u == lead + (dir + (sep + (opt + tail)))
    && (forall i :: 0 <= i < |lead| ==> lead[i] in Whitespace)
    && IsBodySplit(dir + (sep + (opt + tail)), dir, sep, opt, tail)
  }

  /** The shape of the text after the leading whitespace. */
  ghost predicate IsBodySplit(bp: string, dir: string, sep: string, opt: string, tail: string) {
    && bp == dir + (sep + (opt + tail))
    && |dir| > 0
    && (forall i :: 0 <= i < |dir| ==> dir[i] !in Whitespace)
    && (forall i :: 0 <= i < |sep| ==> sep[i] in Delimiters)
    && (forall i :: 0 <= i < |opt| ==> opt[i] !in Delimiters)
    && (|sep + (opt + tail)| > 0 ==> (sep + (opt + tail))[0] in Whitespace)
    && (|opt + tail| > 0 ==> (opt + tail)[0] !in Delimiters)
    && (|tail| > 0 ==> tail[0] in Delimiters)
  }

  /** Any line of that shape is tokenised into exactly that directive and
      option. */
  lemma TokenizeSplit(buf: string, lead: string, dir: string, sep: string, opt: string, tail: string)
    requires IsCommandSplit(Uncommented(buf), lead, dir, sep, opt, tail)
    ensures Tokenize(buf) == Command(dir, opt)
  {
    SkipThenCut(buf);
    var u := Uncommented(buf);
    var rest := sep + (opt + tail);
    var bp := dir + rest;
    assert (dir + rest)[0] == dir[0];
    SpanSplit(u, lead, bp, Whitespace);
    CSpanSplit(bp, dir, rest, Whitespace);
    SpanSplit(rest, sep, opt + tail, Delimiters);
    CSpanSplit(opt + tail, opt, tail, Delimiters);
  }

  /** The five pieces a split of a line consists of. */
  datatype Pieces = Pieces(lead: string, dir: string, sep: string, opt: string, tail: string)

  /** The pieces the tokeniser's spans cut an uncommented text into. */
  ghost function PiecesOf(u: string): Pieces {
    var k := Span(u, Whitespace);
    var bp := u[k..];
    var d := CSpan(bp, Whitespace);
    var rest := bp[d..];
    var o := rest[Span(rest, Delimiters)..];
    var p := CSpan(o, Delimiters);
    Pieces(u[..k], bp[..d], rest[..Span(rest, Delimiters)], o[..p], o[p..])
  }

  /** The pieces the spans cut a text into, after its leading whitespace,
      have the body shape. */
  lemma BodySplitOfSpans(bp: string)
    requires |bp| > 0 && bp[0] !in Whitespace
    ensures var d := CSpan(bp, Whitespace);
            var rest := bp[d..];
            var o := rest[Span(rest, Delimiters)..];
            var p := CSpan(o, Delimiters);
            IsBodySplit(bp, bp[..d], rest[..Span(rest, Delimiters)], o[..p], o[p..])
  {
    var d := CSpan(bp, Whitespace);
    var rest := bp[d..];
    var m := Span(rest, Delimiters);
    var o := rest[m..];
    var p := CSpan(o, Delimiters);
    CSpanPieces(bp, Whitespace);
    SpanPieces(rest, Delimiters);
    CSpanPieces(o, Delimiters);
    assert o == o[..p] + o[p..] && rest == rest[..m] + o && bp == bp[..d] + rest;
  }

  /** Conversely, a non-blank line is read as the directive and option of a
      split of that shape: the one its spans cut it into. */
  lemma TokenizeCommand(buf: string)
    requires Tokenize(buf).Command?
    ensures var p := PiecesOf(Uncommented(buf));
            && IsCommandSplit(Uncommented(buf), p.lead, p.dir, p.sep, p.opt, p.tail)
            && Tokenize(buf) == Command(p.dir, p.opt)
  {
    SkipThenCut(buf);
    TextCommand(Uncommented(buf));
  }

  /** `TokenizeCommand` for an uncommented text that is not all whitespace. */
  lemma TextCommand(u: CString)
    requires Span(u, Whitespace) < |u|
    ensures var p := PiecesOf(u);
            && IsCommandSplit(u, p.lead, p.dir, p.sep, p.opt, p.tail)
            && TokenizeText(Drop(u, Span(u, Whitespace))) == Command(p.dir, p.opt)
  {
    var k := Span(u, Whitespace);
    var bp := u[k..];
    var d := CSpan(bp, Whitespace);
    var rest := bp[d..];
    var m := Span(rest, Delimiters);
    var o := rest[m..];
    var q := CSpan(o, Delimiters);
    assert PiecesOf(u) == Pieces(u[..k], bp[..d], rest[..m], o[..q], o[q..]);
    assert TokenizeText(Drop(u, k)) == Command(bp[..d], o[..q]) by {
      TokenizeTextReads(Drop(u, k));
    }
    assert IsBodySplit(bp, bp[..d], rest[..m], o[..q], o[q..]) by {
      assert bp[0] == u[k];
      BodySplitOfSpans(bp);
    }
    SpanPieces(u, Whitespace);
    CommandOfBody(u, u[..k], bp, bp[..d], rest[..m], o[..q], o[q..]);
  }

  /** What `TokenizeText` reads from a non-empty text, in terms of the
      spans alone. */
  lemma TokenizeTextReads(bp: CString)
    requires |bp| > 0
    ensures var d := CSpan(bp, Whitespace);
            var rest := bp[d..];
            var o := rest[Span(rest, Delimiters)..];
            TokenizeText(bp) == Command(bp[..d], o[..CSpan(o, Delimiters)])
  {
  }

  /** A body split after leading whitespace is a split of the whole line. */
  lemma CommandOfBody(u: string, lead: string, bp: string, dir: string, sep: string, opt: string, tail: string)
    requires u == lead + bp
    requires forall i :: 0 <= i < |lead| ==> u[i] in Whitespace
    requires IsBodySplit(bp, dir, sep, opt, tail)
    ensures IsCommandSplit(u, lead, dir, sep, opt, tail)
  {
    assert forall i :: 0 <= i < |lead| ==> lead[i] == u[i];
  }

  /* ------------------------------------------------------- one line */

  /** Processing one buffer: a blank line calls nothing and succeeds; an
      unknown directive calls nothing and fails; otherwise the directive's
      setter is called with the (never NULL) option and its result is the
      line's result. */
  function ApplyLine(cfg: Config, buf: string): (r: SetResult)
    ensures Tokenize(buf).Blank? ==> r == SetResult(cfg, true)
    ensures Tokenize(buf).Command? && GetDirIndex(Tokenize(buf).directive) == -1 ==> r == SetResult(cfg, false)
  {
    match Tokenize(buf)
    case Blank => SetResult(cfg, true)
    case Command(d, o) =>
      var j := GetDirIndex(d);
      if j == -1 then SetResult(cfg, false)
      else Apply(Directives[j].setter, cfg, Some(o))
  }

  /** Whether a line is acceptable, stated from the tables alone: it is blank,
      or its directive names a table entry whose setter accepts its option. */
  ghost predicate LineOk(buf: string) {
    match Tokenize(buf)
    case Blank => true
    case Command(d, o) =>
      exists j :: 0 <= j < |Directives| && Directives[j].name == d && Accepts(Directives[j].setter, o)
  }

  /** The setter a line reaches, if it names a directive at all. */
  function LineSetter(buf: string): (s: Option<Setter>)
    ensures s.Some? ==> Tokenize(buf).Command?
  {
    match Tokenize(buf)
    case Blank => None
    case Command(d, _) =>
      var j := GetDirIndex(d);
      if j == -1 then None else Some(Directives[j].setter)
  }

  /** One line succeeds exactly when it is acceptable; a rejected line leaves
      the record as it was; an accepted line writes only its setter's field,
      with the value its option denotes. */
  lemma ApplyLineContract(cfg: Config, buf: string)
    ensures ApplyLine(cfg, buf).ok <==> LineOk(buf)
    ensures !LineOk(buf) ==> ApplyLine(cfg, buf).config == cfg
    ensures LineSetter(buf).None? ==> ApplyLine(cfg, buf).config == cfg
    ensures LineSetter(buf).Some? && LineOk(buf) ==>
              Accepts(LineSetter(buf).value, Tokenize(buf).option)
              && Field(ApplyLine(cfg, buf).config, LineSetter(buf).value)
                 == Value(LineSetter(buf).value, Tokenize(buf).option)
    ensures forall s :: LineSetter(buf) != Some(s) ==>
              Field(ApplyLine(cfg, buf).config, s) == Field(cfg, s)
  {
    match Tokenize(buf)
    case Blank =>
    case Command(d, o) =>
      var j := GetDirIndex(d);
      if j != -1 {
        ApplyContract(Directives[j].setter, cfg, o);
      }
  }

  /* ------------------------------------------------------- the file */

  /** The outcome of loading a configuration: the record and the return
      value of `parse_config`. */
  datatype LoadResult = LoadResult(config: Config, ok: bool)

  /** Every line of `lines` is acceptable. */
  ghost predicate AllLinesOk(lines: seq<string>) {
    forall i :: 0 <= i < |lines| ==> LineOk(lines[i])
  }

  /** The loop over the file's buffers: every buffer is processed in order,
      whatever happened to the ones before it. */
  function ParseLines(cfg: Config, lines: seq<string>): (r: LoadResult)
    ensures r.ok <==> AllLinesOk(lines)
    decreases |lines|
  {
    if |lines| == 0 then LoadResult(cfg, true)
    else
      var first := ApplyLine(cfg, lines[0]);
      var r := ParseLines(first.config, lines[1..]);
      ApplyLineContract(cfg, lines[0]);
      assert forall i :: 1 <= i < |lines| ==> lines[i] == lines[1..][i - 1];
      LoadResult(r.config, first.ok && r.ok)
  }

  /** `parse_config`: a file that cannot be opened fails with the record
      untouched; otherwise every `fgets` buffer of the file is processed. */
  function ParseConfig(cfg: Config, file: Option<string>): (r: LoadResult)
    ensures file.None? ==> r == LoadResult(cfg, false)
    ensures file.Some? ==> (r.ok <==> AllLinesOk(FgetsLines(file.value)))
  {
    match file
    case None => LoadResult(cfg, false)
    case Some(text) => ParseLines(cfg, FgetsLines(text))
  }

  /** Loading never stops early: loading `a + b` is loading `a` and then
      loading `b` from the record `a` left, and fails when either part
      fails. */
  lemma {:induction false} ParseLinesAppend(cfg: Config, a: seq<string>, b: seq<string>)
    ensures ParseLines(cfg, a + b).config == ParseLines(ParseLines(cfg, a).config, b).config
    ensures ParseLines(cfg, a + b).ok <==> ParseLines(cfg, a).ok && ParseLines(ParseLines(cfg, a).config, b).ok
    decreases |a|
  {
    if |a| == 0 {
      assert a + b == b;
    } else {
      var first := ApplyLine(cfg, a[0]);
      assert (a + b)[0] == a[0];
      assert (a + b)[1..] == a[1..] + b;
      ParseLinesAppend(first.config, a[1..], b);
    }
  }

  /** The option of the last acceptable line that reaches `setter`, if any. */
  ghost function LastSetting(lines: seq<string>, setter: Setter): Option<CString>
    decreases |lines|
  {
    if |lines| == 0 then None
    else
      var last := lines[|lines| - 1];
      if LineOk(last) && LineSetter(last) == Some(setter) then Some(Tokenize(last).option)
      else LastSetting(lines[..|lines| - 1], setter)
  }

  /** Every field ends up with the value of the last acceptable line that sets
      it, or keeps its value when no such line exists: rejected lines, wherever
      they are, take nothing away from the accepted ones. */
  lemma {:induction false} LastSettingWins(cfg: Config, lines: seq<string>, setter: Setter)
    ensures match LastSetting(lines, setter)
            case None => Field(ParseLines(cfg, lines).config, setter) == Field(cfg, setter)
            case Some(o) => Accepts(setter, o) && Field(ParseLines(cfg, lines).config, setter) == Value(setter, o)
    decreases |lines|
  {
    if |lines| > 0 {
      var init, last := lines[..|lines| - 1], lines[|lines| - 1];
      var mid := ParseLines(cfg, init).config;
      LastLineStep(cfg, lines);
      ApplyLineContract(mid, last);
      if !(LineOk(last) && LineSetter(last) == Some(setter)) {
        LastSettingWins(cfg, init, setter);
      }
    }
  }

  /** Loading a file is loading all but its last buffer, then the last one. */
  lemma LastLineStep(cfg: Config, lines: seq<string>)
    requires |lines| > 0
    ensures ParseLines(cfg, lines).config
            == ApplyLine(ParseLines(cfg, lines[..|lines| - 1]).config, lines[|lines| - 1]).config
  {
    var init, last := lines[..|lines| - 1], lines[|lines| - 1];
    assert lines == init + [last];
    ParseLinesAppend(cfg, init, [last]);
    var mid := ParseLines(cfg, init).config;
    assert ParseLines(mid, [last]).config == ApplyLine(mid, last).config;
  }

  /** A buffer holding a single word and nothing else is that word as a
      directive, with the empty option. */
  lemma TokenizeWord(buf: string)
    requires |buf| > 0
    requires forall i :: 0 <= i < |buf| ==> buf[i] !in Delimiters && buf[i] != '#' && buf[i] != EOS
    ensures Tokenize(buf) == Command(buf, "")
  {
    assert CStr(buf) == buf;
    assert Uncommented(buf) == buf;
    var e: string := [];
    assert buf == e + (buf + (e + (e + e)));
    assert IsBodySplit(buf + (e + (e + e)), buf, e, e, e);
    TokenizeSplit(buf, e, buf, e, e, e);
  }

  /** A consequence of `LongLineIsSplit`: a comment line of `MaxLine` or more
      characters fails the whole load when its tail, which is no longer
      behind the line's '#' and is read as a line of its own, is not an
      acceptable line. */
  lemma LongCommentFailsLoad(cfg: Config, text: string)
    requires |text| >= MaxLine && text[0] == '#'
    requires forall i :: 0 <= i < MaxLine - 1 ==> text[i] != '\n'
    requires !LineOk(FgetsLines(text[MaxLine - 1..])[0])
    ensures !ParseConfig(cfg, Some(text)).ok
  {
    LongLineIsSplit(text);
    assert FgetsLines(text)[1] == FgetsLines(text[MaxLine - 1..])[0];
  }

  /** An instance: a long comment whose other characters are all 'x'. */
  lemma LongXCommentFailsLoad(cfg: Config, text: string)
    requires |text| >= MaxLine && text[0] == '#'
    requires forall i :: 1 <= i < |text| ==> text[i] == 'x'
    ensures !ParseConfig(cfg, Some(text)).ok
  {
    var rest := text[MaxLine - 1..];
    assert forall i :: 0 <= i < |rest| ==> rest[i] == 'x';
    FirstLineOfXs(rest);
    UnknownWordNotOk(FgetsLines(rest)[0]);
    LongCommentFailsLoad(cfg, text);
  }

  /** The tail of a long comment line is live configuration: a comment of
      `MaxLine - 1` characters followed by `useapphbd yes` on the same line
      turns the health monitor on, and the load succeeds. */
  lemma LongCommentTailIsLive(cfg: Config, comment: string)
    requires |comment| == MaxLine - 1 && comment[0] == '#'
    requires forall i :: 0 <= i < |comment| ==> comment[i] != '\n'
    ensures ParseConfig(cfg, Some(comment + "useapphbd yes")) == LoadResult(cfg.(useApphbd := true), true)
  {
    var text := comment + "useapphbd yes";
    assert forall i :: 0 <= i < MaxLine - 1 ==> text[i] == comment[i];
    LongLineIsSplit(text);
    var live := text[MaxLine - 1..];
    assert text[..MaxLine - 1] == comment;
    UseApphbdYesLine(cfg, live);
    assert FgetsLines(text) == [comment, live];
    CommentLineIsBlank(comment);
    TwoLines(cfg, comment, live);
  }

  /** Loading two buffers: the first from `cfg`, the second from the record
      the first left. */
  lemma TwoLines(cfg: Config, a: string, b: string)
    ensures var first := ApplyLine(cfg, a);
            var second := ApplyLine(first.config, b);
            ParseLines(cfg, [a, b]) == LoadResult(second.config, first.ok && second.ok)
  {
    var first := ApplyLine(cfg, a);
    var second := ApplyLine(first.config, b);
    assert ParseLines(first.config, [b]) == LoadResult(second.config, second.ok) by {
      assert [b][1..] == [];
      assert ParseLines(second.config, []) == LoadResult(second.config, true);
    }
    assert [a, b][0] == a && [a, b][1..] == [b];
  }

  /** A line shorter than the buffer, with no newline, is read in one go. */
  lemma ShortLineIsOneBuffer(s: string)
    requires 0 < |s| < MaxLine
    requires forall i :: 0 <= i < |s| ==> s[i] != '\n'
    ensures FgetsLines(s) == [s]
  {
    CSpanUnique(s, {'\n'}, |s|);
    var n := ChunkLength(s);
    assert n == |s|;
    assert FgetsLines(s) == [s[..n]] + FgetsLines(s[n..]);
    assert s[..n] == s && |s[n..]| == 0;
  }

  /** A buffer that starts with '#' calls no setter. */
  lemma CommentLineIsBlank(buf: string)
    requires |buf| > 0 && buf[0] == '#'
    ensures Tokenize(buf) == Blank
  {
    assert |CStr(buf)| > 0 && CStr(buf)[0] == '#';
    assert Uncommented(buf) == [];
    TokenizeBlank(buf);
  }

  /** The line `useapphbd yes` is read in one buffer and turns the health
      monitor on. */
  lemma UseApphbdYesLine(cfg: Config, buf: string)
    requires buf == "useapphbd yes"
    ensures FgetsLines(buf) == [buf]
    ensures ApplyLine(cfg, buf) == SetResult(cfg.(useApphbd := true), true)
  {
    assert FgetsLines(buf) == [buf] by {
      assert forall i :: 0 <= i < |buf| ==> ' ' <= buf[i];
      ShortLineIsOneBuffer(buf);
    }
    var d, o := "useapphbd", "yes";
    assert Tokenize(buf) == Command(d, o) by {
      UseApphbdYesTokens(buf);
    }
    DirectiveMatchIsCaseSensitive();
    ApplyLineOf(cfg, buf, d, o);
    assert Directives[4].setter == UseApphbdSetter;
  }

  /** A line naming a known directive calls that directive's setter with
      its option. */
  lemma ApplyLineOf(cfg: Config, buf: string, d: CString, o: CString)
    requires Tokenize(buf) == Command(d, o) && GetDirIndex(d) != -1
    ensures ApplyLine(cfg, buf) == Apply(Directives[GetDirIndex(d)].setter, cfg, Some(o))
  {
  }

  /** The directive and option of the line `useapphbd yes`. */
  lemma UseApphbdYesTokens(buf: string)
    requires buf == "useapphbd yes"
    ensures Tokenize(buf) == Command("useapphbd", "yes")
  {
    var dir, opt := buf[..9], buf[10..];
    assert dir == "useapphbd" && opt == "yes";
    assert buf == dir + [' '] + opt;
    DirectiveLine(buf, dir, opt);
  }

  /** A word of lower-case letters. */
  predicate IsLowerWord(w: string) {
    forall i :: 0 <= i < |w| ==> 'a' <= w[i] <= 'z'
  }

  /** A buffer holding a word, one space and another word, both of
      lower-case letters, is read as that directive and option. */
  lemma DirectiveLine(buf: string, dir: string, opt: string)
    requires |dir| > 0 && buf == dir + [' '] + opt
    requires IsLowerWord(dir) && IsLowerWord(opt)
    ensures Tokenize(buf) == Command(dir, opt)
  {
    assert forall i :: 0 <= i < |buf| ==> buf[i] != EOS && buf[i] != '#' && buf[i] != '\n';
    assert CStr(buf) == buf;
    assert Uncommented(buf) == buf;
    var e: string := [];
    assert buf == e + (dir + ([' '] + (opt + e)));
    TokenizeSplit(buf, e, dir, [' '], opt, e);
  }

  /** The first buffer of a text of 'x' characters holds only 'x'. */
  lemma FirstLineOfXs(s: string)
    requires |s| > 0
    requires forall i :: 0 <= i < |s| ==> s[i] == 'x'
    ensures forall i :: 0 <= i < |FgetsLines(s)[0]| ==> FgetsLines(s)[0][i] == 'x'
  {
    assert FgetsLines(s)[0] == s[..ChunkLength(s)];
  }

  /** A line of 'x' characters names no directive, so it is not acceptable. */
  lemma UnknownWordNotOk(buf: string)
    requires |buf| > 0
    requires forall i :: 0 <= i < |buf| ==> buf[i] == 'x'
    ensures !LineOk(buf)
  {
    TokenizeWord(buf);
    DirectiveInitials();
  }

  /** Two loads from the same record whose files agree on the last setting of
      every field end with the same record. */
  lemma SameSettingsSameConfig(cfg: Config, a: seq<string>, b: seq<string>)
    requires forall s :: LastSetting(a, s) == LastSetting(b, s)
    ensures ParseLines(cfg, a).config == ParseLines(cfg, b).config
  {
    forall s ensures Field(ParseLines(cfg, a).config, s) == Field(ParseLines(cfg, b).config, s) {
      LastSettingWins(cfg, a, s);
      LastSettingWins(cfg, b, s);
    }
    FieldsDetermineConfig(ParseLines(cfg, a).config, ParseLines(cfg, b).config);
  }

  /* ------------------------------------------------------- start-up */

  /** The LSB exit status for "program is not configured". */
  const ExitNotConfigured: int := 6

  /** What configuration loading at start-up leads to: running with a record,
      or exiting with a status. */
  datatype Startup = Configured(config: Config) | Exit(status: int)

  /** `init_config`: no configuration file, or a file whose loading fails,
      ends the process as "not configured"; a successful load is the record
      the daemon runs with. `contents` is the file's text when it can be
      opened. */
  function InitConfig(cfg: Config, path: Option<string>, contents: Option<string>): (r: Startup)
    ensures path.None? ==> r == Exit(ExitNotConfigured)
    ensures path.Some? && contents.None? ==> r == Exit(ExitNotConfigured)
    ensures path.Some? && contents.Some? ==>
              (r.Configured? <==> AllLinesOk(FgetsLines(contents.value)))
    ensures r.Configured? ==> r.config == ParseConfig(cfg, contents).config
  {
    if path.None? then Exit(ExitNotConfigured)
    else
      var loaded := ParseConfig(cfg, contents);
      if loaded.ok then Configured(loaded.config) else Exit(ExitNotConfigured)
  }
}
