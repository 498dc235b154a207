/** What the shell makes of a command line, told from how the line is written: words and redirections in
    any order and with any white space, pipes, lists, background marks and blocks. */
module ShellRoundTrip {
  import opened ShellParser

  // ----- what is written -----

  /** A word, or a redirection with its file. */
  datatype Item = Word(w: string) | File(mode: Mode, w: string)

  /** A block may be followed by redirections. */
  datatype Command = Simple(items: seq<Item>) | Block(line: Line, files: seq<Item>)

  datatype Pipeline = Last(c: Command) | Piped(c: Command, rest: Pipeline)

  /** A pipeline with some background marks, and perhaps a further line after a semicolon. */
  datatype Line = End(p: Pipeline, backs: nat) | Then(p: Pipeline, backs: nat, rest: Line)

  /** The white space put between two words, and the one put everywhere else, which may be none. */
  datatype Spacing = Spacing(gap: string, sp: string)

  predicate Spaces(w: string) {
    forall k :: 0 <= k < |w| ==> IsSpace(w[k])
  }

  predicate GoodSpacing(l: Spacing) {
    Spaces(l.gap) && Spaces(l.sp) && l.gap != ""
  }

  predicate IsWord(w: string) {
    w != "" && forall k :: 0 <= k < |w| ==> IsPlain(w[k])
  }

  function Symbol(mode: Mode): string {
    match mode case Input => "<" case Output => ">" case Append => ">>"
  }

  function ItemText(l: Spacing, item: Item): string {
    match item case Word(w) => w case File(mode, w) => Symbol(mode) + l.sp + w
  }

  /** White space after the first of some items. */
  function After(l: Spacing, rest: seq<Item>): string {
    if rest != [] && rest[0].Word? then l.gap else l.sp
  }

  function ItemsText(l: Spacing, items: seq<Item>): string {
    if items == [] then "" else ItemText(l, items[0]) + After(l, items[1..]) + ItemsText(l, items[1..])
  }

  function BacksText(l: Spacing, n: nat): string {
    if n == 0 then "" else "&" + l.sp + BacksText(l, n - 1)
  }

  function CommandText(l: Spacing, c: Command): string {
    match c
    case Simple(items) => ItemsText(l, items)
    case Block(line, files) => "(" + l.sp + LineText(l, line) + (")" + l.sp + ItemsText(l, files))
  }

  function PipelineText(l: Spacing, p: Pipeline): string {
    match p
    case Last(c) => CommandText(l, c)
    case Piped(c, rest) => CommandText(l, c) + ("|" + l.sp + PipelineText(l, rest))
  }

  function LineText(l: Spacing, line: Line): string {
    match line
    case End(p, backs) => PipelineText(l, p) + BacksText(l, backs)
    case Then(p, backs, rest) => PipelineText(l, p) + BacksText(l, backs) + (";" + l.sp + LineText(l, rest))
  }

  // ----- what is meant -----

  function Words(items: seq<Item>): seq<string> {
    if items == [] then [] else (if items[0].Word? then [items[0].w] else []) + Words(items[1..])
  }

  function Files(items: seq<Item>): seq<(string, Mode)> {
    if items == [] then [] else (if items[0].File? then [(items[0].w, items[0].mode)] else []) + Files(items[1..])
  }

  /** The command under its redirections, the first one innermost. */
  function Under(c: Cmd<string>, files: seq<(string, Mode)>): Cmd<string>
    decreases |files|
  {
    if files == [] then c else Under(Redir(c, files[0].0, files[0].1), files[1..])
  }

  function Marked(c: Cmd<string>, backs: nat): Cmd<string>
    decreases backs
  {
    if backs == 0 then c else Marked(Back(c), backs - 1)
  }

  function CommandTree(c: Command): Cmd<string> {
    match c
    case Simple(items) => Under(Exec(Words(items)), Files(items))
    case Block(line, files) => Under(LineTree(line), Files(files))
  }

  function PipelineTree(p: Pipeline): Cmd<string> {
    match p
    case Last(c) => CommandTree(c)
    case Piped(c, rest) => Pipe(CommandTree(c), PipelineTree(rest))
  }

  function LineTree(line: Line): Cmd<string> {
    match line
    case End(p, backs) => Marked(PipelineTree(p), backs)
    case Then(p, backs, rest) => List(Marked(PipelineTree(p), backs), LineTree(rest))
  }

  /** Words of plain characters, and no more of them than a command can hold. */
  predicate GoodItems(items: seq<Item>) {
    |Words(items)| < MAXARGS && forall i :: 0 <= i < |items| ==> IsWord(items[i].w)
  }

  predicate GoodCommand(c: Command) {
    match c
    case Simple(items) => GoodItems(items)
    case Block(line, files) => GoodLine(line) && GoodItems(files) && Words(files) == []
  }

  predicate GoodPipeline(p: Pipeline) {
    GoodCommand(p.c) && (p.Piped? ==> GoodPipeline(p.rest))
  }

  predicate GoodLine(line: Line) {
    GoodPipeline(line.p) && (line.Then? ==> GoodLine(line.rest))
  }

  // ----- what the parser returns -----

  function Text(s: string, w: Span): string {
    if w.q <= w.eq <= |s| then s[w.q..w.eq] else ""
  }

  function Texts(s: string, ws: seq<Span>): seq<string> {
    seq(|ws|, i requires 0 <= i < |ws| => Text(s, ws[i]))
  }

  function FileTexts(s: string, fs: seq<(Span, Mode)>): seq<(string, Mode)> {
    seq(|fs|, i requires 0 <= i < |fs| => (Text(s, fs[i].0), fs[i].1))
  }

  /** The tree with its spans read off the line. */
  function Resolve(s: string, c: Cmd<Span>): Cmd<string> {
    match c
    case Exec(argv) => Exec(Texts(s, argv))
    case Redir(d, file, mode) => Redir(Resolve(s, d), Text(s, file), mode)
    case Pipe(l, r) => Pipe(Resolve(s, l), Resolve(s, r))
    case List(l, r) => List(Resolve(s, l), Resolve(s, r))
    case Back(d) => Back(Resolve(s, d))
  }

  lemma {:induction false} UnderMore(c: Cmd<string>, files: seq<(string, Mode)>, f: (string, Mode))
    ensures Under(c, files + [f]) == Redir(Under(c, files), f.0, f.1)
    decreases |files|
  {
    if files == [] {
      assert [f][1..] == [];
    } else {
      assert (files + [f])[1..] == files[1..] + [f];
      UnderMore(Redir(c, files[0].0, files[0].1), files[1..], f);
    }
  }

  /** redircmd around redircmd is what Under says. */
  lemma {:induction false} WrapIsUnder(s: string, c: Cmd<Span>, files: seq<(Span, Mode)>)
    ensures Resolve(s, Wrap(c, files)) == Under(Resolve(s, c), FileTexts(s, files))
    decreases |files|
  {
    if files != [] {
      var n := |files| - 1;
      WrapIsUnder(s, c, files[..n]);
      UnderMore(Resolve(s, c), FileTexts(s, files[..n]), (Text(s, files[n].0), files[n].1));
      assert FileTexts(s, files) == FileTexts(s, files[..n]) + [(Text(s, files[n].0), files[n].1)];
    }
  }

  // ----- places in the line -----

  predicate HasAt(s: string, p: nat, w: string) {
    p + |w| <= |s| && s[p..p + |w|] == w
  }

  lemma HasParts(s: string, p: nat, a: string, b: string)
    requires HasAt(s, p, a + b)
    ensures HasAt(s, p, a) && HasAt(s, p + |a|, b) && p + |a| + |b| <= |s|
  {
    assert s[p..p + |a|] == (a + b)[..|a|];
    assert s[p + |a|..p + |a| + |b|] == (a + b)[|a|..];
  }

  lemma HasChar(s: string, p: nat, w: string, k: nat)
    requires HasAt(s, p, w) && k < |w|
    ensures CharAt(s, p + k) == w[k] && p + k < |s|
  {
    assert s[p..p + |w|][k] == w[k];
  }

  lemma HasThree(s: string, p: nat, a: string, b: string, c: string)
    requires HasAt(s, p, a + b + c)
    ensures HasAt(s, p, a) && HasAt(s, p + |a|, b) && HasAt(s, p + |a| + |b|, c) && p + |a| + |b| + |c| <= |s|
    ensures HasAt(s, p, a + b)
  {
    hide HasAt;
    HasParts(s, p, a + b, c);
    HasParts(s, p, a, b);
  }

  /** The line ends here or goes on with one of some characters. */
  predicate Stops(s: string, p: nat, stops: string) {
    p == |s| || (p < |s| && s[p] in stops)
  }

  /** Where a token begins, or the line ends. */
  predicate AtToken(s: string, p: nat) {
    p == |s| || (p < |s| && !IsSpace(s[p]) && s[p] != '\0')
  }

  lemma {:induction false} SkipIs(s: string, p: nat, w: string)
    requires HasAt(s, p, w) && Spaces(w) && AtToken(s, p + |w|)
    ensures SkipSpace(s, p) == p + |w|
    decreases |w|
  {
    if w != "" {
      HasChar(s, p, w, 0);
      assert w == [w[0]] + w[1..];
      HasParts(s, p, [w[0]], w[1..]);
      SkipIs(s, p + 1, w[1..]);
    }
  }

  lemma NoSkip(s: string, p: nat)
    requires !IsSpace(CharAt(s, p))
    ensures SkipSpace(s, p) == p
  {
  }

  lemma {:induction false} WordEndIs(s: string, p: nat, w: string)
    requires HasAt(s, p, w) && (forall k :: 0 <= k < |w| ==> IsPlain(w[k])) && !IsPlain(CharAt(s, p + |w|))
    requires CharAt(s, p + |w|) == '\0' ==> p + |w| == |s|
    ensures WordEnd(s, p) == p + |w|
    decreases |w|
  {
    if w != "" {
      HasParts(s, p, [w[0]], w[1..]);
      assert w == [w[0]] + w[1..];
      HasChar(s, p, w, 0);
      WordEndIs(s, p + 1, w[1..]);
    }
  }

  /** A word and the white space after it are one token. */
  lemma WordToken(s: string, p: nat, w: string, gap: string)
    requires HasAt(s, p, w + gap) && IsWord(w) && Spaces(gap) && AtToken(s, p + |w| + |gap|)
    requires gap != "" || !IsPlain(CharAt(s, p + |w|))
    ensures GetToken(s, p) == Token('a', Span(p, p + |w|), p + |w| + |gap|)
    ensures Text(s, Span(p, p + |w|)) == w && IsPlain(CharAt(s, p)) && AtToken(s, p) && p < |s|
  {
    hide SkipSpace, WordEnd;
    HasParts(s, p, w, gap);
    HasChar(s, p, w, 0);
    SkipIs(s, p + |w|, gap);
    NoSkip(s, p);
    if gap != "" {
      HasChar(s, p + |w|, gap, 0);
    }
    WordEndIs(s, p, w);
  }

  /** So are a symbol of one character and the white space after it. */
  lemma SymbolToken(s: string, p: nat, sp: string)
    requires p < |s| && IsSymbol(s[p]) && (s[p] != '>' || CharAt(s, p + 1) != '>')
    requires HasAt(s, p + 1, sp) && Spaces(sp) && AtToken(s, p + 1 + |sp|)
    ensures GetToken(s, p) == Token(s[p], Span(p, p + 1), p + 1 + |sp|)
  {
    SkipIs(s, p + 1, sp);
  }

  lemma ModeToken(mode: Mode, s: string, p: nat, sp: string)
    requires HasAt(s, p, Symbol(mode) + sp) && Spaces(sp) && IsPlain(CharAt(s, p + |Symbol(mode)| + |sp|))
    ensures p <= |s| && AtToken(s, p) && Peek(s, p, "<>") && CharAt(s, p) in "<>"
    ensures p + |Symbol(mode)| + |sp| <= |s|
    ensures GetToken(s, p).next == p + |Symbol(mode)| + |sp| && ModeOf(GetToken(s, p).kind) == mode
  {
    hide HasAt, SkipSpace;
    HasParts(s, p, Symbol(mode), sp);
    HasChar(s, p, Symbol(mode), 0);
    SkipIs(s, p + |Symbol(mode)|, sp);
    NoSkip(s, p);
    if mode == Append {
      HasChar(s, p, Symbol(mode), 1);
    } else if sp != "" {
      HasChar(s, p + 1, sp, 0);
    }
  }

  /** Where no redirection begins, parseredirs is done. */
  lemma NoRedirs(s: string, p: nat, files: seq<(Span, Mode)>)
    requires AtToken(s, p) && (p < |s| ==> s[p] !in "<>")
    ensures ParseRedirs(s, p, files) == Redirs(files, p) && SkipSpace(s, p) == p
  {
  }

  // ----- words and redirections -----

  /** What follows the items at p of the line. */
  ghost predicate ItemsAt(l: Spacing, s: string, p: nat, items: seq<Item>) {
    && HasAt(s, p, ItemsText(l, items)) && Stops(s, p + |ItemsText(l, items)|, "|&;()")
    && forall i :: 0 <= i < |items| ==> IsWord(items[i].w)
  }

  lemma ItemsTextIs(l: Spacing, items: seq<Item>)
    requires items != []
    ensures ItemsText(l, items) == ItemText(l, items[0]) + After(l, items[1..]) + ItemsText(l, items[1..])
  {
  }

  lemma AfterSpaces(l: Spacing, rest: seq<Item>)
    requires GoodSpacing(l)
    ensures Spaces(After(l, rest))
  {
  }

  /** The first item, the white space after it, and the place of the others. */
  lemma FirstItem(l: Spacing, s: string, p: nat, items: seq<Item>)
    requires GoodSpacing(l) && ItemsAt(l, s, p, items) && items != []
    ensures var gap := After(l, items[1..]);
            var q := p + |ItemText(l, items[0])| + |gap|;
            && HasAt(s, p, ItemText(l, items[0]) + gap) && Spaces(gap) && ItemsAt(l, s, q, items[1..])
            && q + |ItemsText(l, items[1..])| == p + |ItemsText(l, items)| && IsWord(items[0].w)
  {
    hide HasAt, ItemText, Stops, IsWord, GoodSpacing, Spaces, After, ItemsText;
    var a, b := ItemText(l, items[0]) + After(l, items[1..]), ItemsText(l, items[1..]);
    assert ItemsText(l, items) == a + b by { ItemsTextIs(l, items); }
    HasParts(s, p, a, b);
    AfterSpaces(l, items[1..]);
    forall i | 0 <= i < |items[1..]| ensures IsWord(items[1..][i].w) {
      assert items[1..][i] == items[i + 1];
    }
  }

  /** Some items begin with a plain character, with a redirection, or not at all. */
  lemma ItemsStart(l: Spacing, s: string, p: nat, items: seq<Item>)
    requires GoodSpacing(l) && ItemsAt(l, s, p, items)
    ensures AtToken(s, p)
    ensures items != [] && items[0].Word? ==> p < |s| && IsPlain(s[p])
    ensures items != [] && items[0].File? ==> p < |s| && s[p] in "<>"
    ensures items == [] ==> Stops(s, p, "|&;()")
  {
    hide ItemsAt, ItemsText, HasAt, Stops, Spaces, GoodSpacing, After;
    if items == [] {
      NoItems(l, s, p);
    } else {
      FirstItem(l, s, p, items);
      HasParts(s, p, ItemText(l, items[0]), After(l, items[1..]));
      HasChar(s, p, ItemText(l, items[0]), 0);
    }
  }

  lemma NoItems(l: Spacing, s: string, p: nat)
    requires ItemsAt(l, s, p, [])
    ensures Stops(s, p, "|&;()") && AtToken(s, p)
  {
  }

  /** A word before further items, or before none, ends where they begin or the white space does. */
  lemma WordEnds(l: Spacing, s: string, p: nat, rest: seq<Item>)
    requires GoodSpacing(l) && ItemsAt(l, s, p, rest)
    ensures After(l, rest) != "" || !IsPlain(CharAt(s, p))
  {
    hide ItemsAt;
    ItemsStart(l, s, p, rest);
  }

  /** A word among the items is a token. */
  lemma WordItem(l: Spacing, s: string, p: nat, items: seq<Item>)
    requires GoodSpacing(l) && ItemsAt(l, s, p, items) && items != [] && items[0].Word?
    ensures var q := p + |items[0].w| + |After(l, items[1..])|;
            && p < |s| && GetToken(s, p) == Token('a', Span(p, p + |items[0].w|), q)
            && Text(s, Span(p, p + |items[0].w|)) == items[0].w && IsPlain(CharAt(s, p)) && AtToken(s, p)
            && ItemsAt(l, s, q, items[1..]) && q + |ItemsText(l, items[1..])| == p + |ItemsText(l, items)|
  {
    hide GetToken, ItemsText, HasAt, IsPlain, AtToken, After, Spaces, ItemsAt;
    var gap, q := After(l, items[1..]), p + |items[0].w| + |After(l, items[1..])|;
    FirstItem(l, s, p, items);
    ItemsStart(l, s, q, items[1..]);
    WordEnds(l, s, q, items[1..]);
    WordToken(s, p, items[0].w, gap);
  }

  /** A redirection among the items is one round of parseredirs. */
  lemma FileItem(l: Spacing, s: string, p: nat, items: seq<Item>, files: seq<(Span, Mode)>)
    returns (f: (Span, Mode))
    requires GoodSpacing(l) && ItemsAt(l, s, p, items) && items != [] && items[0].File?
    ensures var q := p + |ItemText(l, items[0])| + |After(l, items[1..])|;
            && p <= |s| && q <= |s| && ParseRedirs(s, p, files) == ParseRedirs(s, q, files + [f])
            && Text(s, f.0) == items[0].w && f.1 == items[0].mode && AtToken(s, p)
            && ItemsAt(l, s, q, items[1..]) && q + |ItemsText(l, items[1..])| == p + |ItemsText(l, items)|
  {
    hide GetToken, ItemsText, HasAt, Text, Peek, SkipSpace, ParseRedirs, IsPlain, AtToken, Symbol, Spaces, ModeOf,
      After;
    var mode, w, gap := items[0].mode, items[0].w, After(l, items[1..]);
    var m := p + |Symbol(mode)| + |l.sp|;
    FirstItem(l, s, p, items);
    ItemsStart(l, s, m + |w| + |gap|, items[1..]);
    WordEnds(l, s, m + |w| + |gap|, items[1..]);
    assert ItemText(l, items[0]) + gap == (Symbol(mode) + l.sp) + (w + gap);
    HasParts(s, p, Symbol(mode) + l.sp, w + gap);
    WordToken(s, m, w, gap);
    ModeToken(mode, s, p, l.sp);
    f := (Span(m, m + |w|), mode);
    OneRedir(s, p, m, m + |w| + |gap|, f, files);
  }

  /** One round of parseredirs. */
  lemma OneRedir(s: string, p: nat, m: nat, q: nat, f: (Span, Mode), files: seq<(Span, Mode)>)
    requires p <= |s| && m <= |s| && Peek(s, p, "<>") && GetToken(s, p).next == m && ModeOf(GetToken(s, p).kind) == f.1
    requires GetToken(s, m) == Token('a', f.0, q)
    ensures q <= |s| && ParseRedirs(s, p, files) == ParseRedirs(s, q, files + [f])
  {
    hide GetToken, Peek, ModeOf;
  }

  /** The items after the redirections that they begin with. */
  function Rest(items: seq<Item>): (rest: seq<Item>)
    ensures rest != [] ==> rest[0].Word?
    ensures |rest| <= |items| && (Words(items) == [] ==> rest == [])
  {
    if items != [] && items[0].File? then Rest(items[1..]) else items
  }

  lemma {:induction false} RedirsParse(l: Spacing, s: string, p: nat, items: seq<Item>, files: seq<(Span, Mode)>)
    returns (all: seq<(Span, Mode)>)
    requires GoodSpacing(l) && ItemsAt(l, s, p, items)
    ensures |ItemsText(l, Rest(items))| <= |ItemsText(l, items)|
    ensures var q := p + |ItemsText(l, items)| - |ItemsText(l, Rest(items))|;
            p <= |s| && ParseRedirs(s, p, files) == Redirs(all, q) && ItemsAt(l, s, q, Rest(items))
    ensures FileTexts(s, all) + Files(Rest(items)) == FileTexts(s, files) + Files(items)
    ensures Words(Rest(items)) == Words(items)
    decreases |items|
  {
    hide ItemsText, ItemsAt, ParseRedirs, Text, FileTexts, ItemText, After, GoodSpacing, Rest, Files, Words, AtToken,
      Stops, IsPlain;
    ItemsStart(l, s, p, items);
    if items != [] && items[0].File? {
      var f := FileItem(l, s, p, items, files);
      all := RedirsParse(l, s, p + |ItemText(l, items[0])| + |After(l, items[1..])|, items[1..], files + [f]);
      MoreFiles(s, files, f, items);
    } else {
      all := files;
      StartsNoFile(s, p);
      NoRedirs(s, p, files);
      RestIsAll(items);
    }
  }

  lemma MoreFiles(s: string, files: seq<(Span, Mode)>, f: (Span, Mode), items: seq<Item>)
    requires items != [] && items[0].File? && Text(s, f.0) == items[0].w && f.1 == items[0].mode
    ensures FileTexts(s, files + [f]) + Files(items[1..]) == FileTexts(s, files) + Files(items)
    ensures Words(items) == Words(items[1..]) && Rest(items) == Rest(items[1..])
  {
    hide Text, FileTexts;
    FilesPlus(s, files, f);
    var a, b, c := FileTexts(s, files), [(items[0].w, items[0].mode)], Files(items[1..]);
    assert a + b + c == a + (b + c);
  }

  lemma FilesPlus(s: string, files: seq<(Span, Mode)>, f: (Span, Mode))
    ensures FileTexts(s, files + [f]) == FileTexts(s, files) + [(Text(s, f.0), f.1)]
  {
  }

  lemma TextsPlus(s: string, argv: seq<Span>, w: Span)
    ensures Texts(s, argv + [w]) == Texts(s, argv) + [Text(s, w)]
  {
  }

  lemma RestIsAll(items: seq<Item>)
    requires items == [] || items[0].Word?
    ensures Rest(items) == items
  {
  }

  lemma StartsNoFile(s: string, p: nat)
    ensures Stops(s, p, "|&;()") || (p < |s| && IsPlain(s[p])) ==> (p < |s| ==> s[p] !in "<>")
  {
  }

  /** parseexec's loop over the items from a word on. */
  lemma {:induction false} ArgsParse(l: Spacing, s: string, p: nat, items: seq<Item>, argv: seq<Span>,
                                     files: seq<(Span, Mode)>)
    requires GoodSpacing(l) && ItemsAt(l, s, p, items) && (items != [] ==> items[0].Word?)
             && |argv| + |Words(items)| < MAXARGS && Stops(s, p + |ItemsText(l, items)|, "|&;)")
    ensures var r := Args(s, p, argv, files);
            && p <= |s| && r.Ok? && r.pos == p + |ItemsText(l, items)|
            && Resolve(s, r.cmd) ==
               Under(Exec(Texts(s, argv) + Words(items)), FileTexts(s, files) + Files(items))
    decreases |items|
  {
    hide ItemsText, ItemsAt, ParseRedirs, Text, Texts, FileTexts, GetToken, Wrap, Under, Args, Rest, After, AtToken,
      IsPlain, GoodSpacing;
    ItemsStart(l, s, p, items);
    if items == [] {
      NoText(l);
      ArgsEnd(s, p, argv, files);
      WrapIsUnder(s, Exec(argv), files);
      assert Texts(s, argv) + Words(items) == Texts(s, argv);
      assert FileTexts(s, files) + Files(items) == FileTexts(s, files);
    } else {
      WordItem(l, s, p, items);
      var tok := GetToken(s, p);
      var all := RedirsParse(l, s, tok.next, items[1..], files);
      var q := p + |ItemsText(l, items)| - |ItemsText(l, Rest(items[1..]))|;
      ArgsStep(s, p, tok, argv, files, all, q);
      ArgsParse(l, s, q, Rest(items[1..]), argv + [tok.span], all);
      MoreWords(s, argv, tok.span, items);
    }
  }

  lemma MoreWords(s: string, argv: seq<Span>, w: Span, items: seq<Item>)
    requires items != [] && items[0].Word? && Text(s, w) == items[0].w
    ensures Texts(s, argv + [w]) + Words(items[1..]) == Texts(s, argv) + Words(items)
    ensures Files(items) == Files(items[1..]) && |Words(items)| == |Words(items[1..])| + 1
  {
    hide Text, Texts;
    TextsPlus(s, argv, w);
    var a, b, c := Texts(s, argv), [items[0].w], Words(items[1..]);
    assert a + b + c == a + (b + c);
  }

  lemma NoText(l: Spacing)
    ensures ItemsText(l, []) == ""
  {
  }

  lemma ArgsEnd(s: string, p: nat, argv: seq<Span>, files: seq<(Span, Mode)>)
    requires Stops(s, p, "|&;)")
    ensures Args(s, p, argv, files) == Ok(Wrap(Exec(argv), files), p)
  {
  }

  lemma ArgsStep(s: string, p: nat, tok: Token, argv: seq<Span>, files: seq<(Span, Mode)>, all: seq<(Span, Mode)>,
                 q: nat)
    requires p < |s| && IsPlain(s[p]) && GetToken(s, p) == tok && tok.kind == 'a' && |argv| + 1 < MAXARGS
    requires ParseRedirs(s, tok.next, files) == Redirs(all, q)
    ensures Args(s, p, argv, files) == Args(s, q, argv + [tok.span], all)
  {
    hide GetToken, ParseRedirs;
  }

  // ----- whole lines -----

  lemma SimpleParses(l: Spacing, s: string, p: nat, items: seq<Item>)
    requires GoodSpacing(l) && GoodItems(items) && HasAt(s, p, ItemsText(l, items))
    requires Stops(s, p + |ItemsText(l, items)|, "|&;)")
    ensures var r := ParseExec(s, p);
            && p <= |s| && r.Ok? && r.pos == p + |ItemsText(l, items)|
            && Resolve(s, r.cmd) == CommandTree(Simple(items))
  {
    hide ItemsText, ItemsAt, ParseRedirs, Text, GetToken, Wrap, Under, Args, ParseBlock, After, AtToken, Stops,
      GoodSpacing, HasAt, Peek, SkipSpace, Rest, Words, Files, Resolve, Texts, FileTexts, IsWord;
    AreAt(l, s, p, items);
    NoBlock(l, s, p, items);
    var files := RedirsParse(l, s, p, items, []);
    var q := p + |ItemsText(l, items)| - |ItemsText(l, Rest(items))|;
    ArgsParse(l, s, q, Rest(items), [], files);
    NoFiles(s);
    assert [] + Words(items) == Words(items) && [] + Files(items) == Files(items);
  }

  lemma AreAt(l: Spacing, s: string, p: nat, items: seq<Item>)
    requires HasAt(s, p, ItemsText(l, items)) && Stops(s, p + |ItemsText(l, items)|, "|&;)") && GoodItems(items)
    ensures ItemsAt(l, s, p, items)
  {
  }

  lemma NoBlock(l: Spacing, s: string, p: nat, items: seq<Item>)
    requires GoodSpacing(l) && ItemsAt(l, s, p, items)
    requires items != [] || Stops(s, p + |ItemsText(l, items)|, "|&;)")
    ensures p <= |s| && SkipSpace(s, p) == p && !Peek(s, p, "(")
  {
    hide ItemsAt, ItemsText;
    ItemsStart(l, s, p, items);
    NoText(l);
  }

  /** A place at which c stands. */
  predicate CharIs(s: string, p: nat, c: char) {
    p < |s| && s[p] == c
  }

  /** A symbol, white space, and what follows. */
  lemma SymbolAt(s: string, p: nat, c: char, sp: string, w: string)
    requires HasAt(s, p, [c] + sp + w) && IsSymbol(c) && c != '>' && Spaces(sp) && AtToken(s, p + 1 + |sp|)
    ensures CharIs(s, p, c) && GetToken(s, p).next == p + 1 + |sp| && HasAt(s, p + 1 + |sp|, w)
  {
    HasParts(s, p, [c] + sp, w);
    HasParts(s, p, [c], sp);
    HasChar(s, p, [c], 0);
    SymbolToken(s, p, sp);
  }

  /** The white space after the opening parenthesis, and where the line in it ends. */
  lemma BlockAt(l: Spacing, s: string, p: nat, line: Line, files: seq<Item>)
    requires GoodSpacing(l) && GoodCommand(Block(line, files))
    requires HasAt(s, p, CommandText(l, Block(line, files)))
    requires Stops(s, p + |CommandText(l, Block(line, files))|, "|&;)")
    ensures var q := p + 1 + |l.sp|;
            var e := q + |LineText(l, line)|;
            && HasAt(s, p, "(" + l.sp + LineText(l, line)) && HasAt(s, q, LineText(l, line)) && CharIs(s, p, '(')
            && CharIs(s, e, ')') && GetToken(s, e).next == e + 1 + |l.sp|
            && ItemsAt(l, s, e + 1 + |l.sp|, files)
            && e + 1 + |l.sp| + |ItemsText(l, files)| == p + |CommandText(l, Block(line, files))|
  {
    hide HasAt, GetToken, LineText, ItemsText, ItemsAt, Words, AtToken, Spaces, Stops, GoodLine, After, GoodItems;
    var q := p + 1 + |l.sp|;
    var e := q + |LineText(l, line)|;
    HasParts(s, p, "(" + l.sp + LineText(l, line), ")" + l.sp + ItemsText(l, files));
    HasThree(s, p, "(", l.sp, LineText(l, line));
    HasChar(s, p, "(", 0);
    HasThree(s, e, ")", l.sp, ItemsText(l, files));
    AreAt(l, s, e + 1 + |l.sp|, files);
    ItemsStart(l, s, e + 1 + |l.sp|, files);
    SpacesOf(l);
    SymbolAt(s, e, ')', l.sp, ItemsText(l, files));
  }

  /** Every written thing begins with a token, or is nothing. */
  lemma CommandStart(l: Spacing, s: string, p: nat, c: Command)
    requires GoodSpacing(l) && GoodCommand(c) && HasAt(s, p, CommandText(l, c))
    requires Stops(s, p + |CommandText(l, c)|, "|&;)")
    ensures AtToken(s, p)
  {
    hide HasAt, GetToken, LineText, ItemsText, Words;
    match c
    case Simple(items) =>
      assert ItemsAt(l, s, p, items);
      ItemsStart(l, s, p, items);
    case Block(line, files) =>
      BlockAt(l, s, p, line, files);
  }

  /** The first command of a pipeline, and what ends it. */
  lemma FirstCommand(l: Spacing, s: string, p: nat, x: Pipeline)
    requires GoodSpacing(l) && GoodPipeline(x) && HasAt(s, p, PipelineText(l, x))
    requires Stops(s, p + |PipelineText(l, x)|, "&;)")
    ensures HasAt(s, p, CommandText(l, x.c)) && Stops(s, p + |CommandText(l, x.c)|, "|&;)") && AtToken(s, p)
    ensures var e := p + |CommandText(l, x.c)|;
            if x.Last? then e == p + |PipelineText(l, x)|
            else CharIs(s, e, '|') && HasAt(s, e, "|" + l.sp + PipelineText(l, x.rest))
                 && e + 1 + |l.sp| + |PipelineText(l, x.rest)| == p + |PipelineText(l, x)|
  {
    hide HasAt, CommandText;
    if x.Piped? {
      var rest := PipelineText(l, x.rest);
      HasParts(s, p, CommandText(l, x.c), "|" + l.sp + rest);
      HasChar(s, p + |CommandText(l, x.c)|, "|" + l.sp + rest, 0);
    }
    CommandStart(l, s, p, x.c);
  }

  /** The pipeline of a line, its background marks, and what ends them. */
  lemma FirstPipeline(l: Spacing, s: string, p: nat, x: Line)
    requires GoodSpacing(l) && GoodLine(x) && HasAt(s, p, LineText(l, x)) && Stops(s, p + |LineText(l, x)|, ")")
    ensures HasAt(s, p, PipelineText(l, x.p)) && Stops(s, p + |PipelineText(l, x.p)|, "&;)") && AtToken(s, p)
    ensures var e := p + |PipelineText(l, x.p)|;
            var b := e + |BacksText(l, x.backs)|;
            && HasAt(s, e, BacksText(l, x.backs)) && Stops(s, b, ";)")
            && if x.End? then b == p + |LineText(l, x)|
               else CharIs(s, b, ';') && HasAt(s, b, ";" + l.sp + LineText(l, x.rest))
                    && b + 1 + |l.sp| + |LineText(l, x.rest)| == p + |LineText(l, x)|
  {
    hide HasAt, LineText, PipelineText, BacksText, AtToken, GoodPipeline, GoodSpacing, Spaces, Stops;
    var a, b, c := PipelineText(l, x.p), BacksText(l, x.backs), LineTail(l, x);
    LineTextIs(l, x);
    HasThree(s, p, a, b, c);
    TailStops(l, s, p + |a| + |b|, x);
    BacksStart(l, s, p + |a|, x.backs);
    FirstCommand(l, s, p, x.p);
  }

  function LineTail(l: Spacing, x: Line): string {
    if x.End? then "" else ";" + l.sp + LineText(l, x.rest)
  }

  lemma LineTextIs(l: Spacing, x: Line)
    ensures LineText(l, x) == PipelineText(l, x.p) + BacksText(l, x.backs) + LineTail(l, x)
  {
    hide PipelineText, BacksText;
  }

  lemma TailStops(l: Spacing, s: string, p: nat, x: Line)
    requires HasAt(s, p, LineTail(l, x)) && (x.End? ==> Stops(s, p, ")"))
    ensures Stops(s, p, ";)") && (x.Then? ==> CharIs(s, p, ';'))
  {
    hide HasAt, LineText;
    if x.Then? {
      HasChar(s, p, LineTail(l, x), 0);
    }
  }

  lemma BacksStart(l: Spacing, s: string, p: nat, n: nat)
    requires HasAt(s, p, BacksText(l, n)) && Stops(s, p + |BacksText(l, n)|, ";)")
    ensures Stops(s, p, "&;)")
  {
    hide HasAt;
    if n > 0 {
      HasChar(s, p, BacksText(l, n), 0);
    }
  }

  lemma SpacesOf(l: Spacing)
    requires GoodSpacing(l)
    ensures Spaces(l.sp)
  {
  }

  /** parseline's loop over the background marks. */
  lemma {:induction false} BacksParse(l: Spacing, s: string, p: nat, n: nat, c: Cmd<Span>)
    requires GoodSpacing(l) && HasAt(s, p, BacksText(l, n)) && Stops(s, p + |BacksText(l, n)|, ";)")
    ensures p <= |s| && Backs(s, p, c).Ok? && Backs(s, p, c).pos == p + |BacksText(l, n)|
    ensures Resolve(s, Backs(s, p, c).cmd) == Marked(Resolve(s, c), n)
    decreases n
  {
    hide HasAt, GetToken, Peek, SkipSpace, AtToken, Stops, CharIs, GoodSpacing, Spaces;
    if n == 0 {
      StopsIsToken(s, p);
    } else {
      var rest := BacksText(l, n - 1);
      assert BacksText(l, n) == "&" + l.sp + rest;
      HasParts(s, p, "&" + l.sp, rest);
      BacksStart(l, s, p + 1 + |l.sp|, n - 1);
      StopsIsToken(s, p + 1 + |l.sp|);
      SpacesOf(l);
      SymbolAt(s, p, '&', l.sp, rest);
      StopsIsToken(s, p);
      BacksParse(l, s, p + 1 + |l.sp|, n - 1, Back(c));
    }
  }

  lemma StopsIsToken(s: string, p: nat)
    ensures Stops(s, p, "|&;)") || Stops(s, p, "&;)") || Stops(s, p, ";)") || Stops(s, p, ")") ==> AtToken(s, p)
    ensures AtToken(s, p) ==> p <= |s| && SkipSpace(s, p) == p
    ensures Stops(s, p, "&;)") ==> !Peek(s, p, "|")
    ensures Stops(s, p, ";)") ==> !Peek(s, p, "&")
    ensures Stops(s, p, ")") ==> !Peek(s, p, ";")
    ensures CharIs(s, p, '|') ==> Peek(s, p, "|")
    ensures CharIs(s, p, '&') ==> Peek(s, p, "&")
    ensures CharIs(s, p, ';') ==> Peek(s, p, ";")
    ensures CharIs(s, p, '(') ==> Peek(s, p, "(")
    ensures CharIs(s, p, ')') ==> Peek(s, p, ")") && Stops(s, p, ")")
  {
  }

  /** parseexec on a command as it is written. */
  lemma {:induction false} CommandParses(l: Spacing, s: string, p: nat, c: Command)
    requires GoodSpacing(l) && GoodCommand(c) && HasAt(s, p, CommandText(l, c))
    requires Stops(s, p + |CommandText(l, c)|, "|&;)")
    ensures var r := ParseExec(s, p);
            && p <= |s| && r.Ok? && r.pos == p + |CommandText(l, c)| && Resolve(s, r.cmd) == CommandTree(c)
    decreases c
  {
    hide HasAt, GetToken, ItemsText, LineText, ParseExec, ParseLine, ParseRedirs, GoodItems, Peek, SkipSpace, AtToken,
      Stops, CharIs, GoodSpacing, Spaces, Wrap, Under, Resolve, FileTexts, Rest, ItemsAt, GoodLine, Words, Files,
          LineTree,
      Text;
    match c
    case Simple(items) =>
      SimpleParses(l, s, p, items);
    case Block(line, files) =>
      BlockAt(l, s, p, line, files);
      var q := p + 1 + |l.sp|;
      var e := q + |LineText(l, line)|;
      CommandStart(l, s, p, c);
      StopsIsToken(s, p);
      StopsIsToken(s, e);
      LineParses(l, s, q, line);
      FirstPipeline(l, s, q, line);
      SpacesOf(l);
      SymbolAt(s, p, '(', l.sp, LineText(l, line));
      var all := RedirsParse(l, s, e + 1 + |l.sp|, files, []);
      NoText(l);
      BlockIs(s, p, q, ParseLine(s, q).cmd, e, e + 1 + |l.sp|, all, p + |CommandText(l, c)|);
      WrapIsUnder(s, ParseLine(s, q).cmd, all);
      NoFiles(s);
      assert FileTexts(s, all) + [] == FileTexts(s, all) && [] + Files(files) == Files(files);
  }

  lemma NoFiles(s: string)
    ensures FileTexts(s, []) == [] && Files([]) == [] && Texts(s, []) == []
  {
  }

  /** parseblock put together. */
  lemma BlockIs(s: string, p: nat, q: nat, line: Cmd<Span>, e: nat, f: nat, files: seq<(Span, Mode)>, end: nat)
    requires p < q <= e < f <= |s| && Peek(s, p, "(") && SkipSpace(s, p) == p && GetToken(s, p).next == q
    requires ParseLine(s, q) == Ok(line, e) && Peek(s, e, ")") && GetToken(s, e).next == f
    requires ParseRedirs(s, f, []) == Redirs(files, end)
    ensures ParseExec(s, p) == Ok(Wrap(line, files), end)
  {
    hide GetToken, ParseLine, ParseRedirs, Peek, Wrap;
  }

  lemma {:induction false} PipelineParses(l: Spacing, s: string, p: nat, x: Pipeline)
    requires GoodSpacing(l) && GoodPipeline(x) && HasAt(s, p, PipelineText(l, x))
    requires Stops(s, p + |PipelineText(l, x)|, "&;)")
    ensures var r := ParsePipe(s, p);
            && p <= |s| && r.Ok? && r.pos == p + |PipelineText(l, x)| && Resolve(s, r.cmd) == PipelineTree(x)
    decreases x
  {
    hide HasAt, GetToken, CommandText, ParseExec, GoodCommand, CommandTree, Peek, SkipSpace, AtToken, Stops, CharIs,
      GoodSpacing, Spaces;
    SpacesOf(l);
    var e := p + |CommandText(l, x.c)|;
    FirstCommand(l, s, p, x);
    CommandParses(l, s, p, x.c);
    StopsIsToken(s, e);
    if x.Piped? {
      var q, rest := e + 1 + |l.sp|, PipelineText(l, x.rest);
      HasParts(s, e, "|" + l.sp, rest);
      FirstCommand(l, s, q, x.rest);
      SymbolAt(s, e, '|', l.sp, rest);
      PipelineParses(l, s, q, x.rest);
    }
  }

  lemma {:induction false} LineParses(l: Spacing, s: string, p: nat, x: Line)
    requires GoodSpacing(l) && GoodLine(x) && HasAt(s, p, LineText(l, x)) && Stops(s, p + |LineText(l, x)|, ")")
    ensures var r := ParseLine(s, p);
            && p <= |s| && r.Ok? && r.pos == p + |LineText(l, x)| && Resolve(s, r.cmd) == LineTree(x)
    decreases x
  {
    hide HasAt, GetToken, PipelineText, ParsePipe, GoodPipeline, PipelineTree, Peek, SkipSpace, Backs, BacksText,
      AtToken, Stops, CharIs, GoodSpacing, Spaces, Marked;
    SpacesOf(l);
    var e := p + |PipelineText(l, x.p)|;
    var b := e + |BacksText(l, x.backs)|;
    FirstPipeline(l, s, p, x);
    PipelineParses(l, s, p, x.p);
    BacksParse(l, s, e, x.backs, ParsePipe(s, p).cmd);
    StopsIsToken(s, b);
    if x.Then? {
      var q, rest := b + 1 + |l.sp|, LineText(l, x.rest);
      HasParts(s, b, ";" + l.sp, rest);
      FirstPipeline(l, s, q, x.rest);
      SymbolAt(s, b, ';', l.sp, rest);
      LineParses(l, s, q, x.rest);
    }
  }

  /** Every command line of plain words, with at most nine to a command, is parsed as it is meant, whatever
      the white space in it. */
  lemma LineIsMeant(l: Spacing, x: Line)
    requires GoodSpacing(l) && GoodLine(x)
    ensures ParseCmd(LineText(l, x)).Ok?
    ensures Resolve(LineText(l, x), ParseCmd(LineText(l, x)).cmd) == LineTree(x)
  {
    hide ParseLine, LineText;
    var s := LineText(l, x);
    assert s[0..0 + |s|] == s;
    LineParses(l, s, 0, x);
  }

  // ----- lines that are refused -----

  lemma ArgsFull(s: string, p: nat, argv: seq<Span>, files: seq<(Span, Mode)>)
    requires p < |s| && IsPlain(s[p]) && GetToken(s, p).kind == 'a' && |argv| + 1 >= MAXARGS
    ensures Args(s, p, argv, files) == Panic("too many args")
  {
    hide GetToken;
  }

  lemma {:induction false} ArgsTooMany(l: Spacing, s: string, p: nat, items: seq<Item>, argv: seq<Span>,
                                       files: seq<(Span, Mode)>)
    requires GoodSpacing(l) && ItemsAt(l, s, p, items) && (items != [] ==> items[0].Word?)
    requires |argv| < MAXARGS <= |argv| + |Words(items)|
    ensures p <= |s| && Args(s, p, argv, files) == Panic("too many args")
    decreases |items|
  {
    hide ItemsText, ItemsAt, ParseRedirs, Text, Texts, FileTexts, GetToken, Wrap, Args, Rest, After, AtToken, IsPlain,
      GoodSpacing;
    WordItem(l, s, p, items);
    var tok := GetToken(s, p);
    if |argv| + 1 >= MAXARGS {
      ArgsFull(s, p, argv, files);
    } else {
      var all := RedirsParse(l, s, tok.next, items[1..], files);
      var q := p + |ItemsText(l, items)| - |ItemsText(l, Rest(items[1..]))|;
      ArgsStep(s, p, tok, argv, files, all, q);
      MoreWords(s, argv, tok.span, items);
      ArgsTooMany(l, s, q, Rest(items[1..]), argv + [tok.span], all);
    }
  }

  /** A panic in the first command is one of the whole line. */
  lemma FirstPanics(s: string, message: string)
    requires ParseExec(s, 0) == Panic(message)
    ensures ParseCmd(s) == Panic(message)
  {
    hide ParseExec;
    assert ParsePipe(s, 0) == Panic(message);
    assert ParseLine(s, 0) == Panic(message);
  }

  /** A command of ten words or more. */
  lemma TooManyWords(l: Spacing, items: seq<Item>)
    requires GoodSpacing(l) && (forall i :: 0 <= i < |items| ==> IsWord(items[i].w)) && |Words(items)| >= MAXARGS
    ensures ParseCmd(ItemsText(l, items)) == Panic("too many args")
  {
    hide ItemsText, ParseRedirs, GetToken, Args, After, AtToken, GoodSpacing, Peek, SkipSpace, Rest, Words, Files,
      Texts, FileTexts, IsWord, ParseBlock;
    var s := ItemsText(l, items);
    assert s[0..0 + |s|] == s;
    assert ItemsAt(l, s, 0, items) && Stops(s, 0 + |s|, "|&;)");
    hide ItemsAt;
    NoBlock(l, s, 0, items);
    var files := RedirsParse(l, s, 0, items, []);
    ArgsTooMany(l, s, |s| - |ItemsText(l, Rest(items))|, Rest(items), [], files);
    FirstPanics(s, "too many args");
  }

  lemma ArgsOpen(s: string, p: nat, argv: seq<Span>, files: seq<(Span, Mode)>)
    requires CharIs(s, p, '(')
    ensures Args(s, p, argv, files) == Panic("syntax")
  {
    NoSkip(s, p);
  }

  lemma {:induction false} ArgsToOpen(l: Spacing, s: string, p: nat, items: seq<Item>, argv: seq<Span>,
                                      files: seq<(Span, Mode)>)
    requires GoodSpacing(l) && ItemsAt(l, s, p, items) && (items != [] ==> items[0].Word?)
    requires |argv| + |Words(items)| < MAXARGS && CharIs(s, p + |ItemsText(l, items)|, '(')
    ensures p <= |s| && Args(s, p, argv, files) == Panic("syntax")
    decreases |items|
  {
    hide ItemsText, ItemsAt, ParseRedirs, Text, Texts, FileTexts, GetToken, Wrap, Args, Rest, After, AtToken, IsPlain,
      GoodSpacing, CharIs;
    if items == [] {
      NoText(l);
      ArgsOpen(s, p, argv, files);
      ItemsStart(l, s, p, items);
    } else {
      WordItem(l, s, p, items);
      var tok := GetToken(s, p);
      var all := RedirsParse(l, s, tok.next, items[1..], files);
      var q := p + |ItemsText(l, items)| - |ItemsText(l, Rest(items[1..]))|;
      ArgsStep(s, p, tok, argv, files, all, q);
      MoreWords(s, argv, tok.span, items);
      ArgsToOpen(l, s, q, Rest(items[1..]), argv + [tok.span], all);
    }
  }

  /** A block after words or redirections. */
  lemma StrayOpen(l: Spacing, items: seq<Item>, more: string)
    requires GoodSpacing(l) && GoodItems(items) && items != []
    ensures ParseCmd(ItemsText(l, items) + "(" + more) == Panic("syntax")
  {
    hide ItemsText, ParseRedirs, GetToken, Args, After, AtToken, GoodSpacing, Peek, SkipSpace, Rest, Words, Files,
      Texts, FileTexts, IsWord, ParseBlock;
    var s, p := ItemsText(l, items) + "(" + more, |ItemsText(l, items)|;
    assert s[0..0 + p] == ItemsText(l, items) && s[p] == '(';
    assert ItemsAt(l, s, 0, items);
    hide ItemsAt;
    NoBlock(l, s, 0, items);
    var files := RedirsParse(l, s, 0, items, []);
    ArgsToOpen(l, s, p - |ItemsText(l, Rest(items))|, Rest(items), [], files);
    FirstPanics(s, "syntax");
  }

  /** A redirection without a file. */
  lemma NoFile(l: Spacing, mode: Mode)
    requires GoodSpacing(l)
    ensures ParseCmd(Symbol(mode) + l.sp) == Panic("missing file for redirection")
  {
    var s := Symbol(mode) + l.sp;
    NoFileRedirs(l, s, mode);
    FirstPanics(s, "missing file for redirection");
  }

  lemma NoFileRedirs(l: Spacing, s: string, mode: Mode)
    requires GoodSpacing(l) && s == Symbol(mode) + l.sp
    ensures ParseExec(s, 0) == Panic("missing file for redirection")
  {
    hide ParseBlock, Args, SkipSpace;
    assert s[0..0 + |s|] == s;
    HasParts(s, 0, Symbol(mode), l.sp);
    SkipIs(s, |Symbol(mode)|, l.sp);
    NoSkip(s, 0);
    NoSkip(s, |s|);
    assert Peek(s, 0, "<>") && GetToken(s, 0).next == |s|;
    assert GetToken(s, |s|).kind == '\0';
  }

  /** A parenthesis that closes nothing. */
  lemma StrayClose(l: Spacing, x: Line, more: string)
    requires GoodSpacing(l) && GoodLine(x)
    ensures ParseCmd(LineText(l, x) + ")" + more) == Panic("syntax")
  {
    hide ParseLine, LineText, SkipSpace;
    var s, p := LineText(l, x) + ")" + more, |LineText(l, x)|;
    assert s[0..0 + p] == LineText(l, x) && s[p] == ')';
    LineParses(l, s, 0, x);
    NoSkip(s, p);
  }

  /** A parenthesis that nothing closes. */
  lemma NoClose(l: Spacing, x: Line)
    requires GoodSpacing(l) && GoodLine(x)
    ensures ParseCmd("(" + l.sp + LineText(l, x)) == Panic("syntax - missing )")
  {
    hide ParseLine, ParseExec, LineText, GetToken, SkipSpace, Peek;
    var s, q := "(" + l.sp + LineText(l, x), 1 + |l.sp|;
    assert HasAt(s, 0, "(" + l.sp + LineText(l, x));
    HasThree(s, 0, "(", l.sp, LineText(l, x));
    HasChar(s, 0, "(", 0);
    LineParses(l, s, q, x);
    FirstPipeline(l, s, q, x);
    SpacesOf(l);
    SymbolAt(s, 0, '(', l.sp, LineText(l, x));
    OpenBlock(s, q, ParseLine(s, q).cmd);
    FirstPanics(s, "syntax - missing )");
  }

  lemma OpenBlock(s: string, q: nat, c: Cmd<Span>)
    requires CharIs(s, 0, '(') && q <= |s| && GetToken(s, 0).next == q && ParseLine(s, q) == Ok(c, |s|)
    ensures ParseExec(s, 0) == Panic("syntax - missing )")
  {
    hide GetToken, ParseLine;
    NoSkip(s, 0);
    NoSkip(s, |s|);
  }

  // ----- every tree can be written -----

  /** A pipeline of one command that stands for the tree, in a block where it has to. */
  function Written(t: Cmd<string>): Line {
    match t
    case Exec(argv) => End(Last(Simple(seq(|argv|, i requires 0 <= i < |argv| => Word(argv[i])))), 0)
    case Redir(d, file, mode) => End(Last(Block(Written(d), [File(mode, file)])), 0)
    case Pipe(l, r) => End(Piped(Block(Written(l), []), Last(Block(Written(r), []))), 0)
    case List(l, r) => Then(Last(Block(Written(l), [])), 0, End(Last(Block(Written(r), [])), 0))
    case Back(d) => End(Last(Block(Written(d), [])), 1)
  }

  /** Plain words, and no more arguments than a command can hold. */
  predicate Printable(c: Cmd<string>) {
    match c
    case Exec(argv) => |argv| < MAXARGS && forall i :: 0 <= i < |argv| ==> IsWord(argv[i])
    case Redir(d, file, _) => Printable(d) && IsWord(file)
    case Pipe(l, r) => Printable(l) && Printable(r)
    case List(l, r) => Printable(l) && Printable(r)
    case Back(d) => Printable(d)
  }

  lemma {:induction false} AllWords(argv: seq<string>)
    ensures var items := seq(|argv|, i requires 0 <= i < |argv| => Word(argv[i]));
            Words(items) == argv && Files(items) == []
    decreases |argv|
  {
    if argv != [] {
      AllWords(argv[1..]);
      var items := seq(|argv|, i requires 0 <= i < |argv| => Word(argv[i]));
      assert items[1..] == seq(|argv[1..]|, i requires 0 <= i < |argv[1..]| => Word(argv[1..][i]));
    }
  }

  lemma {:induction false} WrittenIs(t: Cmd<string>)
    requires Printable(t)
    ensures GoodLine(Written(t)) && LineTree(Written(t)) == t
    decreases t
  {
    match t
    case Exec(argv) =>
      AllWords(argv);
      OneCommand(Simple(seq(|argv|, i requires 0 <= i < |argv| => Word(argv[i]))), 0);
    case Redir(d, file, mode) =>
      WrittenIs(d);
      OneFile(Written(d), file, mode);
      OneCommand(Block(Written(d), [File(mode, file)]), 0);
    case Pipe(l, r) =>
      WrittenIs(l);
      WrittenIs(r);
      OneCommand(Block(Written(l), []), 0);
      OneCommand(Block(Written(r), []), 0);
    case List(l, r) =>
      WrittenIs(l);
      WrittenIs(r);
      OneCommand(Block(Written(l), []), 0);
      OneCommand(Block(Written(r), []), 0);
    case Back(d) =>
      WrittenIs(d);
      OneCommand(Block(Written(d), []), 1);
  }

  lemma OneCommand(c: Command, backs: nat)
    requires GoodCommand(c)
    ensures GoodPipeline(Last(c)) && PipelineTree(Last(c)) == CommandTree(c)
    ensures GoodLine(End(Last(c), backs)) && LineTree(End(Last(c), backs)) == Marked(CommandTree(c), backs)
  {
  }

  lemma OneFile(line: Line, file: string, mode: Mode)
    requires GoodLine(line) && IsWord(file)
    ensures GoodCommand(Block(line, [File(mode, file)]))
    ensures CommandTree(Block(line, [File(mode, file)])) == Redir(LineTree(line), file, mode)
  {
    var f := [File(mode, file)];
    assert f[1..] == [];
    assert Files(f) == [(file, mode)] && [(file, mode)][1..] == [];
    assert Under(Redir(LineTree(line), file, mode), []) == Redir(LineTree(line), file, mode);
  }

  /** So every tree whose words are plain and whose commands have at most nine arguments is what the parser
      makes of some line. */
  lemma RoundTrip(l: Spacing, t: Cmd<string>)
    requires GoodSpacing(l) && Printable(t)
    ensures var s := LineText(l, Written(t)); ParseCmd(s).Ok? && Resolve(s, ParseCmd(s).cmd) == t
  {
    WrittenIs(t);
    LineIsMeant(l, Written(t));
  }
}
