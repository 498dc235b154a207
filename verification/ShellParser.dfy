/** The command parser of user/sh.c as functions of the input line and a position in it. */
module ShellParser {
  const MAXARGS: nat := 10

  /** A token of the line: the bytes from q up to eq. */
  datatype Span = Span(q: nat, eq: nat)

  /** The three redirections: their open mode and file descriptor. */
  datatype Mode = Input | Output | Append

  /** A command tree over words, which the parser gives as spans. */
  datatype Cmd<W> =
    | Exec(argv: seq<W>)
    | Redir(cmd: Cmd<W>, file: W, mode: Mode)
    | Pipe(left: Cmd<W>, right: Cmd<W>)
    | List(left: Cmd<W>, right: Cmd<W>)
    | Back(cmd: Cmd<W>)

  datatype Parse = Ok(cmd: Cmd<Span>, pos: nat) | Panic(message: string)

  predicate IsSpace(c: char) {
    c == ' ' || c == '\t' || c == '\r' || c == '\n' || c == '\U{0B}'
  }

  predicate IsSymbol(c: char) {
    c == '<' || c == '|' || c == '>' || c == '&' || c == ';' || c == '(' || c == ')'
  }

  predicate IsPlain(c: char) {
    c != '\0' && !IsSpace(c) && !IsSymbol(c)
  }

  /** *s, which is 0 at the end of the line. */
  function CharAt(s: string, p: nat): char {
    if p < |s| then s[p] else '\0'
  }

  function SkipSpace(s: string, p: nat): (r: nat)
    ensures p <= r && (p <= |s| ==> r <= |s|)
    ensures !(r < |s| && IsSpace(s[r]))
    decreases |s| - p
  {
    if p < |s| && IsSpace(s[p]) then SkipSpace(s, p + 1) else p
  }

  /** The end of the word that starts at p. */
  function WordEnd(s: string, p: nat): (r: nat)
    ensures p <= r && (p <= |s| ==> r <= |s|)
    ensures r < |s| ==> IsSpace(s[r]) || IsSymbol(s[r])
    ensures forall k :: p <= k < r ==> k < |s| && !IsSpace(s[k]) && !IsSymbol(s[k])
    decreases |s| - p
  {
    if p < |s| && !IsSpace(s[p]) && !IsSymbol(s[p]) then WordEnd(s, p + 1) else p
  }

  predicate Peek(s: string, p: nat, toks: string) {
    var c := CharAt(s, SkipSpace(s, p));
    c != '\0' && c in toks
  }

  /** gettoken: the kind of the token ('a' for a word, '+' for >>), its span and the next position. */
  datatype Token = Token(kind: char, span: Span, next: nat)

  function GetToken(s: string, p: nat): (t: Token)
    requires p <= |s|
    ensures p <= t.next <= |s| && t.span.q <= t.span.eq <= |s|
    ensures t.kind != '\0' ==> p < t.next
  {
    var q := SkipSpace(s, p);
    var c := CharAt(s, q);
    if c == '\0' then Token(c, Span(q, q), SkipSpace(s, q))
    else if c == '>' then
      if CharAt(s, q + 1) == '>' then Token('+', Span(q, q + 2), SkipSpace(s, q + 2))
      else Token(c, Span(q, q + 1), SkipSpace(s, q + 1))
    else if IsSymbol(c) then Token(c, Span(q, q + 1), SkipSpace(s, q + 1))
    else Token('a', Span(q, WordEnd(s, q)), SkipSpace(s, WordEnd(s, q)))
  }

  /** parseline's loop over &. */
  function Backs(s: string, p: nat, cmd: Cmd<Span>): (r: Parse)
    requires p <= |s|
    ensures r.Ok? && p <= r.pos <= |s|
    decreases |s| - p
  {
    if Peek(s, p, "&") then Backs(s, GetToken(s, p).next, Back(cmd)) else Ok(cmd, SkipSpace(s, p))
  }

  function ModeOf(kind: char): Mode {
    if kind == '<' then Input else if kind == '>' then Output else Append
  }

  /** parseredirs: a redirection to the list of those read so far. */
  datatype Redirs = Redirs(files: seq<(Span, Mode)>, pos: nat) | NoFile

  function ParseRedirs(s: string, p: nat, files: seq<(Span, Mode)>): (r: Redirs)
    requires p <= |s|
    ensures r.Redirs? ==> p <= r.pos <= |s| && files <= r.files
    decreases |s| - p
  {
    if Peek(s, p, "<>") then
      var tok := GetToken(s, p);
      var file := GetToken(s, tok.next);
      if file.kind != 'a' then NoFile else ParseRedirs(s, file.next, files + [(file.span, ModeOf(tok.kind))])
    else Redirs(files, SkipSpace(s, p))
  }

  /** redircmd around a command, the first file innermost. */
  function Wrap<W>(cmd: Cmd<W>, files: seq<(W, Mode)>): Cmd<W>
    decreases |files|
  {
    if files == [] then cmd
    else Redir(Wrap(cmd, files[..|files| - 1]), files[|files| - 1].0, files[|files| - 1].1)
  }

  /** parseexec's loop: arguments and redirections, in any order. */
  function Args(s: string, p: nat, argv: seq<Span>, files: seq<(Span, Mode)>): (r: Parse)
    requires p <= |s|
    ensures r.Ok? ==> p <= r.pos <= |s|
    decreases |s| - p
  {
    if Peek(s, p, "|)&;") then Ok(Wrap(Exec(argv), files), SkipSpace(s, p))
    else
      var tok := GetToken(s, p);
      if tok.kind == '\0' then Ok(Wrap(Exec(argv), files), tok.next)
      else if tok.kind != 'a' then Panic("syntax")
      else if |argv| + 1 >= MAXARGS then Panic("too many args")
      else
        var r := ParseRedirs(s, tok.next, files);
        if r.NoFile? then Panic("missing file for redirection") else Args(s, r.pos, argv + [tok.span], r.files)
  }

  function ParseLine(s: string, p: nat): (r: Parse)
    requires p <= |s|
    ensures r.Ok? ==> p <= r.pos <= |s|
    decreases |s| - p, 3
  {
    var first := ParsePipe(s, p);
    if first.Panic? then first
    else
      var cmd := Backs(s, first.pos, first.cmd);
      if Peek(s, cmd.pos, ";") then
        var rest := ParseLine(s, GetToken(s, cmd.pos).next);
        if rest.Panic? then rest else Ok(List(cmd.cmd, rest.cmd), rest.pos)
      else Ok(cmd.cmd, SkipSpace(s, cmd.pos))
  }

  function ParsePipe(s: string, p: nat): (r: Parse)
    requires p <= |s|
    ensures r.Ok? ==> p <= r.pos <= |s|
    decreases |s| - p, 2
  {
    var first := ParseExec(s, p);
    if first.Panic? then first
    else if Peek(s, first.pos, "|") then
      var rest := ParsePipe(s, GetToken(s, first.pos).next);
      if rest.Panic? then rest else Ok(Pipe(first.cmd, rest.cmd), rest.pos)
    else Ok(first.cmd, SkipSpace(s, first.pos))
  }

  function ParseExec(s: string, p: nat): (r: Parse)
    requires p <= |s|
    ensures r.Ok? ==> p <= r.pos <= |s|
    decreases |s| - p, 1
  {
    if Peek(s, p, "(") then ParseBlock(s, SkipSpace(s, p))
    else
      var r := ParseRedirs(s, SkipSpace(s, p), []);
      if r.NoFile? then Panic("missing file for redirection") else Args(s, r.pos, [], r.files)
  }

  function ParseBlock(s: string, p: nat): (r: Parse)
    requires p <= |s|
    ensures r.Ok? ==> p <= r.pos <= |s|
    decreases |s| - p, 0
  {
    if !Peek(s, p, "(") then Panic("parseblock")
    else
      var line := ParseLine(s, GetToken(s, p).next);
      if line.Panic? then line
      else if !Peek(s, line.pos, ")") then Panic("syntax - missing )")
      else
        var r := ParseRedirs(s, GetToken(s, line.pos).next, []);
        if r.NoFile? then Panic("missing file for redirection") else Ok(Wrap(line.cmd, r.files), r.pos)
  }

  function ParseCmd(s: string): (r: Parse)
    ensures r.Ok? ==> r.pos == |s|
  {
    var line := ParseLine(s, 0);
    if line.Panic? then line
    else if SkipSpace(s, line.pos) != |s| then Panic("syntax")
    else Ok(line.cmd, |s|)
  }
}
