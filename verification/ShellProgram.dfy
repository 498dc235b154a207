/** The parser of user/sh.c as the program it is: a buffer, a moving pointer, and at the end a NUL
    written after every word. */
module ShellProgram {
  import opened ShellParser

  // ----- what the spans of a parse are -----

  /** A whole word of the line: plain characters, followed by something else. */
  predicate IsToken(s: string, w: Span) {
    && w.q < w.eq <= |s| && !IsPlain(CharAt(s, w.eq))
    && forall k :: w.q <= k < w.eq ==> IsPlain(s[k])
  }

  function Spans(c: Cmd<Span>): set<Span> {
    match c
    case Exec(argv) => set w | w in argv
    case Redir(d, file, _) => Spans(d) + {file}
    case Pipe(l, r) => Spans(l) + Spans(r)
    case List(l, r) => Spans(l) + Spans(r)
    case Back(d) => Spans(d)
  }

  predicate NoNul(s: string) {
    forall k :: 0 <= k < |s| ==> s[k] != '\0'
  }

  predicate AllTokens(s: string, ws: set<Span>) {
    forall w :: w in ws ==> IsToken(s, w)
  }

  lemma WordIsToken(s: string, p: nat)
    requires NoNul(s) && p <= |s| && GetToken(s, p).kind == 'a'
    ensures IsToken(s, GetToken(s, p).span)
  {
    var q := SkipSpace(s, p);
    assert q < |s|;
  }

  lemma {:induction false} RedirTokens(s: string, p: nat, files: seq<(Span, Mode)>)
    requires NoNul(s) && p <= |s| && forall f :: f in files ==> IsToken(s, f.0)
    ensures var r := ParseRedirs(s, p, files);
            r.Redirs? ==> forall f :: f in r.files ==> IsToken(s, f.0)
    decreases |s| - p
  {
    hide IsToken, GetToken, Peek;
    if Peek(s, p, "<>") && GetToken(s, GetToken(s, p).next).kind == 'a' {
      var file := GetToken(s, GetToken(s, p).next);
      WordIsToken(s, GetToken(s, p).next);
      PeekGoesOn(s, p, "<>");
      RedirTokens(s, file.next, files + [(file.span, ModeOf(GetToken(s, p).kind))]);
    }
  }

  lemma PeekGoesOn(s: string, p: nat, toks: string)
    requires p <= |s| && Peek(s, p, toks)
    ensures p < GetToken(s, p).next
  {
  }

  lemma {:induction false} WrapTokens(s: string, c: Cmd<Span>, files: seq<(Span, Mode)>)
    requires AllTokens(s, Spans(c)) && forall f :: f in files ==> IsToken(s, f.0)
    ensures AllTokens(s, Spans(Wrap(c, files)))
    decreases |files|
  {
    hide IsToken;
    if files != [] {
      assert files[|files| - 1] in files;
      WrapTokens(s, c, files[..|files| - 1]);
    }
  }

  lemma {:induction false} ArgTokens(s: string, p: nat, argv: seq<Span>, files: seq<(Span, Mode)>)
    requires NoNul(s) && p <= |s|
    requires (forall w :: w in argv ==> IsToken(s, w)) && forall f :: f in files ==> IsToken(s, f.0)
    ensures Args(s, p, argv, files).Ok? ==> AllTokens(s, Spans(Args(s, p, argv, files).cmd))
    decreases |s| - p
  {
    hide IsToken, GetToken, Peek, ParseRedirs;
    WrapTokens(s, Exec(argv), files);
    var tok := GetToken(s, p);
    if !Peek(s, p, "|)&;") && tok.kind == 'a' && |argv| + 1 < MAXARGS {
      WordIsToken(s, p);
      RedirTokens(s, tok.next, files);
      var r := ParseRedirs(s, tok.next, files);
      if r.Redirs? {
        ArgTokens(s, r.pos, argv + [tok.span], r.files);
      }
    }
  }

  lemma {:induction false} BackTokens(s: string, p: nat, c: Cmd<Span>)
    requires p <= |s| && AllTokens(s, Spans(c))
    ensures AllTokens(s, Spans(Backs(s, p, c).cmd))
    decreases |s| - p
  {
    hide IsToken, GetToken, Peek, AllTokens;
    if Peek(s, p, "&") {
      PeekGoesOn(s, p, "&");
      BackTokens(s, GetToken(s, p).next, Back(c));
    }
  }

  lemma {:induction false} LineTokens(s: string, p: nat)
    requires NoNul(s) && p <= |s|
    ensures ParseLine(s, p).Ok? ==> AllTokens(s, Spans(ParseLine(s, p).cmd))
    decreases |s| - p, 3
  {
    hide IsToken, GetToken, Peek, ParsePipe, Backs;
    PipeTokens(s, p);
    var first := ParsePipe(s, p);
    if first.Ok? {
      BackTokens(s, first.pos, first.cmd);
      var cmd := Backs(s, first.pos, first.cmd);
      if Peek(s, cmd.pos, ";") {
        PeekGoesOn(s, cmd.pos, ";");
        LineTokens(s, GetToken(s, cmd.pos).next);
      }
    }
  }

  lemma {:induction false} PipeTokens(s: string, p: nat)
    requires NoNul(s) && p <= |s|
    ensures ParsePipe(s, p).Ok? ==> AllTokens(s, Spans(ParsePipe(s, p).cmd))
    decreases |s| - p, 2
  {
    hide IsToken, GetToken, Peek, ParseExec;
    ExecTokens(s, p);
    var first := ParseExec(s, p);
    if first.Ok? && Peek(s, first.pos, "|") {
      PeekGoesOn(s, first.pos, "|");
      PipeTokens(s, GetToken(s, first.pos).next);
    }
  }

  lemma {:induction false} ExecTokens(s: string, p: nat)
    requires NoNul(s) && p <= |s|
    ensures ParseExec(s, p).Ok? ==> AllTokens(s, Spans(ParseExec(s, p).cmd))
    decreases |s| - p, 1
  {
    hide IsToken, GetToken, Peek, ParseBlock, Args, ParseRedirs;
    if Peek(s, p, "(") {
      BlockTokens(s, SkipSpace(s, p));
    } else {
      RedirTokens(s, SkipSpace(s, p), []);
      var r := ParseRedirs(s, SkipSpace(s, p), []);
      if r.Redirs? {
        ArgTokens(s, r.pos, [], r.files);
      }
    }
  }

  lemma {:induction false} BlockTokens(s: string, p: nat)
    requires NoNul(s) && p <= |s|
    ensures ParseBlock(s, p).Ok? ==> AllTokens(s, Spans(ParseBlock(s, p).cmd))
    decreases |s| - p, 0
  {
    hide IsToken, GetToken, Peek, ParseLine, ParseRedirs, AllTokens;
    if Peek(s, p, "(") {
      PeekGoesOn(s, p, "(");
      LineTokens(s, GetToken(s, p).next);
      var line := ParseLine(s, GetToken(s, p).next);
      if line.Ok? && Peek(s, line.pos, ")") {
        RedirTokens(s, GetToken(s, line.pos).next, []);
        var r := ParseRedirs(s, GetToken(s, line.pos).next, []);
        if r.Redirs? {
          WrapTokens(s, line.cmd, r.files);
        }
      }
    }
  }

  // ----- the program -----

  datatype Result = Command(cmd: Cmd<Span>) | Fails(message: string)

  /** r and the position after a call are what the specification says. */
  predicate Agrees(r: Result, pos: nat, p: Parse) {
    if p.Ok? then r == Command(p.cmd) && pos == p.pos else r == Fails(p.message)
  }

  class Parser {
    const line: string          // the line as it was read
    const buf: array<char>      // the line and its NUL
    var ps: nat

    ghost predicate Valid()
      reads this, buf
    {
      buf[..] == line + ['\0'] && ps <= |line|
    }

    constructor (line: string)
      requires NoNul(line)
      ensures Valid() && fresh(buf) && this.line == line && ps == 0
    {
      this.line := line;
      ps := 0;
      var a := new char[|line| + 1](i requires 0 <= i <= |line| => if i < |line| then line[i] else '\0');
      buf := a;
      new;
      assert buf[..] == line + ['\0'];
    }

    /** The byte under the pointer. */
    method At(p: nat) returns (c: char)
      requires Valid() && p <= |line|
      ensures c == CharAt(line, p)
    {
      assert buf[..][p] == buf[p];
      c := buf[p];
    }

    method SkipSpaces(p: nat) returns (r: nat)
      requires Valid() && p <= |line|
      ensures r == SkipSpace(line, p)
    {
      r := p;
      while r < |line|
        invariant p <= r <= |line| && SkipSpace(line, p) == SkipSpace(line, r)
      {
        var c := At(r);
        if !IsSpace(c) {
          break;
        }
        r := r + 1;
      }
    }

    method Peek(toks: string) returns (r: bool)
      requires Valid()
      modifies this`ps
      ensures Valid() && ps == SkipSpace(line, old(ps)) && r == ShellParser.Peek(line, old(ps), toks)
      ensures r ==> ShellParser.Peek(line, ps, toks)
    {
      ps := SkipSpaces(ps);
      var c := At(ps);
      r := c != '\0' && c in toks;
    }

    /** gettoken's loop over a word. */
    method SkipWord(p: nat) returns (r: nat)
      requires Valid() && p <= |line|
      ensures r == WordEnd(line, p)
    {
      r := p;
      while r < |line|
        invariant p <= r <= |line| && WordEnd(line, p) == WordEnd(line, r)
      {
        var c := At(r);
        if IsSpace(c) || IsSymbol(c) {
          break;
        }
        r := r + 1;
      }
    }

    method Gettoken() returns (kind: char, w: Span)
      requires Valid()
      modifies this`ps
      ensures Valid() && GetToken(line, old(ps)) == Token(kind, w, ps)
    {
      hide SkipSpace, WordEnd;
      var q := SkipSpaces(ps);
      var s := q;
      kind := At(s);
      if kind == '\0' {
      } else if kind == '|' || kind == '(' || kind == ')' || kind == ';' || kind == '&' || kind == '<' {
        s := s + 1;
      } else if kind == '>' {
        s := s + 1;
        var c := At(s);
        if c == '>' {
          kind := '+';
          s := s + 1;
        }
      } else {
        kind := 'a';
        s := SkipWord(s);
      }
      w := Span(q, s);
      ps := SkipSpaces(s);
    }

    /** The redirections at the pointer, after those in files; ok is false if a file name is missing. */
    method Parseredirs(files: seq<(Span, Mode)>) returns (ok: bool, all: seq<(Span, Mode)>)
      requires Valid()
      modifies this`ps
      ensures Valid() && old(ps) <= ps
      ensures ok == ParseRedirs(line, old(ps), files).Redirs?
      ensures ok ==> ParseRedirs(line, old(ps), files) == Redirs(all, ps)
    {
      hide GetToken, ShellParser.Peek, IsSymbol, IsSpace;
      ghost var p0 := ps;
      all := files;
      while true
        invariant Valid() && p0 <= ps && ParseRedirs(line, p0, files) == ParseRedirs(line, ps, all)
        decreases |line| - ps
      {
        SkipTwice(line, ps, "<>");
        SkipRedirs(line, ps, all);
        var more := Peek("<>");
        if !more {
          break;
        }
        PeekGoesOn(line, ps, "<>");
        var tok, first := Gettoken();
        var kind, file := Gettoken();
        if kind != 'a' {
          return false, all;
        }
        all := all + [(file, ModeOf(tok))];
      }
      ok := true;
    }

    /** Arguments and redirections; the tree is put together once both are known. */
    method Parseexec() returns (r: Result)
      requires Valid()
      modifies this`ps
      ensures Valid() && old(ps) <= ps && Agrees(r, ps, ParseExec(line, old(ps)))
      decreases |line| - ps, 1
    {
      hide GetToken, ShellParser.Peek, IsSymbol, IsSpace, Args, ParseRedirs, ParseBlock;
      ghost var p0 := ps;
      SkipTwice(line, ps, "(");
      var paren := Peek("(");
      if paren {
        r := Parseblock();
        return;
      }
      var ok, files := Parseredirs([]);
      if !ok {
        return Fails("missing file for redirection");
      }
      ghost var p1, files1 := ps, files;
      var argv: seq<Span> := [];
      while true
        invariant Valid() && p0 <= ps && Args(line, p1, [], files1) == Args(line, ps, argv, files)
        decreases |line| - ps
      {
        SkipTwice(line, ps, "|)&;");
        SkipArgs(line, ps, argv, files);
        ArgsUnfold(line, ps, argv, files);
        var stop := Peek("|)&;");
        if stop {
          break;
        }
        ArgsUnfold(line, ps, argv, files);
        var tok, w := Gettoken();
        if tok == '\0' {
          break;
        }
        if tok != 'a' {
          return Fails("syntax");
        }
        if |argv| + 1 >= MAXARGS {
          return Fails("too many args");
        }
        argv := argv + [w];
        ok, files := Parseredirs(files);
        if !ok {
          return Fails("missing file for redirection");
        }
      }
      return Command(Wrap(Exec(argv), files));
    }

    method Parseblock() returns (r: Result)
      requires Valid()
      modifies this`ps
      ensures Valid() && old(ps) <= ps && Agrees(r, ps, ParseBlock(line, old(ps)))
      decreases |line| - ps, 0
    {
      hide GetToken, ShellParser.Peek, IsSymbol, IsSpace, ParseRedirs, ParseLine;
      SkipTwice(line, ps, "(");
      var paren := Peek("(");
      if !paren {
        return Fails("parseblock");
      }
      PeekGoesOn(line, ps, "(");
      var tok, w := Gettoken();
      r := Parseline();
      if r.Fails? {
        return;
      }
      SkipTwice(line, ps, ")");
      paren := Peek(")");
      if !paren {
        return Fails("syntax - missing )");
      }
      tok, w := Gettoken();
      var ok, files := Parseredirs([]);
      if !ok {
        return Fails("missing file for redirection");
      }
      return Command(Wrap(r.cmd, files));
    }

    method Parsepipe() returns (r: Result)
      requires Valid()
      modifies this`ps
      ensures Valid() && old(ps) <= ps && Agrees(r, ps, ParsePipe(line, old(ps)))
      decreases |line| - ps, 2
    {
      hide GetToken, ShellParser.Peek, IsSymbol, IsSpace, ParseExec;
      r := Parseexec();
      if r.Fails? {
        return;
      }
      SkipTwice(line, ps, "|");
      var bar := Peek("|");
      if bar {
        PeekGoesOn(line, ps, "|");
        var tok, w := Gettoken();
        var rest := Parsepipe();
        r := if rest.Fails? then rest else Command(Pipe(r.cmd, rest.cmd));
      }
    }

    method Parseline() returns (r: Result)
      requires Valid()
      modifies this`ps
      ensures Valid() && old(ps) <= ps && Agrees(r, ps, ParseLine(line, old(ps)))
      decreases |line| - ps, 3
    {
      hide GetToken, ShellParser.Peek, IsSymbol, IsSpace, ParsePipe;
      ghost var p0 := ps;
      r := Parsepipe();
      if r.Fails? {
        return;
      }
      ghost var p1, cmd1 := ps, r.cmd;
      while true
        invariant Valid() && p1 <= ps && r.Command? && Backs(line, p1, cmd1) == Backs(line, ps, r.cmd)
        decreases |line| - ps
      {
        SkipTwice(line, ps, "&");
        SkipBacks(line, ps, r.cmd);
        var amp := Peek("&");
        if !amp {
          break;
        }
        PeekGoesOn(line, ps, "&");
        var tok, w := Gettoken();
        r := Command(Back(r.cmd));
      }
      SkipTwice(line, ps, ";");
      var semi := Peek(";");
      if semi {
        PeekGoesOn(line, ps, ";");
        var tok, w := Gettoken();
        var rest := Parseline();
        r := if rest.Fails? then rest else Command(List(r.cmd, rest.cmd));
      }
    }

    /** Write a NUL at the end of every word of the tree. */
    method Nulterminate(c: Cmd<Span>)
      requires forall w :: w in Spans(c) ==> w.eq < buf.Length
      modifies buf
      ensures forall k: nat :: k < buf.Length ==> buf[k] == if EndsAt(Spans(c), k) then '\0' else old(buf[k])
      decreases c
    {
      match c
      case Exec(argv) =>
        var i := 0;
        while i < |argv|
          invariant 0 <= i <= |argv|
          invariant forall k: nat :: k < buf.Length ==>
                      buf[k] == if exists j :: 0 <= j < i && argv[j].eq == k then '\0' else old(buf[k])
        {
          assert argv[i] in Spans(c);
          buf[argv[i].eq] := '\0';
          i := i + 1;
        }
        assert forall k: nat :: EndsAt(Spans(c), k) <==> exists j :: 0 <= j < |argv| && argv[j].eq == k;
      case Redir(d, file, _) =>
        Nulterminate(d);
        assert file in Spans(c);
        buf[file.eq] := '\0';
        assert forall k: nat :: EndsAt(Spans(c), k) <==> EndsAt(Spans(d), k) || k == file.eq;
      case Pipe(l, r) =>
        Nulterminate(l);
        Nulterminate(r);
        assert forall k: nat :: EndsAt(Spans(c), k) <==> EndsAt(Spans(l), k) || EndsAt(Spans(r), k);
      case List(l, r) =>
        Nulterminate(l);
        Nulterminate(r);
        assert forall k: nat :: EndsAt(Spans(c), k) <==> EndsAt(Spans(l), k) || EndsAt(Spans(r), k);
      case Back(d) =>
        Nulterminate(d);
    }

    /** Parse the whole line and cut it: every word of the tree is then the string at its start,
        from its first byte to exactly its last. */
    method Parsecmd() returns (r: Result)
      requires Valid() && ps == 0 && NoNul(line)
      modifies this`ps, buf
      ensures Agrees(r, |line|, ParseCmd(line))
      ensures r.Command? ==> forall w :: w in Spans(r.cmd) ==>
                IsToken(line, w) && IsString(buf[..], w.q, line[w.q..w.eq])
      ensures r.Fails? ==> buf[..] == old(buf[..])
    {
      hide ParseLine, IsToken, ShellParser.Peek;
      r := Parseline();
      if r.Fails? {
        return;
      }
      var none := Peek("");
      if ps != |line| {
        return Fails("syntax");
      }
      LineTokens(line, 0);
      TokensFit(line, Spans(r.cmd));
      Nulterminate(r.cmd);
      forall w | w in Spans(r.cmd) ensures IsString(buf[..], w.q, line[w.q..w.eq]) {
        WordCut(line, buf[..], Spans(r.cmd), w);
      }
    }
  }

  predicate EndsAt(ws: set<Span>, k: nat) {
    exists w :: w in ws && w.eq == k
  }

  /** The C string at q. */
  predicate IsString(b: seq<char>, q: nat, w: string) {
    q + |w| < |b| && b[q..q + |w|] == w && b[q + |w|] == '\0' && forall k :: 0 <= k < |w| ==> w[k] != '\0'
  }

  lemma TokensFit(s: string, ws: set<Span>)
    requires AllTokens(s, ws)
    ensures forall w :: w in ws ==> w.q < w.eq <= |s|
  {
  }

  /** No word is cut short by the end of another: words end where no word can go on. */
  lemma WordCut(s: string, b: seq<char>, ws: set<Span>, w: Span)
    requires AllTokens(s, ws) && w in ws && |b| == |s| + 1
    requires forall k: nat :: k < |b| ==> b[k] == if EndsAt(ws, k) then '\0' else (s + ['\0'])[k]
    ensures w.q < w.eq <= |s| && IsString(b, w.q, s[w.q..w.eq])
  {
    assert IsToken(s, w);
    forall k: nat | w.q <= k < w.eq ensures b[k] == s[k] && IsPlain(s[k]) {
      forall v | v in ws ensures v.eq != k {
        assert IsToken(s, v);
      }
    }
    assert EndsAt(ws, w.eq);
    assert b[w.q..w.eq] == s[w.q..w.eq];
  }

  /** Looking ahead does not change what is parsed. */
  lemma SkipTwice(s: string, p: nat, toks: string)
    ensures SkipSpace(s, SkipSpace(s, p)) == SkipSpace(s, p)
    ensures ShellParser.Peek(s, SkipSpace(s, p), toks) == ShellParser.Peek(s, p, toks)
    ensures p <= |s| ==> GetToken(s, SkipSpace(s, p)) == GetToken(s, p)
  {
  }

  lemma SkipRedirs(s: string, p: nat, files: seq<(Span, Mode)>)
    requires p <= |s|
    ensures ParseRedirs(s, SkipSpace(s, p), files) == ParseRedirs(s, p, files)
  {
    hide GetToken, ShellParser.Peek;
    SkipTwice(s, p, "<>");
  }

  lemma SkipArgs(s: string, p: nat, argv: seq<Span>, files: seq<(Span, Mode)>)
    requires p <= |s|
    ensures Args(s, SkipSpace(s, p), argv, files) == Args(s, p, argv, files)
  {
    hide GetToken, ShellParser.Peek, ParseRedirs;
    SkipTwice(s, p, "|)&;");
  }

  /** One round of parseexec's loop. */
  lemma ArgsUnfold(s: string, p: nat, argv: seq<Span>, files: seq<(Span, Mode)>)
    requires p <= |s|
    ensures var tok := GetToken(s, p);
            var r := ParseRedirs(s, tok.next, files);
            Args(s, p, argv, files) ==
            if ShellParser.Peek(s, p, "|)&;") then Ok(Wrap(Exec(argv), files), SkipSpace(s, p))
            else if tok.kind == '\0' then Ok(Wrap(Exec(argv), files), tok.next)
            else if tok.kind != 'a' then Panic("syntax")
            else if |argv| + 1 >= MAXARGS then Panic("too many args")
            else if r.NoFile? then Panic("missing file for redirection")
            else Args(s, r.pos, argv + [tok.span], r.files)
  {
    hide GetToken, ShellParser.Peek, ParseRedirs;
  }

  lemma SkipBacks(s: string, p: nat, c: Cmd<Span>)
    requires p <= |s|
    ensures Backs(s, SkipSpace(s, p), c) == Backs(s, p, c)
  {
    hide GetToken, ShellParser.Peek;
    SkipTwice(s, p, "&");
  }
}
