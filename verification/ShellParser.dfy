// The parser's loops (sh.c), with ps as the text from *ps to es, against the grammar functions.
module ShellParser {
  import opened Shell
  import opened ShellGrammar

  // The blanks at the front of ps are skipped.
  method SkipSpace(ps: string) returns (s: string)
    ensures s == Skip(ps)
  {
    s := ps;
    while s != [] && IsSpace(s[0])
      invariant Skip(s) == Skip(ps)
      decreases |s|
    {
      s := s[1..];
    }
  }

  method NextToken(ps: string) returns (tok: Token, rest: string)
    ensures (tok, rest) == GetToken(ps) && First(ps, tok, rest)
  {
    TokenIsFirst(ps);
    hide First;
    var s := SkipSpace(ps);
    SkipTwice(ps);
    if s == [] {
      return End, [];
    }
    if s[0] == '>' {
      if |s| > 1 && s[1] == '>' {
        rest := SkipSpace(s[2..]);
        return Append, rest;
      }
      rest := SkipSpace(s[1..]);
      return Sym('>'), rest;
    }
    if IsSymbol(s[0]) {
      rest := SkipSpace(s[1..]);
      return Sym(s[0]), rest;
    }
    var n := 0;
    while n < |s| && !IsSpace(s[n]) && !IsSymbol(s[n])
      invariant 0 <= n <= |s| && WordLen(s) == n + WordLen(s[n..])
    {
      assert s[n..][1..] == s[n + 1..];
      n := n + 1;
    }
    rest := SkipSpace(s[n..]);
    return Word(s[..n]), rest;
  }

  method PeekAt(ps: string, toks: string) returns (yes: bool, rest: string)
    ensures yes == Peek(ps, toks) && rest == Skip(ps)
  {
    rest := SkipSpace(ps);
    yes := rest != [] && rest[0] in toks;
  }

  method ReadRedirs(rs0: seq<Redirection>, ps: string) returns (r: Parsed<seq<Redirection>>)
    ensures r == ParseRedirs(rs0, ps)
  {
    hide Skip, GetToken, Peek;
    var rs, s := rs0, ps;
    while true
      invariant ParseRedirs(rs, s) == ParseRedirs(rs0, ps)
      decreases |s|
    {
      RedirsSkip(rs, s);
      SkipTwice(s);
      var yes;
      yes, s := PeekAt(s, "<>");
      if !yes {
        return Got(rs, s);
      }
      TokenShrinks(s);
      var tok, name;
      tok, s := NextToken(s);
      TokenShrinks(s);
      name, s := NextToken(s);
      if !name.Word? {
        return Panic;
      }
      rs := rs + [ToFile(tok, name.text)];
    }
  }

  // The tree with its redirections around it, innermost first.
  method WrapAll(c: Cmd, rs: seq<Redirection>) returns (r: Cmd)
    ensures r == Wrap(c, rs)
  {
    r := c;
    var i := 0;
    while i < |rs|
      invariant 0 <= i <= |rs| && r == Wrap(c, rs[..i])
    {
      assert rs[..i + 1][..i] == rs[..i];
      r := Redir(r, rs[i]);
      i := i + 1;
    }
    assert rs[..i] == rs;
  }

  // The argument loop of parseexec: argv and the redirections met on the way.
  method ReadArgs(rs0: seq<Redirection>, ps: string) returns (r: Parsed<(seq<string>, seq<Redirection>)>)
    ensures r == ParseArgs([], rs0, ps)
  {
    hide Skip, GetToken, Peek, ParseRedirs;
    var argv: seq<string>, rs, s := [], rs0, ps;
    while true
      invariant ParseArgs(argv, rs, s) == ParseArgs([], rs0, ps)
      decreases |s|
    {
      ArgsSkip(argv, rs, s);
      SkipTwice(s);
      TokenShrinks(s);
      var yes, s0 := PeekAt(s, "|)&;");
      if yes {
        return Got((argv, rs), s0);
      }
      var tok, s1 := NextToken(s0);
      if tok == End {
        return Got((argv, rs), s1);
      }
      if !tok.Word? {
        return Panic;
      }
      if |argv| + 1 >= MAXARGS {
        return Panic;
      }
      var p := ReadRedirs(rs, s1);
      RedirsShrink(rs, s1);
      if p.Panic? {
        return Panic;
      }
      argv, rs, s := argv + [tok.text], p.value, p.rest;
    }
  }

  method ReadBlock(ps: string) returns (r: Parsed<Cmd>)
    ensures r == if Peek(ps, "(") then ParseExec(ps) else Panic
    decreases |ps|, 0
  {
    hide Skip, GetToken, Peek, ParseRedirs, ParseLine, Wrap;
    SkipTwice(ps);
    TokenShrinks(ps);
    var open, s := PeekAt(ps, "(");
    if !open {
      return Panic;
    }
    var _, s1 := NextToken(s);
    var p := ReadLine(s1);
    if p.Panic? {
      return Panic;
    }
    SkipTwice(p.rest);
    var close, s2 := PeekAt(p.rest, ")");
    if !close {
      return Panic;
    }
    var _, s3 := NextToken(s2);
    var q := ReadRedirs([], s3);
    if q.Panic? {
      return Panic;
    }
    var c := WrapAll(p.value, q.value);
    r := Got(c, q.rest);
  }

  method ReadExec(ps: string) returns (r: Parsed<Cmd>)
    ensures r == ParseExec(ps)
    decreases |ps|, 1
  {
    hide Skip, GetToken, Peek, ParseRedirs, ParseArgs, ParseLine, Wrap;
    SkipShrinks(ps);
    SkipTwice(ps);
    var open, s := PeekAt(ps, "(");
    ExecSkip(ps);
    if open {
      r := ReadBlock(s);
      return;
    }
    var p := ReadRedirs([], s);
    if p.Panic? {
      return Panic;
    }
    var q := ReadArgs(p.value, p.rest);
    if q.Panic? {
      return Panic;
    }
    var c := WrapAll(Exec(q.value.0), q.value.1);
    r := Got(c, q.rest);
  }

  lemma SkipShrinks(s: string)
    ensures |Skip(s)| <= |s|
  {
  }

  method ReadPipe(ps: string) returns (r: Parsed<Cmd>)
    ensures r == ParsePipe(ps)
    decreases |ps|, 2
  {
    hide Skip, GetToken, Peek, ParseExec;
    var p := ReadExec(ps);
    if p.Panic? {
      return Panic;
    }
    ExecShrinks(ps);
    SkipTwice(p.rest);
    TokenShrinks(p.rest);
    var more, s := PeekAt(p.rest, "|");
    if !more {
      return Got(p.value, s);
    }
    var _, s1 := NextToken(s);
    var q := ReadPipe(s1);
    r := if q.Panic? then Panic else Got(Pipe(p.value, q.value), q.rest);
  }

  method ReadLine(ps: string) returns (r: Parsed<Cmd>)
    ensures r == ParseLine(ps)
    decreases |ps|, 3
  {
    hide Skip, GetToken, Peek, ParsePipe, ParseBacks;
    var p := ReadPipe(ps);
    if p.Panic? {
      return Panic;
    }
    PipeShrinks(ps);
    var c, s := ReadBacks(p.value, p.rest);
    SkipTwice(s);
    TokenShrinks(s);
    var more, s1 := PeekAt(s, ";");
    if !more {
      return Got(c, s1);
    }
    var _, s2 := NextToken(s1);
    var q := ReadLine(s2);
    r := if q.Panic? then Panic else Got(List(c, q.value), q.rest);
  }

  // The loop over '&' in parseline.
  method ReadBacks(c0: Cmd, ps: string) returns (c: Cmd, s: string)
    ensures Got(c, s) == ParseBacks(c0, ps) && |s| <= |ps|
  {
    hide Skip, GetToken, Peek;
    c, s := c0, ps;
    while true
      invariant ParseBacks(c, s) == ParseBacks(c0, ps) && |s| <= |ps|
      decreases |s|
    {
      BacksSkip(c, s);
      SkipTwice(s);
      SkipShrinks(s);
      TokenShrinks(s);
      var more, s0 := PeekAt(s, "&");
      if !more {
        s := s0;
        return;
      }
      var _, s1 := NextToken(s0);
      c, s := Back(c), s1;
    }
  }

  method ReadCmd(s: string) returns (r: Parsed<Cmd>)
    ensures r == ParseCmd(s)
    ensures forall t: Cmd :: r == Got(t, "") <==> Means(Tokens(s), t)
    ensures r.Got? ==> Valid(r.value)
  {
    hide Skip, ParseLine, Valid, Print, Means, Tokens;
    ParsesExactly(s);
    ParsePrintParse(s);
    var p := ReadLine(s);
    if p.Panic? {
      return Panic;
    }
    var _, left := PeekAt(p.rest, "");
    r := if left != [] then Panic else Got(p.value, []);
  }
}
