// The shell's grammar (sh.c): the recursive-descent parser as functions of the text still to be read.
// Strings are sequences without their terminating NUL.
module Shell {

  const MAXARGS: int := 10
  const O_RDONLY: int := 0
  const O_WRONLY_CREATE: int := 0x201

  datatype Redirection = Redirection(file: string, mode: int, fd: int)

  datatype Cmd =
    | Exec(argv: seq<string>)
    | Redir(cmd: Cmd, to: Redirection)
    | Pipe(left: Cmd, right: Cmd)
    | List(left: Cmd, right: Cmd)
    | Back(cmd: Cmd)

  // A parser's result: what it read and the text after it, or a panic.
  datatype Parsed<T> = Got(value: T, rest: string) | Panic

  // ---- Tokens ----

  predicate IsSpace(c: char) {
    c == ' ' || c == '\t' || c == '\r' || c == '\n' || c == '\U{0B}'
  }

  predicate IsSymbol(c: char) {
    c == '<' || c == '|' || c == '>' || c == '&' || c == ';' || c == '(' || c == ')'
  }

  function Skip(s: string): (r: string)
    ensures |r| <= |s| && (r == [] || !IsSpace(r[0]))
    ensures s != [] && !IsSpace(s[0]) ==> r == s
  {
    if s != [] && IsSpace(s[0]) then Skip(s[1..]) else s
  }

  // How many characters of a word s starts with.
  function WordLen(s: string): (n: nat)
    ensures n <= |s|
    ensures s != [] && !IsSpace(s[0]) && !IsSymbol(s[0]) ==> n > 0
  {
    if s == [] || IsSpace(s[0]) || IsSymbol(s[0]) then 0 else 1 + WordLen(s[1..])
  }

  datatype Token = End | Sym(c: char) | Append | Word(text: string)

  // gettoken: the token and the text after it and its trailing blanks.
  function GetToken(s0: string): (r: (Token, string))
    ensures |r.1| <= |s0|
    ensures r.0 == End <==> Skip(s0) == []
    ensures r.0 != End ==> |r.1| < |s0|
  {
    var s := Skip(s0);
    if s == [] then (End, [])
    else if s[0] == '>' && |s| > 1 && s[1] == '>' then (Append, Skip(s[2..]))
    else if IsSymbol(s[0]) then (Sym(s[0]), Skip(s[1..]))
    else (Word(s[..WordLen(s)]), Skip(s[WordLen(s)..]))
  }

  // peek: the next character, blanks aside, is one of toks.
  predicate Peek(s: string, toks: string) {
    Skip(s) != [] && Skip(s)[0] in toks
  }

  // ---- The grammar ----

  function ToFile(tok: Token, file: string): Redirection {
    if tok == Sym('<') then Redirection(file, O_RDONLY, 0) else Redirection(file, O_WRONLY_CREATE, 1)
  }

  function ParseRedirs(rs: seq<Redirection>, s: string): (r: Parsed<seq<Redirection>>)
    ensures r.Got? ==> |r.rest| <= |s|
    decreases |s|
  {
    if !Peek(s, "<>") then Got(rs, Skip(s))
    else
      var (tok, s1) := GetToken(s);
      var (name, s2) := GetToken(s1);
      if name.Word? then ParseRedirs(rs + [ToFile(tok, name.text)], s2) else Panic
  }

  // The loop of parseexec after the first redirections.
  function ParseArgs(argv: seq<string>, rs: seq<Redirection>, s: string): (r: Parsed<(seq<string>, seq<Redirection>)>)
    ensures r.Got? ==> |r.rest| <= |s|
    decreases |s|
  {
    if Peek(s, "|)&;") then Got((argv, rs), Skip(s))
    else
      var (tok, s1) := GetToken(s);
      if tok == End then Got((argv, rs), s1)
      else if !tok.Word? || |argv| + 1 >= MAXARGS then Panic
      else
        var p := ParseRedirs(rs, s1);
        if p.Panic? then Panic else ParseArgs(argv + [tok.text], p.value, p.rest)
  }

  function Wrap(c: Cmd, rs: seq<Redirection>): Cmd {
    if rs == [] then c else Redir(Wrap(c, rs[..|rs| - 1]), rs[|rs| - 1])
  }

  function ParseExec(s: string): (r: Parsed<Cmd>)
    ensures r.Got? ==> |r.rest| <= |s|
    decreases |s|, 0
  {
    if Peek(s, "(") then
      var p := ParseLine(GetToken(s).1);
      if p.Panic? || !Peek(p.rest, ")") then Panic
      else
        var q := ParseRedirs([], GetToken(p.rest).1);
        if q.Panic? then Panic else Got(Wrap(p.value, q.value), q.rest)
    else
      var p := ParseRedirs([], s);
      if p.Panic? then Panic
      else
        var q := ParseArgs([], p.value, p.rest);
        if q.Panic? then Panic else Got(Wrap(Exec(q.value.0), q.value.1), q.rest)
  }

  function ParsePipe(s: string): (r: Parsed<Cmd>)
    ensures r.Got? ==> |r.rest| <= |s|
    decreases |s|, 1
  {
    var p := ParseExec(s);
    if p.Panic? then Panic
    else if !Peek(p.rest, "|") then Got(p.value, Skip(p.rest))
    else
      var q := ParsePipe(GetToken(p.rest).1);
      if q.Panic? then Panic else Got(Pipe(p.value, q.value), q.rest)
  }

  // The loop over '&' in parseline.
  function ParseBacks(c: Cmd, s: string): (r: Parsed<Cmd>)
    ensures r.Got? && |r.rest| <= |s|
    decreases |s|
  {
    if Peek(s, "&") then ParseBacks(Back(c), GetToken(s).1) else Got(c, Skip(s))
  }

  function ParseLine(s: string): (r: Parsed<Cmd>)
    ensures r.Got? ==> |r.rest| <= |s|
    decreases |s|, 2
  {
    var p := ParsePipe(s);
    if p.Panic? then Panic
    else
      var b := ParseBacks(p.value, p.rest);
      if !Peek(b.rest, ";") then Got(b.value, Skip(b.rest))
      else
        var q := ParseLine(GetToken(b.rest).1);
        if q.Panic? then Panic else Got(List(b.value, q.value), q.rest)
  }

  // parsecmd: nothing may be left over.
  function ParseCmd(s: string): Parsed<Cmd> {
    var p := ParseLine(s);
    if p.Panic? || Skip(p.rest) != [] then Panic else Got(p.value, [])
  }

  // ---- Printing a command so that it parses back ----

  ghost predicate ValidWord(w: string) {
    w != [] && forall i :: 0 <= i < |w| ==> !IsSpace(w[i]) && !IsSymbol(w[i])
  }

  ghost predicate ValidRedirection(r: Redirection) {
    ValidWord(r.file) && ((r.mode == O_RDONLY && r.fd == 0) || (r.mode == O_WRONLY_CREATE && r.fd == 1))
  }

  // Trees with proper words, at most nine to a command, and the redirections the grammar has.
  ghost predicate Valid(t: Cmd) {
    match t
    case Exec(argv) => |argv| < MAXARGS && forall i :: 0 <= i < |argv| ==> ValidWord(argv[i])
    case Redir(c, r) => Valid(c) && ValidRedirection(r)
    case Pipe(l, r) => Valid(l) && Valid(r)
    case List(l, r) => Valid(l) && Valid(r)
    case Back(c) => Valid(c)
  }

  // A command without its outer redirections, and those redirections.
  function Base(t: Cmd): (b: Cmd)
    ensures !b.Redir? && (!t.Redir? ==> b == t)
  {
    if t.Redir? then Base(t.cmd) else t
  }

  function Redirs(t: Cmd): seq<Redirection> {
    if t.Redir? then Redirs(t.cmd) + [t.to] else []
  }

  lemma {:induction false} WrapBase(t: Cmd)
    ensures Wrap(Base(t), Redirs(t)) == t
  {
    if t.Redir? {
      WrapBase(t.cmd);
      assert Redirs(t)[..|Redirs(t)| - 1] == Redirs(t.cmd);
    }
  }

  lemma {:induction false} ValidBase(t: Cmd)
    requires Valid(t)
    ensures Valid(Base(t)) && forall i :: 0 <= i < |Redirs(t)| ==> ValidRedirection(Redirs(t)[i])
  {
    if t.Redir? {
      ValidBase(t.cmd);
    }
  }

  function Size(t: Cmd): (n: nat)
    ensures n > 0
  {
    match t
    case Exec(_) => 1
    case Redir(c, _) => 1 + Size(c)
    case Pipe(l, r) => 1 + Size(l) + Size(r)
    case List(l, r) => 1 + Size(l) + Size(r)
    case Back(c) => 1 + Size(c)
  }

  lemma {:induction false} SizeBase(t: Cmd)
    ensures Size(Base(t)) <= Size(t) && (t.Redir? ==> Size(Base(t)) < Size(t))
  {
    if t.Redir? {
      SizeBase(t.cmd);
    }
  }

  // Ranks by which the printers, and the proofs that follow them, call each other on one and the same tree.
  function RankExec(t: Cmd): nat { if t.Pipe? then 3 else if t.Back? then 2 else if t.List? then 1 else 0 }
  function RankPipe(t: Cmd): nat { if t.Pipe? then 0 else RankExec(t) + 1 }
  function RankBack(t: Cmd): nat { if t.Back? then 0 else RankPipe(t) + 1 }
  function RankLine(t: Cmd): nat { if t.List? then 0 else RankBack(t) + 1 }

  function Tok(c: char, k: string): string { [c] + " " + k }

  // Each printer puts its text before k.
  function PrintWords(argv: seq<string>, k: string): string {
    if argv == [] then k else argv[0] + " " + PrintWords(argv[1..], k)
  }

  function PrintRedirs(rs: seq<Redirection>, k: string): string {
    if rs == [] then k
    else Tok(if rs[0].mode == O_RDONLY then '<' else '>', rs[0].file + " " + PrintRedirs(rs[1..], k))
  }

  function PrintExec(t: Cmd, k: string): string
    decreases Size(t), RankExec(t)
  {
    SizeBase(t);
    var tail := PrintRedirs(Redirs(t), k);
    if Base(t).Exec? then PrintWords(Base(t).argv, tail) else Tok('(', PrintLine(Base(t), Tok(')', tail)))
  }

  function PrintPipe(t: Cmd, k: string): string
    decreases Size(t), RankPipe(t)
  {
    if t.Pipe? then PrintExec(t.left, Tok('|', PrintPipe(t.right, k))) else PrintExec(t, k)
  }

  function PrintBack(t: Cmd, k: string): string
    decreases Size(t), RankBack(t)
  {
    if t.Back? then PrintBack(t.cmd, Tok('&', k)) else PrintPipe(t, k)
  }

  function PrintLine(t: Cmd, k: string): string
    decreases Size(t), RankLine(t)
  {
    if t.List? then PrintBack(t.left, Tok(';', PrintLine(t.right, k))) else PrintBack(t, k)
  }

  // ---- Token by token ----

  lemma {:induction false} WordLenIs(w: string, k: string)
    requires forall i :: 0 <= i < |w| ==> !IsSpace(w[i]) && !IsSymbol(w[i])
    ensures WordLen(w + " " + k) == |w|
    decreases |w|
  {
    var s := w + " " + k;
    if w != [] {
      assert s[1..] == w[1..] + " " + k;
      WordLenIs(w[1..], k);
    }
  }

  lemma WordToken(w: string, k: string)
    requires ValidWord(w)
    ensures GetToken(w + " " + k) == (Word(w), Skip(k)) && Skip(w + " " + k) == w + " " + k
    ensures forall toks: string :: (forall i :: 0 <= i < |toks| ==> IsSymbol(toks[i])) ==> !Peek(w + " " + k, toks)
  {
    var s := w + " " + k;
    assert s[0] == w[0] && Skip(s) == s;
    WordLenIs(w, k);
    assert s[..|w|] == w && s[|w|..] == " " + k;
    assert (" " + k)[1..] == k;
  }

  // A symbol is a token by itself, whatever follows it, except that two '>' make one.
  lemma SymbolAlone(c: char, k: string)
    requires IsSymbol(c) && !(c == '>' && k != [] && k[0] == '>')
    ensures GetToken([c] + k) == (Sym(c), Skip(k)) && Skip([c] + k) == [c] + k
  {
    assert ([c] + k)[1..] == k;
  }

  lemma TwoMakeAppend(k: string)
    ensures GetToken(">>" + k) == (Append, Skip(k)) && Skip(">>" + k) == ">>" + k
  {
    assert (">>" + k)[2..] == k;
  }

  lemma SymToken(c: char, k: string)
    requires IsSymbol(c)
    ensures GetToken(Tok(c, k)) == (Sym(c), Skip(k)) && Skip(Tok(c, k)) == Tok(c, k)
    ensures forall toks :: Peek(Tok(c, k), toks) <==> c in toks
  {
    var s := Tok(c, k);
    assert s[0] == c && s[1] == ' ' && s[1..] == " " + k;
    assert (" " + k)[1..] == k;
  }

  // Leading blanks make no difference to any parser.
  lemma SkipTwice(s: string)
    ensures Skip(Skip(s)) == Skip(s) && GetToken(Skip(s)) == GetToken(s)
    ensures forall toks :: Peek(Skip(s), toks) == Peek(s, toks)
  {
  }

  lemma RedirsSkip(rs: seq<Redirection>, s: string)
    ensures ParseRedirs(rs, Skip(s)) == ParseRedirs(rs, s)
  {
    hide Peek, GetToken, Skip;
    SkipTwice(s);
  }

  lemma ArgsSkip(argv: seq<string>, rs: seq<Redirection>, s: string)
    ensures ParseArgs(argv, rs, Skip(s)) == ParseArgs(argv, rs, s)
  {
    hide Peek, GetToken, Skip;
    SkipTwice(s);
  }

  lemma ExecSkip(s: string)
    ensures ParseExec(Skip(s)) == ParseExec(s)
  {
    hide Peek, GetToken, Skip, ParseRedirs;
    SkipTwice(s);
    RedirsSkip([], s);
  }

  lemma PipeSkip(s: string)
    ensures ParsePipe(Skip(s)) == ParsePipe(s)
  {
    hide Peek, GetToken, Skip, ParseExec;
    ExecSkip(s);
  }

  lemma BacksSkip(c: Cmd, s: string)
    ensures ParseBacks(c, Skip(s)) == ParseBacks(c, s)
  {
    hide Peek, GetToken, Skip;
    SkipTwice(s);
  }

  lemma LineSkip(s: string)
    ensures ParseLine(Skip(s)) == ParseLine(s)
  {
    hide Peek, GetToken, Skip, ParsePipe, ParseBacks;
    PipeSkip(s);
  }

  // ---- The round trip ----

  // Next, blanks aside, is the end or one of toks.
  predicate Next(k: string, toks: string) {
    Skip(k) == [] || Skip(k)[0] in toks
  }

  lemma RedirsOne(rs: seq<Redirection>, r: Redirection, k: string)
    requires ValidRedirection(r)
    ensures var c := if r.mode == O_RDONLY then '<' else '>';
            ParseRedirs(rs, Tok(c, r.file + " " + k)) == ParseRedirs(rs + [r], k)
  {
    hide Peek, GetToken, Skip, Tok, ValidWord;
    var c := if r.mode == O_RDONLY then '<' else '>';
    SymToken(c, r.file + " " + k);
    WordToken(r.file, k);
    RedirsSkip(rs + [r], k);
    assert ToFile(Sym(c), r.file) == r;
  }

  lemma {:induction false} RedirsTrip(rs0: seq<Redirection>, rs: seq<Redirection>, k: string)
    requires (forall i :: 0 <= i < |rs| ==> ValidRedirection(rs[i])) && !Peek(k, "<>")
    ensures ParseRedirs(rs0, PrintRedirs(rs, k)) == Got(rs0 + rs, Skip(k))
    decreases |rs|
  {
    hide Peek, GetToken, Skip, Tok, ValidWord;
    if rs == [] {
      assert rs0 + rs == rs0;
    } else {
      RedirsOne(rs0, rs[0], PrintRedirs(rs[1..], k));
      RedirsTrip(rs0 + [rs[0]], rs[1..], k);
      assert rs0 + [rs[0]] + rs[1..] == rs0 + rs;
    }
  }

  lemma ArgsOne(argv: seq<string>, w: string, rs: seq<Redirection>, k: string)
    requires ValidWord(w) && |argv| + 1 < MAXARGS
    ensures ParseArgs(argv, rs, w + " " + k) ==
            var p := ParseRedirs(rs, k); if p.Panic? then Panic else ParseArgs(argv + [w], p.value, p.rest)
  {
    hide Peek, GetToken, Skip, ValidWord, ParseRedirs;
    WordToken(w, k);
    NoSymbol(w, k);
    RedirsSkip(rs, k);
  }

  lemma NoSymbol(w: string, k: string)
    requires ValidWord(w)
    ensures !Peek(w + " " + k, "<>") && !Peek(w + " " + k, "|)&;") && !Peek(w + " " + k, "(")
  {
    WordToken(w, k);
  }

  lemma {:induction false} ArgsTrip(argv0: seq<string>, argv: seq<string>, rs: seq<Redirection>, k: string)
    requires argv != [] && |argv0| + |argv| < MAXARGS && forall i :: 0 <= i < |argv| ==> ValidWord(argv[i])
    requires (forall i :: 0 <= i < |rs| ==> ValidRedirection(rs[i])) && Next(k, "|)&;")
    ensures ParseArgs(argv0, [], PrintWords(argv, PrintRedirs(rs, k))) == Got((argv0 + argv, rs), Skip(k))
    decreases |argv|
  {
    hide Peek, GetToken, Skip, ValidWord, ParseRedirs, ParseArgs, Next, PrintRedirs;
    var after := PrintWords(argv[1..], PrintRedirs(rs, k));
    ArgsOne(argv0, argv[0], [], after);
    if |argv| == 1 {
      assert argv[1..] == [] && argv0 + [argv[0]] == argv0 + argv;
      NextNot(k);
      RedirsTrip([], rs, k);
      assert [] + rs == rs;
      ArgsStop(argv0 + argv, rs, k);
    } else {
      NoRedirs(argv[1], PrintWords(argv[2..], PrintRedirs(rs, k)));
      assert argv[1..][1..] == argv[2..];
      ArgsTrip(argv0 + [argv[0]], argv[1..], rs, k);
      assert argv0 + [argv[0]] + argv[1..] == argv0 + argv;
    }
  }

  lemma NextNot(k: string)
    requires Next(k, "|)&;")
    ensures !Peek(k, "<>") && !Peek(k, "(")
  {
  }

  lemma NoRedirs(w: string, k: string)
    requires ValidWord(w)
    ensures ParseRedirs([], w + " " + k) == Got([], w + " " + k)
  {
    WordToken(w, k);
    NoSymbol(w, k);
  }

  lemma ArgsStop(argv: seq<string>, rs: seq<Redirection>, k: string)
    requires Next(k, "|)&;")
    ensures ParseArgs(argv, rs, Skip(k)) == Got((argv, rs), Skip(k))
  {
    SkipTwice(k);
  }

  lemma TailNot(rs: seq<Redirection>, k: string)
    requires Next(k, "|)&;")
    ensures !Peek(PrintRedirs(rs, k), "(")
  {
    hide Peek, GetToken, Skip, Tok, Next;
    if rs == [] {
      NextNot(k);
    } else {
      SymToken(if rs[0].mode == O_RDONLY then '<' else '>', rs[0].file + " " + PrintRedirs(rs[1..], k));
    }
  }

  // A plain command, redirected or not.
  lemma WordsTrip(argv: seq<string>, rs: seq<Redirection>, k: string)
    requires |argv| < MAXARGS && (forall i :: 0 <= i < |argv| ==> ValidWord(argv[i])) && Next(k, "|)&;")
    requires forall i :: 0 <= i < |rs| ==> ValidRedirection(rs[i])
    ensures ParseExec(PrintWords(argv, PrintRedirs(rs, k))) == Got(Wrap(Exec(argv), rs), Skip(k))
  {
    hide Peek, GetToken, Skip, Next, ValidWord, ParseRedirs, ParseArgs, PrintRedirs, Wrap;
    assert [] + rs == rs && [] + argv == argv;
    if argv == [] {
      TailNot(rs, k);
      NextNot(k);
      RedirsTrip([], rs, k);
      ArgsStop([], rs, k);
    } else {
      var after := PrintWords(argv[1..], PrintRedirs(rs, k));
      NoSymbol(argv[0], after);
      NoRedirs(argv[0], after);
      ArgsTrip([], argv, rs, k);
    }
  }

  // A command in parentheses.
  lemma BlockTrip(b: Cmd, rs: seq<Redirection>, inner: string, k: string)
    requires (forall i :: 0 <= i < |rs| ==> ValidRedirection(rs[i])) && Next(k, "|)&;")
    requires ParseLine(inner) == Got(b, Skip(Tok(')', PrintRedirs(rs, k))))
    ensures ParseExec(Tok('(', inner)) == Got(Wrap(b, rs), Skip(k))
  {
    hide Peek, GetToken, Skip, Next, Tok, ParseRedirs, ParseLine, PrintRedirs, Wrap;
    var tail := PrintRedirs(rs, k);
    SymToken('(', inner);
    LineSkip(inner);
    SymToken(')', tail);
    RedirsSkip([], tail);
    NextNot(k);
    RedirsTrip([], rs, k);
    assert [] + rs == rs;
  }

  lemma TokNext(c: char, k: string, toks: string)
    requires IsSymbol(c) && c in toks
    ensures Next(Tok(c, k), toks)
  {
    SymToken(c, k);
  }

  lemma {:induction false} ExecTrip(t: Cmd, k: string)
    requires Valid(t) && Next(k, "|)&;")
    ensures ParseExec(PrintExec(t, k)) == Got(t, Skip(k))
    decreases Size(t), RankExec(t)
  {
    hide Peek, GetToken, Skip, Next, Tok, ParseExec, ParseLine, PrintRedirs, PrintWords, PrintLine, Wrap, ValidWord, ValidRedirection;
    SizeBase(t);
    ValidBase(t);
    WrapBase(t);
    var b, rs := Base(t), Redirs(t);
    if b.Exec? {
      WordsTrip(b.argv, rs, k);
    } else {
      var close := Tok(')', PrintRedirs(rs, k));
      TokNext(')', PrintRedirs(rs, k), ")");
      LineTrip(b, close);
      BlockTrip(b, rs, PrintLine(b, close), k);
    }
  }

  lemma {:induction false} PipeTrip(t: Cmd, k: string)
    requires Valid(t) && Next(k, ")&;")
    ensures ParsePipe(PrintPipe(t, k)) == Got(t, Skip(k))
    decreases Size(t), RankPipe(t)
  {
    hide Peek, GetToken, Skip, Next, Tok, ParseExec, PrintExec;
    NextPipe(k);
    if t.Pipe? {
      var rest := PrintPipe(t.right, k);
      TokNext('|', rest, "|)&;");
      ExecTrip(t.left, Tok('|', rest));
      SymToken('|', rest);
      PipeTrip(t.right, k);
      PipeSkip(rest);
    } else {
      ExecTrip(t, k);
    }
  }

  lemma NextPipe(k: string)
    requires Next(k, ")&;")
    ensures Next(k, "|)&;") && !Peek(Skip(k), "|") && Skip(Skip(k)) == Skip(k)
  {
    SkipTwice(k);
  }

  // After the pipeline inside t, the loop over '&' has t to go on with.
  lemma {:induction false} BackTrip(t: Cmd, k: string)
    requires Valid(t) && Next(k, ")&;")
    ensures var p := ParsePipe(PrintBack(t, k)); p.Got? && ParseBacks(p.value, p.rest) == ParseBacks(t, k)
    decreases Size(t), RankBack(t)
  {
    hide Peek, GetToken, Skip, Next, Tok, ParsePipe, PrintPipe;
    if t.Back? {
      TokNext('&', k, ")&;");
      BackTrip(t.cmd, Tok('&', k));
      SymToken('&', k);
      BacksSkip(t, k);
    } else {
      PipeTrip(t, k);
      BacksSkip(t, k);
    }
  }

  lemma BacksStop(t: Cmd, k: string)
    requires Next(k, ");")
    ensures ParseBacks(t, k) == Got(t, Skip(k)) && Next(k, ")&;") && Skip(Skip(k)) == Skip(k)
  {
    SkipTwice(k);
  }

  lemma {:induction false} LineTrip(t: Cmd, k: string)
    requires Valid(t) && Next(k, ")")
    ensures ParseLine(PrintLine(t, k)) == Got(t, Skip(k))
    decreases Size(t), RankLine(t)
  {
    hide Peek, GetToken, Skip, Next, Tok, ParsePipe, ParseBacks, PrintBack;
    LineEnds(k);
    if t.List? {
      var rest := PrintLine(t.right, k);
      TokNext(';', rest, ");");
      BacksStop(t.left, Tok(';', rest));
      BackTrip(t.left, Tok(';', rest));
      SymToken(';', rest);
      LineTrip(t.right, k);
      LineSkip(rest);
    } else {
      BacksStop(t, k);
      BackTrip(t, k);
    }
  }

  lemma LineEnds(k: string)
    requires Next(k, ")")
    ensures Next(k, ");") && !Peek(Skip(k), ";") && Skip(Skip(k)) == Skip(k)
  {
    SkipTwice(k);
  }

  function Print(t: Cmd): string { PrintLine(t, "") }

  // Printing a valid tree and parsing the text gives the tree back.
  lemma RoundTrip(t: Cmd)
    requires Valid(t)
    ensures ParseCmd(Print(t)) == Got(t, "")
  {
    hide ParseLine, PrintLine;
    LineTrip(t, "");
  }

  // ---- What the parser produces ----

  lemma {:induction false} WordIsValid(s: string, n: nat)
    requires n <= WordLen(s)
    ensures forall i :: 0 <= i < n ==> !IsSpace(s[i]) && !IsSymbol(s[i])
    decreases n
  {
    if n > 0 {
      WordIsValid(s[1..], n - 1);
      forall i | 0 <= i < n ensures !IsSpace(s[i]) && !IsSymbol(s[i]) {
        if i > 0 { assert s[i] == s[1..][i - 1]; }
      }
    }
  }

  lemma TokenValid(s: string)
    ensures GetToken(s).0.Word? ==> ValidWord(GetToken(s).0.text)
  {
    WordIsValid(Skip(s), WordLen(Skip(s)));
  }

  ghost predicate ValidRedirs(rs: seq<Redirection>) {
    forall i :: 0 <= i < |rs| ==> ValidRedirection(rs[i])
  }

  lemma {:induction false} RedirsValid(rs: seq<Redirection>, s: string)
    requires ValidRedirs(rs)
    ensures ParseRedirs(rs, s).Got? ==> ValidRedirs(ParseRedirs(rs, s).value)
    decreases |s|
  {
    hide Peek, GetToken, Skip, ValidWord;
    if Peek(s, "<>") {
      var (tok, s1) := GetToken(s);
      var (name, s2) := GetToken(s1);
      TokenValid(s1);
      TokenShrinks(s);
      TokenShrinks(s1);
      if name.Word? { RedirsValid(rs + [ToFile(tok, name.text)], s2); }
    }
  }

  lemma TokenShrinks(s: string)
    ensures |GetToken(s).1| <= |s| && (GetToken(s).0 != End ==> |GetToken(s).1| < |s|)
    ensures forall toks :: Peek(s, toks) ==> GetToken(s).0 != End
  {
  }

  lemma RedirsShrink(rs: seq<Redirection>, s: string)
    ensures ParseRedirs(rs, s).Got? ==> |ParseRedirs(rs, s).rest| <= |s|
  {
  }

  lemma {:induction false} ArgsValid(argv: seq<string>, rs: seq<Redirection>, s: string)
    requires ValidRedirs(rs) && |argv| < MAXARGS && forall i :: 0 <= i < |argv| ==> ValidWord(argv[i])
    ensures var p := ParseArgs(argv, rs, s); p.Got? ==> Valid(Exec(p.value.0)) && ValidRedirs(p.value.1)
    decreases |s|
  {
    hide Peek, GetToken, Skip, ValidWord, ParseRedirs, ValidRedirs;
    if !Peek(s, "|)&;") {
      var (tok, s1) := GetToken(s);
      TokenValid(s);
      TokenShrinks(s);
      RedirsValid(rs, s1);
      var p := ParseRedirs(rs, s1);
      if tok.Word? && |argv| + 1 < MAXARGS && p.Got? { ArgsValid(argv + [tok.text], p.value, p.rest); }
    }
  }

  lemma {:induction false} WrapValid(c: Cmd, rs: seq<Redirection>)
    requires Valid(c) && ValidRedirs(rs)
    ensures Valid(Wrap(c, rs))
    decreases |rs|
  {
    if rs != [] {
      WrapValid(c, rs[..|rs| - 1]);
    }
  }

  lemma {:induction false} ExecValid(s: string)
    ensures ParseExec(s).Got? ==> Valid(ParseExec(s).value)
    decreases |s|, 0
  {
    hide Peek, GetToken, Skip, ValidWord, ParseRedirs, ParseArgs, ParseLine, Wrap, ValidRedirs, Valid;
    NoneValid();
    TokenShrinks(s);
    if Peek(s, "(") {
      LineValid(GetToken(s).1);
      var p := ParseLine(GetToken(s).1);
      if p.Got? {
        var s2 := GetToken(p.rest).1;
        RedirsValid([], s2);
        if ParseRedirs([], s2).Got? { WrapValid(p.value, ParseRedirs([], s2).value); }
      }
    } else {
      RedirsValid([], s);
      var p := ParseRedirs([], s);
      if p.Got? {
        ArgsValid([], p.value, p.rest);
        var q := ParseArgs([], p.value, p.rest);
        if q.Got? { WrapValid(Exec(q.value.0), q.value.1); }
      }
    }
  }

  lemma NoneValid()
    ensures ValidRedirs([])
  {
  }

  lemma {:induction false} PipeValid(s: string)
    ensures ParsePipe(s).Got? ==> Valid(ParsePipe(s).value)
    decreases |s|, 1
  {
    hide Peek, GetToken, Skip, ValidWord, ParseExec;
    ExecValid(s);
    var p := ParseExec(s);
    if p.Got? && Peek(p.rest, "|") {
      ExecShrinks(s);
      TokenShrinks(p.rest);
      PipeValid(GetToken(p.rest).1);
    }
  }

  lemma ExecShrinks(s: string)
    ensures ParseExec(s).Got? ==> |ParseExec(s).rest| <= |s|
  {
  }

  lemma PipeShrinks(s: string)
    ensures ParsePipe(s).Got? ==> |ParsePipe(s).rest| <= |s|
  {
  }

  lemma {:induction false} BacksValid(c: Cmd, s: string)
    requires Valid(c)
    ensures Valid(ParseBacks(c, s).value) && |ParseBacks(c, s).rest| <= |s|
    decreases |s|
  {
    hide GetToken, Skip, Peek;
    TokenShrinks(s);
    if Peek(s, "&") { BacksValid(Back(c), GetToken(s).1); }
  }

  lemma {:induction false} LineValid(s: string)
    ensures ParseLine(s).Got? ==> Valid(ParseLine(s).value)
    decreases |s|, 2
  {
    hide Peek, GetToken, Skip, ValidWord, ParsePipe, ParseBacks;
    PipeValid(s);
    var p := ParsePipe(s);
    if p.Got? {
      PipeShrinks(s);
      BacksValid(p.value, p.rest);
      var b := ParseBacks(p.value, p.rest);
      if Peek(b.rest, ";") {
        TokenShrinks(b.rest);
        LineValid(GetToken(b.rest).1);
      }
    }
  }

  // The trees the parser accepts are the valid ones, and printing any parsed line loses nothing.
  lemma ParsePrintParse(s: string)
    ensures ParseCmd(s).Got? ==> Valid(ParseCmd(s).value) && ParseCmd(Print(ParseCmd(s).value)) == ParseCmd(s)
  {
    hide ParseLine, PrintLine, Valid;
    LineValid(s);
    if ParseCmd(s).Got? { RoundTrip(ParseCmd(s).value); }
  }

  // ---- Text nobody prints: words without blanks after them, ">>", and errors ----

  lemma {:induction false} WordLenEnds(w: string, k: string)
    requires (forall i :: 0 <= i < |w| ==> !IsSpace(w[i]) && !IsSymbol(w[i])) && (k == [] || IsSpace(k[0]) || IsSymbol(k[0]))
    ensures WordLen(w + k) == |w|
    decreases |w|
  {
    if w == [] {
      assert w + k == k;
    } else {
      assert (w + k)[1..] == w[1..] + k;
      WordLenEnds(w[1..], k);
    }
  }

  // A word ends exactly at the next blank or symbol, or at the end.
  lemma WordEnds(w: string, k: string)
    requires ValidWord(w) && (k == [] || IsSpace(k[0]) || IsSymbol(k[0]))
    ensures GetToken(w + k) == (Word(w), Skip(k))
  {
    WordLenEnds(w, k);
    assert (w + k)[0] == w[0] && Skip(w + k) == w + k;
    assert (w + k)[..|w|] == w && (w + k)[|w|..] == k;
  }

  // ">>" opens the file as ">" does.
  lemma AppendIsOutput(rs: seq<Redirection>, file: string, k: string)
    requires ValidWord(file)
    ensures ParseRedirs(rs, ">>" + " " + (file + " " + k)) == ParseRedirs(rs, Tok('>', file + " " + k))
  {
    hide ValidWord;
    var name := file + " " + k;
    AppendToken(name);
    WordToken(file, k);
    RedirsOne(rs, Redirection(file, O_WRONLY_CREATE, 1), k);
    RedirsSkip(rs + [Redirection(file, O_WRONLY_CREATE, 1)], k);
  }

  lemma AppendToken(k: string)
    ensures GetToken(">>" + " " + k) == (Append, Skip(k)) && Peek(">>" + " " + k, "<>")
  {
    hide GetToken, Skip;
    var s := ">>" + (" " + k);
    assert ">>" + " " + k == s;
    TwoMakeAppend(" " + k);
    OneBlank(k);
    assert s[0] == '>';
  }

  lemma OneBlank(k: string)
    ensures Skip(" " + k) == Skip(k)
  {
    assert (" " + k)[1..] == k;
  }

  lemma MissingFile(rs: seq<Redirection>, c: char, k: string)
    requires (c == '<' || c == '>') && !GetToken(k).0.Word?
    ensures ParseRedirs(rs, Tok(c, k)) == Panic
  {
    hide GetToken, Peek, Skip, Tok;
    SymToken(c, k);
    SkipTwice(k);
  }

  // A command of ten words or more is refused.
  lemma {:induction false} TooManyArgs(argv0: seq<string>, argv: seq<string>, k: string)
    requires |argv0| < MAXARGS <= |argv0| + |argv| && forall i :: 0 <= i < |argv| ==> ValidWord(argv[i])
    ensures ParseArgs(argv0, [], PrintWords(argv, k)) == Panic
    decreases |argv|
  {
    hide GetToken, Peek, Skip, ValidWord, ParseRedirs;
    var after := PrintWords(argv[1..], k);
    if |argv0| + 1 == MAXARGS {
      WordToken(argv[0], after);
      NoSymbol(argv[0], after);
    } else {
      ArgsOne(argv0, argv[0], [], after);
      NoRedirs(argv[1], PrintWords(argv[2..], k));
      assert argv[1..][1..] == argv[2..];
      TooManyArgs(argv0 + [argv[0]], argv[1..], k);
    }
  }

  lemma TenWordsPanic(argv: seq<string>, k: string)
    requires |argv| >= MAXARGS && forall i :: 0 <= i < |argv| ==> ValidWord(argv[i])
    ensures ParseExec(PrintWords(argv, k)) == Panic
  {
    hide GetToken, Peek, Skip, ValidWord, ParseRedirs, ParseArgs;
    NoSymbol(argv[0], PrintWords(argv[1..], k));
    NoRedirs(argv[0], PrintWords(argv[1..], k));
    TooManyArgs([], argv, k);
  }

  lemma UnmatchedClose(t: Cmd, k: string)
    requires Valid(t)
    ensures ParseCmd(PrintLine(t, Tok(')', k))) == Panic
  {
    hide ParseLine, PrintLine, Valid;
    TokNext(')', k, ")");
    LineTrip(t, Tok(')', k));
    SymToken(')', k);
    SkipTwice(Tok(')', k));
  }

  lemma MissingClose(t: Cmd)
    requires Valid(t)
    ensures ParseCmd(Tok('(', PrintLine(t, ""))) == Panic
  {
    hide PrintLine, Valid, Tok, GetToken, ParseExec;
    LineTrip(t, "");
    var s := Tok('(', PrintLine(t, ""));
    OpenOnly(t, PrintLine(t, ""));
    assert ParsePipe(s) == Panic;
    assert ParseLine(s) == Panic;
  }

  lemma OpenOnly(t: Cmd, inner: string)
    requires ParseLine(inner) == Got(t, "")
    ensures ParseExec(Tok('(', inner)) == Panic
  {
    hide Tok, GetToken, ParseLine;
    SymToken('(', inner);
    LineSkip(inner);
  }
}
