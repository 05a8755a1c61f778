// The grammar of sh.c, apart from any parser: which texts spell which tokens, which tokens form a line, and which
// command the line stands for.
module ShellGrammar {
  import opened Shell

  // ---- Text and tokens ----

  ghost predicate Blank(s: string) {
    forall i :: 0 <= i < |s| ==> IsSpace(s[i])
  }

  function Text(t: Token): string {
    match t
    case End => []
    case Sym(c) => [c]
    case Append => ">>"
    case Word(w) => w
  }

  ghost predicate Proper(t: Token) {
    match t
    case End => false
    case Sym(c) => IsSymbol(c)
    case Append => true
    case Word(w) => ValidWord(w)
  }

  // Text k can follow token t without a blank in between.
  predicate Touches(t: Token, k: string) {
    k == [] || ((t == Sym('>') ==> k[0] != '>') && (t.Word? ==> IsSpace(k[0]) || IsSymbol(k[0])))
  }

  // A line with its tokens: gaps[i] is the text before token i, and the last gap ends the line.
  function Spell(gaps: seq<string>, ts: seq<Token>): string
    requires |gaps| == |ts| + 1
  {
    if ts == [] then gaps[0] else gaps[0] + (Text(ts[0]) + Spell(gaps[1..], ts[1..]))
  }

  // The gaps are blank, and only tokens that can touch have none between them.
  ghost predicate Spaced(gaps: seq<string>, ts: seq<Token>)
    requires |gaps| == |ts| + 1
  {
    && Blank(gaps[0])
    && (ts != [] ==>
        Proper(ts[0]) && Touches(ts[0], Spell(gaps[1..], ts[1..])) && Spaced(gaps[1..], ts[1..]))
  }

  // The tokens that gettoken finds.
  function Tokens(s: string): seq<Token>
    decreases |s|
  {
    var (t, rest) := GetToken(s);
    if t == End then [] else [t] + Tokens(rest)
  }

  lemma {:induction false} SkipBlank(b: string, k: string)
    requires Blank(b)
    ensures Skip(b + k) == Skip(k)
    decreases |b|
  {
    if b == [] {
      assert b + k == k;
    } else {
      assert (b + k)[1..] == b[1..] + k;
      SkipBlank(b[1..], k);
    }
  }

  lemma TokenAtFront(t: Token, k: string)
    requires Proper(t) && Touches(t, k)
    ensures GetToken(Text(t) + k) == (t, Skip(k))
  {
    match t
    case Sym(c) => SymbolAlone(c, k);
    case Append => TwoMakeAppend(k);
    case Word(w) => WordEnds(w, k);
  }

  lemma TokensSkip(s: string)
    ensures Tokens(Skip(s)) == Tokens(s)
  {
    SkipTwice(s);
  }

  // Every spacing of a token sequence is read as that sequence.
  lemma {:induction false} SpellingIsRead(gaps: seq<string>, ts: seq<Token>)
    requires |gaps| == |ts| + 1 && Spaced(gaps, ts)
    ensures Tokens(Spell(gaps, ts)) == ts
    decreases |ts|
  {
    hide GetToken, Skip, Proper, Touches;
    if ts == [] {
      assert gaps[0] + [] == gaps[0];
      SkipBlank(gaps[0], []);
      NothingLeft(gaps[0]);
    } else {
      var k := Spell(gaps[1..], ts[1..]);
      SpellingIsRead(gaps[1..], ts[1..]);
      SkipBlank(gaps[0], Text(ts[0]) + k);
      SkipTwice(Text(ts[0]) + k);
      SkipTwice(Spell(gaps, ts));
      TokenAtFront(ts[0], k);
      assert ts[0] != End by { ProperNotEnd(ts[0]); }
      TokensSkip(k);
      assert ts == [ts[0]] + ts[1..];
    }
  }

  lemma ProperNotEnd(t: Token)
    requires Proper(t)
    ensures t != End
  {
  }

  lemma NothingLeft(s: string)
    ensures Tokens(s) == [] <==> Skip(s) == []
  {
  }

  lemma {:induction false} SkipLeaves(s: string) returns (b: string)
    ensures Blank(b) && s == b + Skip(s)
    decreases |s|
  {
    if s != [] && IsSpace(s[0]) {
      b := SkipLeaves(s[1..]);
      assert s == [s[0]] + (b + Skip(s)) == [s[0]] + b + Skip(s);
      b := [s[0]] + b;
    } else {
      b := [];
    }
  }

  // gettoken takes blanks, a token as long as it can be, and blanks.
  lemma TokenIsFront(s: string) returns (b: string, k: string)
    requires GetToken(s).0 != End
    ensures Blank(b) && s == b + (Text(GetToken(s).0) + k) && Skip(k) == GetToken(s).1
    ensures Proper(GetToken(s).0) && Touches(GetToken(s).0, k)
  {
    b := SkipLeaves(s);
    var r := Skip(s);
    var t := GetToken(s).0;
    if t.Word? {
      k := r[WordLen(r)..];
      WordIsValid(r, WordLen(r));
      WordStops(r);
    } else {
      k := r[|Text(t)|..];
    }
    assert r == Text(t) + k;
  }

  // Token t comes first in s, and rest follows it and the blanks after it.
  ghost predicate First(s: string, t: Token, rest: string) {
    if t == End then Blank(s) && rest == []
    else exists b, k :: Blank(b) && Touches(t, k) && Proper(t) && s == b + (Text(t) + k) && rest == Skip(k)
  }

  lemma TokenIsFirst(s: string)
    ensures First(s, GetToken(s).0, GetToken(s).1)
  {
    if GetToken(s).0 == End {
      var b := SkipLeaves(s);
      assert b + [] == b;
    } else {
      var b, k := TokenIsFront(s);
    }
  }

  lemma {:induction false} WordStops(s: string)
    ensures WordLen(s) == |s| || IsSpace(s[WordLen(s)]) || IsSymbol(s[WordLen(s)])
    decreases |s|
  {
    if s != [] && !IsSpace(s[0]) && !IsSymbol(s[0]) {
      WordStops(s[1..]);
    }
  }

  // Every text is a spacing of the tokens that gettoken finds in it.
  lemma {:induction false} TextIsSpelling(s: string) returns (gaps: seq<string>)
    ensures |gaps| == |Tokens(s)| + 1 && Spaced(gaps, Tokens(s)) && Spell(gaps, Tokens(s)) == s
    decreases |s|
  {
    hide GetToken, Proper, Touches, Text;
    TokenShrinks(s);
    if GetToken(s).0 == End {
      gaps := [s];
      var b := SkipLeaves(s);
      NothingLeft(s);
      assert b + [] == b;
    } else {
      var b, k := TokenIsFront(s);
      var rest := GetToken(s).1;
      var inner := TextIsSpelling(rest);
      var c := SkipLeaves(k);
      gaps := [b] + Widen(inner, c);
      WidenSpells(inner, Tokens(rest), c);
      assert gaps[1..] == Widen(inner, c) && Tokens(s)[1..] == Tokens(rest);
    }
  }

  // More blanks at the front.
  function Widen(gaps: seq<string>, b: string): seq<string>
    requires gaps != []
  {
    [b + gaps[0]] + gaps[1..]
  }

  lemma WidenSpells(gaps: seq<string>, ts: seq<Token>, b: string)
    requires |gaps| == |ts| + 1 && Spaced(gaps, ts) && Blank(b)
    ensures Spaced(Widen(gaps, b), ts) && Spell(Widen(gaps, b), ts) == b + Spell(gaps, ts)
  {
    hide Blank, Proper, Touches, Text;
    var wide := Widen(gaps, b);
    assert wide[0] == b + gaps[0] && wide[1..] == gaps[1..];
    BlankJoin(b, gaps[0]);
    if ts != [] {
      Associate(b, gaps[0], Text(ts[0]) + Spell(gaps[1..], ts[1..]));
    }
  }

  lemma BlankJoin(a: string, b: string)
    requires Blank(a) && Blank(b)
    ensures Blank(a + b)
  {
  }

  lemma Associate<T>(a: seq<T>, b: seq<T>, c: seq<T>)
    ensures (a + b) + c == a + (b + c)
  {
  }

  // ---- Tokens and commands ----

  // One redirection: its symbol and file.
  datatype To = To(sym: Token, file: string)

  // A word of a command and the redirections after it.
  datatype Arg = Arg(word: string, tos: seq<To>)

  datatype Command = Simple(tos: seq<To>, args: seq<Arg>) | Block(line: Line, tos: seq<To>)

  datatype Pipeline = One(first: Command) | Piped(first: Command, rest: Pipeline)

  // A pipeline, some '&', and maybe ';' with another line.
  datatype Line = Last(pipe: Pipeline, backs: nat) | More(pipe: Pipeline, backs: nat, next: Line)

  predicate IsTo(t: Token) { t == Sym('<') || t == Sym('>') || t == Append }

  predicate GoodTos(tos: seq<To>) { forall i :: 0 <= i < |tos| ==> IsTo(tos[i].sym) }

  predicate GoodArgs(args: seq<Arg>) { forall i :: 0 <= i < |args| ==> GoodTos(args[i].tos) }

  // Redirections start with a redirection symbol, and a command has fewer than MAXARGS words.
  predicate GoodCommand(c: Command) {
    match c
    case Simple(tos, args) => GoodTos(tos) && GoodArgs(args) && |args| < MAXARGS
    case Block(line, tos) => GoodLine(line) && GoodTos(tos)
  }

  predicate GoodPipe(p: Pipeline) { GoodCommand(p.first) && (p.Piped? ==> GoodPipe(p.rest)) }

  predicate GoodLine(d: Line) { GoodPipe(d.pipe) && (d.More? ==> GoodLine(d.next)) }

  // The tokens of each part, put before k.
  function TosTokens(tos: seq<To>, k: seq<Token>): seq<Token> {
    if tos == [] then k else [tos[0].sym] + ([Word(tos[0].file)] + TosTokens(tos[1..], k))
  }

  function ArgsTokens(args: seq<Arg>, k: seq<Token>): seq<Token> {
    if args == [] then k else [Word(args[0].word)] + TosTokens(args[0].tos, ArgsTokens(args[1..], k))
  }

  function CommandTokens(c: Command, k: seq<Token>): seq<Token>
    decreases c
  {
    match c
    case Simple(tos, args) => TosTokens(tos, ArgsTokens(args, k))
    case Block(line, tos) => [Sym('(')] + LineTokens(line, [Sym(')')] + TosTokens(tos, k))
  }

  function PipeTokens(p: Pipeline, k: seq<Token>): seq<Token>
    decreases p
  {
    CommandTokens(p.first, if p.Piped? then [Sym('|')] + PipeTokens(p.rest, k) else k)
  }

  function Ands(n: nat, k: seq<Token>): seq<Token> {
    if n == 0 then k else [Sym('&')] + Ands(n - 1, k)
  }

  function LineTokens(d: Line, k: seq<Token>): seq<Token>
    decreases d
  {
    PipeTokens(d.pipe, Ands(d.backs, if d.More? then [Sym(';')] + LineTokens(d.next, k) else k))
  }

  // The command each part stands for.
  function Files(tos: seq<To>): seq<Redirection> {
    if tos == [] then [] else [ToFile(tos[0].sym, tos[0].file)] + Files(tos[1..])
  }

  function Words(args: seq<Arg>): seq<string> {
    if args == [] then [] else [args[0].word] + Words(args[1..])
  }

  function ArgFiles(args: seq<Arg>): seq<Redirection> {
    if args == [] then [] else Files(args[0].tos) + ArgFiles(args[1..])
  }

  function CommandTree(c: Command): Cmd {
    match c
    case Simple(tos, args) => Wrap(Exec(Words(args)), Files(tos) + ArgFiles(args))
    case Block(line, tos) => Wrap(LineTree(line), Files(tos))
  }

  function PipeTree(p: Pipeline): Cmd {
    if p.Piped? then Pipe(CommandTree(p.first), PipeTree(p.rest)) else CommandTree(p.first)
  }

  function Backs(c: Cmd, n: nat): Cmd
    decreases n
  {
    if n == 0 then c else Backs(Back(c), n - 1)
  }

  function LineTree(d: Line): Cmd {
    var c := Backs(PipeTree(d.pipe), d.backs);
    if d.More? then List(c, LineTree(d.next)) else c
  }

  // ---- The parser meets the grammar ----

  predicate Starts(ts: seq<Token>, t: Token) { ts != [] && ts[0] == t }

  predicate StartsTo(ts: seq<Token>) { ts != [] && IsTo(ts[0]) }

  // The tokens that end a command's words, a pipeline, and a line.
  predicate Stop(k: seq<Token>) { k == [] || k[0] == Sym('|') || PipeStop(k) }

  predicate PipeStop(k: seq<Token>) { k == [] || k[0] == Sym('&') || k[0] == Sym(';') || k[0] == Sym(')') }

  predicate LineStop(k: seq<Token>) { k == [] || k[0] == Sym(')') }

  lemma TokensStep(s: string)
    ensures Tokens(s) == [] <==> GetToken(s).0 == End
    ensures Tokens(s) != [] ==> GetToken(s).0 == Tokens(s)[0] && Tokens(GetToken(s).1) == Tokens(s)[1..]
  {
  }

  // peek looks at the first character of the next token.
  lemma PeekIs(s: string)
    ensures Peek(s, "<>") <==> StartsTo(Tokens(s))
    ensures Peek(s, "(") <==> Starts(Tokens(s), Sym('('))
    ensures Peek(s, ")") <==> Starts(Tokens(s), Sym(')'))
    ensures Peek(s, "|") <==> Starts(Tokens(s), Sym('|'))
    ensures Peek(s, "&") <==> Starts(Tokens(s), Sym('&'))
    ensures Peek(s, ";") <==> Starts(Tokens(s), Sym(';'))
    ensures Peek(s, "|)&;") || GetToken(s).0 == End <==> Stop(Tokens(s))
  {
    TokensStep(s);
  }

  lemma {:induction false} RedirsComplete(rs: seq<Redirection>, tos: seq<To>, s: string, k: seq<Token>)
    requires GoodTos(tos) && Tokens(s) == TosTokens(tos, k) && !StartsTo(k)
    ensures var p := ParseRedirs(rs, s); p.Got? && p.value == rs + Files(tos) && Tokens(p.rest) == k
    decreases |tos|
  {
    hide GetToken, Peek, Skip, Tokens;
    PeekIs(s);
    TokensStep(s);
    TokensSkip(s);
    if tos == [] {
      assert rs + [] == rs;
    } else {
      var s1 := GetToken(s).1;
      assert Tokens(s)[1..] == [Word(tos[0].file)] + TosTokens(tos[1..], k);
      TokensStep(s1);
      assert Tokens(s1)[1..] == TosTokens(tos[1..], k);
      var r := ToFile(tos[0].sym, tos[0].file);
      RedirsComplete(rs + [r], tos[1..], GetToken(s1).1, k);
      Associate(rs, [r], Files(tos[1..]));
    }
  }

  lemma ArgsNotTo(args: seq<Arg>, k: seq<Token>)
    requires Stop(k)
    ensures !StartsTo(ArgsTokens(args, k)) && !Starts(ArgsTokens(args, k), Sym('('))
  {
  }

  lemma {:induction false} ArgsComplete(argv: seq<string>, rs: seq<Redirection>, args: seq<Arg>, s: string, k: seq<Token>)
    requires GoodArgs(args) && |argv| + |args| < MAXARGS && Tokens(s) == ArgsTokens(args, k) && Stop(k)
    ensures var p := ParseArgs(argv, rs, s);
      p.Got? && p.value == (argv + Words(args), rs + ArgFiles(args)) && Tokens(p.rest) == k
    decreases |args|
  {
    hide GetToken, Peek, Skip, Tokens, ParseRedirs, StartsTo, Starts, TosTokens, Files;
    PeekIs(s);
    TokensStep(s);
    TokensSkip(s);
    if args == [] {
      assert rs + [] == rs && argv + [] == argv;
      StopHere(s);
    } else {
      var after := ArgsTokens(args[1..], k);
      var s1 := GetToken(s).1;
      assert Tokens(s)[1..] == TosTokens(args[0].tos, after);
      ArgsNotTo(args[1..], k);
      RedirsComplete(rs, args[0].tos, s1, after);
      var p := ParseRedirs(rs, s1);
      ArgsComplete(argv + [args[0].word], p.value, args[1..], p.rest, k);
      Associate(argv, [args[0].word], Words(args[1..]));
      Associate(rs, Files(args[0].tos), ArgFiles(args[1..]));
    }
  }

  // At the end gettoken leaves nothing.
  lemma StopHere(s: string)
    ensures GetToken(s).0 == End ==> Tokens(GetToken(s).1) == [] == Tokens(s)
  {
  }

  lemma TosNotOpen(tos: seq<To>, args: seq<Arg>, k: seq<Token>)
    requires GoodTos(tos) && Stop(k)
    ensures !Starts(TosTokens(tos, ArgsTokens(args, k)), Sym('('))
  {
    ArgsNotTo(args, k);
  }

  lemma {:induction false} CommandComplete(c: Command, s: string, k: seq<Token>)
    requires GoodCommand(c) && Tokens(s) == CommandTokens(c, k) && Stop(k)
    ensures var p := ParseExec(s); p.Got? && p.value == CommandTree(c) && Tokens(p.rest) == k
    decreases c
  {
    hide GetToken, Peek, Skip, Tokens, ParseRedirs, ParseArgs, ParseLine, Wrap, StartsTo;
    PeekIs(s);
    TokensStep(s);
    StopNotTo(k);
    match c
    case Simple(tos, args) =>
      TosNotOpen(tos, args, k);
      ArgsNotTo(args, k);
      RedirsComplete([], tos, s, ArgsTokens(args, k));
      assert [] + Files(tos) == Files(tos) && [] + Words(args) == Words(args);
      var p := ParseRedirs([], s);
      ArgsComplete([], p.value, args, p.rest, k);
    case Block(line, tos) =>
      var close := [Sym(')')] + TosTokens(tos, k);
      assert Tokens(s)[1..] == LineTokens(line, close);
      LineComplete(line, GetToken(s).1, close);
      var p := ParseLine(GetToken(s).1);
      PeekIs(p.rest);
      TokensStep(p.rest);
      assert close[1..] == TosTokens(tos, k);
      RedirsComplete([], tos, GetToken(p.rest).1, k);
      assert [] + Files(tos) == Files(tos);
  }

  lemma StopNotTo(k: seq<Token>)
    requires Stop(k)
    ensures !StartsTo(k)
  {
  }

  lemma {:induction false} PipeComplete(d: Pipeline, s: string, k: seq<Token>)
    requires GoodPipe(d) && Tokens(s) == PipeTokens(d, k) && PipeStop(k)
    ensures var p := ParsePipe(s); p.Got? && p.value == PipeTree(d) && Tokens(p.rest) == k
    decreases d
  {
    hide GetToken, Peek, Skip, Tokens, ParseExec, CommandTokens, CommandTree;
    var after := if d.Piped? then [Sym('|')] + PipeTokens(d.rest, k) else k;
    CommandComplete(d.first, s, after);
    var p := ParseExec(s);
    PeekIs(p.rest);
    TokensStep(p.rest);
    TokensSkip(p.rest);
    if d.Piped? {
      assert after[1..] == PipeTokens(d.rest, k);
      PipeComplete(d.rest, GetToken(p.rest).1, k);
    }
  }

  lemma {:induction false} BacksComplete(c: Cmd, n: nat, s: string, k: seq<Token>)
    requires Tokens(s) == Ands(n, k) && !Starts(k, Sym('&'))
    ensures var p := ParseBacks(c, s); p.value == Backs(c, n) && Tokens(p.rest) == k
    decreases n
  {
    hide GetToken, Peek, Skip, Tokens;
    PeekIs(s);
    TokensStep(s);
    TokensSkip(s);
    if n > 0 {
      assert Tokens(s)[1..] == Ands(n - 1, k);
      BacksComplete(Back(c), n - 1, GetToken(s).1, k);
    }
  }

  lemma {:induction false} LineComplete(d: Line, s: string, k: seq<Token>)
    requires GoodLine(d) && Tokens(s) == LineTokens(d, k) && LineStop(k)
    ensures var p := ParseLine(s); p.Got? && p.value == LineTree(d) && Tokens(p.rest) == k
    decreases d
  {
    hide GetToken, Peek, Skip, Tokens, ParsePipe, ParseBacks, PipeTokens, PipeTree, Backs;
    var after := if d.More? then [Sym(';')] + LineTokens(d.next, k) else k;
    PipeComplete(d.pipe, s, Ands(d.backs, after));
    var p := ParsePipe(s);
    BacksComplete(p.value, d.backs, p.rest, after);
    var b := ParseBacks(p.value, p.rest);
    PeekIs(b.rest);
    TokensStep(b.rest);
    TokensSkip(b.rest);
    if d.More? {
      assert after[1..] == LineTokens(d.next, k);
      LineComplete(d.next, GetToken(b.rest).1, k);
    }
  }

  // ---- And the grammar covers all the parser accepts ----

  lemma {:induction false} RedirsSound(rs: seq<Redirection>, s: string) returns (tos: seq<To>)
    requires ParseRedirs(rs, s).Got?
    ensures var p := ParseRedirs(rs, s);
      GoodTos(tos) && Tokens(s) == TosTokens(tos, Tokens(p.rest)) && p.value == rs + Files(tos)
    decreases |s|
  {
    hide GetToken, Peek, Skip, Tokens;
    PeekIs(s);
    TokensStep(s);
    TokensSkip(s);
    TokenShrinks(s);
    if Peek(s, "<>") {
      var (sym, s1) := GetToken(s);
      TokensStep(s1);
      TokenShrinks(s1);
      var (name, s2) := GetToken(s1);
      var r := ToFile(sym, name.text);
      var more := RedirsSound(rs + [r], s2);
      tos := [To(sym, name.text)] + more;
      assert tos[1..] == more && Files(tos) == [r] + Files(more);
      Associate(rs, [r], Files(more));
      assert Tokens(s1) == [name] + Tokens(s2) && Tokens(s) == [sym] + Tokens(s1);
    } else {
      tos := [];
      assert rs + [] == rs;
    }
  }

  lemma {:induction false} ArgsSound(argv: seq<string>, rs: seq<Redirection>, s: string) returns (args: seq<Arg>)
    requires ParseArgs(argv, rs, s).Got? && |argv| < MAXARGS
    ensures var p := ParseArgs(argv, rs, s);
      && GoodArgs(args) && |argv| + |args| < MAXARGS && Tokens(s) == ArgsTokens(args, Tokens(p.rest))
      && p.value == (argv + Words(args), rs + ArgFiles(args))
    decreases |s|
  {
    hide GetToken, Peek, Skip, Tokens, ParseRedirs, TosTokens, Files, StartsTo, Starts;
    PeekIs(s);
    TokensStep(s);
    TokensSkip(s);
    TokenShrinks(s);
    StopHere(s);
    if Peek(s, "|)&;") || GetToken(s).0 == End {
      args := [];
      assert rs + [] == rs && argv + [] == argv;
    } else {
      var (tok, s1) := GetToken(s);
      var p := ParseRedirs(rs, s1);
      RedirsShrink(rs, s1);
      var tos := RedirsSound(rs, s1);
      var more := ArgsSound(argv + [tok.text], p.value, p.rest);
      args := [Arg(tok.text, tos)] + more;
      assert args[1..] == more && Words(args) == [tok.text] + Words(more) && ArgFiles(args) == Files(tos) + ArgFiles(more);
      Associate(argv, [tok.text], Words(more));
      Associate(rs, Files(tos), ArgFiles(more));
      assert Tokens(s) == [tok] + Tokens(s1);
    }
  }

  lemma {:induction false} CommandSound(s: string) returns (c: Command)
    requires ParseExec(s).Got?
    ensures var p := ParseExec(s);
      GoodCommand(c) && Tokens(s) == CommandTokens(c, Tokens(p.rest)) && p.value == CommandTree(c)
    decreases |s|, 0
  {
    hide GetToken, Peek, Skip, Tokens, ParseRedirs, ParseArgs, ParseLine, Wrap, TosTokens, ArgsTokens, Files, ArgFiles, Words,
         StartsTo;
    PeekIs(s);
    TokensStep(s);
    TokenShrinks(s);
    if Peek(s, "(") {
      var s1 := GetToken(s).1;
      var p := ParseLine(s1);
      var line := LineSound(s1);
      PeekIs(p.rest);
      TokensStep(p.rest);
      var s2 := GetToken(p.rest).1;
      var tos := RedirsSound([], s2);
      assert [] + Files(tos) == Files(tos);
      c := Block(line, tos);
      assert Tokens(p.rest) == [Sym(')')] + Tokens(s2) && Tokens(s) == [Sym('(')] + Tokens(s1);
    } else {
      var tos := RedirsSound([], s);
      var p := ParseRedirs([], s);
      var args := ArgsSound([], p.value, p.rest);
      assert [] + Files(tos) == Files(tos) && [] + Words(args) == Words(args);
      c := Simple(tos, args);
    }
  }

  lemma {:induction false} PipeSound(s: string) returns (d: Pipeline)
    requires ParsePipe(s).Got?
    ensures var p := ParsePipe(s); GoodPipe(d) && Tokens(s) == PipeTokens(d, Tokens(p.rest)) && p.value == PipeTree(d)
    decreases |s|, 1
  {
    hide GetToken, Peek, Skip, Tokens, ParseExec, CommandTokens, CommandTree, GoodCommand;
    var c := CommandSound(s);
    var p := ParseExec(s);
    ExecShrinks(s);
    PeekIs(p.rest);
    TokensStep(p.rest);
    TokensSkip(p.rest);
    TokenShrinks(p.rest);
    if Peek(p.rest, "|") {
      var s1 := GetToken(p.rest).1;
      var more := PipeSound(s1);
      d := Piped(c, more);
      assert Tokens(p.rest) == [Sym('|')] + Tokens(s1);
    } else {
      d := One(c);
    }
  }

  lemma {:induction false} BacksSound(c: Cmd, s: string) returns (n: nat)
    ensures var p := ParseBacks(c, s); Tokens(s) == Ands(n, Tokens(p.rest)) && p.value == Backs(c, n)
    decreases |s|
  {
    hide GetToken, Peek, Skip, Tokens;
    PeekIs(s);
    TokensStep(s);
    TokensSkip(s);
    TokenShrinks(s);
    if Peek(s, "&") {
      var m := BacksSound(Back(c), GetToken(s).1);
      n := m + 1;
      assert Tokens(s) == [Sym('&')] + Tokens(GetToken(s).1);
    } else {
      n := 0;
    }
  }

  lemma {:induction false} LineSound(s: string) returns (d: Line)
    requires ParseLine(s).Got?
    ensures var p := ParseLine(s); GoodLine(d) && Tokens(s) == LineTokens(d, Tokens(p.rest)) && p.value == LineTree(d)
    decreases |s|, 2
  {
    hide GetToken, Peek, Skip, Tokens, ParsePipe, ParseBacks, PipeTokens, PipeTree, GoodPipe, Ands, Backs;
    var pipe := PipeSound(s);
    var p := ParsePipe(s);
    PipeShrinks(s);
    var n := BacksSound(p.value, p.rest);
    BacksShrink(p.value, p.rest);
    var b := ParseBacks(p.value, p.rest);
    PeekIs(b.rest);
    TokensStep(b.rest);
    TokensSkip(b.rest);
    TokenShrinks(b.rest);
    if Peek(b.rest, ";") {
      var s1 := GetToken(b.rest).1;
      var next := LineSound(s1);
      d := More(pipe, n, next);
      assert Tokens(b.rest) == [Sym(';')] + Tokens(s1);
    } else {
      d := Last(pipe, n);
    }
  }

  lemma BacksShrink(c: Cmd, s: string)
    ensures |ParseBacks(c, s).rest| <= |s|
  {
  }

  // ---- The two together ----

  // Tokens ts form a line that stands for command t.
  ghost predicate Means(ts: seq<Token>, t: Cmd) {
    exists d: Line :: GoodLine(d) && LineTokens(d, []) == ts && LineTree(d) == t
  }

  // parsecmd accepts exactly the lines of the grammar, and returns the command they stand for; on every other text it
  // panics.
  lemma ParsesExactly(s: string)
    ensures forall t: Cmd :: Means(Tokens(s), t) <==> ParseCmd(s) == Got(t, "")
    ensures ParseCmd(s) == Panic <==> !exists t: Cmd :: Means(Tokens(s), t)
  {
    hide ParseLine, Tokens, LineTokens, LineTree, GoodLine, Skip;
    if ParseCmd(s).Got? {
      var d := LineSound(s);
      NothingLeft(ParseLine(s).rest);
      assert Means(Tokens(s), ParseCmd(s).value);
    }
    forall t: Cmd | Means(Tokens(s), t) ensures ParseCmd(s) == Got(t, "") {
      var d: Line :| GoodLine(d) && LineTokens(d, []) == Tokens(s) && LineTree(d) == t;
      LineComplete(d, s, []);
      NothingLeft(ParseLine(s).rest);
    }
  }

  // Blanks only separate: two spacings of the same tokens are the same command, or both are refused.
  lemma BlanksOnlySeparate(gaps: seq<string>, gaps': seq<string>, ts: seq<Token>)
    requires |gaps| == |gaps'| == |ts| + 1 && Spaced(gaps, ts) && Spaced(gaps', ts)
    ensures ParseCmd(Spell(gaps, ts)) == ParseCmd(Spell(gaps', ts))
  {
    hide ParseCmd, Tokens, Spell, Spaced, Means;
    SpellingIsRead(gaps, ts);
    SpellingIsRead(gaps', ts);
    SameTokens(Spell(gaps, ts), Spell(gaps', ts));
  }

  lemma SameTokens(s: string, s': string)
    requires Tokens(s) == Tokens(s')
    ensures ParseCmd(s) == ParseCmd(s')
  {
    hide ParseLine, Tokens, Means, Skip;
    ParsesExactly(s);
    ParsesExactly(s');
    if ParseCmd(s).Got? { assert Means(Tokens(s), ParseCmd(s).value); }
    if ParseCmd(s').Got? { assert Means(Tokens(s'), ParseCmd(s').value); }
  }
}
