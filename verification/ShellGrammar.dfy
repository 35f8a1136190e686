/**
  The language of the shell (user/sh.c), apart from its parser: how tokens are spelled and laid out
  with white space, how they form simple commands with redirections, blocks, pipelines and lines,
  and what tree each of these means. The parser accepts exactly this language and returns exactly
  these trees.
*/
module ShellGrammar {
  import opened Shell

  // ----- trees -----

  /** A command with its words. */
  datatype Ast =
    | AExec(words: seq<string>)
    | ARedir(sub: Ast, file: string, mode: Mode)
    | APipe(left: Ast, right: Ast)
    | AList(left: Ast, right: Ast)
    | ABack(sub: Ast)

  function Text(t: string, x: Span): string { if x.q <= x.eq <= |t| then t[x.q..x.eq] else "" }

  function Texts(t: string, xs: seq<Span>): (ws: seq<string>)
    ensures |ws| == |xs| && forall i :: 0 <= i < |xs| ==> ws[i] == Text(t, xs[i])
  {
    seq(|xs|, i requires 0 <= i < |xs| => Text(t, xs[i]))
  }

  /** The command with the words that its pointers stand for. */
  function Deref(t: string, c: Cmd): Ast {
    match c
    case Exec(args) => AExec(Texts(t, args))
    case Redir(sub, f, m) => ARedir(Deref(t, sub), Text(t, f), m)
    case Pipe(l, r) => APipe(Deref(t, l), Deref(t, r))
    case List(l, r) => AList(Deref(t, l), Deref(t, r))
    case Back(sub) => ABack(Deref(t, sub))
  }

  // ----- tokens and their layout -----

  datatype Tok = Word(w: string) | Sym(c: char) | Twice     // Twice is >>

  function Spelled(k: Tok): string { match k case Word(w) => w case Sym(c) => [c] case Twice => ">>" }

  predicate IsWord(w: string) { w != "" && forall k :: 0 <= k < |w| ==> WordChar(w[k]) }

  predicate TokOk(k: Tok) { match k case Word(w) => IsWord(w) case Sym(c) => Symbol(c) case Twice => true }

  predicate Blank(g: string) { forall k :: 0 <= k < |g| ==> Space(g[k]) }

  /** Without white space between them the two would be read as something else. */
  predicate Merge(a: Tok, b: Tok) { (a.Word? && b.Word?) || (a == Sym('>') && (b == Sym('>') || b == Twice)) }

  /** The tokens with the gaps before, between and after them. */
  function Lay(ks: seq<Tok>, gs: seq<string>): string
    requires |gs| == |ks| + 1
  {
    if ks == [] then gs[0] else gs[0] + Spelled(ks[0]) + Lay(ks[1..], gs[1..])
  }

  /** Gaps are white space, and there is some where it is needed. */
  ghost predicate LayOk(ks: seq<Tok>, gs: seq<string>) {
    && |gs| == |ks| + 1 && (forall i :: 0 <= i < |ks| ==> TokOk(ks[i])) && (forall i :: 0 <= i < |gs| ==> Blank(gs[i]))
    && forall i :: 0 < i < |ks| && Merge(ks[i - 1], ks[i]) ==> gs[i] != ""
  }

  // ----- the grammar -----

  datatype Redirect = To(mode: Mode, file: string)

  /** A word and the redirections behind it. */
  datatype Arg = Arg(w: string, after: seq<Redirect>)

  datatype CmdT = Simple(before: seq<Redirect>, args: seq<Arg>) | Block(line: LineT, after: seq<Redirect>)
  datatype PipeT = One(cmd: CmdT) | Piped(cmd: CmdT, rest: PipeT)
  datatype LineT = Last(pipe: PipeT, amps: nat) | Then(pipe: PipeT, amps: nat, rest: LineT)

  function ModeTok(m: Mode): Tok { match m case Read => Sym('<') case Write => Sym('>') case Append => Twice }

  /** How each of them is written. */
  function RedirToks(rs: seq<Redirect>): seq<Tok> {
    if rs == [] then [] else [ModeTok(rs[0].mode), Word(rs[0].file)] + RedirToks(rs[1..])
  }

  function ArgToks(xs: seq<Arg>): seq<Tok> {
    if xs == [] then [] else [Word(xs[0].w)] + RedirToks(xs[0].after) + ArgToks(xs[1..])
  }

  function CmdToks(c: CmdT): seq<Tok> {
    match c
    case Simple(before, args) => RedirToks(before) + ArgToks(args)
    case Block(line, after) => [Sym('(')] + LineToks(line) + [Sym(')')] + RedirToks(after)
  }

  function PipeToks(p: PipeT): seq<Tok> {
    match p
    case One(c) => CmdToks(c)
    case Piped(c, rest) => CmdToks(c) + [Sym('|')] + PipeToks(rest)
  }

  function Amps(n: nat): seq<Tok> { seq(n, _ => Sym('&')) }

  function LineToks(l: LineT): seq<Tok> {
    match l
    case Last(p, n) => PipeToks(p) + Amps(n)
    case Then(p, n, rest) => PipeToks(p) + Amps(n) + [Sym(';')] + LineToks(rest)
  }

  /** The tree each of them means: the first redirection is the innermost. */
  function Around(a: Ast, rs: seq<Redirect>): Ast
    decreases |rs|
  {
    if rs == [] then a else Around(ARedir(a, rs[0].file, rs[0].mode), rs[1..])
  }

  function WordsOf(xs: seq<Arg>): seq<string> { if xs == [] then [] else [xs[0].w] + WordsOf(xs[1..]) }

  function AfterOf(xs: seq<Arg>): seq<Redirect> { if xs == [] then [] else xs[0].after + AfterOf(xs[1..]) }

  function CmdTree(c: CmdT): Ast {
    match c
    case Simple(before, args) => Around(AExec(WordsOf(args)), before + AfterOf(args))
    case Block(line, after) => Around(LineTree(line), after)
  }

  function PipeTree(p: PipeT): Ast {
    match p case One(c) => CmdTree(c) case Piped(c, rest) => APipe(CmdTree(c), PipeTree(rest))
  }

  function Backs(a: Ast, n: nat): Ast
    decreases n
  {
    if n == 0 then a else Backs(ABack(a), n - 1)
  }

  function LineTree(l: LineT): Ast {
    match l
    case Last(p, n) => Backs(PipeTree(p), n)
    case Then(p, n, rest) => AList(Backs(PipeTree(p), n), LineTree(rest))
  }

  /** Words are words, and a simple command has at most nine. */
  predicate RedirsOk(rs: seq<Redirect>) { forall i :: 0 <= i < |rs| ==> IsWord(rs[i].file) }

  predicate ArgsOk(xs: seq<Arg>) { forall i :: 0 <= i < |xs| ==> IsWord(xs[i].w) && RedirsOk(xs[i].after) }

  predicate CmdOk(c: CmdT) {
    match c
    case Simple(before, args) => RedirsOk(before) && ArgsOk(args) && |args| < MAXARGS
    case Block(line, after) => LineOk(line) && RedirsOk(after)
  }

  predicate PipeOk(p: PipeT) { match p case One(c) => CmdOk(c) case Piped(c, rest) => CmdOk(c) && PipeOk(rest) }

  predicate LineOk(l: LineT) { match l case Last(p, _) => PipeOk(p) case Then(p, _, rest) => PipeOk(p) && LineOk(rest) }

  // ----- the tokens of a text -----

  function TokOf(t: string, n: Token): Tok {
    if n.kind == 'a' then Word(Text(t, n.span)) else if n.kind == '+' then Twice else Sym(n.kind)
  }

  /** What gettoken() returns from s on, one call after the other. */
  function Tokens(t: string, s: nat): seq<Tok>
    requires s <= |t| && '\0' !in t
    decreases |t| - s
  {
    var n := NextToken(t, s);
    if n.kind == '\0' then [] else [TokOf(t, n)] + Tokens(t, n.pos)
  }

  lemma TokensSkip(t: string, s: nat)
    requires s <= |t| && '\0' !in t
    ensures Tokens(t, Skip(t, s)) == Tokens(t, s)
  {
    TokenSkip(t, s);
  }

  lemma TokenText(t: string, s: nat)
    requires s <= |t| && '\0' !in t && Skip(t, s) < |t|
    ensures var q, n := Skip(t, s), NextToken(t, s);
            && t[q] != '\0' && n.kind != '\0' && n.pos == Skip(t, TokenEnd(t, q))
            && TokOk(TokOf(t, n)) && Spelled(TokOf(t, n)) == t[q..TokenEnd(t, q)]
  {
    hide Skip;
    var q := Skip(t, s);
    assert t[q] in t;
    var e := TokenEnd(t, q);
    if !Symbol(t[q]) {
      assert e > q && t[q..e][0] == t[q];
    } else {
      assert t[q..q + 1] == [t[q]];
    }
  }

  /** The next token of a text. */
  lemma NextIs(t: string, s: nat)
    requires s <= |t| && '\0' !in t
    ensures var q := Skip(t, s);
            if q == |t| then Tokens(t, s) == []
            else
              && t[q] != '\0' && Tokens(t, s) == [TokOf(t, NextToken(t, s))] + Tokens(t, TokenEnd(t, q))
              && TokOk(Tokens(t, s)[0]) && Spelled(Tokens(t, s)[0]) == t[q..TokenEnd(t, q)]
              && Tokens(t, NextToken(t, s).pos) == Tokens(t, s)[1..]
  {
    hide Skip, TokenEnd, TokOk, TokOf, Spelled;
    var q := Skip(t, s);
    if q < |t| {
      TokenText(t, s);
      TokensSkip(t, TokenEnd(t, q));
      assert Tokens(t, s) == [TokOf(t, NextToken(t, s))] + Tokens(t, NextToken(t, s).pos);
    }
  }

  // ----- laying out and reading tokens -----

  lemma {:induction false} SkipTo(t: string, s: nat, q: nat)
    requires s <= q <= |t| && (forall k :: s <= k < q ==> Space(t[k])) && (q < |t| ==> !Space(t[q]))
    ensures Skip(t, s) == q
  {
    SkipFrom(t, s, q);
  }

  lemma {:induction false} WordEndIs(t: string, s: nat, e: nat)
    requires s <= e <= |t| && (forall k :: s <= k < e ==> WordChar(t[k])) && (e < |t| ==> !WordChar(t[e]))
    ensures WordEnd(t, s) == e
    decreases e - s
  {
    if s < e { WordEndIs(t, s + 1, e); }
  }

  /** What may follow a token directly. */
  predicate Closed(t: string, e: nat, k: Tok)
    requires e <= |t|
  {
    e < |t| ==> (k.Word? ==> !WordChar(t[e])) && (k == Sym('>') ==> t[e] != '>')
  }

  lemma TokenEndAt(t: string, q: nat, k: Tok)
    requires q + |Spelled(k)| <= |t| && t[q..q + |Spelled(k)|] == Spelled(k) && TokOk(k) && Closed(t, q + |Spelled(k)|, k)
    ensures q < |t| && !Space(t[q]) && t[q] != '\0' && TokenEnd(t, q) == q + |Spelled(k)|
  {
    var x, e := Spelled(k), q + |Spelled(k)|;
    assert forall i :: 0 <= i < |x| ==> t[q + i] == x[i];
    assert t[q] == x[0];
    match k
    case Word(_) => WordEndIs(t, q, e);
    case Sym(_) =>
    case Twice => assert t[q + 1] == x[1];
  }

  lemma SameSpelling(k: Tok, l: Tok)
    requires TokOk(k) && TokOk(l) && Spelled(k) == Spelled(l)
    ensures k == l
  {
    forall x | x == k || x == l ensures Spelled(x) != "" && (x.Word? <==> WordChar(Spelled(x)[0])) {}
  }

  lemma TokenAt(t: string, s: nat, q: nat, k: Tok)
    requires '\0' !in t && s <= q && q + |Spelled(k)| <= |t| && t[q..q + |Spelled(k)|] == Spelled(k) && TokOk(k)
    requires Closed(t, q + |Spelled(k)|, k) && forall i :: s <= i < q ==> Space(t[i])
    ensures Tokens(t, s) == [k] + Tokens(t, q + |Spelled(k)|)
  {
    hide TokOk, Spelled, Closed, Tokens, TokenEnd, Skip, TokOf;
    TokenEndAt(t, q, k);
    SkipTo(t, s, q);
    NextIs(t, s);
    SameSpelling(Tokens(t, s)[0], k);
  }

  /** The first character after a token. */
  lemma LayStart(ks: seq<Tok>, gs: seq<string>)
    requires LayOk(ks, gs)
    ensures var x := Lay(ks, gs);
            && (gs[0] != "" ==> x != "" && Space(x[0]))
            && (gs[0] == "" && ks == [] ==> x == "")
            && (gs[0] == "" && ks != [] ==> x != "" && x[0] == Spelled(ks[0])[0] && TokOk(ks[0]))
  {
  }

  lemma LayTail(ks: seq<Tok>, gs: seq<string>)
    requires LayOk(ks, gs) && ks != []
    ensures |gs| == |ks| + 1 && LayOk(ks[1..], gs[1..]) && TokOk(ks[0]) && Blank(gs[0])
    ensures |ks| > 1 && gs[1] == "" ==> !Merge(ks[0], ks[1])
  {
    var ls, hs := ks[1..], gs[1..];
    forall i | 0 < i < |ls| && Merge(ls[i - 1], ls[i]) ensures hs[i] != "" { assert Merge(ks[i + 1 - 1], ks[i + 1]); }
    assert |ks| > 1 && Merge(ks[1 - 1], ks[1]) ==> gs[1] != "";
  }

  lemma ClosedHere(t: string, e: nat, k: Tok, ks: seq<Tok>, gs: seq<string>)
    requires e <= |t| && LayOk(ks, gs) && t[e..] == Lay(ks, gs) && TokOk(k) && (ks != [] && gs[0] == "" ==> !Merge(k, ks[0]))
    ensures Closed(t, e, k)
  {
    LayStart(ks, gs);
    assert e < |t| ==> t[e] == t[e..][0];
  }

  lemma Parts(t: string, s: nat, g: string, w: string, rest: string)
    requires s <= |t| && t[s..] == g + w + rest
    ensures var q, e := s + |g|, s + |g| + |w|;
            e <= |t| && t[e..] == rest && t[q..e] == w && forall i :: s <= i < q ==> t[i] == g[i - s]
  {
    var x := t[s..];
    assert x[|g| + |w|..] == rest && x[|g|..|g| + |w|] == w;
    assert forall i :: 0 <= i < |g| ==> x[i] == g[i];
  }

  lemma NoTokens(t: string, s: nat, gs: seq<string>)
    requires '\0' !in t && s <= |t| && LayOk([], gs) && t[s..] == Lay([], gs)
    ensures Tokens(t, s) == []
  {
    var x := t[s..];
    assert forall i :: s <= i < |t| ==> t[i] == x[i - s];
    SkipTo(t, s, |t|);
    NextIs(t, s);
  }

  /** However tokens are laid out, they are what gettoken() returns. */
  lemma {:induction false} LaidOut(t: string, s: nat, ks: seq<Tok>, gs: seq<string>)
    requires '\0' !in t && s <= |t| && LayOk(ks, gs) && t[s..] == Lay(ks, gs)
    ensures Tokens(t, s) == ks
    decreases |ks|
  {
    hide TokOk, Tokens, Closed, Merge, Spelled, LayOk;
    if ks == [] {
      NoTokens(t, s, gs);
    } else {
      LayTail(ks, gs);
      var g, w, rest := gs[0], Spelled(ks[0]), Lay(ks[1..], gs[1..]);
      var q, e := s + |g|, s + |g| + |w|;
      Parts(t, s, g, w, rest);
      ClosedHere(t, e, ks[0], ks[1..], gs[1..]);
      TokenAt(t, s, q, ks[0]);
      LaidOut(t, e, ks[1..], gs[1..]);
    }
  }

  /** Every text is a layout of its tokens. */
  lemma {:induction false} LayoutOf(t: string, s: nat) returns (gs: seq<string>)
    requires '\0' !in t && s <= |t|
    ensures LayOk(Tokens(t, s), gs) && t[s..] == Lay(Tokens(t, s), gs)
    decreases |t| - s
  {
    hide Tokens, TokOk, Merge, TokenEnd, LayOk, Spelled, TokOf;
    var q, ks := Skip(t, s), Tokens(t, s);
    NextIs(t, s);
    if q == |t| {
      gs := [t[s..]];
      OneGap(gs);
    } else {
      var e := TokenEnd(t, q);
      var hs := LayoutOf(t, e);
      gs := [t[s..q]] + hs;
      assert ks[1..] == Tokens(t, e) && gs[1..] == hs;
      assert t[s..] == t[s..q] + t[q..e] + t[e..];
      GapsCount(ks[1..], hs);
      LayMore(t, s, q, ks, gs);
    }
  }

  lemma OneGap(gs: seq<string>)
    requires |gs| == 1 && Blank(gs[0])
    ensures LayOk([], gs)
  {
  }

  lemma GapsCount(ks: seq<Tok>, gs: seq<string>)
    requires LayOk(ks, gs)
    ensures |gs| == |ks| + 1
  {
  }

  lemma LayMore(t: string, s: nat, q: nat, ks: seq<Tok>, gs: seq<string>)
    requires '\0' !in t && s <= q < |t| && q == Skip(t, s) && t[q] != '\0' && |gs| == |ks| + 1 && ks != [] && gs[0] == t[s..q]
    requires TokOk(ks[0]) && Spelled(ks[0]) == t[q..TokenEnd(t, q)]
    requires LayOk(ks[1..], gs[1..]) && t[TokenEnd(t, q)..] == Lay(ks[1..], gs[1..])
    ensures LayOk(ks, gs)
  {
    var e := TokenEnd(t, q);
    if |ks| > 1 && gs[1] == "" {
      LayStart(ks[1..], gs[1..]);
      assert t[e] == t[e..][0] && t[q] == Spelled(ks[0])[0];
    }
    forall i | 0 < i < |ks| && Merge(ks[i - 1], ks[i]) ensures gs[i] != "" {
      if i > 1 { assert Merge(ks[1..][i - 1 - 1], ks[1..][i - 1]); }
    }
    forall i | 0 <= i < |ks| ensures TokOk(ks[i]) { assert i > 0 ==> ks[i] == ks[1..][i - 1]; }
    forall i | 0 <= i < |gs| ensures Blank(gs[i]) { assert i > 0 ==> gs[i] == gs[1..][i - 1]; }
  }

  // ----- the parser, token by token -----

  predicate Starts(ks: seq<Tok>, toks: string) { ks != [] && Spelled(ks[0]) != "" && Spelled(ks[0])[0] in toks }

  lemma PeekIs(t: string, s: nat, toks: string)
    requires s <= |t| && '\0' !in t
    ensures PeekAt(t, s, toks) <==> Starts(Tokens(t, s), toks)
  {
    hide Tokens, TokOk, TokOf, Spelled, Skip;
    NextIs(t, s);
    var q := Skip(t, s);
    if q < |t| { assert t[q..TokenEnd(t, q)][0] == t[q]; }
  }

  /** gettoken() returns the first token and leaves the others. */
  lemma TakeIs(t: string, s: nat)
    requires s <= |t| && '\0' !in t
    ensures NextToken(t, Skip(t, s)) == NextToken(t, s)
    ensures var n, ks := NextToken(t, s), Tokens(t, s);
            if ks == [] then n.kind == '\0' && Tokens(t, n.pos) == []
            else
              && n.kind != '\0' && TokOk(ks[0]) && TokOf(t, n) == ks[0] && Tokens(t, n.pos) == ks[1..]
              && (n.kind == 'a' <==> ks[0].Word?)
  {
    hide TokOk, Skip;
    TokenSkip(t, s);
    NextIs(t, s);
    if Skip(t, s) < |t| { KindIs(t, s); }
  }

  lemma KindIs(t: string, s: nat)
    requires s <= |t| && '\0' !in t && Skip(t, s) < |t|
    ensures TokOf(t, NextToken(t, s)).Word? <==> NextToken(t, s).kind == 'a'
    ensures NextToken(t, s).kind != '\0'
  {
  }

  /** The file and mode that redirections stand for. */
  function Wrapped(t: string, w: Wraps): (rs: seq<Redirect>)
    ensures |rs| == |w|
  {
    seq(|w|, i requires 0 <= i < |w| => To(w[i].1, Text(t, w[i].0)))
  }

  lemma {:induction false} AroundMore(a: Ast, rs: seq<Redirect>, r: Redirect)
    ensures Around(a, rs + [r]) == ARedir(Around(a, rs), r.file, r.mode)
    decreases |rs|
  {
    if rs == [] {
      assert rs + [r] == [r] && [r][1..] == [];
    } else {
      assert (rs + [r])[1..] == rs[1..] + [r];
      AroundMore(ARedir(a, rs[0].file, rs[0].mode), rs[1..], r);
    }
  }

  lemma {:induction false} WrapTree(t: string, c: Cmd, w: Wraps)
    ensures Deref(t, Wrap(c, w)) == Around(Deref(t, c), Wrapped(t, w))
    decreases |w|
  {
    if w != [] {
      var n := |w| - 1;
      WrapTree(t, c, w[..n]);
      assert Wrapped(t, w) == Wrapped(t, w[..n]) + [To(w[n].1, Text(t, w[n].0))];
      AroundMore(Deref(t, c), Wrapped(t, w[..n]), To(w[n].1, Text(t, w[n].0)));
    }
  }

  lemma ModeIs(t: string, s: nat)
    requires s <= |t| && '\0' !in t && Starts(Tokens(t, s), "<>")
    ensures Tokens(t, s)[0] == ModeTok(ModeOf(NextToken(t, s).kind))
  {
    hide Tokens, NextToken;
    TakeIs(t, s);
  }

  lemma ModesDiffer(m: Mode, n: Mode)
    requires ModeTok(m) == ModeTok(n)
    ensures m == n
  {
  }

  lemma WrappedMore(t: string, w: Wraps, x: Span, m: Mode)
    ensures Wrapped(t, w + [(x, m)]) == Wrapped(t, w) + [To(m, Text(t, x))]
  {
  }

  /** One redirection, or a panic if its file is missing. */
  lemma OneRedir(t: string, s: nat, w: Wraps) returns (m: Mode, x: Span, p: nat)
    requires s <= |t| && '\0' !in t && Starts(Tokens(t, s), "<>")
    ensures var ks := Tokens(t, s);
            && ks[0] == ModeTok(m)
            && if |ks| > 1 && ks[1].Word? then
                 && ks[1].w == Text(t, x) && IsWord(Text(t, x)) && s < p <= |t| && Tokens(t, p) == ks[2..]
                 && ParseRedirs(t, s, w) == ParseRedirs(t, p, w + [(x, m)])
               else ParseRedirs(t, s, w).None?
  {
    hide Tokens, NextToken, Skip, Starts, TokOk, IsWord;
    PeekIs(t, s, "<>");
    TakeIs(t, s);
    ModeIs(t, s);
    Nonempty(Tokens(t, s), "<>");
    Later(t, s);
    var n := NextToken(t, s);
    TakeIs(t, n.pos);
    var f := NextToken(t, n.pos);
    m, x, p := ModeOf(n.kind), f.span, f.pos;
    if Tokens(t, n.pos) != [] && Tokens(t, n.pos)[0].Word? { WordsAreWords(Tokens(t, n.pos)[0]); }
    assert Tokens(t, s)[1..] == Tokens(t, n.pos);
  }

  lemma Nonempty(ks: seq<Tok>, toks: string)
    requires Starts(ks, toks)
    ensures ks != []
  {
  }

  /** Redirections are read in order. */
  lemma {:induction false} RedirsRead(t: string, s: nat, w: Wraps, rs: seq<Redirect>, rest: seq<Tok>)
    requires s <= |t| && '\0' !in t && Tokens(t, s) == RedirToks(rs) + rest && !Starts(rest, "<>")
    ensures var r := ParseRedirs(t, s, w); r.Some? && Tokens(t, r.pos) == rest && Wrapped(t, r.wrap) == Wrapped(t, w) + rs
    decreases |rs|
  {
    hide Tokens, NextToken, Skip, Starts, Wrapped, TokOk, IsWord, ParseRedirs, Text;
    if rs == [] {
      assert RedirToks(rs) + rest == rest && Wrapped(t, w) + rs == Wrapped(t, w);
      RedirsNone(t, s, w);
    } else {
      var ks := Tokens(t, s);
      assert ks == [ModeTok(rs[0].mode), Word(rs[0].file)] + (RedirToks(rs[1..]) + rest);
      ModeStarts(ks, rs[0].mode);
      var m, x, p := OneRedir(t, s, w);
      ModesDiffer(m, rs[0].mode);
      RedirsRead(t, p, w + [(x, m)], rs[1..], rest);
      WrappedMore(t, w, x, m);
      assert [rs[0]] + rs[1..] == rs;
    }
  }

  lemma RedirsNone(t: string, s: nat, w: Wraps)
    requires s <= |t| && '\0' !in t && !Starts(Tokens(t, s), "<>")
    ensures ParseRedirs(t, s, w).Some? && ParseRedirs(t, s, w).wrap == w && Tokens(t, ParseRedirs(t, s, w).pos) == Tokens(t, s)
  {
    hide Tokens, NextToken, Skip, Starts;
    PeekIs(t, s, "<>");
    TokensSkip(t, s);
  }

  lemma ModeStarts(ks: seq<Tok>, m: Mode)
    requires ks != [] && ks[0] == ModeTok(m)
    ensures Starts(ks, "<>")
  {
  }

  /** Nothing else is read as redirections. */
  lemma {:induction false} RedirsOnly(t: string, s: nat, w: Wraps) returns (rs: seq<Redirect>)
    requires s <= |t| && '\0' !in t && ParseRedirs(t, s, w).Some?
    ensures RedirsOk(rs) && !Starts(Tokens(t, ParseRedirs(t, s, w).pos), "<>")
    ensures var r := ParseRedirs(t, s, w);
            Tokens(t, s) == RedirToks(rs) + Tokens(t, r.pos) && Wrapped(t, r.wrap) == Wrapped(t, w) + rs
    decreases |t| - s
  {
    hide Tokens, NextToken, Skip, Starts, Wrapped, TokOk, IsWord, ParseRedirs, Text;
    if !Starts(Tokens(t, s), "<>") {
      rs := [];
      RedirsNone(t, s, w);
      assert Wrapped(t, w) + rs == Wrapped(t, w) && RedirToks(rs) + Tokens(t, s) == Tokens(t, s);
    } else {
      var m, x, p := OneRedir(t, s, w);
      var more := RedirsOnly(t, p, w + [(x, m)]);
      WrappedMore(t, w, x, m);
      rs := [To(m, Text(t, x))] + more;
      assert rs[1..] == more;
      assert Tokens(t, s) == [ModeTok(m), Word(Text(t, x))] + Tokens(t, p);
    }
  }

  lemma Later(t: string, s: nat)
    requires s <= |t| && '\0' !in t && Tokens(t, s) != []
    ensures s < NextToken(t, s).pos
  {
  }

  lemma WordsAreWords(k: Tok)
    requires TokOk(k) && k.Word?
    ensures IsWord(k.w)
  {
  }

  // ----- simple commands -----

  /** What can come after a command, after a pipeline and after a line. */
  predicate CmdEnds(ks: seq<Tok>) { ks == [] || Starts(ks, "|)&;") }
  predicate PipeEnds(ks: seq<Tok>) { ks == [] || Starts(ks, ")&;") }
  predicate LineEnds(ks: seq<Tok>) { ks == [] || Starts(ks, ")") }

  lemma WordStarts(ks: seq<Tok>)
    requires ks != [] && TokOk(ks[0]) && ks[0].Word?
    ensures !Starts(ks, "<>") && !CmdEnds(ks) && !Starts(ks, "(")
  {
    assert WordChar(ks[0].w[0]);
  }

  lemma EndStarts(ks: seq<Tok>)
    requires CmdEnds(ks)
    ensures !Starts(ks, "<>") && !Starts(ks, "(")
  {
  }

  lemma EndsApart(ks: seq<Tok>)
    ensures LineEnds(ks) ==> PipeEnds(ks) && !Starts(ks, "&") && !Starts(ks, ";")
    ensures PipeEnds(ks) ==> CmdEnds(ks) && !Starts(ks, "|")
    ensures CmdEnds(ks) && !Starts(ks, "|") ==> PipeEnds(ks)
    ensures PipeEnds(ks) && !Starts(ks, "&") && !Starts(ks, ";") ==> LineEnds(ks)
  {
  }

  lemma TextsMore(t: string, xs: seq<Span>, x: Span)
    ensures Texts(t, xs + [x]) == Texts(t, xs) + [Text(t, x)]
  {
  }

  /** The end of a simple command. */
  lemma WordsEnd(t: string, s: nat, args: seq<Span>, w: Wraps)
    requires s <= |t| && '\0' !in t && CmdEnds(Tokens(t, s))
    ensures var r := ParseWords(t, s, args, w);
            && r.Ok? && Tokens(t, r.pos) == Tokens(t, s)
            && Deref(t, r.cmd) == Around(AExec(Texts(t, args)), Wrapped(t, w))
  {
    hide Tokens, NextToken, Skip, Starts, Wrapped, Texts;
    PeekIs(t, s, "|)&;");
    TokensSkip(t, s);
    TakeIs(t, s);
    WrapTree(t, Exec(args), w);
  }

  /** One more word, with what the redirections behind it give; or a panic. */
  lemma OneWord(t: string, s: nat, args: seq<Span>, w: Wraps) returns (x: Span, p: nat)
    requires s <= |t| && '\0' !in t && !CmdEnds(Tokens(t, s))
    ensures var ks := Tokens(t, s);
            && ks != []
            && if ks[0].Word? && |args| + 1 < MAXARGS then
                 && ks[0].w == Text(t, x) && TokOk(ks[0]) && s < p <= |t| && Tokens(t, p) == ks[1..]
                 && ParseWords(t, s, args, w) == match ParseRedirs(t, p, w)
                                                 case None => Panic
                                                 case Some(v, e) => ParseWords(t, e, args + [x], v)
               else ParseWords(t, s, args, w).Panic?
  {
    hide Tokens, NextToken, Skip, Starts, TokOk, ParseRedirs;
    PeekIs(t, s, "|)&;");
    TakeIs(t, s);
    Later(t, s);
    x, p := NextToken(t, s).span, NextToken(t, s).pos;
  }

  /** Words and the redirections behind them are read in order. */
  lemma {:induction false} WordsRead(t: string, s: nat, args: seq<Span>, w: Wraps, xs: seq<Arg>, rest: seq<Tok>)
    requires s <= |t| && '\0' !in t && Tokens(t, s) == ArgToks(xs) + rest && CmdEnds(rest) && |args| + |xs| < MAXARGS
    requires ArgsOk(xs)
    ensures var r := ParseWords(t, s, args, w);
            && r.Ok? && Tokens(t, r.pos) == rest
            && Deref(t, r.cmd) == Around(AExec(Texts(t, args) + WordsOf(xs)), Wrapped(t, w) + AfterOf(xs))
    decreases |xs|
  {
    hide Tokens, Starts, Wrapped, Texts, ParseWords, ParseRedirs, IsWord, Text, RedirToks, CmdEnds, Around, ArgToks, WordsOf, AfterOf;
    if xs == [] {
      NoArgs(Texts(t, args), Wrapped(t, w), rest);
      WordsEnd(t, s, args, w);
    } else {
      var ks, more := Tokens(t, s), ArgToks(xs[1..]) + rest;
      FirstArg(xs, Texts(t, args), Wrapped(t, w), rest);
      WordStarts(ks);
      var x, p := OneWord(t, s, args, w);
      ArgsStart(xs[1..], rest);
      RedirsRead(t, p, w, xs[0].after, more);
      var v := ParseRedirs(t, p, w);
      WordsRead(t, v.pos, args + [x], v.wrap, xs[1..], rest);
      TextsMore(t, args, x);
    }
  }

  lemma NoArgs(ws: seq<string>, rs: seq<Redirect>, rest: seq<Tok>)
    ensures ArgToks([]) + rest == rest && ws + WordsOf([]) == ws && rs + AfterOf([]) == rs
  {
  }

  lemma FirstArg(xs: seq<Arg>, ws: seq<string>, rs: seq<Redirect>, rest: seq<Tok>)
    requires xs != []
    ensures ArgToks(xs) + rest == [Word(xs[0].w)] + (RedirToks(xs[0].after) + (ArgToks(xs[1..]) + rest))
    ensures ws + WordsOf(xs) == ws + [xs[0].w] + WordsOf(xs[1..]) && rs + AfterOf(xs) == rs + xs[0].after + AfterOf(xs[1..])
  {
    hide RedirToks;
  }

  lemma ArgsStart(xs: seq<Arg>, rest: seq<Tok>)
    requires ArgsOk(xs) && CmdEnds(rest)
    ensures !Starts(ArgToks(xs) + rest, "<>") && !Starts(ArgToks(xs) + rest, "(")
  {
    var ks := ArgToks(xs) + rest;
    if xs == [] {
      assert ks == rest;
      EndStarts(rest);
    } else {
      assert ks[0] == Word(xs[0].w);
      WordStarts(ks);
    }
  }

  /** Nothing else is read as words. */
  lemma {:induction false} WordsOnly(t: string, s: nat, args: seq<Span>, w: Wraps) returns (xs: seq<Arg>)
    requires s <= |t| && '\0' !in t && ParseWords(t, s, args, w).Ok? && |args| < MAXARGS
    ensures ArgsOk(xs) && |args| + |xs| < MAXARGS
    ensures var r := ParseWords(t, s, args, w);
            && Tokens(t, s) == ArgToks(xs) + Tokens(t, r.pos) && CmdEnds(Tokens(t, r.pos))
            && Deref(t, r.cmd) == Around(AExec(Texts(t, args) + WordsOf(xs)), Wrapped(t, w) + AfterOf(xs))
    decreases |t| - s
  {
    hide Tokens, Starts, Wrapped, Texts, ParseWords, ParseRedirs, IsWord, Text, RedirToks, CmdEnds, Around, TokOk, ArgToks, WordsOf, AfterOf;
    if CmdEnds(Tokens(t, s)) {
      xs := [];
      WordsEnd(t, s, args, w);
      NoArgs(Texts(t, args), Wrapped(t, w), Tokens(t, s));
    } else {
      var x, p := OneWord(t, s, args, w);
      WordsAreWords(Tokens(t, s)[0]);
      var v := ParseRedirs(t, p, w);
      var rs := RedirsOnly(t, p, w);
      var ys := WordsOnly(t, v.pos, args + [x], v.wrap);
      xs := [Arg(Text(t, x), rs)] + ys;
      assert xs[1..] == ys;
      TextsMore(t, args, x);
      FirstArg(xs, Texts(t, args), Wrapped(t, w), Tokens(t, ParseWords(t, s, args, w).pos));
      assert Tokens(t, s) == [Word(Text(t, x))] + Tokens(t, p);
    }
  }

  // ----- completeness -----

  /** The parser has read a and has the tokens rest before it. */
  ghost predicate Reads(t: string, r: Res, a: Ast, rest: seq<Tok>) {
    r.Ok? && r.pos <= |t| && '\0' !in t && Deref(t, r.cmd) == a && Tokens(t, r.pos) == rest
  }

  lemma SimpleRead(t: string, s: nat, before: seq<Redirect>, args: seq<Arg>, rest: seq<Tok>)
    requires s <= |t| && '\0' !in t && CmdOk(Simple(before, args)) && Tokens(t, s) == CmdToks(Simple(before, args)) + rest && CmdEnds(rest)
    ensures Reads(t, ParseExec(t, s), CmdTree(Simple(before, args)), rest)
  {
    hide Tokens, Starts, Wrapped, ParseWords, ParseRedirs, RedirToks, ArgToks, Around, Texts, ParseBlock, Skip;
    var more := ArgToks(args) + rest;
    assert Tokens(t, s) == RedirToks(before) + more;
    ArgsStart(args, rest);
    NoParen(before, more);
    PeekIs(t, s, "(");
    RedirsRead(t, s, [], before, more);
    var v := ParseRedirs(t, s, []);
    WordsRead(t, v.pos, [], v.wrap, args, rest);
    NothingYet(t);
    assert [] + WordsOf(args) == WordsOf(args) && [] + before == before;
  }

  lemma NothingYet(t: string)
    ensures Texts(t, []) == [] && Wrapped(t, []) == []
  {
  }

  lemma NoParen(rs: seq<Redirect>, more: seq<Tok>)
    requires !Starts(more, "(")
    ensures !Starts(RedirToks(rs) + more, "(")
  {
    var ks := RedirToks(rs) + more;
    if rs == [] { assert ks == more; } else { assert ks[0] == ModeTok(rs[0].mode); }
  }

  /** A block reads as its line with the redirections behind it. */
  lemma BlockRead(t: string, s: nat, line: LineT, after: seq<Redirect>, rest: seq<Tok>)
    requires s <= |t| && '\0' !in t && CmdEnds(rest) && Tokens(t, s) == CmdToks(Block(line, after)) + rest
    requires var p := NextToken(t, s).pos;
             Tokens(t, p) == LineToks(line) + ([Sym(')')] + RedirToks(after) + rest) ==>
               Reads(t, ParseLine(t, p), LineTree(line), [Sym(')')] + RedirToks(after) + rest)
    ensures Reads(t, ParseExec(t, s), CmdTree(Block(line, after)), rest)
  {
    hide Tokens, Starts, Wrapped, ParseRedirs, RedirToks, Around, ParseLine, Skip, NextToken, LineToks, LineTree, TokOk, Deref;
    var close := [Sym(')')] + RedirToks(after) + rest;
    assert Tokens(t, s) == [Sym('(')] + (LineToks(line) + close);
    SymStarts(Tokens(t, s), "(");
    PeekIs(t, s, "(");
    TakeIs(t, s);
    PeekSkip(t, s, "(");
    var r := ParseLine(t, NextToken(t, s).pos);
    assert close[1..] == RedirToks(after) + rest;
    SymStarts(close, ")");
    PeekIs(t, r.pos, ")");
    TakeIs(t, r.pos);
    EndStarts(rest);
    RedirsRead(t, NextToken(t, r.pos).pos, [], after, rest);
    NothingYet(t);
    assert [] + after == after;
    WrapTree(t, r.cmd, ParseRedirs(t, NextToken(t, r.pos).pos, []).wrap);
  }

  lemma PeekSkip(t: string, s: nat, toks: string)
    requires s <= |t|
    ensures PeekAt(t, Skip(t, s), toks) <==> PeekAt(t, s, toks)
  {
    SkipTwice(t, s);
  }

  lemma SymStarts(ks: seq<Tok>, toks: string)
    requires ks != [] && ks[0].Sym? && ks[0].c in toks
    ensures Starts(ks, toks)
  {
  }

  lemma {:induction false} CmdRead(t: string, s: nat, c: CmdT, rest: seq<Tok>)
    requires s <= |t| && '\0' !in t && CmdOk(c) && Tokens(t, s) == CmdToks(c) + rest && CmdEnds(rest)
    ensures Reads(t, ParseExec(t, s), CmdTree(c), rest)
    decreases c
  {
    hide Tokens, Starts, Reads, ParseExec, ParseLine, CmdTree, CmdToks, NextToken, CmdEnds;
    match c
    case Simple(before, args) => SimpleRead(t, s, before, args, rest);
    case Block(line, after) =>
      var p, close := NextToken(t, s).pos, [Sym(')')] + RedirToks(after) + rest;
      ParenEnds(close);
      if Tokens(t, p) == LineToks(line) + close { LineRead(t, p, line, close); }
      BlockRead(t, s, line, after, rest);
  }

  lemma ParenEnds(ks: seq<Tok>)
    requires ks != [] && ks[0] == Sym(')')
    ensures LineEnds(ks)
  {
  }

  lemma {:induction false} PipeRead(t: string, s: nat, p: PipeT, rest: seq<Tok>)
    requires s <= |t| && '\0' !in t && PipeOk(p) && Tokens(t, s) == PipeToks(p) + rest && PipeEnds(rest)
    ensures Reads(t, ParsePipe(t, s), PipeTree(p), rest)
    decreases p
  {
    hide Tokens, Starts, ParseExec, CmdTree, CmdToks, NextToken, Skip, TokOk, CmdEnds, PipeEnds;
    EndsApart(rest);
    match p
    case One(c) =>
      CmdRead(t, s, c, rest);
      var e := ParseExec(t, s).pos;
      PeekIs(t, e, "|");
      TokensSkip(t, e);
    case Piped(c, more) =>
      var bar := [Sym('|')] + (PipeToks(more) + rest);
      assert Tokens(t, s) == CmdToks(c) + bar;
      BarEnds(bar);
      CmdRead(t, s, c, bar);
      var e := ParseExec(t, s).pos;
      PeekIs(t, e, "|");
      TakeIs(t, e);
      PipeRead(t, NextToken(t, e).pos, more, rest);
  }

  lemma BarEnds(ks: seq<Tok>)
    requires ks != [] && ks[0] == Sym('|')
    ensures CmdEnds(ks) && Starts(ks, "|")
  {
  }

  lemma {:induction false} AmpsRead(t: string, s: nat, c: Cmd, n: nat, rest: seq<Tok>)
    requires s <= |t| && '\0' !in t && Tokens(t, s) == Amps(n) + rest && !Starts(rest, "&")
    ensures var (d, p) := ParseAmps(t, s, c); Tokens(t, p) == rest && Deref(t, d) == Backs(Deref(t, c), n)
    decreases n
  {
    hide Tokens, Starts, NextToken, Skip, TokOk;
    PeekIs(t, s, "&");
    TokensSkip(t, s);
    if n == 0 {
      assert Amps(n) + rest == rest;
    } else {
      assert Tokens(t, s) == [Sym('&')] + (Amps(n - 1) + rest);
      SymStarts(Tokens(t, s), "&");
      TakeIs(t, s);
      AmpsRead(t, NextToken(t, s).pos, Back(c), n - 1, rest);
    }
  }

  lemma AmpsEnd(n: nat, rest: seq<Tok>)
    requires PipeEnds(rest)
    ensures PipeEnds(Amps(n) + rest)
  {
    var ks := Amps(n) + rest;
    if n == 0 { assert ks == rest; } else { assert ks[0] == Sym('&'); }
  }

  lemma SemiEnds(ks: seq<Tok>)
    requires ks != [] && ks[0] == Sym(';')
    ensures PipeEnds(ks) && Starts(ks, ";") && !Starts(ks, "&")
  {
  }

  lemma {:induction false} LineRead(t: string, s: nat, l: LineT, rest: seq<Tok>)
    requires s <= |t| && '\0' !in t && LineOk(l) && Tokens(t, s) == LineToks(l) + rest && LineEnds(rest)
    ensures Reads(t, ParseLine(t, s), LineTree(l), rest)
    decreases l
  {
    hide Tokens, Starts, ParsePipe, PipeTree, PipeToks, NextToken, Skip, TokOk, LineEnds, PipeEnds, ParseAmps, Amps;
    EndsApart(rest);
    match l
    case Last(p, n) =>
      assert Tokens(t, s) == PipeToks(p) + (Amps(n) + rest);
      AmpsEnd(n, rest);
      PipeRead(t, s, p, Amps(n) + rest);
      var r := ParsePipe(t, s);
      AmpsRead(t, r.pos, r.cmd, n, rest);
      var e := ParseAmps(t, r.pos, r.cmd).1;
      PeekIs(t, e, ";");
      TokensSkip(t, e);
    case Then(p, n, more) =>
      var semi := [Sym(';')] + (LineToks(more) + rest);
      assert Tokens(t, s) == PipeToks(p) + (Amps(n) + semi);
      SemiEnds(semi);
      AmpsEnd(n, semi);
      PipeRead(t, s, p, Amps(n) + semi);
      var r := ParsePipe(t, s);
      AmpsRead(t, r.pos, r.cmd, n, semi);
      var e := ParseAmps(t, r.pos, r.cmd).1;
      PeekIs(t, e, ";");
      TakeIs(t, e);
      LineRead(t, NextToken(t, e).pos, more, rest);
  }

  // ----- soundness -----

  /** The parser has read what is written as ks and means a. */
  ghost predicate Took(t: string, s: nat, r: Res, a: Ast, ks: seq<Tok>)
    requires s <= |t| && '\0' !in t
  {
    r.Ok? && r.pos <= |t| && Deref(t, r.cmd) == a && Tokens(t, s) == ks + Tokens(t, r.pos)
  }

  lemma SimpleOnly(t: string, s: nat) returns (c: CmdT)
    requires s <= |t| && '\0' !in t && !PeekAt(t, s, "(") && ParseExec(t, s).Ok?
    ensures CmdOk(c) && Took(t, s, ParseExec(t, s), CmdTree(c), CmdToks(c)) && CmdEnds(Tokens(t, ParseExec(t, s).pos))
  {
    hide Tokens, Starts, Wrapped, ParseWords, ParseRedirs, RedirToks, ArgToks, Around, Texts, Skip, PeekAt;
    var before := RedirsOnly(t, s, []);
    var v := ParseRedirs(t, s, []);
    var args := WordsOnly(t, v.pos, [], v.wrap);
    c := Simple(before, args);
    NothingYet(t);
    assert [] + WordsOf(args) == WordsOf(args) && [] + before == before;
    assert RedirToks(before) + (ArgToks(args) + Tokens(t, ParseExec(t, s).pos)) == CmdToks(c) + Tokens(t, ParseExec(t, s).pos);
  }

  /** The symbol that peek() has seen. */
  lemma SymIs(t: string, s: nat, c: char)
    requires s <= |t| && '\0' !in t && PeekAt(t, s, [c]) && c in "(|)&;"
    ensures var p := NextToken(t, s).pos;
            s < p <= |t| && NextToken(t, Skip(t, s)) == NextToken(t, s) && Tokens(t, s) == [Sym(c)] + Tokens(t, p)
  {
    hide Tokens, NextToken, Skip;
    PeekIs(t, s, [c]);
    TakeIs(t, s);
    Later(t, s);
  }

  lemma {:induction false} CmdOnly(t: string, s: nat) returns (c: CmdT)
    requires s <= |t| && '\0' !in t && ParseExec(t, s).Ok?
    ensures CmdOk(c) && Took(t, s, ParseExec(t, s), CmdTree(c), CmdToks(c))
    ensures Starts(Tokens(t, s), "(") || CmdEnds(Tokens(t, ParseExec(t, s).pos))
    decreases |t| - s, 1
  {
    hide Tokens, Starts, Wrapped, ParseLine, ParseRedirs, RedirToks, Around, Skip, NextToken, PeekAt, CmdEnds, Deref,
         LineToks, LineTree, LineOk;
    if PeekAt(t, s, "(") {
      SymIs(t, s, '(');
      PeekIs(t, s, "(");
      PeekSkip(t, s, "(");
      var open := NextToken(t, s).pos;
      var line := ParseLine(t, open);
      var l := LineOnly(t, open);
      SymIs(t, line.pos, ')');
      var close := NextToken(t, line.pos).pos;
      var after := RedirsOnly(t, close, []);
      var v := ParseRedirs(t, close, []);
      NothingYet(t);
      assert [] + after == after;
      WrapTree(t, line.cmd, v.wrap);
      c := Block(l, after);
      assert Tokens(t, s) == CmdToks(c) + Tokens(t, v.pos);
    } else {
      c := SimpleOnly(t, s);
    }
  }

  lemma {:induction false} PipeOnly(t: string, s: nat) returns (p: PipeT)
    requires s <= |t| && '\0' !in t && ParsePipe(t, s).Ok?
    ensures PipeOk(p) && Took(t, s, ParsePipe(t, s), PipeTree(p), PipeToks(p))
    decreases |t| - s, 2
  {
    hide Tokens, Starts, ParseExec, Skip, NextToken, PeekAt, CmdEnds, CmdToks, CmdTree, CmdOk;
    var c := CmdOnly(t, s);
    var e := ParseExec(t, s).pos;
    if PeekAt(t, e, "|") {
      SymIs(t, e, '|');
      var rest := PipeOnly(t, NextToken(t, e).pos);
      p := Piped(c, rest);
      assert Tokens(t, s) == PipeToks(p) + Tokens(t, ParsePipe(t, s).pos);
    } else {
      TokensSkip(t, e);
      p := One(c);
    }
  }

  lemma {:induction false} AmpsOnly(t: string, s: nat, c: Cmd) returns (n: nat)
    requires s <= |t| && '\0' !in t
    ensures var (d, p) := ParseAmps(t, s, c); Tokens(t, s) == Amps(n) + Tokens(t, p) && Deref(t, d) == Backs(Deref(t, c), n)
    decreases |t| - s
  {
    hide Tokens, NextToken, Skip, PeekAt;
    if PeekAt(t, s, "&") {
      SymIs(t, s, '&');
      var k := AmpsOnly(t, NextToken(t, s).pos, Back(c));
      n := k + 1;
      assert [Sym('&')] + Amps(k) == Amps(n);
    } else {
      n := 0;
      TokensSkip(t, s);
      assert Amps(0) + Tokens(t, s) == Tokens(t, s);
    }
  }

  lemma {:induction false} LineOnly(t: string, s: nat) returns (l: LineT)
    requires s <= |t| && '\0' !in t && ParseLine(t, s).Ok?
    ensures LineOk(l) && Took(t, s, ParseLine(t, s), LineTree(l), LineToks(l))
    decreases |t| - s, 3
  {
    hide Tokens, Starts, ParsePipe, Skip, NextToken, PeekAt, PipeToks, PipeTree, PipeOk, ParseAmps, Amps;
    var p := PipeOnly(t, s);
    var r := ParsePipe(t, s);
    var n := AmpsOnly(t, r.pos, r.cmd);
    var e := ParseAmps(t, r.pos, r.cmd).1;
    if PeekAt(t, e, ";") {
      SymIs(t, e, ';');
      var rest := LineOnly(t, NextToken(t, e).pos);
      l := Then(p, n, rest);
      assert Tokens(t, s) == LineToks(l) + Tokens(t, ParseLine(t, s).pos);
    } else {
      TokensSkip(t, e);
      l := Last(p, n);
      assert Tokens(t, s) == LineToks(l) + Tokens(t, ParseLine(t, s).pos);
    }
  }

  // ----- the main results -----

  /**
    The parser reads every line of the language, however it is laid out: simple commands with
    redirections before, between and after their words, blocks, pipelines, lists and background
    commands, each as the tree it means.
  */
  lemma ParsesAll(l: LineT, gs: seq<string>)
    requires LineOk(l) && LayOk(LineToks(l), gs)
    ensures var t := Lay(LineToks(l), gs);
            '\0' !in t && ParseCmd(t).Ok? && Deref(t, ParseCmd(t).cmd) == LineTree(l)
  {
    hide Tokens, ParseLine, LineToks, LineTree, LineOk, Skip, Deref, LayOk;
    var ks := LineToks(l);
    LayNoNul(ks, gs);
    var t := Lay(ks, gs);
    assert t[0..] == t;
    LaidOut(t, 0, ks, gs);
    assert ks + [] == ks;
    LineRead(t, 0, l, []);
    NothingLeft(t, ParseLine(t, 0).pos);
  }

  lemma NothingLeft(t: string, s: nat)
    requires s <= |t| && '\0' !in t
    ensures Skip(t, s) == |t| <==> Tokens(t, s) == []
  {
    hide Tokens, TokOk, Spelled;
    NextIs(t, s);
  }

  lemma {:induction false} LayNoNul(ks: seq<Tok>, gs: seq<string>)
    requires LayOk(ks, gs)
    ensures |gs| == |ks| + 1 && '\0' !in Lay(ks, gs)
    decreases |ks|
  {
    if ks != [] {
      LayTail(ks, gs);
      LayNoNul(ks[1..], gs[1..]);
      SpelledNoNul(ks[0]);
    }
  }

  lemma SpelledNoNul(k: Tok)
    requires TokOk(k)
    ensures '\0' !in Spelled(k)
  {
  }

  /** And it reads nothing else: what it accepts is a line of the language, laid out, and the tree is what that line means. */
  lemma ParsesOnly(t: string) returns (l: LineT, gs: seq<string>)
    requires '\0' !in t && ParseCmd(t).Ok?
    ensures LineOk(l) && LayOk(LineToks(l), gs) && t == Lay(LineToks(l), gs)
    ensures Deref(t, ParseCmd(t).cmd) == LineTree(l)
  {
    hide Tokens, ParseLine, LineToks, LineTree, LineOk, Skip, Deref, LayOk;
    l := LineOnly(t, 0);
    NothingLeft(t, ParseLine(t, 0).pos);
    assert LineToks(l) + [] == LineToks(l);
    gs := LayoutOf(t, 0);
    assert t[0..] == t;
  }

  // ----- every tree can be written -----

  /** At most nine words a command, none of them empty or with special characters. */
  predicate WellFormed(a: Ast) {
    match a
    case AExec(ws) => |ws| < MAXARGS && forall i :: 0 <= i < |ws| ==> IsWord(ws[i])
    case ARedir(sub, f, _) => WellFormed(sub) && IsWord(f)
    case APipe(l, r) => WellFormed(l) && WellFormed(r)
    case AList(l, r) => WellFormed(l) && WellFormed(r)
    case ABack(sub) => WellFormed(sub)
  }

  function Parens(l: LineT, rs: seq<Redirect>): PipeT { One(Block(l, rs)) }

  /** The fully parenthesised form of a tree. */
  function Full(a: Ast): LineT {
    match a
    case AExec(ws) => Last(One(Simple([], seq(|ws|, i requires 0 <= i < |ws| => Arg(ws[i], [])))), 0)
    case ARedir(sub, f, m) => Last(Parens(Full(sub), [To(m, f)]), 0)
    case APipe(l, r) => Last(Piped(Block(Full(l), []), Parens(Full(r), [])), 0)
    case AList(l, r) => Then(Parens(Full(l), []), 0, Last(Parens(Full(r), []), 0))
    case ABack(sub) => Last(Parens(Full(sub), []), 1)
  }

  lemma {:induction false} PlainWords(ws: seq<string>, xs: seq<Arg>)
    requires |xs| == |ws| && forall i :: 0 <= i < |ws| ==> xs[i] == Arg(ws[i], [])
    ensures WordsOf(xs) == ws && AfterOf(xs) == []
  {
    if ws != [] { PlainWords(ws[1..], xs[1..]); }
  }

  lemma {:induction false} FullMeans(a: Ast)
    requires WellFormed(a)
    ensures LineOk(Full(a)) && LineTree(Full(a)) == a
    decreases a
  {
    match a
    case AExec(ws) =>
      var c := Full(a).pipe.cmd;
      PlainWords(ws, c.args);
      assert CmdTree(c) == Around(AExec(ws), [] + []) == a;
      assert PipeTree(Full(a).pipe) == a;
    case ARedir(sub, f, m) =>
      FullMeans(sub);
      ParensMean(Full(sub), [To(m, f)]);
      assert [To(m, f)][1..] == [];
      assert Around(ARedir(sub, f, m), []) == ARedir(sub, f, m);
    case APipe(l, r) =>
      FullMeans(l);
      FullMeans(r);
      ParensMean(Full(l), []);
      ParensMean(Full(r), []);
      assert PipeOk(Full(a).pipe) && PipeTree(Full(a).pipe) == a;
    case AList(l, r) =>
      FullMeans(l);
      FullMeans(r);
      ParensMean(Full(l), []);
      ParensMean(Full(r), []);
      assert LineOk(Full(a).rest) && LineTree(Full(a).rest) == r;
    case ABack(sub) =>
      FullMeans(sub);
      ParensMean(Full(sub), []);
      assert Backs(ABack(sub), 0) == ABack(sub);
  }

  lemma ParensMean(l: LineT, rs: seq<Redirect>)
    requires LineOk(l) && RedirsOk(rs)
    ensures CmdOk(Block(l, rs)) && CmdTree(Block(l, rs)) == Around(LineTree(l), rs)
    ensures PipeOk(Parens(l, rs)) && PipeTree(Parens(l, rs)) == Around(LineTree(l), rs)
  {
  }

  /** The tokens of a tree with a space around each of them. */
  function Print(a: Ast): string {
    var ks := LineToks(Full(a));
    Lay(ks, seq(|ks| + 1, _ => " "))
  }

  /** Parsing the printed form of any well-formed tree returns that tree. */
  lemma RoundTrip(a: Ast)
    requires WellFormed(a)
    ensures '\0' !in Print(a)
    ensures ParseCmd(Print(a)).Ok? && Deref(Print(a), ParseCmd(Print(a)).cmd) == a
  {
    hide ParseCmd, Deref, LineToks, LineTree, LineOk;
    FullMeans(a);
    var ks := LineToks(Full(a));
    LineToksOk(Full(a));
    ParsesAll(Full(a), seq(|ks| + 1, _ => " "));
  }

  ghost predicate AllOk(ks: seq<Tok>) { forall i :: 0 <= i < |ks| ==> TokOk(ks[i]) }

  lemma {:induction false} RedirToksOk(rs: seq<Redirect>)
    requires RedirsOk(rs)
    ensures AllOk(RedirToks(rs))
  {
    if rs != [] { RedirToksOk(rs[1..]); }
  }

  lemma {:induction false} ArgToksOk(xs: seq<Arg>)
    requires ArgsOk(xs)
    ensures AllOk(ArgToks(xs))
  {
    if xs != [] {
      RedirToksOk(xs[0].after);
      ArgToksOk(xs[1..]);
    }
  }

  lemma {:induction false} CmdToksOk(c: CmdT)
    requires CmdOk(c)
    ensures AllOk(CmdToks(c))
    decreases c
  {
    match c
    case Simple(before, args) => RedirToksOk(before); ArgToksOk(args);
    case Block(line, after) => LineToksOk(line); RedirToksOk(after);
  }

  lemma {:induction false} PipeToksOk(p: PipeT)
    requires PipeOk(p)
    ensures AllOk(PipeToks(p))
    decreases p
  {
    CmdToksOk(p.cmd);
    if p.Piped? { PipeToksOk(p.rest); }
  }

  lemma {:induction false} LineToksOk(l: LineT)
    requires LineOk(l)
    ensures AllOk(LineToks(l))
    decreases l
  {
    PipeToksOk(l.pipe);
    if l.Then? { LineToksOk(l.rest); }
  }
}
