/**
  The parser of the shell (user/sh.c). The input is a sequence of characters other than NUL; a
  cursor is an index into it, and the end of the sequence stands for the terminating NUL. The
  functions define what the parser computes, the methods compute it as the source does, with
  loops that advance the cursor.
*/
module Shell {
  const MAXARGS: nat := 10

  const WHITESPACE: string := " \t\r\n\U{000b}"
  const SYMBOLS: string := "<|>&;()"

  predicate Space(c: char) { c == ' ' || c == '\t' || c == '\r' || c == '\n' || c == '\U{000b}' }
  predicate Symbol(c: char) { c == '<' || c == '|' || c == '>' || c == '&' || c == ';' || c == '(' || c == ')' }
  predicate WordChar(c: char) { !Space(c) && !Symbol(c) && c != '\0' }

  /** A token's place in the input. */
  datatype Span = Span(q: nat, eq: nat)

  datatype Mode = Read | Write | Append

  /** The parsed command; words and file names point into the input. */
  datatype Cmd =
    | Exec(args: seq<Span>)
    | Redir(sub: Cmd, file: Span, mode: Mode)
    | Pipe(left: Cmd, right: Cmd)
    | List(left: Cmd, right: Cmd)
    | Back(sub: Cmd)

  /** A command and the cursor after it, or a panic. */
  datatype Res = Ok(cmd: Cmd, pos: nat) | Panic

  // ----- tokens -----

  /** The first index from s on that holds no white space. */
  function Skip(t: string, s: nat): (r: nat)
    requires s <= |t|
    ensures s <= r <= |t| && (r < |t| ==> !Space(t[r])) && forall k :: s <= k < r ==> Space(t[k])
    decreases |t| - s
  {
    if s < |t| && Space(t[s]) then Skip(t, s + 1) else s
  }

  /** The end of the word that starts at s. */
  function WordEnd(t: string, s: nat): (r: nat)
    requires s <= |t|
    ensures s <= r <= |t| && (r < |t| ==> !WordChar(t[r])) && forall k :: s <= k < r ==> WordChar(t[k])
    decreases |t| - s
  {
    if s < |t| && WordChar(t[s]) then WordEnd(t, s + 1) else s
  }

  /** What gettoken() returns: the kind of token, its span and the cursor after it. */
  datatype Token = Token(kind: char, span: Span, pos: nat)

  function TokenEnd(t: string, s: nat): (r: nat)
    requires s < |t| && !Space(t[s]) && t[s] != '\0'
    ensures s < r <= |t|
  {
    if t[s] == '>' && s + 1 < |t| && t[s + 1] == '>' then s + 2
    else if Symbol(t[s]) then s + 1
    else WordEnd(t, s)
  }

  function NextToken(t: string, s: nat): (r: Token)
    requires s <= |t| && '\0' !in t
    ensures s <= r.pos <= |t| && (r.kind != '\0' ==> s < r.pos)
    ensures r.kind == '\0' <==> Skip(t, s) == |t|
    ensures r.kind == 'a' ==> SpanOk(t, r.span)
  {
    var q := Skip(t, s);
    if q == |t| then Token('\0', Span(q, q), q)
    else
      var e := TokenEnd(t, q);
      Token(if e == q + 2 && t[q] == '>' then '+' else if Symbol(t[q]) then t[q] else 'a', Span(q, e), Skip(t, e))
  }

  /** A span is exactly a word of the input. */
  ghost predicate SpanOk(t: string, x: Span) {
    x.q < x.eq <= |t| && (forall k :: x.q <= k < x.eq ==> WordChar(t[k])) && (x.eq < |t| ==> !WordChar(t[x.eq]))
  }

  predicate PeekAt(t: string, s: nat, toks: string)
    requires s <= |t|
  {
    var q := Skip(t, s);
    q < |t| && t[q] in toks
  }

  // ----- what the parser computes -----

  function ModeOf(kind: char): Mode { if kind == '<' then Read else if kind == '>' then Write else Append }

  /** Redirections around a command, from the inside out. */
  type Wraps = seq<(Span, Mode)>

  function Wrap(c: Cmd, wrap: Wraps): Cmd {
    if wrap == [] then c
    else var n := |wrap| - 1; Redir(Wrap(c, wrap[..n]), wrap[n].0, wrap[n].1)
  }

  datatype Redirs = Some(wrap: Wraps, pos: nat) | None

  /** The redirections at s, added to those in wrap. */
  function ParseRedirs(t: string, s: nat, wrap: Wraps): (r: Redirs)
    requires s <= |t| && '\0' !in t
    ensures r.Some? ==> s <= r.pos <= |t|
    decreases |t| - s
  {
    if !PeekAt(t, s, "<>") then Some(wrap, Skip(t, s))
    else
      var tok := NextToken(t, Skip(t, s));
      var f := NextToken(t, tok.pos);
      if f.kind != 'a' then None else ParseRedirs(t, f.pos, wrap + [(f.span, ModeOf(tok.kind))])
  }

  /** The words of a simple command: args are those read so far, wrap the redirections. */
  function ParseWords(t: string, s: nat, args: seq<Span>, wrap: Wraps): (r: Res)
    requires s <= |t| && '\0' !in t
    ensures r.Ok? ==> s <= r.pos <= |t|
    decreases |t| - s
  {
    if PeekAt(t, s, "|)&;") then Ok(Wrap(Exec(args), wrap), Skip(t, s))
    else
      var tok := NextToken(t, Skip(t, s));
      if tok.kind == '\0' then Ok(Wrap(Exec(args), wrap), tok.pos)
      else if tok.kind != 'a' then Panic
      else if |args| + 1 >= MAXARGS then Panic
      else
        match ParseRedirs(t, tok.pos, wrap)
        case None => Panic
        case Some(w, p) => ParseWords(t, p, args + [tok.span], w)
  }

  function ParseExec(t: string, s: nat): (r: Res)
    requires s <= |t| && '\0' !in t
    ensures r.Ok? ==> s <= r.pos <= |t|
    decreases |t| - s, 1
  {
    if PeekAt(t, s, "(") then ParseBlock(t, Skip(t, s))
    else
      match ParseRedirs(t, s, [])
      case None => Panic
      case Some(w, p) => ParseWords(t, p, [], w)
  }

  function ParseBlock(t: string, s: nat): (r: Res)
    requires s <= |t| && '\0' !in t && PeekAt(t, s, "(")
    ensures r.Ok? ==> s <= r.pos <= |t|
    decreases |t| - s, 0
  {
    var open := NextToken(t, s);
    match ParseLine(t, open.pos)
    case Panic => Panic
    case Ok(c, p) =>
      if !PeekAt(t, p, ")") then Panic
      else
        match ParseRedirs(t, NextToken(t, p).pos, [])
        case None => Panic
        case Some(w, e) => Ok(Wrap(c, w), e)
  }

  function ParsePipe(t: string, s: nat): (r: Res)
    requires s <= |t| && '\0' !in t
    ensures r.Ok? ==> s <= r.pos <= |t|
    decreases |t| - s, 2
  {
    match ParseExec(t, s)
    case Panic => Panic
    case Ok(c, p) =>
      if !PeekAt(t, p, "|") then Ok(c, Skip(t, p))
      else
        match ParsePipe(t, NextToken(t, p).pos)
        case Panic => Panic
        case Ok(d, e) => Ok(Pipe(c, d), e)
  }

  function ParseAmps(t: string, s: nat, c: Cmd): (r: (Cmd, nat))
    requires s <= |t| && '\0' !in t
    ensures s <= r.1 <= |t|
    decreases |t| - s
  {
    if !PeekAt(t, s, "&") then (c, Skip(t, s)) else ParseAmps(t, NextToken(t, s).pos, Back(c))
  }

  function ParseLine(t: string, s: nat): (r: Res)
    requires s <= |t| && '\0' !in t
    ensures r.Ok? ==> s <= r.pos <= |t|
    decreases |t| - s, 3
  {
    match ParsePipe(t, s)
    case Panic => Panic
    case Ok(c0, p0) =>
      var (c, p) := ParseAmps(t, p0, c0);
      if !PeekAt(t, p, ";") then Ok(c, Skip(t, p))
      else
        match ParseLine(t, NextToken(t, p).pos)
        case Panic => Panic
        case Ok(d, e) => Ok(List(c, d), e)
  }

  /** The whole input must be one line; anything left over is a syntax error. */
  function ParseCmd(t: string): (r: Res)
    requires '\0' !in t
  {
    match ParseLine(t, 0)
    case Panic => Panic
    case Ok(c, p) => if Skip(t, p) == |t| then Ok(c, |t|) else Panic
  }

  // ----- the code -----

  lemma {:induction false} SkipTwice(t: string, s: nat)
    requires s <= |t|
    ensures Skip(t, Skip(t, s)) == Skip(t, s)
    decreases |t| - s
  {
    if s < |t| && Space(t[s]) { SkipTwice(t, s + 1); }
  }

  lemma {:induction false} SkipFrom(t: string, s: nat, r: nat)
    requires s <= r <= |t| && forall k :: s <= k < r ==> Space(t[k])
    ensures Skip(t, s) == Skip(t, r)
    decreases r - s
  {
    if s < r { SkipFrom(t, s + 1, r); }
  }

  /** The loop with which gettoken() and peek() pass over white space. */
  method SkipSpaces(t: string, s: nat) returns (r: nat)
    requires s <= |t|
    ensures r == Skip(t, s)
  {
    r := s;
    while r < |t| && t[r] in WHITESPACE
      invariant s <= r <= |t| && forall k :: s <= k < r ==> Space(t[k])
    {
      r := r + 1;
    }
    SkipFrom(t, s, r);
  }

  /** peek() */
  method Peek(t: string, s: nat, toks: string) returns (found: bool, p: nat)
    requires s <= |t|
    ensures p == Skip(t, s) && found == PeekAt(t, s, toks)
  {
    p := SkipSpaces(t, s);
    found := p < |t| && t[p] in toks;
  }

  /** The default case of gettoken(). */
  method ScanWord(t: string, q: nat) returns (e: nat)
    requires q <= |t| && '\0' !in t
    ensures e == WordEnd(t, q)
  {
    e := q;
    while e < |t| && t[e] !in WHITESPACE && t[e] !in SYMBOLS
      invariant q <= e <= |t| && WordEnd(t, q) == WordEnd(t, e)
    {
      assert t[e] in t;
      e := e + 1;
    }
  }

  /** gettoken() */
  method GetToken(t: string, s: nat) returns (tok: Token)
    requires s <= |t| && '\0' !in t
    ensures tok == NextToken(t, s)
  {
    var q := SkipSpaces(t, s);
    if q == |t| { return Token('\0', Span(q, q), q); }
    var kind, e := t[q], q;
    match t[q] {
      case '|' => e := q + 1;
      case '(' => e := q + 1;
      case ')' => e := q + 1;
      case ';' => e := q + 1;
      case '&' => e := q + 1;
      case '<' => e := q + 1;
      case '>' =>
        e := q + 1;
        if e < |t| && t[e] == '>' { kind, e := '+', e + 1; }
      case _ =>
        kind := 'a';
        e := ScanWord(t, q);
    }
    var p := SkipSpaces(t, e);
    tok := Token(kind, Span(q, e), p);
  }

  /** parseredirs() */
  method RunRedirs(t: string, s: nat, w: Wraps) returns (r: Redirs)
    requires s <= |t| && '\0' !in t
    ensures r == ParseRedirs(t, s, w)
  {
    hide Skip, NextToken;
    var wrap, p := w, s;
    var more;
    more, p := Peek(t, p, "<>");
    SkipTwice(t, s);
    while more
      invariant p <= |t| && Skip(t, p) == p && more == PeekAt(t, p, "<>") && ParseRedirs(t, s, w) == ParseRedirs(t, p, wrap)
      decreases |t| - p
    {
      var tok := GetToken(t, p);
      var f := GetToken(t, tok.pos);
      if f.kind != 'a' { return None; }
      wrap := wrap + [(f.span, ModeOf(tok.kind))];
      SkipTwice(t, f.pos);
      more, p := Peek(t, f.pos, "<>");
    }
    r := Some(wrap, p);
  }

  /** parseexec() */
  method RunExec(t: string, s: nat) returns (r: Res)
    requires s <= |t| && '\0' !in t
    ensures r == ParseExec(t, s)
    decreases |t| - s, 1
  {
    hide Skip, NextToken;
    var block, p := Peek(t, s, "(");
    SkipTwice(t, s);
    if block {
      r := RunBlock(t, p);
      return;
    }
    var w := RunRedirs(t, p, []);
    RedirsSkip(t, s, []);
    if w.None? { return Panic; }
    var args, wrap: Wraps := [], w.wrap;
    p := w.pos;
    while true
      invariant p <= |t| && s <= p && ParseExec(t, s) == ParseWords(t, p, args, wrap)
      decreases |t| - p
    {
      var stop, p' := Peek(t, p, "|)&;");
      if stop { return Ok(Wrap(Exec(args), wrap), p'); }
      var tok := GetToken(t, p');
      if tok.kind == '\0' { return Ok(Wrap(Exec(args), wrap), tok.pos); }
      if tok.kind != 'a' { return Panic; }
      args := args + [tok.span];
      if |args| >= MAXARGS { return Panic; }
      w := RunRedirs(t, tok.pos, wrap);
      if w.None? { return Panic; }
      p, wrap := w.pos, w.wrap;
    }
  }

  lemma RedirsSkip(t: string, s: nat, w: Wraps)
    requires s <= |t| && '\0' !in t
    ensures ParseRedirs(t, Skip(t, s), w) == ParseRedirs(t, s, w)
  {
    hide NextToken;
    SkipTwice(t, s);
  }

  /** parseblock() */
  method RunBlock(t: string, s: nat) returns (r: Res)
    requires s <= |t| && '\0' !in t && PeekAt(t, s, "(") && Skip(t, s) == s
    ensures r == ParseBlock(t, s)
    decreases |t| - s, 0
  {
    hide Skip;
    var open := GetToken(t, s);
    var line := RunLine(t, open.pos);
    if line.Panic? { return Panic; }
    var close, p := Peek(t, line.pos, ")");
    if !close { return Panic; }
    TokenSkip(t, line.pos);
    var tok := GetToken(t, p);
    var w := RunRedirs(t, tok.pos, []);
    if w.None? { return Panic; }
    r := Ok(Wrap(line.cmd, w.wrap), w.pos);
  }

  lemma TokenSkip(t: string, s: nat)
    requires s <= |t| && '\0' !in t
    ensures NextToken(t, Skip(t, s)) == NextToken(t, s)
  {
    SkipTwice(t, s);
  }

  /** parsepipe() */
  method RunPipe(t: string, s: nat) returns (r: Res)
    requires s <= |t| && '\0' !in t
    ensures r == ParsePipe(t, s)
    decreases |t| - s, 2
  {
    hide Skip;
    r := RunExec(t, s);
    if r.Panic? { return; }
    TokenSkip(t, r.pos);
    var more, p := Peek(t, r.pos, "|");
    if !more { return Ok(r.cmd, p); }
    var tok := GetToken(t, p);
    var right := RunPipe(t, tok.pos);
    if right.Panic? { return Panic; }
    r := Ok(Pipe(r.cmd, right.cmd), right.pos);
  }

  /** parseline() */
  method RunLine(t: string, s: nat) returns (r: Res)
    requires s <= |t| && '\0' !in t
    ensures r == ParseLine(t, s)
    decreases |t| - s, 3
  {
    hide Skip, ParseBlock, ParseExec;
    r := RunPipe(t, s);
    if r.Panic? { return; }
    var cmd, p := r.cmd, r.pos;
    while true
      invariant s <= p <= |t| && ParseAmps(t, r.pos, r.cmd) == ParseAmps(t, p, cmd)
      decreases |t| - p
    {
      TokenSkip(t, p);
      var amp, p' := Peek(t, p, "&");
      if !amp {
        p := p';
        break;
      }
      var tok := GetToken(t, p');
      cmd, p := Back(cmd), tok.pos;
    }
    SkipTwice(t, p);
    var semi, p' := Peek(t, p, ";");
    if !semi { return Ok(cmd, p'); }
    TokenSkip(t, p);
    var tok := GetToken(t, p');
    var rest := RunLine(t, tok.pos);
    if rest.Panic? { return Panic; }
    r := Ok(List(cmd, rest.cmd), rest.pos);
  }

  // ----- nulterminate() -----

  ghost function SpanSet(xs: seq<Span>): set<Span> { set x | x in xs }

  ghost function Spans(c: Cmd): set<Span> {
    match c
    case Exec(args) => SpanSet(args)
    case Redir(sub, f, _) => Spans(sub) + {f}
    case Pipe(l, r) => Spans(l) + Spans(r)
    case List(l, r) => Spans(l) + Spans(r)
    case Back(sub) => Spans(sub)
  }

  /** Every word and file name of a command is a word of the input. */
  ghost predicate SpansOk(t: string, c: Cmd) { forall x :: x in Spans(c) ==> SpanOk(t, x) }

  ghost predicate WrapsOk(t: string, w: Wraps) { forall k :: 0 <= k < |w| ==> SpanOk(t, w[k].0) }

  lemma {:induction false} WrapSpans(t: string, c: Cmd, w: Wraps)
    requires SpansOk(t, c) && WrapsOk(t, w)
    ensures SpansOk(t, Wrap(c, w))
    decreases |w|
  {
    if w != [] { WrapSpans(t, c, w[..|w| - 1]); }
  }

  lemma {:induction false} RedirsSpans(t: string, s: nat, w: Wraps)
    requires s <= |t| && '\0' !in t && WrapsOk(t, w)
    ensures ParseRedirs(t, s, w).Some? ==> WrapsOk(t, ParseRedirs(t, s, w).wrap)
    decreases |t| - s
  {
    hide NextToken, Skip;
    if PeekAt(t, s, "<>") {
      var tok := NextToken(t, Skip(t, s));
      var f := NextToken(t, tok.pos);
      if f.kind == 'a' { RedirsSpans(t, f.pos, w + [(f.span, ModeOf(tok.kind))]); }
    }
  }

  lemma {:induction false} WordsSpans(t: string, s: nat, args: seq<Span>, w: Wraps)
    requires s <= |t| && '\0' !in t && WrapsOk(t, w) && forall k :: 0 <= k < |args| ==> SpanOk(t, args[k])
    ensures ParseWords(t, s, args, w).Ok? ==> SpansOk(t, ParseWords(t, s, args, w).cmd)
    decreases |t| - s
  {
    hide NextToken, Skip, SpanOk, ParseRedirs;
    WrapSpans(t, Exec(args), w);
    if !PeekAt(t, s, "|)&;") {
      var tok := NextToken(t, Skip(t, s));
      if tok.kind == 'a' && |args| + 1 < MAXARGS {
        RedirsSpans(t, tok.pos, w);
        var m := ParseRedirs(t, tok.pos, w);
        if m.Some? { WordsSpans(t, m.pos, args + [tok.span], m.wrap); }
      }
    }
  }

  lemma {:induction false} ExecSpans(t: string, s: nat)
    requires s <= |t| && '\0' !in t
    ensures ParseExec(t, s).Ok? ==> SpansOk(t, ParseExec(t, s).cmd)
    decreases |t| - s, 1
  {
    hide NextToken, Skip, SpansOk, ParseRedirs, ParseWords, ParseLine;
    if PeekAt(t, s, "(") {
      SkipTwice(t, s);
      var p := Skip(t, s);
      var open := NextToken(t, p);
      LineSpans(t, open.pos);
      var line := ParseLine(t, open.pos);
      if line.Ok? && PeekAt(t, line.pos, ")") {
        RedirsSpans(t, NextToken(t, line.pos).pos, []);
        var m := ParseRedirs(t, NextToken(t, line.pos).pos, []);
        if m.Some? { WrapSpans(t, line.cmd, m.wrap); }
      }
    } else {
      RedirsSpans(t, s, []);
      var m := ParseRedirs(t, s, []);
      if m.Some? { WordsSpans(t, m.pos, [], m.wrap); }
    }
  }

  lemma {:induction false} PipeSpans(t: string, s: nat)
    requires s <= |t| && '\0' !in t
    ensures ParsePipe(t, s).Ok? ==> SpansOk(t, ParsePipe(t, s).cmd)
    decreases |t| - s, 2
  {
    hide NextToken, Skip, SpanOk, ParseExec;
    ExecSpans(t, s);
    var r := ParseExec(t, s);
    if r.Ok? && PeekAt(t, r.pos, "|") { PipeSpans(t, NextToken(t, r.pos).pos); }
  }

  lemma {:induction false} AmpsSpans(t: string, s: nat, c: Cmd)
    requires s <= |t| && '\0' !in t && SpansOk(t, c)
    ensures SpansOk(t, ParseAmps(t, s, c).0)
    decreases |t| - s
  {
    hide NextToken, Skip, SpanOk;
    if PeekAt(t, s, "&") { AmpsSpans(t, NextToken(t, s).pos, Back(c)); }
  }

  lemma {:induction false} LineSpans(t: string, s: nat)
    requires s <= |t| && '\0' !in t
    ensures ParseLine(t, s).Ok? ==> SpansOk(t, ParseLine(t, s).cmd)
    decreases |t| - s, 3
  {
    hide NextToken, Skip, SpanOk, ParsePipe, ParseAmps;
    PipeSpans(t, s);
    var r := ParsePipe(t, s);
    if r.Ok? {
      AmpsSpans(t, r.pos, r.cmd);
      var p := ParseAmps(t, r.pos, r.cmd).1;
      if PeekAt(t, p, ";") { LineSpans(t, NextToken(t, p).pos); }
    }
  }

  // ----- no two words share a character -----

  /** All words and file names of a command, each as often as it occurs in the tree. */
  function Words(c: Cmd): seq<Span> {
    match c
    case Exec(args) => args
    case Redir(sub, f, _) => Words(sub) + [f]
    case Pipe(l, r) => Words(l) + Words(r)
    case List(l, r) => Words(l) + Words(r)
    case Back(sub) => Words(sub)
  }

  lemma {:induction false} WordsAll(c: Cmd, x: Span)
    ensures x in Words(c) <==> x in Spans(c)
  {
    match c
    case Exec(args) =>
    case Redir(sub, f, _) => WordsAll(sub, x);
    case Pipe(l, r) => WordsAll(l, x); WordsAll(r, x);
    case List(l, r) => WordsAll(l, x); WordsAll(r, x);
    case Back(sub) => WordsAll(sub, x);
  }

  predicate Disjoint(x: Span, y: Span) { x.eq <= y.q || y.eq <= x.q }

  predicate InRange(x: Span, lo: nat, hi: nat) { lo <= x.q < x.eq <= hi }

  /** The spans lie between lo and hi, and no two of them share a character. */
  ghost predicate Apart(xs: seq<Span>, lo: nat, hi: nat) {
    && (forall k :: 0 <= k < |xs| ==> InRange(xs[k], lo, hi))
    && (forall j, k :: 0 <= j < k < |xs| ==> Disjoint(xs[j], xs[k]))
  }

  lemma ApartJoin(xs: seq<Span>, ys: seq<Span>, lo: nat, mid: nat, end: nat, hi: nat)
    requires Apart(xs, lo, mid) && Apart(ys, end, hi) && lo <= mid <= end <= hi
    ensures Apart(xs + ys, lo, hi)
  {
    var zs := xs + ys;
    forall j, k | 0 <= j < k < |zs| ensures Disjoint(zs[j], zs[k]) {
      assert zs[j] == if j < |xs| then xs[j] else ys[j - |xs|];
      assert zs[k] == if k < |xs| then xs[k] else ys[k - |xs|];
    }
  }

  lemma ApartInsert(xs: seq<Span>, x: Span, ys: seq<Span>, lo: nat, mid: nat, hi: nat)
    requires Apart(xs + ys, lo, mid) && InRange(x, mid, hi) && lo <= mid
    ensures Apart(xs + [x] + ys, lo, hi)
  {
    var us, zs := xs + ys, xs + [x] + ys;
    forall j, k | 0 <= j < k < |zs| ensures Disjoint(zs[j], zs[k]) {
      assert j != |xs| ==> zs[j] == us[if j < |xs| then j else j - 1];
      assert k != |xs| ==> zs[k] == us[if k < |xs| then k else k - 1];
    }
    forall k | 0 <= k < |zs| ensures InRange(zs[k], lo, hi) {
      assert k != |xs| ==> zs[k] == us[if k < |xs| then k else k - 1];
    }
  }

  lemma ApartWider(xs: seq<Span>, lo: nat, hi: nat, end: nat)
    requires Apart(xs, lo, hi) && hi <= end
    ensures Apart(xs, lo, end)
  {
  }

  function Files(w: Wraps): (xs: seq<Span>)
    ensures |xs| == |w|
  {
    if w == [] then [] else Files(w[..|w| - 1]) + [w[|w| - 1].0]
  }

  lemma FilesMore(w: Wraps, f: (Span, Mode))
    ensures Files(w + [f]) == Files(w) + [f.0]
  {
    assert (w + [f])[..|w|] == w;
  }

  lemma {:induction false} WordsWrap(c: Cmd, w: Wraps)
    ensures Words(Wrap(c, w)) == Words(c) + Files(w)
  {
    if w != [] { WordsWrap(c, w[..|w| - 1]); }
  }

  lemma TokenInside(t: string, s: nat)
    requires s <= |t| && '\0' !in t && NextToken(t, s).kind == 'a'
    ensures InRange(NextToken(t, s).span, s, NextToken(t, s).pos)
  {
  }

  lemma {:induction false} RedirsApart(t: string, s: nat, xs: seq<Span>, w: Wraps, lo: nat)
    requires lo <= s <= |t| && '\0' !in t && Apart(xs + Files(w), lo, s)
    ensures ParseRedirs(t, s, w).Some? ==> Apart(xs + Files(ParseRedirs(t, s, w).wrap), lo, ParseRedirs(t, s, w).pos)
    decreases |t| - s
  {
    hide NextToken, Skip, Apart, Files;
    if PeekAt(t, s, "<>") {
      var tok := NextToken(t, Skip(t, s));
      var f := NextToken(t, tok.pos);
      if f.kind == 'a' {
        var more := w + [(f.span, ModeOf(tok.kind))];
        FilesMore(w, (f.span, ModeOf(tok.kind)));
        assert xs + Files(w) + [] == xs + Files(w) && xs + Files(more) == xs + Files(w) + [f.span] + [];
        ApartWider(xs + Files(w), lo, s, tok.pos);
        TokenInside(t, tok.pos);
        ApartInsert(xs + Files(w), f.span, [], lo, tok.pos, f.pos);
        RedirsApart(t, f.pos, xs, more, lo);
      }
    } else {
      ApartWider(xs + Files(w), lo, s, Skip(t, s));
    }
  }

  lemma {:induction false} WordsApart(t: string, s: nat, args: seq<Span>, w: Wraps, lo: nat)
    requires lo <= s <= |t| && '\0' !in t && Apart(args + Files(w), lo, s)
    ensures var r := ParseWords(t, s, args, w); r.Ok? ==> Apart(Words(r.cmd), lo, r.pos)
    decreases |t| - s
  {
    hide NextToken, Skip, Apart, Files, ParseRedirs;
    WordsWrap(Exec(args), w);
    if PeekAt(t, s, "|)&;") {
      ApartWider(args + Files(w), lo, s, Skip(t, s));
    } else {
      var tok := NextToken(t, Skip(t, s));
      ApartWider(args + Files(w), lo, s, Skip(t, s));
      if tok.kind == '\0' {
        ApartWider(args + Files(w), lo, s, tok.pos);
      } else if tok.kind == 'a' && |args| + 1 < MAXARGS {
        TokenInside(t, Skip(t, s));
        ApartInsert(args, tok.span, Files(w), lo, Skip(t, s), tok.pos);
        RedirsApart(t, tok.pos, args + [tok.span], w, lo);
        var m := ParseRedirs(t, tok.pos, w);
        if m.Some? { WordsApart(t, m.pos, args + [tok.span], m.wrap, lo); }
      }
    }
  }

  lemma NoneApart(lo: nat)
    ensures Apart([] + Files([]), lo, lo)
  {
  }

  lemma {:induction false} ExecApart(t: string, s: nat)
    requires s <= |t| && '\0' !in t
    ensures var r := ParseExec(t, s); r.Ok? ==> Apart(Words(r.cmd), s, r.pos)
    decreases |t| - s, 1
  {
    hide NextToken, Skip, Apart, Files, ParseRedirs, ParseWords, ParseLine;
    NoneApart(s);
    if PeekAt(t, s, "(") {
      BlockApart(t, s);
    } else {
      RedirsApart(t, s, [], [], s);
      var m := ParseRedirs(t, s, []);
      if m.Some? { WordsApart(t, m.pos, [], m.wrap, s); }
    }
  }

  lemma {:induction false} BlockApart(t: string, s: nat)
    requires s <= |t| && '\0' !in t && PeekAt(t, s, "(")
    ensures PeekAt(t, Skip(t, s), "(")
    ensures var r := ParseBlock(t, Skip(t, s)); r.Ok? ==> Apart(Words(r.cmd), s, r.pos)
    decreases |t| - s, 0
  {
    hide NextToken, Skip, Apart, Files, ParseRedirs, ParseLine;
    SkipTwice(t, s);
    var p := Skip(t, s);
    var open := NextToken(t, p);
    LineApart(t, open.pos);
    var line := ParseLine(t, open.pos);
    if line.Ok? && PeekAt(t, line.pos, ")") {
      var close := NextToken(t, line.pos).pos;
      FromStart(Words(line.cmd), s, open.pos, line.pos);
      ApartWider(Words(line.cmd), s, line.pos, close);
      assert Words(line.cmd) + Files([]) == Words(line.cmd) by { assert Files([]) == [] by { FilesNone(); } }
      RedirsApart(t, close, Words(line.cmd), [], s);
      var m := ParseRedirs(t, close, []);
      if m.Some? { WordsWrap(line.cmd, m.wrap); }
    }
  }

  lemma FilesNone()
    ensures Files([]) == []
  {
  }

  lemma FromStart(xs: seq<Span>, lo: nat, mid: nat, hi: nat)
    requires Apart(xs, mid, hi) && lo <= mid
    ensures Apart(xs, lo, hi)
  {
  }

  lemma {:induction false} PipeApart(t: string, s: nat)
    requires s <= |t| && '\0' !in t
    ensures var r := ParsePipe(t, s); r.Ok? ==> Apart(Words(r.cmd), s, r.pos)
    decreases |t| - s, 2
  {
    hide NextToken, Skip, Apart, ParseExec;
    ExecApart(t, s);
    var r := ParseExec(t, s);
    if r.Ok? {
      if PeekAt(t, r.pos, "|") {
        var p := NextToken(t, r.pos).pos;
        PipeApart(t, p);
        var d := ParsePipe(t, p);
        if d.Ok? { ApartJoin(Words(r.cmd), Words(d.cmd), s, r.pos, p, d.pos); }
      } else {
        ApartWider(Words(r.cmd), s, r.pos, Skip(t, r.pos));
      }
    }
  }

  lemma {:induction false} AmpsWords(t: string, s: nat, c: Cmd)
    requires s <= |t| && '\0' !in t
    ensures Words(ParseAmps(t, s, c).0) == Words(c)
    decreases |t| - s
  {
    hide NextToken, Skip;
    if PeekAt(t, s, "&") { AmpsWords(t, NextToken(t, s).pos, Back(c)); }
  }

  /** No two words or file names of a parsed line share a character, and none occurs twice in the tree. */
  lemma {:induction false} LineApart(t: string, s: nat)
    requires s <= |t| && '\0' !in t
    ensures var r := ParseLine(t, s); r.Ok? ==> Apart(Words(r.cmd), s, r.pos)
    decreases |t| - s, 3
  {
    hide NextToken, Skip, Apart, ParsePipe, ParseAmps;
    PipeApart(t, s);
    var r := ParsePipe(t, s);
    if r.Ok? {
      AmpsWords(t, r.pos, r.cmd);
      var (c, p) := ParseAmps(t, r.pos, r.cmd);
      ApartWider(Words(c), s, r.pos, p);
      if PeekAt(t, p, ";") {
        var q := NextToken(t, p).pos;
        LineApart(t, q);
        var d := ParseLine(t, q);
        if d.Ok? { ApartJoin(Words(c), Words(d.cmd), s, p, q, d.pos); }
      } else {
        ApartWider(Words(c), s, p, Skip(t, p));
      }
    }
  }

  ghost function Ends(xs: set<Span>): set<nat> { set x | x in xs :: x.eq }

  /** The buffer after nulterminate(): NUL at the end of every word, nothing else changed. */
  ghost predicate Cut(before: seq<char>, after: seq<char>, xs: set<Span>) {
    |after| == |before| && forall k :: 0 <= k < |before| ==> after[k] == if k in Ends(xs) then '\0' else before[k]
  }

  /** The string at a word's start is the word: no end of another word falls into it. */
  lemma ReadsBack(t: string, b: seq<char>, c: Cmd, x: Span)
    requires '\0' !in t && SpansOk(t, c) && x in Spans(c) && Cut(t + ['\0'], b, Spans(c))
    ensures x.q < x.eq < |b| && b[x.eq] == '\0' && b[x.q..x.eq] == t[x.q..x.eq] && '\0' !in b[x.q..x.eq]
  {
    hide WordChar;
    assert SpanOk(t, x) && x.eq in Ends(Spans(c));
    forall k | x.q <= k < x.eq ensures b[k] == t[k] && t[k] != '\0' {
      assert WordChar(t[k]) && t[k] in t;
      forall y | y in Spans(c) ensures y.eq != k { assert SpanOk(t, y); }
    }
  }

  /** nulterminate() */
  method NulTerminate(buf: array<char>, ghost t: string, c: Cmd)
    requires buf.Length == |t| + 1 && SpansOk(t, c)
    modifies buf
    ensures Cut(old(buf[..]), buf[..], Spans(c))
    decreases c
  {
    hide SpanOk;
    match c
    case Exec(args) =>
      var i := 0;
      while i < |args|
        invariant i <= |args| && Cut(old(buf[..]), buf[..], SpanSet(args[..i]))
      {
        SpanEnd(t, c, args[i]);
        ghost var b := buf[..];
        buf[args[i].eq] := '\0';
        assert args[..i + 1] == args[..i] + [args[i]];
        CutMore(old(buf[..]), b, buf[..], SpanSet(args[..i]), args[i]);
        assert SpanSet(args[..i + 1]) == SpanSet(args[..i]) + {args[i]};
        i := i + 1;
      }
      assert args[..i] == args;
    case Redir(sub, f, _) =>
      NulTerminate(buf, t, sub);
      SpanEnd(t, c, f);
      ghost var b := buf[..];
      buf[f.eq] := '\0';
      CutMore(old(buf[..]), b, buf[..], Spans(sub), f);
    case Pipe(l, r) =>
      NulTerminate(buf, t, l);
      ghost var b := buf[..];
      NulTerminate(buf, t, r);
      CutTwice(old(buf[..]), b, buf[..], Spans(l), Spans(r));
    case List(l, r) =>
      NulTerminate(buf, t, l);
      ghost var b := buf[..];
      NulTerminate(buf, t, r);
      CutTwice(old(buf[..]), b, buf[..], Spans(l), Spans(r));
    case Back(sub) => NulTerminate(buf, t, sub);
  }

  lemma SpanEnd(t: string, c: Cmd, x: Span)
    requires SpansOk(t, c) && x in Spans(c)
    ensures x.eq <= |t|
  {
    assert SpanOk(t, x);
  }

  lemma CutMore(a: seq<char>, b: seq<char>, d: seq<char>, xs: set<Span>, x: Span)
    requires Cut(a, b, xs) && x.eq < |b| && d == b[x.eq := '\0']
    ensures Cut(a, d, xs + {x})
  {
    assert Ends(xs + {x}) == Ends(xs) + {x.eq};
  }

  lemma CutTwice(a: seq<char>, b: seq<char>, d: seq<char>, xs: set<Span>, ys: set<Span>)
    requires Cut(a, b, xs) && Cut(b, d, ys)
    ensures Cut(a, d, xs + ys)
  {
    assert Ends(xs + ys) == Ends(xs) + Ends(ys);
  }

  /**
    parsecmd() on a line in a buffer: afterwards every word and file name of the command is a
    string in the buffer, exactly as it was typed.
  */
  method ReadCommand(buf: array<char>, n: nat) returns (r: Res)
    requires buf.Length == n + 1 && buf[n] == '\0' && '\0' !in buf[..n]
    modifies buf
    ensures r == ParseCmd(old(buf[..n]))
    ensures r.Ok? ==> forall x :: x in Spans(r.cmd) ==>
              && x.q < x.eq <= n && buf[x.eq] == '\0' && buf[x.q..x.eq] == old(buf[x.q..x.eq])
              && '\0' !in buf[x.q..x.eq]
    ensures r.Panic? ==> buf[..] == old(buf[..])
  {
    hide ParseLine, Skip, SpansOk, Spans, Cut;
    var t := buf[..n];
    var line := RunLine(t, 0);
    if line.Panic? { return Panic; }
    var _, p := Peek(t, line.pos, "");
    if p != n { return Panic; }
    LineSpans(t, 0);
    assert buf[..] == t + ['\0'];
    NulTerminate(buf, t, line.cmd);
    forall x | x in Spans(line.cmd)
      ensures x.q < x.eq <= n && buf[x.eq] == '\0' && buf[x.q..x.eq] == t[x.q..x.eq] && '\0' !in buf[x.q..x.eq]
    {
      ReadsBack(t, buf[..], line.cmd, x);
      assert buf[..][x.q..x.eq] == buf[x.q..x.eq];
    }
    r := Ok(line.cmd, n);
    assert forall x :: x in Spans(line.cmd) ==> t[x.q..x.eq] == old(buf[x.q..x.eq]);
  }
}
