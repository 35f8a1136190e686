/**
  user/grep.c: the regular-expression matcher against a declarative semantics of patterns, and
  the buffered loop over lines. Strings are sequences of characters other than NUL; the end of
  the sequence stands for the terminating NUL.
*/
module Grep {

  // ----- what a pattern means -----

  /** One character, or any number of it; '.' is any character. */
  datatype Item = One(c: char) | Star(c: char)

  /** The items of a pattern without its ^, and whether it ends in $. */
  datatype Pattern = Pattern(items: seq<Item>, dollar: bool)

  function Parse(re: string): Pattern {
    if re == "" then Pattern([], false)
    else if |re| >= 2 && re[1] == '*' then
      var p := Parse(re[2..]);
      Pattern([Star(re[0])] + p.items, p.dollar)
    else if re == "$" then Pattern([], true)
    else
      var p := Parse(re[1..]);
      Pattern([One(re[0])] + p.items, p.dollar)
  }

  predicate Hit(c: char, x: char) { c == '.' || c == x }

  /** The strings an item stands for. */
  ghost predicate Fits(i: Item, s: string) {
    match i
    case One(c) => |s| == 1 && Hit(c, s[0])
    case Star(c) => forall k :: 0 <= k < |s| ==> Hit(c, s[k])
  }

  ghost function Concat(ps: seq<string>): string {
    if ps == [] then "" else ps[0] + Concat(ps[1..])
  }

  /** s is made of one piece for each item. */
  ghost predicate InLang(items: seq<Item>, s: string) {
    exists ps: seq<string> :: Pieces(items, ps) && Concat(ps) == s
  }

  ghost predicate Pieces(items: seq<Item>, ps: seq<string>) {
    |ps| == |items| && forall i :: 0 <= i < |items| ==> Fits(items[i], ps[i])
  }

  /** The pattern matches at the beginning of the text: a prefix of it, or all of it before a $. */
  ghost predicate Here(p: Pattern, text: string) {
    exists n :: 0 <= n <= |text| && (p.dollar ==> n == |text|) && InLang(p.items, text[..n])
  }

  /** The pattern occurs in the text: at its beginning after a ^, otherwise anywhere. */
  ghost predicate Occurs(re: string, text: string) {
    if re != "" && re[0] == '^' then Here(Parse(re[1..]), text)
    else exists k :: 0 <= k <= |text| && Here(Parse(re), text[k..])
  }

  // ----- unfolding the semantics -----

  lemma LangNone(s: string)
    ensures InLang([], s) <==> s == ""
  {
    if s == "" { assert Pieces([], []); }
  }

  lemma LangCons(i: Item, items: seq<Item>, s: string, k: nat)
    requires k <= |s| && Fits(i, s[..k]) && InLang(items, s[k..])
    ensures InLang([i] + items, s)
  {
    var ps :| Pieces(items, ps) && Concat(ps) == s[k..];
    var qs := [s[..k]] + ps;
    assert Pieces([i] + items, qs) && qs[1..] == ps && Concat(qs) == s[..k] + s[k..] == s;
  }

  lemma LangHead(i: Item, items: seq<Item>, s: string) returns (k: nat)
    requires InLang([i] + items, s)
    ensures k <= |s| && Fits(i, s[..k]) && InLang(items, s[k..])
  {
    var ps :| Pieces([i] + items, ps) && Concat(ps) == s;
    k := |ps[0]|;
    assert s[..k] == ps[0] && s[k..] == Concat(ps[1..]);
    assert Pieces(items, ps[1..]);
  }

  /** A single character. */
  lemma HereOne(c: char, p: Pattern, text: string)
    ensures Here(Pattern([One(c)] + p.items, p.dollar), text) <==> text != "" && Hit(c, text[0]) && Here(p, text[1..])
  {
    var q := Pattern([One(c)] + p.items, p.dollar);
    if Here(q, text) {
      var n :| 0 <= n <= |text| && (q.dollar ==> n == |text|) && InLang(q.items, text[..n]);
      var k := LangHead(One(c), p.items, text[..n]);
      assert k == 1 && text[..n][1..] == text[1..][..n - 1];
    }
    if text != "" && Hit(c, text[0]) && Here(p, text[1..]) {
      var n :| 0 <= n <= |text| - 1 && (p.dollar ==> n == |text| - 1) && InLang(p.items, text[1..][..n]);
      assert text[..n + 1][1..] == text[1..][..n];
      LangCons(One(c), p.items, text[..n + 1], 1);
    }
  }

  /** A star matches any number of hits, if the rest matches after them. */
  lemma HereStar(c: char, p: Pattern, text: string)
    ensures Here(Pattern([Star(c)] + p.items, p.dollar), text) <==>
            exists k :: 0 <= k <= |text| && Fits(Star(c), text[..k]) && Here(p, text[k..])
  {
    var q := Pattern([Star(c)] + p.items, p.dollar);
    if Here(q, text) {
      var n :| 0 <= n <= |text| && (q.dollar ==> n == |text|) && InLang(q.items, text[..n]);
      var k := LangHead(Star(c), p.items, text[..n]);
      assert text[..n][..k] == text[..k] && text[..n][k..] == text[k..][..n - k];
      assert Here(p, text[k..]);
    }
    if k :| 0 <= k <= |text| && Fits(Star(c), text[..k]) && Here(p, text[k..]) {
      var n :| 0 <= n <= |text| - k && (p.dollar ==> n == |text| - k) && InLang(p.items, text[k..][..n]);
      assert text[..k + n][..k] == text[..k] && text[..k + n][k..] == text[k..][..n];
      LangCons(Star(c), p.items, text[..k + n], k);
    }
  }

  lemma HereEnd(dollar: bool, text: string)
    ensures Here(Pattern([], dollar), text) <==> !dollar || text == ""
  {
    LangNone(text[..0]);
    LangNone(text[..|text|]);
    if Here(Pattern([], dollar), text) {
      var n :| 0 <= n <= |text| && (dollar ==> n == |text|) && InLang([], text[..n]);
      LangNone(text[..n]);
    }
  }

  // ----- the matcher -----

  /** match() */
  method Match(re: string, text: string) returns (r: bool)
    ensures r <==> Occurs(re, text)
  {
    if re != "" && re[0] == '^' {
      r := MatchHere(re[1..], text);
      return;
    }
    var k := 0;
    while true
      invariant 0 <= k <= |text| && forall j :: 0 <= j < k ==> !Here(Parse(re), text[j..])
      decreases |text| - k
    {
      var h := MatchHere(re, text[k..]);
      if h { return true; }
      if k == |text| { return false; }
      k := k + 1;
    }
  }

  /** matchhere() */
  method MatchHere(re: string, text: string) returns (r: bool)
    ensures r <==> Here(Parse(re), text)
    decreases |re|, |text|, 1
  {
    if re == "" {
      HereEnd(false, text);
      return true;
    }
    if |re| >= 2 && re[1] == '*' {
      r := MatchStar(re[0], re[2..], text);
      return;
    }
    if re == "$" {
      HereEnd(true, text);
      return text == "";
    }
    HereOne(re[0], Parse(re[1..]), text);
    if text != "" && (re[0] == '.' || re[0] == text[0]) {
      r := MatchHere(re[1..], text[1..]);
      return;
    }
    return false;
  }

  lemma StarStops(c: char, text: string, k: nat, j: nat)
    requires k < j <= |text| && !Hit(c, text[k])
    ensures !Fits(Star(c), text[..j])
  {
    assert text[..j][k] == text[k];
  }

  /** matchstar() */
  method MatchStar(c: char, re: string, text: string) returns (r: bool)
    ensures r <==> Here(Pattern([Star(c)] + Parse(re).items, Parse(re).dollar), text)
    decreases |re|, |text|, 2
  {
    HereStar(c, Parse(re), text);
    var k := 0;
    while true
      invariant 0 <= k <= |text| && Fits(Star(c), text[..k]) && forall j :: 0 <= j < k ==> !Here(Parse(re), text[j..])
      decreases |text| - k
    {
      var h := MatchHere(re, text[k..]);
      if h { return true; }
      if k == |text| || !(text[k] == c || c == '.') {
        forall j | k < j <= |text| ensures !Fits(Star(c), text[..j]) { StarStops(c, text, k, j); }
        return false;
      }
      assert text[..k + 1] == text[..k] + [text[k]];
      k := k + 1;
    }
  }

  // ----- lines -----

  const BUFSIZE: nat := 1024

  /** The position of the first newline, or the length. */
  function LineEnd(s: string): (n: nat)
    ensures n <= |s| && (n < |s| ==> s[n] == '\n') && forall k :: 0 <= k < n ==> s[k] != '\n'
  {
    if s == "" || s[0] == '\n' then 0 else 1 + LineEnd(s[1..])
  }

  /** The newline-terminated lines in which the pattern occurs. */
  ghost function Matching(re: string, s: string): string {
    var n := LineEnd(s);
    if n == |s| then ""
    else (if Occurs(re, s[..n]) then s[..n + 1] else "") + Matching(re, s[n + 1..])
  }

  /** s is empty or ends with a newline. */
  predicate WholeLines(s: string) { s == "" || s[|s| - 1] == '\n' }

  lemma LineEndIs(s: string, n: nat)
    requires n < |s| && s[n] == '\n' && forall k :: 0 <= k < n ==> s[k] != '\n'
    ensures LineEnd(s) == n
  {
  }

  lemma {:induction false} MatchingSplit(re: string, a: string, b: string)
    requires WholeLines(a)
    ensures Matching(re, a + b) == Matching(re, a) + Matching(re, b)
    decreases |a|
  {
    hide Occurs, Matching;
    if a == "" {
      assert a + b == b;
      assert Matching(re, "") == "" by { MatchingNone(re, ""); }
    } else {
      var n := LineEnd(a);
      assert a[|a| - 1] == '\n';
      MatchingFirst(re, a, n);
      MatchingFirst(re, a + b, n);
      assert (a + b)[..n] == a[..n] && (a + b)[..n + 1] == a[..n + 1] && (a + b)[n + 1..] == a[n + 1..] + b;
      MatchingSplit(re, a[n + 1..], b);
    }
  }

  lemma MatchingNone(re: string, s: string)
    requires forall k :: 0 <= k < |s| ==> s[k] != '\n'
    ensures Matching(re, s) == ""
  {
    assert LineEnd(s) == |s|;
  }

  lemma MatchingFirst(re: string, s: string, n: nat)
    requires n < |s| && s[n] == '\n' && forall k :: 0 <= k < n ==> s[k] != '\n'
    ensures Matching(re, s) == (if Occurs(re, s[..n]) then s[..n + 1] else "") + Matching(re, s[n + 1..])
  {
    hide Occurs;
    LineEndIs(s, n);
  }

  /** One more line. */
  lemma MatchingLine(re: string, a: string, line: string)
    requires WholeLines(a) && forall k :: 0 <= k < |line| ==> line[k] != '\n'
    ensures WholeLines(a + line + ['\n'])
    ensures Matching(re, a + line + ['\n']) == Matching(re, a) + (if Occurs(re, line) then line + ['\n'] else "")
  {
    hide Occurs, Matching;
    var l := line + ['\n'];
    assert a + line + ['\n'] == a + l;
    MatchingSplit(re, a, l);
    MatchingFirst(re, l, |line|);
    assert l[..|line|] == line && l[..|line| + 1] == l && l[|line| + 1..] == "";
    MatchingNone(re, "");
  }

  /** The characters from a to b are the end of a line, with its newline. */
  ghost predicate EndsLine(s: string, a: nat, b: nat) {
    a <= b < |s| && s[b] == '\n' && forall k :: a <= k < b ==> s[k] != '\n'
  }

  /** Every newline-terminated line, with its newline, is at most n characters long. */
  ghost predicate LinesFit(s: string, n: nat) {
    forall a: nat, b: nat {:trigger EndsLine(s, a, b)} :: EndsLine(s, a, b) ==> b - a + 1 <= n
  }

  // ----- the lines grep() sees -----

  /** A line that fits the buffer with its newline, and without NUL. */
  ghost predicate Seen(line: string) { |line| + 1 <= BUFSIZE - 1 && '\0' !in line }

  /** How much of the text is lines before the first that is not seen. */
  ghost function Reached(s: string): (n: nat)
    ensures n <= |s|
    decreases |s|
  {
    var e := LineEnd(s);
    if e < |s| && Seen(s[..e]) then e + 1 + Reached(s[e + 1..]) else 0
  }

  lemma {:induction false} ReachedSplit(a: string, b: string)
    requires Reached(a) == |a|
    ensures Reached(a + b) == |a| + Reached(b)
    decreases |a|
  {
    if a == "" {
      assert a + b == b;
    } else {
      var e := LineEnd(a);
      LineEndIs(a + b, e);
      assert (a + b)[..e] == a[..e] && (a + b)[e + 1..] == a[e + 1..] + b;
      ReachedSplit(a[e + 1..], b);
    }
  }

  /** One more line. */
  lemma ReachedLine(a: string, line: string)
    requires Reached(a) == |a| && Seen(line) && '\n' !in line
    ensures Reached(a + line + ['\n']) == |a + line + ['\n']|
  {
    var l := line + ['\n'];
    assert a + line + ['\n'] == a + l;
    ReachedSplit(a, l);
    LineEndIs(l, |line|);
    assert l[..|line|] == line && l[|line| + 1..] == "";
  }

  /** If all lines are without NUL and fit, the output is that of the whole text. */
  lemma {:induction false} AllReached(re: string, s: string)
    requires '\0' !in s && LinesFit(s, BUFSIZE - 1)
    ensures Matching(re, s[..Reached(s)]) == Matching(re, s)
    decreases |s|
  {
    hide Occurs, Matching;
    var e := LineEnd(s);
    if e < |s| {
      assert EndsLine(s, 0, e);
      var t := s[e + 1..];
      TailFits(s, e + 1, BUFSIZE - 1);
      AllReached(re, t);
      MatchingFirst(re, s, e);
      var u := s[..Reached(s)];
      LineEndIs(u, e);
      assert u[..e] == s[..e] && u[..e + 1] == s[..e + 1] && u[e + 1..] == t[..Reached(t)];
      MatchingFirst(re, u, e);
    } else {
      MatchingNone(re, s);
      MatchingNone(re, s[..0]);
    }
  }

  lemma TailFits(s: string, k: nat, n: nat)
    requires k <= |s| && LinesFit(s, n)
    ensures LinesFit(s[k..], n)
  {
    forall a: nat, b: nat | EndsLine(s[k..], a, b) ensures b - a + 1 <= n {
      assert forall j :: k + a <= j < k + b ==> s[j] == s[k..][j - k];
      assert EndsLine(s, k + a, k + b);
    }
  }

  // ----- the loop over the input -----

  /** strchr(p, '\n') in a buffer with a NUL at m: the first newline, or the NUL before which there is none. */
  method FindNewline(buf: array<char>, p: nat, m: nat) returns (q: nat)
    requires p <= m < buf.Length && buf[m] == '\0'
    ensures p <= q <= m && (buf[q] == '\n' || buf[q] == '\0') && forall k :: p <= k < q ==> buf[k] != '\n' && buf[k] != '\0'
  {
    q := p;
    while buf[q] != '\0' && buf[q] != '\n'
      invariant p <= q <= m && forall k :: p <= k < q ==> buf[k] != '\n' && buf[k] != '\0'
      decreases m - q
    {
      q := q + 1;
    }
  }

  /** memmove(buf, buf + p, m) */
  method MoveDown(buf: array<char>, p: nat, m: nat)
    requires p + m <= buf.Length
    modifies buf
    ensures forall k :: 0 <= k < m ==> buf[k] == old(buf[p + k])
  {
    var k := 0;
    while k < m
      invariant k <= m && forall j :: 0 <= j < k ==> buf[j] == old(buf[p + j])
      invariant forall j :: p + k <= j < buf.Length ==> buf[j] == old(buf[j])
    {
      buf[k] := buf[p + k];
      k := k + 1;
    }
  }

  /** The buffer holds the text from p on, followed by NUL. */
  ghost predicate Holds(buf: array<char>, text: string, p: nat)
    reads buf
  {
    p <= |text| < buf.Length && buf[|text|] == '\0' && forall k :: p <= k < |text| ==> buf[k] == text[k]
  }

  /** One round of the inner loop: the line from p to the newline at q, if the pattern occurs in it. */
  method ScanLine(re: string, buf: array<char>, p: nat, q: nat, ghost text: string) returns (out: string)
    requires Holds(buf, text, p) && p <= q < |text| && text[q] == '\n'
    modifies buf
    ensures Holds(buf, text, q + 1)
    ensures out == if Occurs(re, text[p..q]) then text[p..q] + ['\n'] else ""
  {
    hide Occurs;
    buf[q] := '\0';
    assert buf[p..q] == text[p..q];
    var r := Match(re, buf[p..q]);
    out := "";
    if r {
      buf[q] := '\n';
      assert buf[p..q + 1] == text[p..q] + ['\n'];
      out := buf[p..q + 1];
    }
  }

  /** There is a NUL between a and k. */
  ghost predicate Hidden(s: string, a: nat, k: nat) { exists j :: a <= j < k && j < |s| && s[j] == '\0' }

  /** From a to e there is no newline, except behind a NUL. */
  ghost predicate NoLine(s: string, a: nat, e: nat)
    requires e <= |s|
  {
    forall k :: a <= k < e && s[k] == '\n' ==> Hidden(s, a, k)
  }

  /** The inner loop of grep(): the lines of the buffer up to the first NUL. */
  method ScanLines(re: string, buf: array<char>, m: nat, ghost text: string) returns (p: nat, out: string)
    requires Holds(buf, text, 0) && m == |text| < BUFSIZE
    modifies buf
    ensures Holds(buf, text, p) && WholeLines(text[..p]) && Reached(text[..p]) == p && NoLine(text, p, m)
    ensures out == Matching(re, text[..p])
  {
    hide Occurs, Matching, Reached, Seen, NoLine;
    p, out := 0, "";
    MatchingNone(re, text[..0]);
    NoneReached();
    while true
      invariant p <= m && Holds(buf, text, p) && WholeLines(text[..p]) && Reached(text[..p]) == p
      invariant out == Matching(re, text[..p])
      decreases m - p
    {
      var q := FindNewline(buf, p, m);
      if buf[q] == '\0' {
        StopsHere(text, p, q);
        break;
      }
      var line := ScanLine(re, buf, p, q, text);
      MatchingLine(re, text[..p], text[p..q]);
      SeenHere(text, p, q);
      ReachedLine(text[..p], text[p..q]);
      assert text[..q + 1] == text[..p] + text[p..q] + ['\n'];
      out := out + line;
      p := q + 1;
    }
  }

  lemma SeenHere(text: string, p: nat, q: nat)
    requires p <= q < |text| < BUFSIZE && forall k :: p <= k < q ==> text[k] != '\n' && text[k] != '\0'
    ensures Seen(text[p..q]) && '\n' !in text[p..q]
  {
  }

  lemma NoneReached()
    ensures Reached("") == 0
  {
  }

  lemma StopsHere(text: string, p: nat, q: nat)
    requires p <= q <= |text| && (q < |text| ==> text[q] == '\0') && forall k :: p <= k < q ==> text[k] != '\n'
    ensures NoLine(text, p, |text|)
  {
  }

  /** How much read() returns: nothing at the end or without room, else at least one byte. */
  function ReadSize(room: nat, left: nat, want: nat): (n: nat)
    ensures n <= room && n <= left && (n == 0 <==> room == 0 || left == 0)
  {
    if room == 0 || left == 0 then 0
    else
      var most := if room < left then room else left;
      if want == 0 then 1 else if want > most then most else want
  }

  /** read(fd, buf + m, n), and a NUL after the text. */
  method Read(buf: array<char>, m: nat, input: string, pos: nat, n: nat)
    requires m + n < buf.Length && pos + n <= |input|
    modifies buf
    ensures buf[m + n] == '\0'
    ensures forall k :: 0 <= k < m + n ==> buf[k] == if k < m then old(buf[k]) else input[pos + (k - m)]
  {
    var k := 0;
    while k < n
      invariant k <= n
      invariant forall j :: 0 <= j < m + k ==> buf[j] == if j < m then old(buf[j]) else input[pos + (j - m)]
    {
      buf[m + k] := input[pos + k];
      k := k + 1;
    }
    buf[m + n] := '\0';
  }

  /** The first m bytes of the buffer are the last m bytes read, and hold no newline that strchr() can find. */
  ghost predicate Carried(buf: array<char>, input: string, base: nat, m: nat)
    reads buf
  {
    && base + m <= |input| && m < buf.Length && WholeLines(input[..base]) && Reached(input[..base]) == base
    && (forall k :: 0 <= k < m ==> buf[k] == input[base + k]) && NoLine(input, base, base + m)
  }

  /** One round of the outer loop: read n bytes, output the whole lines, keep the rest. */
  method Round(re: string, buf: array<char>, m: nat, input: string, ghost base: nat, pos: nat, n: nat)
    returns (m': nat, out: string)
    requires Carried(buf, input, base, m) && pos == base + m && buf.Length == BUFSIZE
    requires 0 < n && m + n < buf.Length && pos + n <= |input|
    modifies buf
    ensures m' <= m + n && Carried(buf, input, pos + n - m', m')
    ensures Matching(re, input[..pos + n - m']) == Matching(re, input[..base]) + out
  {
    hide Occurs, Matching, WholeLines, Reached, NoLine;
    Read(buf, m, input, pos, n);
    ghost var text := input[base..pos + n];
    var p;
    p, out := ScanLines(re, buf, m + n, text);
    RoundDone(re, input, base, pos + n, p, out);
    m' := m + n - p;
    MoveDown(buf, p, m');
  }

  lemma RoundDone(re: string, input: string, base: nat, e: nat, p: nat, out: string)
    requires base <= e <= |input| && p <= e - base && WholeLines(input[..base])
    requires var text := input[base..e];
             && WholeLines(text[..p]) && out == Matching(re, text[..p])
             && Reached(text[..p]) == p && NoLine(text, p, |text|)
    requires Reached(input[..base]) == base
    ensures WholeLines(input[..base + p]) && Reached(input[..base + p]) == base + p
    ensures Matching(re, input[..base + p]) == Matching(re, input[..base]) + out
    ensures NoLine(input, base + p, e)
  {
    hide Occurs, Matching, Reached;
    var text := input[base..e];
    MatchingSplit(re, input[..base], text[..p]);
    assert input[..base + p] == input[..base] + text[..p];
    WholeAppend(input[..base], text[..p]);
    ReachedSplit(input[..base], text[..p]);
    forall k | base + p <= k < e && input[k] == '\n' ensures Hidden(input, base + p, k) {
      assert text[k - base] == '\n' && Hidden(text, p, k - base);
      var j :| p <= j < k - base && j < |text| && text[j] == '\0';
      assert input[base + j] == '\0';
    }
  }

  /**
    grep(): however read() splits the input, the output is the newline-terminated lines in which
    the pattern occurs, up to the first line with a NUL or too long for the buffer; what comes then
    is not seen. The sizes that read() returns are given by sizes.
  */
  method GrepFile(re: string, input: string, sizes: seq<nat>) returns (out: string)
    ensures out == Matching(re, input[..Reached(input)])
    ensures '\0' !in input && LinesFit(input, BUFSIZE - 1) ==> out == Matching(re, input)
  {
    hide Occurs, Matching, Reached, NoLine;
    var buf := new char[BUFSIZE];
    var m: nat, pos: nat, i: nat := 0, 0, 0;
    out := "";
    ghost var base: nat := 0;
    MatchingNone(re, input[..0]);
    NoneReached();
    NothingCarried(input);
    while true
      invariant Carried(buf, input, base, m) && pos == base + m && out == Matching(re, input[..base])
      decreases |input| - pos
    {
      var n := ReadSize(BUFSIZE - m - 1, |input| - pos, if i < |sizes| then sizes[i] else BUFSIZE);
      i := i + 1;
      if n == 0 { break; }
      var lines;
      m, lines := Round(re, buf, m, input, base, pos, n);
      pos := pos + n;
      base := pos - m;
      out := out + lines;
    }
    NothingMore(input, base, m);
    if '\0' !in input && LinesFit(input, BUFSIZE - 1) { AllReached(re, input); }
  }

  lemma NothingCarried(input: string)
    ensures NoLine(input, 0, 0)
  {
  }

  lemma WholeAppend(a: string, b: string)
    requires WholeLines(a) && WholeLines(b)
    ensures WholeLines(a + b)
  {
  }

  /** When read() returns nothing the rest of the input begins with a line that is not seen. */
  lemma NothingMore(input: string, base: nat, m: nat)
    requires base + m <= |input| && m < BUFSIZE && Reached(input[..base]) == base && NoLine(input, base, base + m)
    requires base + m == |input| || m == BUFSIZE - 1
    ensures Reached(input) == base
  {
    var rest := input[base..];
    assert input == input[..base] + rest;
    ReachedSplit(input[..base], rest);
    var e := LineEnd(rest);
    if e < |rest| && e < m {
      assert input[base + e] == '\n' && Hidden(input, base, base + e);
      var j :| base <= j < base + e && input[j] == '\0';
      assert rest[..e][j - base] == '\0';
    }
  }
}
