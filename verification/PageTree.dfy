/**
  The three-level page-table tree of kernel/vm.c (section 4.4, Sv39, of the RISC-V
  Privileged Architecture specification) over physical pages of 512 words, and the flat
  map from virtual page numbers to entries that it implements.
*/
module PageTree {

  const ENTRIES: nat := 512
  const NVPN: nat := 0x400_0000     // MAXVA / PGSIZE == 2^26

  type Page = p: seq<nat> | |p| == ENTRIES witness seq(ENTRIES, _ => 0)
  type Mem = map<nat, Page>         // by physical page number

  // ----- page-table entries -----

  predicate PteV(e: nat) { e % 2 == 1 }
  function PtePage(e: nat): nat { e / 1024 }
  function PteFlags(e: nat): nat { e % 1024 }

  /** PA2PTE(pa) | flags | PTE_V, for flags below 1024. */
  function MkPte(page: nat, flags: nat): (e: nat)
    requires flags < 1024
    ensures PteV(e) && PtePage(e) == page && e == page * 1024 + PteFlags(e)
    ensures PteFlags(e) == if flags % 2 == 1 then flags else flags + 1
  {
    page * 1024 + (if flags % 2 == 1 then flags else flags + 1)
  }

  /** The three indices of a virtual page number: PX(2), PX(1), PX(0). */
  function Px2(v: nat): nat { v / 0x4_0000 }
  function Px1(v: nat): nat { v / 512 % 512 }
  function Px0(v: nat): nat { v % 512 }

  /** The three indices name exactly one virtual page. */
  lemma PxInjective(v: nat, w: nat)
    requires Px2(v) == Px2(w) && Px1(v) == Px1(w) && Px0(v) == Px0(w)
    ensures v == w
  {
    assert v == (Px2(v) * 512 + Px1(v)) * 512 + Px0(v);
    assert w == (Px2(w) * 512 + Px1(w)) * 512 + Px0(w);
  }

  lemma PxInRange(v: nat)
    requires v < NVPN
    ensures Px2(v) < ENTRIES / 2 && Px1(v) < ENTRIES && Px0(v) < ENTRIES
  {
  }

  /** The virtual page with the three given indices. */
  lemma PxOf(i: nat, j: nat, k: nat)
    requires i < ENTRIES / 2 && j < ENTRIES && k < ENTRIES
    ensures var v := (i * 512 + j) * 512 + k; v < NVPN && Px2(v) == i && Px1(v) == j && Px0(v) == k
  {
    var v := (i * 512 + j) * 512 + k;
    assert v / 512 == i * 512 + j;
    assert v / 0x4_0000 == v / 512 / 512;
  }

  // ----- the tree -----

  /** A table page by its place in the tree; the entries of the root above MAXVA are never used. */
  datatype Node = Root | Mid(i: nat) | Low(i: nat, j: nat)

  type Tree = map<Node, nat>

  predicate InRange(n: Node) {
    match n
    case Root => true
    case Mid(i) => i < ENTRIES / 2
    case Low(i, j) => i < ENTRIES / 2 && j < ENTRIES
  }

  /** An entry that points to the table page T[n], or is invalid when T has no such page. */
  predicate EntryFor(e: nat, T: Tree, n: Node) {
    if n in T then e == MkPte(T[n], 0) else !PteV(e)
  }

  ghost predicate Closed(mem: Mem, T: Tree) {
    && Root in T
    && (forall n :: n in T ==> T[n] in mem && InRange(n))
    && (forall i, j :: Low(i, j) in T ==> Mid(i) in T)
  }

  predicate Apart(T: Tree, a: Node, b: Node) { a in T && b in T && a != b ==> T[a] != T[b] }

  /** No table page is shared. */
  ghost predicate Unshared(T: Tree) {
    forall a, b {:trigger Apart(T, a, b)} :: Apart(T, a, b)
  }

  ghost predicate RootEntries(mem: Mem, T: Tree)
    requires Closed(mem, T)
  {
    forall i :: 0 <= i < ENTRIES ==> EntryFor(mem[T[Root]][i], T, Mid(i))
  }

  ghost predicate MidEntries(mem: Mem, T: Tree)
    requires Closed(mem, T)
  {
    forall i, j :: Mid(i) in T && 0 <= j < ENTRIES ==> EntryFor(mem[T[Mid(i)]][j], T, Low(i, j))
  }

  /** The pages T are a tree of tables in memory. */
  ghost predicate TreeOk(mem: Mem, T: Tree) {
    Closed(mem, T) && Unshared(T) && RootEntries(mem, T) && MidEntries(mem, T)
  }

  function LowOf(v: nat): Node { Low(Px2(v), Px1(v)) }

  /** The leaf entry of a virtual page: 0 when there is no table for it. */
  function Leaf(mem: Mem, T: Tree, v: nat): nat
    requires LowOf(v) in T ==> T[LowOf(v)] in mem
  {
    if LowOf(v) in T then mem[T[LowOf(v)]][Px0(v)] else 0
  }

  /** F is the flat map the tree implements. */
  ghost predicate FlatAt(mem: Mem, T: Tree, F: map<nat, nat>, v: nat)
    requires Closed(mem, T)
  {
    if v in F then Leaf(mem, T, v) == F[v] && PteV(F[v]) else !PteV(Leaf(mem, T, v))
  }

  ghost predicate FlatOk(mem: Mem, T: Tree, F: map<nat, nat>)
    requires Closed(mem, T)
  {
    && (forall v :: v in F ==> v < NVPN)
    && (forall v: nat :: v < NVPN ==> FlatAt(mem, T, F, v))
  }

  ghost predicate Implements(mem: Mem, T: Tree, F: map<nat, nat>) {
    TreeOk(mem, T) && FlatOk(mem, T, F)
  }

  // ----- memory updates and the tree -----

  /** Memory outside the table pages is irrelevant to the tree. */
  lemma TreeFrame(mem: Mem, mem': Mem, T: Tree, F: map<nat, nat>)
    requires Implements(mem, T, F)
    requires forall n :: n in T ==> T[n] in mem' && mem'[T[n]] == mem[T[n]]
    ensures Implements(mem', T, F)
  {
    forall v: nat | v < NVPN ensures FlatAt(mem', T, F, v) { assert FlatAt(mem, T, F, v); }
  }

  function Poke(mem: Mem, p: nat, k: nat, e: nat): (r: Mem)
    requires p in mem && k < ENTRIES
    ensures r.Keys == mem.Keys
  {
    mem[p := mem[p][k := e]]
  }

  /** Storing a leaf entry changes the translation of one page and of no other. */
  lemma PokeLeaf(mem: Mem, T: Tree, F: map<nat, nat>, v: nat, e: nat)
    requires Implements(mem, T, F) && v < NVPN && LowOf(v) in T
    ensures TreeOk(Poke(mem, T[LowOf(v)], Px0(v), e), T)
    ensures PteV(e) ==> FlatOk(Poke(mem, T[LowOf(v)], Px0(v), e), T, F[v := e])
    ensures !PteV(e) ==> FlatOk(Poke(mem, T[LowOf(v)], Px0(v), e), T, F - {v})
  {
    var r := Poke(mem, T[LowOf(v)], Px0(v), e);
    var G := if PteV(e) then F[v := e] else F - {v};
    forall n | n in T && n != LowOf(v) ensures r[T[n]] == mem[T[n]] { assert Apart(T, n, LowOf(v)); }
    forall w: nat | w < NVPN ensures FlatAt(r, T, G, w) {
      assert FlatAt(mem, T, F, w);
      if w != v && LowOf(w) == LowOf(v) && Px0(w) == Px0(v) { PxInjective(v, w); }
    }
  }

  ghost predicate Blank(p: Page) { forall k :: 0 <= k < ENTRIES ==> p[k] == 0 }

  /** Hanging a blank page below the root changes no translation. */
  lemma AddMid(mem: Mem, T: Tree, F: map<nat, nat>, i: nat, q: nat)
    requires Implements(mem, T, F) && i < ENTRIES / 2 && Mid(i) !in T
    requires q in mem && q !in T.Values && Blank(mem[q])
    ensures Implements(Poke(mem, T[Root], i, MkPte(q, 0)), T[Mid(i) := q], F)
  {
    var r, S := Poke(mem, T[Root], i, MkPte(q, 0)), T[Mid(i) := q];
    assert q != T[Root] by { assert T[Root] in T.Values; }
    forall n | n in T && n != Root ensures r[T[n]] == mem[T[n]] { assert Apart(T, n, Root); }
    forall a, b ensures Apart(S, a, b) {
      assert Apart(T, a, b);
      assert (a in T ==> T[a] in T.Values) && (b in T ==> T[b] in T.Values);
    }
    forall v: nat | v < NVPN ensures FlatAt(r, S, F, v) { assert FlatAt(mem, T, F, v); }
  }

  /** Hanging a blank page below a middle table changes no translation. */
  lemma AddLow(mem: Mem, T: Tree, F: map<nat, nat>, i: nat, j: nat, q: nat)
    requires Implements(mem, T, F) && j < ENTRIES && Mid(i) in T && Low(i, j) !in T
    requires q in mem && q !in T.Values && Blank(mem[q])
    ensures Implements(Poke(mem, T[Mid(i)], j, MkPte(q, 0)), T[Low(i, j) := q], F)
  {
    var r, S := Poke(mem, T[Mid(i)], j, MkPte(q, 0)), T[Low(i, j) := q];
    assert q != T[Mid(i)] by { assert T[Mid(i)] in T.Values; }
    forall n | n in T && n != Mid(i) ensures r[T[n]] == mem[T[n]] { assert Apart(T, n, Mid(i)); }
    forall a, b ensures Apart(S, a, b) {
      assert Apart(T, a, b);
      assert (a in T ==> T[a] in T.Values) && (b in T ==> T[b] in T.Values);
    }
    forall v: nat | v < NVPN ensures FlatAt(r, S, F, v) {
      assert FlatAt(mem, T, F, v);
      PxInRange(v);
    }
  }
}
