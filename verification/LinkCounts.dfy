/**
  Directories, link counts and references (create(), sys_link(), sys_unlink(), isdirempty() in
  kernel/sysfile.c; dirlookup(), dirlink(), iget(), iput() in kernel/fs.c). Paths are resolved by
  the callers: operations are given the directory, which has not been removed.
*/
module LinkCounts {

  datatype Kind = Free | File | Dir | Device

  /** A directory slot; inum 0 marks an empty one. */
  datatype Entry = Entry(inum: nat, name: string)

  datatype Inode = Inode(kind: Kind, nlink: int, entries: seq<Entry>)

  type Inodes = seq<Inode>

  const ROOT: nat := 1

  /** A directory that has not been removed. */
  predicate Alive(x: Inode) { x.kind == Dir && x.nlink > 0 }

  // ----- counting links -----

  predicate Names(e: Entry, i: nat) { e.inum == i && e.name != "." }

  /** The entries of a directory, other than ".", that name inode i. */
  function CountIn(es: seq<Entry>, i: nat): nat {
    if es == [] then 0 else CountIn(es[..|es| - 1], i) + (if Names(es[|es| - 1], i) then 1 else 0)
  }

  /** The same over all directories that have not been removed. */
  function Count(t: Inodes, i: nat): nat {
    if t == [] then 0 else Count(t[..|t| - 1], i) + Share(t[|t| - 1], i)
  }

  function Share(x: Inode, i: nat): nat { if Alive(x) then CountIn(x.entries, i) else 0 }

  lemma {:induction false} CountInSet(es: seq<Entry>, k: nat, e: Entry, i: nat)
    requires k < |es|
    ensures CountIn(es[k := e], i) == CountIn(es, i) - (if Names(es[k], i) then 1 else 0) + (if Names(e, i) then 1 else 0)
  {
    var n := |es| - 1;
    if k < n {
      CountInSet(es[..n], k, e, i);
      assert es[k := e][..n] == es[..n][k := e];
    } else {
      assert es[k := e][..n] == es[..n];
    }
  }

  lemma CountInAdd(es: seq<Entry>, e: Entry, i: nat)
    ensures CountIn(es + [e], i) == CountIn(es, i) + (if Names(e, i) then 1 else 0)
  {
    assert (es + [e])[..|es|] == es;
  }

  lemma {:induction false} CountSet(t: Inodes, d: nat, x: Inode, i: nat)
    requires d < |t|
    ensures Count(t[d := x], i) == Count(t, i) - Share(t[d], i) + Share(x, i)
  {
    var n := |t| - 1;
    if d < n {
      CountSet(t[..n], d, x, i);
      assert t[d := x][..n] == t[..n][d := x];
    } else {
      assert t[d := x][..n] == t[..n];
    }
  }

  lemma {:induction false} CountInZero(es: seq<Entry>, i: nat)
    requires forall k :: 0 <= k < |es| ==> !Names(es[k], i)
    ensures CountIn(es, i) == 0
  {
    if es != [] { CountInZero(es[..|es| - 1], i); }
  }

  lemma {:induction false} CountZero(t: Inodes, i: nat)
    requires forall d, k :: 0 <= d < |t| && Alive(t[d]) && 0 <= k < |t[d].entries| ==> !Names(t[d].entries[k], i)
    ensures Count(t, i) == 0
  {
    if t != [] {
      CountZero(t[..|t| - 1], i);
      if Alive(t[|t| - 1]) { CountInZero(t[|t| - 1].entries, i); }
    }
  }

  lemma {:induction false} CountInAtLeast(es: seq<Entry>, k: nat, i: nat)
    requires k < |es| && Names(es[k], i)
    ensures CountIn(es, i) > 0
  {
    if k < |es| - 1 { CountInAtLeast(es[..|es| - 1], k, i); }
  }

  lemma {:induction false} CountAtLeast(t: Inodes, d: nat, k: nat, i: nat)
    requires d < |t| && Alive(t[d]) && k < |t[d].entries| && Names(t[d].entries[k], i)
    ensures Count(t, i) > 0
  {
    if d < |t| - 1 { CountAtLeast(t[..|t| - 1], d, k, i); } else { CountInAtLeast(t[d].entries, k, i); }
  }

  // ----- the invariant -----

  /** Where each directory other than the root is named: directory and slot. */
  type Places = map<nat, (nat, nat)>

  /** An entry after "." and "..": it names a live inode, and a directory in its only place. */
  ghost predicate EntryOk(t: Inodes, w: Places, d: nat, k: nat)
    requires d < |t| && k < |t[d].entries|
  {
    var e := t[d].entries[k];
    e.inum != 0 ==>
      && e.inum < |t| && t[e.inum].kind != Free && e.name != "." && e.name != ".."
      && (t[e.inum].kind == Dir ==> Alive(t[e.inum]) && e.inum in w && w[e.inum] == (d, k))
  }

  /** A directory starts with "." and "..", which name it and its parent. */
  ghost predicate DotsOk(t: Inodes, w: Places, d: nat)
    requires d < |t|
  {
    var es := t[d].entries;
    && |es| >= 2 && es[0] == Entry(d, ".") && es[1].name == ".." && es[1].inum < |t| && Alive(t[es[1].inum])
    && (if d == ROOT then es[1].inum == ROOT else d in w && w[d].0 == es[1].inum)
  }

  ghost predicate DirOk(t: Inodes, w: Places, d: nat)
    requires d < |t|
  {
    Alive(t[d]) ==> DotsOk(t, w, d) && forall k: nat {:trigger EntryOk(t, w, d, k)} :: 2 <= k < |t[d].entries| ==> EntryOk(t, w, d, k)
  }

  ghost predicate PlaceOk(t: Inodes, w: Places, e: nat)
    requires e in w
  {
    && e < |t| && e != ROOT && Alive(t[e]) && w[e].0 < |t| && Alive(t[w[e].0])
    && 2 <= w[e].1 < |t[w[e].0].entries| && t[w[e].0].entries[w[e].1].inum == e
  }

  /** Every link count is the number of entries naming the inode. */
  ghost predicate CountsOk(t: Inodes) {
    forall i: nat {:trigger Count(t, i)} :: 1 <= i < |t| && t[i].kind != Free ==> t[i].nlink == Count(t, i)
  }

  ghost predicate TreeOk(t: Inodes, w: Places) {
    && ROOT < |t| && Alive(t[ROOT]) && t[0].kind == Free
    && (forall d: nat {:trigger DirOk(t, w, d)} :: d < |t| ==> DirOk(t, w, d))
    && (forall e {:trigger PlaceOk(t, w, e)} :: e in w ==> PlaceOk(t, w, e))
  }

  ghost predicate LinksOk(t: Inodes, w: Places) { TreeOk(t, w) && CountsOk(t) }

  /** No entry of a directory that has not been removed names a free inode. */
  lemma NoFreeNamed(t: Inodes, w: Places, d: nat, k: nat)
    requires LinksOk(t, w) && d < |t| && Alive(t[d]) && k < |t[d].entries| && t[d].entries[k].inum != 0
    ensures t[d].entries[k].inum < |t| && t[t[d].entries[k].inum].kind != Free
  {
    assert DirOk(t, w, d);
    if k >= 2 { assert EntryOk(t, w, d, k); }
  }

  lemma NotNamed(t: Inodes, w: Places, i: nat, d: nat, k: nat)
    requires TreeOk(t, w) && 0 < i < |t| && t[i].kind == Free && d < |t| && Alive(t[d]) && k < |t[d].entries|
    ensures !Names(t[d].entries[k], i)
  {
    assert DirOk(t, w, d);
    assert k >= 2 ==> EntryOk(t, w, d, k);
  }

  lemma FreeUnnamed(t: Inodes, w: Places, i: nat)
    requires TreeOk(t, w) && 0 < i < |t| && t[i].kind == Free
    ensures Count(t, i) == 0
  {
    forall d, k | 0 <= d < |t| && Alive(t[d]) && 0 <= k < |t[d].entries| ensures !Names(t[d].entries[k], i) {
      NotNamed(t, w, i, d, k);
    }
    CountZero(t, i);
  }

  // ----- adding an entry -----

  /** The first empty slot, or the end. */
  function Slot(es: seq<Entry>): (k: nat)
    ensures k <= |es| && (k < |es| ==> es[k].inum == 0) && forall j :: 0 <= j < k ==> es[j].inum != 0
  {
    if es == [] || es[0].inum == 0 then 0 else 1 + Slot(es[1..])
  }

  function Put(es: seq<Entry>, k: nat, e: Entry): seq<Entry>
    requires k <= |es|
  {
    if k < |es| then es[k := e] else es + [e]
  }

  lemma PutCount(es: seq<Entry>, e: Entry, i: nat)
    requires i != 0
    ensures CountIn(Put(es, Slot(es), e), i) == CountIn(es, i) + (if Names(e, i) then 1 else 0)
  {
    var k := Slot(es);
    if k < |es| { CountInSet(es, k, e, i); } else { CountInAdd(es, e, i); }
  }

  /** Directory d with a new entry. */
  function Linked(x: Inode, e: Entry): Inode { x.(entries := Put(x.entries, Slot(x.entries), e)) }

  /** The slot of a new entry comes after "." and "..". */
  lemma SlotAfterDots(t: Inodes, w: Places, d: nat)
    requires TreeOk(t, w) && d < |t| && Alive(t[d])
    ensures Slot(t[d].entries) >= 2
  {
    assert DirOk(t, w, d);
    var p := t[d].entries[1].inum;
    assert t[0].kind == Free;
    if d == 0 || p == 0 { assert false; }
  }

  // ----- create -----

  function NewFile(t: Inodes, d: nat, i: nat, name: string, kind: Kind): Inodes
    requires d < |t| && i < |t| && i != d
  {
    t[i := Inode(kind, 1, [])][d := Linked(t[d], Entry(i, name))]
  }

  lemma NewFileTree(t: Inodes, w: Places, d: nat, i: nat, name: string, kind: Kind)
    requires TreeOk(t, w) && d < |t| && Alive(t[d]) && 0 < i < |t| && t[i].kind == Free && i != d
    requires kind == File || kind == Device
    requires name != "." && name != ".."
    ensures TreeOk(NewFile(t, d, i, name, kind), w)
  {
    SlotAfterDots(t, w, d);
    var u := NewFile(t, d, i, name, kind);
    forall x: nat | x < |u| ensures DirOk(u, w, x) {
      assert DirOk(t, w, x);
      if Alive(u[x]) {
        forall k: nat | 2 <= k < |u[x].entries| ensures EntryOk(u, w, x, k) {
          if k < |t[x].entries| { assert EntryOk(t, w, x, k); }
        }
      }
    }
    forall e | e in w ensures PlaceOk(u, w, e) { assert PlaceOk(t, w, e); }
  }

  lemma NewFileCounts(t: Inodes, w: Places, d: nat, i: nat, name: string, kind: Kind, x: nat)
    requires TreeOk(t, w) && d < |t| && Alive(t[d]) && 0 < i < |t| && t[i].kind == Free && i != d && kind != Dir
    requires name != "." && 0 < x < |t|
    ensures Count(NewFile(t, d, i, name, kind), x) == Count(t, x) + (if x == i then 1 else 0)
  {
    var t1 := t[i := Inode(kind, 1, [])];
    CountSet(t, i, t1[i], x);
    CountSet(t1, d, Linked(t[d], Entry(i, name)), x);
    PutCount(t[d].entries, Entry(i, name), x);
  }

  /** Creating a file or device keeps the counts. */
  lemma NewFileOk(t: Inodes, w: Places, d: nat, i: nat, name: string, kind: Kind)
    requires LinksOk(t, w) && d < |t| && Alive(t[d]) && 0 < i < |t| && t[i].kind == Free && i != d
    requires (kind == File || kind == Device) && name != "." && name != ".."
    ensures LinksOk(NewFile(t, d, i, name, kind), w)
  {
    hide TreeOk;
    NewFileTree(t, w, d, i, name, kind);
    var u := NewFile(t, d, i, name, kind);
    FreeUnnamed(t, w, i);
    forall x: nat | 1 <= x < |u| && u[x].kind != Free ensures u[x].nlink == Count(u, x) {
      NewFileCounts(t, w, d, i, name, kind, x);
    }
  }

  function NewDir(t: Inodes, d: nat, i: nat, name: string): Inodes
    requires d < |t| && i < |t| && i != d
  {
    t[i := Inode(Dir, 1, [Entry(i, "."), Entry(d, "..")])]
     [d := Linked(t[d], Entry(i, name)).(nlink := t[d].nlink + 1)]
  }

  lemma NewDirTree(t: Inodes, w: Places, d: nat, i: nat, name: string)
    requires TreeOk(t, w) && d < |t| && Alive(t[d]) && 0 < i < |t| && t[i].kind == Free && i != d && i != ROOT
    requires name != "." && name != ".."
    ensures TreeOk(NewDir(t, d, i, name), w[i := (d, Slot(t[d].entries))])
  {
    SlotAfterDots(t, w, d);
    var u, v := NewDir(t, d, i, name), w[i := (d, Slot(t[d].entries))];
    assert i in w ==> PlaceOk(t, w, i);
    forall x: nat | x < |u| ensures DirOk(u, v, x) { NewDirAt(t, w, d, i, name, x); }
    forall e | e in v ensures PlaceOk(u, v, e) { assert e in w ==> PlaceOk(t, w, e); }
  }

  lemma NewDirAt(t: Inodes, w: Places, d: nat, i: nat, name: string, x: nat)
    requires TreeOk(t, w) && d < |t| && Alive(t[d]) && 0 < i < |t| && t[i].kind == Free && i != d && i != ROOT
    requires name != "." && name != ".." && x < |t| && Slot(t[d].entries) >= 2
    ensures DirOk(NewDir(t, d, i, name), w[i := (d, Slot(t[d].entries))], x)
  {
    var u, v := NewDir(t, d, i, name), w[i := (d, Slot(t[d].entries))];
    assert DirOk(t, w, x);
    if Alive(u[x]) {
      forall k: nat | 2 <= k < |u[x].entries| ensures EntryOk(u, v, x, k) {
        if k < |t[x].entries| { assert EntryOk(t, w, x, k); }
      }
    }
  }

  lemma NewDirCounts(t: Inodes, w: Places, d: nat, i: nat, name: string, x: nat)
    requires TreeOk(t, w) && d < |t| && Alive(t[d]) && 0 < i < |t| && t[i].kind == Free && i != d && name != "." && 0 < x < |t|
    ensures Count(NewDir(t, d, i, name), x) == Count(t, x) + (if x == i || x == d then 1 else 0)
  {
    var y := Inode(Dir, 1, [Entry(i, "."), Entry(d, "..")]);
    var t1 := t[i := y];
    CountSet(t, i, y, x);
    CountSet(t1, d, Linked(t[d], Entry(i, name)).(nlink := t[d].nlink + 1), x);
    PutCount(t[d].entries, Entry(i, name), x);
    DotsCount(i, d, x);
  }

  lemma DotsCount(i: nat, d: nat, x: nat)
    requires i != d
    ensures CountIn([Entry(i, "."), Entry(d, "..")], x) == if x == d then 1 else 0
  {
    CountInAdd([Entry(i, ".")], Entry(d, ".."), x);
    CountInAdd([], Entry(i, "."), x);
    assert [] + [Entry(i, ".")] == [Entry(i, ".")] && [Entry(i, ".")] + [Entry(d, "..")] == [Entry(i, "."), Entry(d, "..")];
  }

  /** Creating a directory keeps the counts: its ".." is a new link to the parent. */
  lemma NewDirOk(t: Inodes, w: Places, d: nat, i: nat, name: string)
    requires LinksOk(t, w) && d < |t| && Alive(t[d]) && 0 < i < |t| && t[i].kind == Free && i != d && i != ROOT
    requires name != "." && name != ".."
    ensures LinksOk(NewDir(t, d, i, name), w[i := (d, Slot(t[d].entries))])
  {
    hide TreeOk;
    NewDirTree(t, w, d, i, name);
    var u := NewDir(t, d, i, name);
    FreeUnnamed(t, w, i);
    forall x: nat | 1 <= x < |u| && u[x].kind != Free ensures u[x].nlink == Count(u, x) {
      NewDirCounts(t, w, d, i, name, x);
    }
  }

  // ----- link -----

  function NewLink(t: Inodes, d: nat, i: nat, name: string): Inodes
    requires d < |t| && i < |t| && i != d
  {
    t[i := t[i].(nlink := t[i].nlink + 1)][d := Linked(t[d], Entry(i, name))]
  }

  lemma NewLinkOk(t: Inodes, w: Places, d: nat, i: nat, name: string)
    requires LinksOk(t, w) && d < |t| && Alive(t[d]) && 0 < i < |t| && t[i].kind != Free && t[i].kind != Dir && i != d
    requires name != "." && name != ".."
    ensures LinksOk(NewLink(t, d, i, name), w)
  {
    SlotAfterDots(t, w, d);
    var u := NewLink(t, d, i, name);
    forall x: nat | x < |u| ensures DirOk(u, w, x) {
      assert DirOk(t, w, x);
      if Alive(u[x]) {
        forall k: nat | 2 <= k < |u[x].entries| ensures EntryOk(u, w, x, k) {
          if k < |t[x].entries| { assert EntryOk(t, w, x, k); }
        }
      }
    }
    forall e | e in w ensures PlaceOk(u, w, e) { assert PlaceOk(t, w, e); }
    forall x: nat | 1 <= x < |u| && u[x].kind != Free ensures u[x].nlink == Count(u, x) { NewLinkCounts(t, d, i, name, x); }
  }

  lemma NewLinkCounts(t: Inodes, d: nat, i: nat, name: string, x: nat)
    requires d < |t| && Alive(t[d]) && i < |t| && t[i].kind != Dir && i != d && name != "." && 0 < x < |t|
    ensures Count(NewLink(t, d, i, name), x) == Count(t, x) + (if x == i then 1 else 0)
  {
    var t1 := t[i := t[i].(nlink := t[i].nlink + 1)];
    CountSet(t, i, t1[i], x);
    CountSet(t1, d, Linked(t[d], Entry(i, name)), x);
    PutCount(t[d].entries, Entry(i, name), x);
  }

  // ----- unlink -----

  function Cleared(x: Inode, k: nat): Inode
    requires k < |x.entries|
  {
    x.(entries := x.entries[k := Entry(0, "")])
  }

  function Unlinked(t: Inodes, d: nat, k: nat, i: nat): Inodes
    requires d < |t| && k < |t[d].entries| && i < |t|
  {
    t[d := Cleared(t[d], k)][i := t[i].(nlink := t[i].nlink - 1)]
  }

  lemma UnlinkFileOk(t: Inodes, w: Places, d: nat, k: nat, i: nat)
    requires LinksOk(t, w) && d < |t| && Alive(t[d]) && 2 <= k < |t[d].entries| && t[d].entries[k].inum == i != 0
    requires i < |t| && t[i].kind != Dir
    ensures LinksOk(Unlinked(t, d, k, i), w)
  {
    var u := Unlinked(t, d, k, i);
    assert EntryOk(t, w, d, k) by { assert DirOk(t, w, d); }
    forall x: nat | x < |u| ensures DirOk(u, w, x) {
      assert DirOk(t, w, x);
      if Alive(u[x]) {
        forall m: nat | 2 <= m < |u[x].entries| ensures EntryOk(u, w, x, m) { assert EntryOk(t, w, x, m); }
      }
    }
    forall e | e in w ensures PlaceOk(u, w, e) { assert PlaceOk(t, w, e); }
    forall x: nat | 1 <= x < |u| && u[x].kind != Free ensures u[x].nlink == Count(u, x) { UnlinkedCounts(t, d, k, i, x); }
  }

  lemma UnlinkedCounts(t: Inodes, d: nat, k: nat, i: nat, x: nat)
    requires d < |t| && Alive(t[d]) && k < |t[d].entries| && Names(t[d].entries[k], i) && i != 0
    requires i < |t| && t[i].kind != Dir && 0 < x
    ensures Count(Unlinked(t, d, k, i), x) == Count(t, x) - (if x == i then 1 else 0)
  {
    var u := Unlinked(t, d, k, i);
    CountSet(t, d, Cleared(t[d], k), x);
    CountSet(t[d := Cleared(t[d], k)], i, u[i], x);
    CountInSet(t[d].entries, k, Entry(0, ""), x);
  }

  /** isdirempty() */
  ghost predicate IsEmpty(x: Inode) { forall k :: 2 <= k < |x.entries| ==> x.entries[k].inum == 0 }

  /** No directory has an empty one as its parent. */
  lemma NoChild(t: Inodes, w: Places, i: nat, x: nat)
    requires TreeOk(t, w) && i < |t| && i != ROOT && Alive(t[i]) && IsEmpty(t[i]) && x < |t| && Alive(t[x])
    ensures |t[x].entries| >= 2 && t[x].entries[1].inum != i
  {
    assert DirOk(t, w, x);
    assert x in w ==> PlaceOk(t, w, x);
  }

  /** The slot of an empty directory is the only entry naming it. */
  lemma OnlyPlace(t: Inodes, w: Places, d: nat, k: nat, i: nat, x: nat, m: nat)
    requires TreeOk(t, w) && d < |t| && Alive(t[d]) && 2 <= k < |t[d].entries| && t[d].entries[k].inum == i != 0
    requires i < |t| && t[i].kind == Dir && IsEmpty(t[i]) && x < |t| && Alive(t[x]) && m < |t[x].entries|
    ensures i != ROOT && i != d && i in w && w[i] == (d, k)
    ensures Names(t[x].entries[m], i) ==> x == d && m == k
  {
    assert DirOk(t, w, d) && EntryOk(t, w, d, k) && PlaceOk(t, w, i);
    assert DirOk(t, w, x);
    assert m >= 2 ==> EntryOk(t, w, x, m);
    NoChild(t, w, i, x);
  }

  /** So its link count is one. */
  lemma EmptyOneLink(t: Inodes, w: Places, d: nat, k: nat, i: nat)
    requires LinksOk(t, w) && d < |t| && Alive(t[d]) && 2 <= k < |t[d].entries| && t[d].entries[k].inum == i != 0
    requires i < |t| && t[i].kind == Dir && IsEmpty(t[i])
    ensures t[i].nlink == 1
  {
    var u := t[d := Cleared(t[d], k)];
    OnlyPlace(t, w, d, k, i, d, k);
    forall x, m | 0 <= x < |u| && Alive(u[x]) && 0 <= m < |u[x].entries| ensures !Names(u[x].entries[m], i) {
      OnlyPlace(t, w, d, k, i, x, m);
    }
    CountZero(u, i);
    CountSet(t, d, Cleared(t[d], k), i);
    CountInSet(t[d].entries, k, Entry(0, ""), i);
    assert DirOk(t, w, d);
    assert EntryOk(t, w, d, k);
  }

  /** An empty directory links to its parent only, by "..". */
  lemma {:induction false} EmptyShare(es: seq<Entry>, i: nat, d: nat, x: nat)
    requires |es| >= 2 && es[0] == Entry(i, ".") && es[1] == Entry(d, "..") && x != 0 && i != d
    requires forall k :: 2 <= k < |es| ==> es[k].inum == 0
    ensures CountIn(es, x) == if x == d then 1 else 0
    decreases |es|
  {
    if |es| == 2 {
      assert es == [Entry(i, "."), Entry(d, "..")];
      DotsCount(i, d, x);
    } else {
      EmptyShare(es[..|es| - 1], i, d, x);
    }
  }

  function RemovedDir(t: Inodes, d: nat, k: nat, i: nat): Inodes
    requires d < |t| && k < |t[d].entries| && i < |t|
  {
    t[i := t[i].(nlink := t[i].nlink - 1)][d := Cleared(t[d], k).(nlink := t[d].nlink - 1)]
  }

  /** The parent of a removed directory keeps at least one link. */
  lemma ParentLives(t: Inodes, w: Places, d: nat, k: nat, i: nat)
    requires LinksOk(t, w) && d < |t| && Alive(t[d]) && 2 <= k < |t[d].entries| && t[d].entries[k].inum == i != 0
    requires i < |t| && t[i].kind == Dir && IsEmpty(t[i]) && t[i].nlink == 1
    ensures t[d].nlink >= 2 && i != d && DotsOk(t, w, i) && t[i].entries[1] == Entry(d, "..") && d != 0
  {
    OnlyPlace(t, w, d, k, i, d, k);
    assert DirOk(t, w, i) && DirOk(t, w, d);
    var u := t[i := t[i].(nlink := 0)];
    CountSet(t, i, u[i], d);
    EmptyShare(t[i].entries, i, d, d);
    if d == ROOT {
      CountAtLeast(u, ROOT, 1, d);
    } else {
      assert PlaceOk(t, w, d) && DirOk(t, w, w[d].0);
      assert EntryOk(t, w, w[d].0, w[d].1);
      NoChild(t, w, i, d);
      CountAtLeast(u, w[d].0, w[d].1, d);
    }
  }

  lemma RemovedTree(t: Inodes, w: Places, d: nat, k: nat, i: nat)
    requires TreeOk(t, w) && d < |t| && Alive(t[d]) && 2 <= k < |t[d].entries| && t[d].entries[k].inum == i != 0
    requires i < |t| && t[i].kind == Dir && IsEmpty(t[i]) && t[i].nlink == 1 && t[d].nlink >= 2
    ensures TreeOk(RemovedDir(t, d, k, i), w - {i})
  {
    OnlyPlace(t, w, d, k, i, d, k);
    var u, v := RemovedDir(t, d, k, i), w - {i};
    forall x: nat | x < |u| ensures DirOk(u, v, x) { RemovedAt(t, w, d, k, i, x); }
    forall e | e in v ensures PlaceOk(u, v, e) { RemovedPlace(t, w, d, k, i, e); }
  }

  lemma RemovedAt(t: Inodes, w: Places, d: nat, k: nat, i: nat, x: nat)
    requires TreeOk(t, w) && d < |t| && Alive(t[d]) && 2 <= k < |t[d].entries| && t[d].entries[k].inum == i != 0
    requires i < |t| && t[i].kind == Dir && IsEmpty(t[i]) && t[i].nlink == 1 && t[d].nlink >= 2 && i != d && x < |t|
    ensures DirOk(RemovedDir(t, d, k, i), w - {i}, x)
  {
    var u, v := RemovedDir(t, d, k, i), w - {i};
    if Alive(u[x]) {
      assert DirOk(t, w, x);
      OnlyPlace(t, w, d, k, i, x, 0);
      NoChild(t, w, i, x);
      forall m: nat | 2 <= m < |u[x].entries| ensures EntryOk(u, v, x, m) {
        assert EntryOk(t, w, x, m);
        OnlyPlace(t, w, d, k, i, x, m);
      }
    }
  }

  lemma RemovedPlace(t: Inodes, w: Places, d: nat, k: nat, i: nat, e: nat)
    requires TreeOk(t, w) && d < |t| && Alive(t[d]) && 2 <= k < |t[d].entries| && t[d].entries[k].inum == i != 0
    requires i < |t| && t[i].kind == Dir && IsEmpty(t[i]) && t[i].nlink == 1 && t[d].nlink >= 2 && i != d && e in w && e != i
    ensures PlaceOk(RemovedDir(t, d, k, i), w - {i}, e)
  {
    assert PlaceOk(t, w, e) && DirOk(t, w, e);
    NoChild2(t, w, i, e);
  }

  lemma NoChild2(t: Inodes, w: Places, i: nat, e: nat)
    requires TreeOk(t, w) && i < |t| && Alive(t[i]) && IsEmpty(t[i]) && e in w
    ensures w[e].0 != i
  {
    assert PlaceOk(t, w, e) && t[0].kind == Free;
  }

  lemma RemovedCounts(t: Inodes, d: nat, k: nat, i: nat, x: nat)
    requires d < |t| && Alive(t[d]) && k < |t[d].entries| && t[d].entries[k].inum == i != 0 && t[d].entries[k].name != "."
    requires i < |t| && Alive(t[i]) && t[i].nlink == 1 && t[d].nlink >= 2 && i != d && 0 < x
    requires |t[i].entries| >= 2 && t[i].entries[0] == Entry(i, ".") && t[i].entries[1] == Entry(d, "..") && IsEmpty(t[i])
    ensures Count(RemovedDir(t, d, k, i), x) == Count(t, x) - (if x == i || x == d then 1 else 0)
  {
    hide Count, CountIn;
    var t1 := t[i := t[i].(nlink := t[i].nlink - 1)];
    CountSet(t, i, t1[i], x);
    EmptyShare(t[i].entries, i, d, x);
    CountSet(t1, d, Cleared(t[d], k).(nlink := t[d].nlink - 1), x);
    CountInSet(t[d].entries, k, Entry(0, ""), x);
  }

  /** Removing an empty directory keeps the counts, and the directory has no links left. */
  lemma RemoveDirOk(t: Inodes, w: Places, d: nat, k: nat, i: nat)
    requires LinksOk(t, w) && d < |t| && Alive(t[d]) && 2 <= k < |t[d].entries| && t[d].entries[k].inum == i != 0
    requires i < |t| && t[i].kind == Dir && IsEmpty(t[i])
    ensures i != d && LinksOk(RemovedDir(t, d, k, i), w - {i}) && RemovedDir(t, d, k, i)[i].nlink == 0
  {
    EmptyOneLink(t, w, d, k, i);
    ParentLives(t, w, d, k, i);
    RemovedTree(t, w, d, k, i);
    assert DirOk(t, w, d) && EntryOk(t, w, d, k);
    var u := RemovedDir(t, d, k, i);
    forall x: nat | 1 <= x < |u| && u[x].kind != Free ensures u[x].nlink == Count(u, x) { RemovedCounts(t, d, k, i, x); }
  }

  // ----- iput -----

  /** Freeing an inode without links. */
  lemma ReapOk(t: Inodes, w: Places, i: nat)
    requires LinksOk(t, w) && 0 < i < |t| && t[i].kind != Free && t[i].nlink == 0
    ensures LinksOk(t[i := Inode(Free, 0, [])], w)
  {
    var u := t[i := Inode(Free, 0, [])];
    forall x: nat | x < |u| ensures DirOk(u, w, x) {
      assert DirOk(t, w, x);
      if Alive(u[x]) {
        forall m: nat | 2 <= m < |u[x].entries| ensures EntryOk(u, w, x, m) {
          assert EntryOk(t, w, x, m);
          if t[x].entries[m].inum == i { CountAtLeast(t, x, m, i); }
        }
      }
    }
    forall e | e in w ensures PlaceOk(u, w, e) { assert PlaceOk(t, w, e); }
    forall x: nat | 1 <= x < |u| && u[x].kind != Free ensures u[x].nlink == Count(u, x) { CountSet(t, i, u[i], x); }
  }

  // ----- names -----

  /** Looking the name up gives inode i, or 0 if it is absent. */
  ghost predicate Resolves(es: seq<Entry>, name: string, i: nat) {
    if i == 0 then Absent(es, name) else exists k: nat :: First(es, name, k) && es[k].inum == i
  }

  /** Every other name is looked up as before. */
  ghost predicate SameNames(es: seq<Entry>, fs: seq<Entry>, name: string) {
    forall x: string, i: nat {:trigger Resolves(fs, x, i)} :: x != name ==> (Resolves(fs, x, i) <==> Resolves(es, x, i))
  }

  /** No name occurs twice. */
  ghost predicate Unique(es: seq<Entry>) {
    forall j, k :: 0 <= j < k < |es| && es[j].inum != 0 && es[k].inum != 0 ==> es[j].name != es[k].name
  }

  ghost predicate NamesOk(t: Inodes) { forall d: nat :: d < |t| && Alive(t[d]) ==> Unique(t[d].entries) }

  lemma UniqueFirst(es: seq<Entry>, k: nat)
    requires Unique(es) && k < |es| && es[k].inum != 0
    ensures First(es, es[k].name, k)
  {
  }

  lemma ResolvesAt(es: seq<Entry>, name: string, i: nat)
    requires Unique(es)
    ensures i != 0 ==> (Resolves(es, name, i) <==> exists k: nat :: k < |es| && es[k] == Entry(i, name))
  {
    if i != 0 && exists k: nat :: k < |es| && es[k] == Entry(i, name) {
      var k: nat :| k < |es| && es[k] == Entry(i, name);
      UniqueFirst(es, k);
    }
    if i != 0 && Resolves(es, name, i) {
      var k: nat :| First(es, name, k) && es[k].inum == i;
      assert es[k] == Entry(i, name);
    }
  }

  /** A new entry is found under its name, and all other names as before. */
  lemma LinkedNames(x: Inode, e: Entry)
    requires Unique(x.entries) && Absent(x.entries, e.name) && e.inum != 0
    ensures Unique(Linked(x, e).entries) && Resolves(Linked(x, e).entries, e.name, e.inum)
    ensures SameNames(x.entries, Linked(x, e).entries, e.name)
  {
    var es, k := x.entries, Slot(x.entries);
    var fs := Linked(x, e).entries;
    assert fs[k] == e && forall j :: 0 <= j < |es| && j != k ==> fs[j] == es[j];
    UniqueFirst(fs, k);
    forall nm: string, i: nat | nm != e.name ensures Resolves(fs, nm, i) <==> Resolves(es, nm, i) {
      SameButOne(es, fs, k, nm, i);
    }
  }

  /** Two directories that differ in slot k only, which neither uses for this name. */
  lemma SameButOne(es: seq<Entry>, fs: seq<Entry>, k: nat, name: string, i: nat)
    requires Unique(es) && Unique(fs) && k < |fs| && |es| <= |fs| <= k + 1 + |es| && (|fs| > |es| ==> k == |es| == |fs| - 1)
    requires forall j :: 0 <= j < |es| && j != k ==> fs[j] == es[j]
    requires (fs[k].inum == 0 || fs[k].name != name) && (k < |es| ==> es[k].inum == 0 || es[k].name != name)
    ensures Resolves(fs, name, i) <==> Resolves(es, name, i)
  {
    ResolvesAt(es, name, i);
    ResolvesAt(fs, name, i);
    if i != 0 {
      if j: nat :| j < |es| && es[j] == Entry(i, name) { assert fs[j] == Entry(i, name); }
      if j: nat :| j < |fs| && fs[j] == Entry(i, name) { assert es[j] == Entry(i, name); }
    }
  }

  /** A cleared entry is not found, and all other names as before. */
  lemma ClearedNames(x: Inode, k: nat)
    requires Unique(x.entries) && k < |x.entries| && x.entries[k].inum != 0
    ensures var name := x.entries[k].name;
            Unique(Cleared(x, k).entries) && Absent(Cleared(x, k).entries, name) && SameNames(x.entries, Cleared(x, k).entries, name)
  {
    var es, fs, name := x.entries, Cleared(x, k).entries, x.entries[k].name;
    forall nm: string, i: nat | nm != name ensures Resolves(fs, nm, i) <==> Resolves(es, nm, i) {
      SameButOne(es, fs, k, nm, i);
    }
  }

  /** A directory with only its dots. */
  lemma DotsNames(i: nat, d: nat)
    requires i != 0 && d != 0
    ensures var es := [Entry(i, "."), Entry(d, "..")];
            && Unique(es) && Resolves(es, ".", i) && Resolves(es, "..", d)
            && forall x: string :: x != "." && x != ".." ==> Resolves(es, x, 0)
  {
    var es := [Entry(i, "."), Entry(d, "..")];
    UniqueFirst(es, 0);
    UniqueFirst(es, 1);
  }

  lemma NoNames()
    ensures Unique([]) && forall x: string :: Resolves([], x, 0)
  {
  }

  // ----- references -----

  /** The inodes, and how many references in memory there are to each. */
  datatype Tree = Tree(t: Inodes, refs: seq<nat>)

  ghost predicate RefOk(s: Tree, i: nat)
    requires i < |s.t| == |s.refs|
  {
    if s.t[i].kind == Free then s.refs[i] == 0 else s.t[i].nlink > 0 || s.refs[i] > 0
  }

  /** No free inode is referenced, and an inode in use has a name or a reference. */
  ghost predicate RefsOk(s: Tree) { |s.refs| == |s.t| && forall i: nat {:trigger RefOk(s, i)} :: i < |s.t| ==> RefOk(s, i) }

  ghost predicate TreeInv(s: Tree, w: Places) {
    |s.refs| == |s.t| && LinksOk(s.t, w) && RefsOk(s) && NamesOk(s.t)
  }

  /** Without further references an inode without names is freed. */
  function Dropped(t: Inodes, refs: seq<nat>, i: nat): Inodes
    requires i < |t| == |refs|
  {
    if refs[i] == 0 && t[i].nlink == 0 then t[i := Inode(Free, 0, [])] else t
  }

  /** Steps that change only the inodes i and d keep the references right if they do for these. */
  lemma RefsKept(s: Tree, u: Tree, i: nat, d: nat)
    requires RefsOk(s) && |u.t| == |s.t| == |u.refs| && i < |u.t| && d < |u.t| && RefOk(u, i) && RefOk(u, d)
    requires forall j: nat :: j < |s.t| && j != i && j != d ==> u.t[j] == s.t[j] && u.refs[j] == s.refs[j]
    ensures RefsOk(u)
  {
    forall j: nat | j < |u.t| ensures RefOk(u, j) { assert RefOk(s, j); }
  }

  /** Dropping a reference that has just been given up. */
  lemma DroppedOk(t: Inodes, w: Places, refs: seq<nat>, i: nat)
    requires LinksOk(t, w) && |refs| == |t| && 0 < i < |t| && t[i].kind != Free && t[i].nlink >= 0
    requires forall j: nat :: j < |t| && j != i ==> RefOk(Tree(t, refs), j)
    ensures LinksOk(Dropped(t, refs, i), w) && RefsOk(Tree(Dropped(t, refs, i), refs))
  {
    hide LinksOk;
    if refs[i] == 0 && t[i].nlink == 0 { ReapOk(t, w, i); }
    var u := Tree(Dropped(t, refs, i), refs);
    forall j: nat | j < |t| ensures RefOk(u, j) {
      if j != i { assert RefOk(Tree(t, refs), j); }
    }
  }

  lemma MoreRefs(s: Tree, i: nat)
    requires RefsOk(s) && i < |s.t| && s.t[i].kind != Free
    ensures RefsOk(s.(refs := s.refs[i := s.refs[i] + 1]))
  {
    RefsKept(s, s.(refs := s.refs[i := s.refs[i] + 1]), i, i);
  }

  /** Inode i is taken, with a reference, and named in directory d. */
  lemma NewRef(s: Tree, u: Tree, i: nat, d: nat)
    requires RefsOk(s) && |u.t| == |s.t| && i < |u.t| && d < |u.t| && u.refs == s.refs[i := s.refs[i] + 1]
    requires u.t[i].kind != Free && u.t[d].kind != Free && u.t[d].nlink > 0
    requires forall j: nat :: j < |s.t| && j != i && j != d ==> u.t[j] == s.t[j]
    ensures RefsOk(u)
  {
    RefsKept(s, u, i, d);
  }

  lemma RefsBut(s: Tree, t: Inodes, i: nat, d: nat)
    requires RefsOk(s) && |t| == |s.t| && i < |t| && d < |t| && t[d].kind != Free && t[d].nlink > 0
    requires forall j: nat :: j < |t| && j != i && j != d ==> t[j] == s.t[j]
    ensures forall j: nat :: j < |t| && j != i ==> RefOk(Tree(t, s.refs), j)
  {
    forall j: nat | j < |t| && j != i ensures RefOk(Tree(t, s.refs), j) { assert RefOk(s, j); }
  }

  /** Removing an empty directory and dropping the reference to it. */
  lemma DirGone(s: Tree, w: Places, d: nat, k: nat, i: nat)
    requires TreeInv(s, w) && d < |s.t| && Alive(s.t[d]) && 2 <= k < |s.t[d].entries| && s.t[d].entries[k].inum == i != 0
    requires i < |s.t| && s.t[i].kind == Dir && IsEmpty(s.t[i])
    ensures i != d && s.t[i].nlink == 1 && TreeInv(s.(t := Dropped(RemovedDir(s.t, d, k, i), s.refs, i)), w - {i})
  {
    hide LinksOk, RefsOk, RefOk, Count;
    EmptyOneLink(s.t, w, d, k, i);
    ParentLives(s.t, w, d, k, i);
    RemoveDirOk(s.t, w, d, k, i);
    var t := RemovedDir(s.t, d, k, i);
    RefsBut(s, t, i, d);
    DroppedOk(t, w - {i}, s.refs, i);
  }

  /** Removing a name of a file and dropping the reference to it. */
  lemma FileGone(s: Tree, w: Places, d: nat, k: nat, i: nat)
    requires TreeInv(s, w) && d < |s.t| && Alive(s.t[d]) && 2 <= k < |s.t[d].entries| && s.t[d].entries[k].inum == i != 0
    requires i < |s.t| && s.t[i].kind != Dir && s.t[i].kind != Free && s.t[i].nlink >= 1
    ensures i != d && TreeInv(s.(t := Dropped(Unlinked(s.t, d, k, i), s.refs, i)), w)
  {
    hide LinksOk, RefsOk, RefOk, Count;
    UnlinkFileOk(s.t, w, d, k, i);
    var t := Unlinked(s.t, d, k, i);
    RefsBut(s, t, i, d);
    DroppedOk(t, w, s.refs, i);
  }

  lemma NonemptyAt(t: Inodes, es: seq<Entry>, name: string, k: nat)
    requires First(es, name, k) && es[k].inum < |t| && t[es[k].inum].kind == Dir && !IsEmpty(t[es[k].inum])
    ensures Nonempty(t, es, name)
  {
  }

  lemma NotZero(t: Inodes, w: Places, d: nat)
    requires LinksOk(t, w) && d < |t| && Alive(t[d])
    ensures d != 0
  {
  }

  lemma CountsNatural(t: Inodes, w: Places, i: nat)
    requires LinksOk(t, w) && 1 <= i < |t| && t[i].kind != Free
    ensures t[i].nlink == Count(t, i) >= 0
  {
  }

  /**
    A name made in a directory keeps the counts exactly if the directory has not been removed: in a
    removed one, which a process can still have as its current directory, the new inode has a
    link and no name.
  */
  lemma NewFileExactly(t: Inodes, w: Places, d: nat, i: nat, name: string, kind: Kind)
    requires LinksOk(t, w) && d < |t| && t[d].kind == Dir && 0 < i < |t| && t[i].kind == Free && i != d
    requires (kind == File || kind == Device) && name != "." && name != ".."
    ensures CountsOk(NewFile(t, d, i, name, kind)) <==> Alive(t[d])
  {
    var u := NewFile(t, d, i, name, kind);
    if Alive(t[d]) {
      NewFileOk(t, w, d, i, name, kind);
    } else {
      FreeUnnamed(t, w, i);
      CountSet(t, i, Inode(kind, 1, []), i);
      CountSet(t[i := Inode(kind, 1, [])], d, Linked(t[d], Entry(i, name)), i);
      assert u[i].nlink == 1 && Count(u, i) == 0;
    }
  }

  // ----- what calls do -----

  /** A system call on inodes that path lookup has found, or taking and dropping a reference. */
  datatype SysCall =
    | DoCreate(dp: nat, name: string, kind: Kind)
    | DoLink(ip: nat, dp: nat, name: string)
    | DoUnlink(dp: nat, name: string)
    | DoGet(i: nat)
    | DoPut(i: nat)

  /** Lookup finds inodes in use, and no directory that has been removed; only a reference can be dropped. */
  predicate Resolved(s: Tree, c: SysCall)
    requires |s.refs| == |s.t|
  {
    match c
    case DoCreate(dp, _, kind) => dp < |s.t| && Alive(s.t[dp]) && kind != Free
    case DoLink(ip, dp, _) => 0 < ip < |s.t| && s.t[ip].kind != Free && dp < |s.t| && Alive(s.t[dp])
    case DoUnlink(dp, _) => dp < |s.t| && Alive(s.t[dp])
    case DoGet(i) => 0 < i < |s.t| && s.t[i].kind != Free
    case DoPut(i) => 0 < i < |s.t| && s.refs[i] > 0
  }

  /** The first entry with a name, or -1. */
  function Find(es: seq<Entry>, name: string): (k: int)
    ensures if k == -1 then Absent(es, name) else 0 <= k && First(es, name, k)
  {
    if es == [] then -1
    else if es[0].inum != 0 && es[0].name == name then 0
    else
      var k := Find(es[1..], name);
      assert forall j :: 0 < j < |es| ==> es[j] == es[1..][j - 1];
      if k == -1 then -1 else k + 1
  }

  /** The first free inode from i on, or 0. */
  function FreeFrom(t: Inodes, i: nat): (r: nat)
    requires 0 < i
    ensures r == 0 ==> forall j :: i <= j < |t| ==> t[j].kind != Free
    ensures r != 0 ==> i <= r < |t| && t[r].kind == Free && forall j :: i <= j < r ==> t[j].kind != Free
    decreases |t| - i
  {
    if i >= |t| then 0 else if t[i].kind == Free then i else FreeFrom(t, i + 1)
  }

  datatype Done = Done(s: Tree, r: int)

  /** The inodes and references after a call, and its result: an inode number, or 0 and -1. */
  ghost function Call(s: Tree, c: SysCall): (r: Done)
    requires |s.refs| == |s.t|
    ensures |r.s.t| == |r.s.refs| == |s.t|
  {
    if !Resolved(s, c) then Done(s, -1)
    else
      match c
      case DoCreate(dp, name, kind) =>
        var k, i := Find(s.t[dp].entries, name), FreeFrom(s.t, 1);
        if k != -1 then
          var r := Opened(s.t, s.t[dp].entries[k].inum, kind);
          if r == 0 then Done(s, 0) else Done(s.(refs := s.refs[r := s.refs[r] + 1]), r)
        else if i == 0 then Done(s, 0)
        else
          Done(Tree(if kind == Dir then NewDir(s.t, dp, i, name) else NewFile(s.t, dp, i, name, kind), s.refs[i := s.refs[i] + 1]), i)
      case DoLink(ip, dp, name) =>
        if s.t[ip].kind == Dir || Find(s.t[dp].entries, name) != -1 then Done(s, -1)
        else Done(s.(t := NewLink(s.t, dp, ip, name)), 0)
      case DoUnlink(dp, name) =>
        var k := Find(s.t[dp].entries, name);
        if name == "." || name == ".." || k == -1 || s.t[dp].entries[k].inum >= |s.t| then Done(s, -1)
        else
          var i := s.t[dp].entries[k].inum;
          if s.t[i].kind != Dir then Done(s.(t := Dropped(Unlinked(s.t, dp, k, i), s.refs, i)), 0)
          else if !IsEmpty(s.t[i]) then Done(s, -1)
          else Done(s.(t := Dropped(RemovedDir(s.t, dp, k, i), s.refs, i)), 0)
      case DoGet(i) => Done(s.(refs := s.refs[i := s.refs[i] + 1]), 0)
      case DoPut(i) =>
        var refs := s.refs[i := s.refs[i] - 1];
        Done(Tree(Dropped(s.t, refs, i), refs), 0)
  }

  /** The inodes, references and results after all calls. */
  ghost function CallAll(s: Tree, calls: seq<SysCall>): (r: (Tree, seq<int>))
    requires |s.refs| == |s.t|
    ensures |r.0.t| == |r.0.refs| == |s.t| && |r.1| == |calls|
  {
    if calls == [] then (s, [])
    else
      var (u, rs) := CallAll(s, calls[..|calls| - 1]);
      var d := Call(u, calls[|calls| - 1]);
      (d.s, rs + [d.r])
  }

  lemma FirstIs(es: seq<Entry>, name: string)
    ensures forall k: nat :: First(es, name, k) ==> Find(es, name) == k
    ensures Absent(es, name) <==> Find(es, name) == -1
  {
  }

  lemma FreeIs(t: Inodes)
    ensures forall i: nat :: FirstFree(t, i) ==> FreeFrom(t, 1) == i
    ensures NoneFree(t) <==> FreeFrom(t, 1) == 0
  {
  }

  // ----- the code -----

  /** What create() returns for a name that exists: the inode if a file is asked for and it is no directory. */
  function Opened(t: Inodes, i: nat, kind: Kind): nat {
    if kind == File && i < |t| && (t[i].kind == File || t[i].kind == Device) then i else 0
  }

  /** The name stands for a directory that is not empty. */
  ghost predicate Nonempty(t: Inodes, es: seq<Entry>, name: string) {
    exists k: nat :: First(es, name, k) && es[k].inum < |t| && t[es[k].inum].kind == Dir && !IsEmpty(t[es[k].inum])
  }

  predicate Absent(es: seq<Entry>, name: string) {
    forall j :: 0 <= j < |es| ==> es[j].inum == 0 || es[j].name != name
  }

  /** Slot k is the first with this name. */
  predicate First(es: seq<Entry>, name: string, k: nat) {
    && k < |es| && es[k].inum != 0 && es[k].name == name
    && forall j :: 0 <= j < k ==> es[j].inum == 0 || es[j].name != name
  }

  /** Inode i is the first free one; inode 0 is never used. */
  predicate FirstFree(t: Inodes, i: nat) {
    0 < i < |t| && t[i].kind == Free && forall j :: 0 < j < i ==> t[j].kind != Free
  }

  predicate NoneFree(t: Inodes) { forall j :: 0 < j < |t| ==> t[j].kind != Free }

  /** dirlookup(): the first entry with this name, or -1. */
  method DirLookup(es: seq<Entry>, name: string) returns (k: int)
    ensures if k == -1 then Absent(es, name) else 0 <= k && First(es, name, k)
  {
    k := 0;
    while k < |es|
      invariant 0 <= k <= |es| && forall j :: 0 <= j < k ==> es[j].inum == 0 || es[j].name != name
    {
      if es[k].inum != 0 && es[k].name == name { return; }
      k := k + 1;
    }
    k := -1;
  }

  /** isdirempty() */
  method IsDirEmpty(x: Inode) returns (empty: bool)
    ensures empty <==> IsEmpty(x)
  {
    var k := 2;
    while k < |x.entries|
      invariant 2 <= k && forall j :: 2 <= j < k && j < |x.entries| ==> x.entries[j].inum == 0
    {
      if x.entries[k].inum != 0 { return false; }
      k := k + 1;
    }
    empty := true;
  }

  lemma {:induction false} SlotIs(es: seq<Entry>, k: nat)
    requires k <= |es| && (k < |es| ==> es[k].inum == 0) && forall j :: 0 <= j < k ==> es[j].inum != 0
    ensures Slot(es) == k
    decreases |es|
  {
    if k > 0 { SlotIs(es[1..], k - 1); }
  }

  /** dirlink(): refuses a name that is present, else fills the first empty slot or appends. */
  method DirLink(x: Inode, name: string, inum: nat) returns (ok: bool, y: Inode)
    ensures ok <==> Absent(x.entries, name)
    ensures y == if ok then Linked(x, Entry(inum, name)) else x
    ensures ok && inum != 0 && Unique(x.entries) ==>
              Unique(y.entries) && Resolves(y.entries, name, inum) && SameNames(x.entries, y.entries, name)
  {
    hide Resolves, SameNames, Unique;
    var found := DirLookup(x.entries, name);
    if found != -1 { return false, x; }
    var k := 0;
    while k < |x.entries|
      invariant 0 <= k <= |x.entries| && forall j :: 0 <= j < k ==> x.entries[j].inum != 0
    {
      if x.entries[k].inum == 0 { break; }
      k := k + 1;
    }
    SlotIs(x.entries, k);
    ok := true;
    if inum != 0 && Unique(x.entries) { LinkedNames(x, Entry(inum, name)); }
    y := x.(entries := if k < |x.entries| then x.entries[k := Entry(inum, name)] else x.entries + [Entry(inum, name)]);
  }

  /** The inodes mkfs leaves, before it adds files: the root directory and free inodes. */
  function Mkfs(ninodes: nat): (s: Tree)
    requires ninodes > ROOT
    ensures |s.t| == |s.refs| == ninodes
  {
    Tree(seq(ninodes, _ => Inode(Free, 0, []))[ROOT := Inode(Dir, 1, [Entry(ROOT, "."), Entry(ROOT, "..")])], seq(ninodes, _ => 0))
  }

  class FileTree {
    var t: Inodes
    var refs: seq<nat>
    ghost var w: Places

    ghost function Now(): Tree reads this { Tree(t, refs) }

    ghost predicate Ok() reads this { TreeInv(Now(), w) }

    constructor (ninodes: nat)
      requires ninodes > ROOT
      ensures Ok() && Now() == Mkfs(ninodes)
    {
      refs := seq(ninodes, _ => 0);
      t := seq(ninodes, _ => Inode(Free, 0, []))[ROOT := Inode(Dir, 1, [Entry(ROOT, "."), Entry(ROOT, "..")])];
      w := map[];
      new;
      RootAlone(t);
    }

    /** create(): a new file, device or directory in dp, or the file that has the name already, with a reference. */
    method Create(dp: nat, name: string, kind: Kind) returns (r: nat, made: bool)
      requires Ok() && dp < |t| && Alive(t[dp]) && kind != Free
      modifies this
      ensures |t| == |old(t)| && Ok() && r < |t|
      ensures refs == if r == 0 then old(refs) else old(refs)[r := old(refs)[r] + 1]
      ensures made <==> Absent(old(t)[dp].entries, name) && !NoneFree(old(t))
      ensures !made ==> t == old(t)
      ensures forall k: nat :: First(old(t)[dp].entries, name, k) ==>
                var i := old(t)[dp].entries[k].inum;
                !made && i < |t| && r == if kind == File && (old(t)[i].kind == File || old(t)[i].kind == Device) then i else 0
      ensures Absent(old(t)[dp].entries, name) && NoneFree(old(t)) ==> r == 0
      ensures made ==> r != dp && FirstFree(old(t), r) && t[r].kind == kind && t[r].nlink == 1
      ensures made && kind != Dir ==> t == NewFile(old(t), dp, r, name, kind)
      ensures made && kind == Dir ==> t == NewDir(old(t), dp, r, name)
      ensures made ==> Resolves(t[dp].entries, name, r) && SameNames(old(t)[dp].entries, t[dp].entries, name)
      ensures made && kind == Dir ==> Resolves(t[r].entries, ".", r) && Resolves(t[r].entries, "..", dp)
      ensures made ==> forall x: string :: kind != Dir || (x != "." && x != "..") ==> Resolves(t[r].entries, x, 0)
      ensures made ==> forall d: nat :: d < |t| && d != dp && d != r ==> t[d] == old(t)[d]
    {
      hide LinksOk, RefsOk, RefOk, Slot, Count, Resolves, SameNames, Unique;
      var k := DirLookup(t[dp].entries, name);
      if k != -1 {
        var ip := t[dp].entries[k].inum;
        NoFreeNamed(t, w, dp, k);
        assert First(t[dp].entries, name, k);
        if kind == File && (t[ip].kind == File || t[ip].kind == Device) {
          MoreRefs(Now(), ip);
          refs := refs[ip := refs[ip] + 1];
          return ip, false;
        }
        return 0, false;
      }
      DotsTaken(t, w, dp, name);
      r := Ialloc();
      if r == 0 { return 0, false; }
      made := true;
      Make(dp, r, name, kind);
    }

    /** The rest of create(): the new inode i, its dots, and its name in dp. */
    method Make(dp: nat, i: nat, name: string, kind: Kind)
      requires Ok() && dp < |t| && Alive(t[dp]) && kind != Free && Absent(t[dp].entries, name) && name != "." && name != ".."
      requires 0 < i < |t| && t[i].kind == Free && i != ROOT
      modifies this
      ensures |t| == |old(t)| && Ok() && refs == old(refs)[i := old(refs)[i] + 1] && i != dp && t[i].kind == kind && t[i].nlink == 1
      ensures t == if kind == Dir then NewDir(old(t), dp, i, name) else NewFile(old(t), dp, i, name, kind)
      ensures Resolves(t[dp].entries, name, i) && SameNames(old(t)[dp].entries, t[dp].entries, name)
      ensures kind == Dir ==> Resolves(t[i].entries, ".", i) && Resolves(t[i].entries, "..", dp)
      ensures forall x: string :: kind != Dir || (x != "." && x != "..") ==> Resolves(t[i].entries, x, 0)
      ensures forall d: nat :: d < |t| && d != dp && d != i ==> t[d] == old(t)[d]
    {
      hide LinksOk, RefsOk, RefOk, Slot, Count, Resolves, SameNames, Unique;
      var ok, d;
      if kind == Dir {
        NotZero(t, w, dp);
        DotsNames(i, dp);
        NewDirOk(t, w, dp, i, name);
        ok, d := DirLink(t[dp].(nlink := t[dp].nlink + 1), name, i);
        w := w[i := (dp, Slot(t[dp].entries))];
        t := t[i := Inode(Dir, 1, [Entry(i, "."), Entry(dp, "..")])][dp := d];
      } else {
        NoNames();
        NewFileOk(t, w, dp, i, name, kind);
        ok, d := DirLink(t[dp], name, i);
        t := t[i := Inode(kind, 1, [])][dp := d];
      }
      refs := refs[i := refs[i] + 1];
      NewRef(old(Now()), Now(), i, dp);
    }

    /** ialloc(): the first free inode, or 0. */
    method Ialloc() returns (i: nat)
      requires Ok()
      ensures if i == 0 then NoneFree(t) else FirstFree(t, i) && i != ROOT
    {
      i := 1;
      while i < |t|
        invariant 1 <= i && forall j :: 0 < j < i && j < |t| ==> t[j].kind != Free
      {
        if t[i].kind == Free { return; }
        i := i + 1;
      }
      i := 0;
    }

    /** sys_link() for an inode and a directory: another name for a file. */
    method Link(ip: nat, dp: nat, name: string) returns (ok: bool)
      requires Ok() && 0 < ip < |t| && t[ip].kind != Free && dp < |t| && Alive(t[dp])
      modifies this
      ensures |t| == |old(t)| && Ok() && refs == old(refs)
      ensures ok <==> old(t)[ip].kind != Dir && Absent(old(t)[dp].entries, name)
      ensures ok ==> ip != dp && t == NewLink(old(t), dp, ip, name)
      ensures ok ==> Resolves(t[dp].entries, name, ip) && SameNames(old(t)[dp].entries, t[dp].entries, name)
      ensures ok ==> forall d: nat :: d < |t| && d != dp ==> t[d].kind == old(t)[d].kind && t[d].entries == old(t)[d].entries
      ensures !ok ==> t == old(t)
    {
      if t[ip].kind == Dir { return false; }
      t := t[ip := t[ip].(nlink := t[ip].nlink + 1)];
      var d;
      ok, d := DirLink(t[dp], name, ip);
      if !ok {
        t := t[ip := t[ip].(nlink := t[ip].nlink - 1)];
        assert t == old(t);
        return;
      }
      DotsTaken(old(t), w, dp, name);
      NewLinkOk(old(t), w, dp, ip, name);
      t := t[dp := d];
      CountsNatural(old(t), w, ip);
      RefsKept(old(Now()), Now(), ip, dp);
    }

    /**
      sys_unlink() for a directory and a name: only files and empty directories can be removed. The
      reference of the lookup is dropped at the end, which frees the inode if that was the last one
      and no name is left.
    */
    method Unlink(dp: nat, name: string) returns (ok: bool, ghost i: nat, ghost slot: nat)
      requires Ok() && dp < |t| && Alive(t[dp])
      modifies this
      ensures |t| == |old(t)| && Ok() && refs == old(refs)
      ensures !ok ==> t == old(t)
      ensures ok ==> i < |t| && First(old(t)[dp].entries, name, slot) && old(t)[dp].entries[slot].inum == i
      ensures !ok ==> Absent(t[dp].entries, name) || name == "." || name == ".." || Nonempty(t, t[dp].entries, name)
      ensures ok ==> name != "." && name != ".." && old(t)[i].nlink >= 1
      ensures ok && old(t)[i].kind == Dir ==>
                IsEmpty(old(t)[i]) && old(t)[i].nlink == 1 && t == Dropped(RemovedDir(old(t), dp, slot, i), refs, i)
      ensures ok && old(t)[i].kind != Dir ==> t == Dropped(Unlinked(old(t), dp, slot, i), refs, i)
      ensures ok ==> Absent(t[dp].entries, name) && SameNames(old(t)[dp].entries, t[dp].entries, name)
      ensures ok ==> forall d: nat :: d < |t| && d != dp && d != i ==> t[d] == old(t)[d]
    {
      hide LinksOk, RefsOk, RefOk, Slot, Count, Nonempty, IsEmpty, Resolves, SameNames, Unique;
      i, slot := 0, 0;
      if name == "." || name == ".." { return false, 0, 0; }
      var k := DirLookup(t[dp].entries, name);
      if k == -1 { return false, 0, 0; }
      var ip := t[dp].entries[k].inum;
      NamedSlot(t, w, dp, k);
      CountAtLeast(t, dp, k, ip);
      CountsNatural(t, w, ip);
      if t[ip].kind == Dir {
        var empty := IsDirEmpty(t[ip]);
        if !empty {
          NonemptyAt(t, t[dp].entries, name, k);
          return false, 0, 0;
        }
      }
      ClearedNames(t[dp], k);
      Remove(dp, k, ip);
      return true, ip, k;
    }

    /** The rest of sys_unlink(): clear the entry, count down, and drop the reference of the lookup. */
    method Remove(dp: nat, k: nat, ip: nat)
      requires Ok() && dp < |t| && Alive(t[dp]) && 2 <= k < |t[dp].entries| && t[dp].entries[k].inum == ip != 0 && ip < |t|
      requires t[ip].kind != Free && t[ip].nlink >= 1 && (t[ip].kind == Dir ==> IsEmpty(t[ip]))
      modifies this
      ensures |t| == |old(t)| && Ok() && refs == old(refs)
      ensures old(t)[ip].kind == Dir ==> old(t)[ip].nlink == 1 && t == Dropped(RemovedDir(old(t), dp, k, ip), refs, ip)
      ensures old(t)[ip].kind != Dir ==> t == Dropped(Unlinked(old(t), dp, k, ip), refs, ip)
      ensures ip != dp
    {
      hide LinksOk, RefsOk, RefOk, Slot, Count, IsEmpty, NamesOk;
      ghost var s0 := Now();
      if t[ip].kind == Dir { DirGone(s0, w, dp, k, ip); } else { FileGone(s0, w, dp, k, ip); }
      refs := refs[ip := refs[ip] + 1];
      t := t[dp := Cleared(t[dp], k)];
      if t[ip].kind == Dir {
        t := t[dp := t[dp].(nlink := t[dp].nlink - 1)];
        w := w - {ip};
      }
      t := t[ip := t[ip].(nlink := t[ip].nlink - 1)];
      assert t == if s0.t[ip].kind == Dir then RemovedDir(s0.t, dp, k, ip) else Unlinked(s0.t, dp, k, ip);
      Drop(ip);
      assert refs == s0.refs;
    }

    /** iget(), or idup(): one more reference to an inode that lookup has found. */
    method Iget(i: nat)
      requires Ok() && 0 < i < |t| && t[i].kind != Free
      modifies this
      ensures Ok() && t == old(t) && refs == old(refs)[i := old(refs)[i] + 1]
    {
      MoreRefs(Now(), i);
      refs := refs[i := refs[i] + 1];
    }

    /** iput(): drop a reference, and free the inode if it was the last one and no name is left. */
    method Iput(i: nat)
      requires Ok() && 0 < i < |t| && refs[i] > 0
      modifies this
      ensures Ok() && refs == old(refs)[i := old(refs)[i] - 1]
      ensures t == if old(refs)[i] == 1 && old(t)[i].nlink == 0 then old(t)[i := Inode(Free, 0, [])] else old(t)
    {
      assert RefOk(Now(), i);
      CountsNatural(t, w, i);
      ghost var refs' := refs[i := refs[i] - 1];
      forall j: nat | j < |t| && j != i ensures RefOk(Tree(t, refs'), j) { assert RefOk(Now(), j); }
      DroppedOk(t, w, refs', i);
      Drop(i);
    }

    /** The code of iput(). */
    method Drop(i: nat)
      requires i < |t| == |refs| && refs[i] > 0
      modifies this`t, this`refs
      ensures refs == old(refs)[i := old(refs)[i] - 1] && t == Dropped(old(t), refs, i)
    {
      if refs[i] == 1 && t[i].nlink == 0 { t := t[i := Inode(Free, 0, [])]; }
      refs := refs[i := refs[i] - 1];
    }

    /** One call, which has an effect only if its inodes are found. */
    method Do(c: SysCall) returns (r: int)
      requires Ok()
      modifies this
      ensures Ok() && Done(Now(), r) == Call(old(Now()), c)
    {
      hide LinksOk, RefOk, Count, Slot, Alive, Resolves, SameNames, Unique, NewDir, NewFile, NewLink, Unlinked, RemovedDir, IsEmpty;
      if !Resolved(Tree(t, refs), c) { return -1; }
      FreeIs(t);
      match c
      case DoCreate(dp, name, kind) =>
        FirstIs(t[dp].entries, name);
        var made;
        r, made := Create(dp, name, kind);
      case DoLink(ip, dp, name) =>
        FirstIs(t[dp].entries, name);
        var ok := Link(ip, dp, name);
        r := if ok then 0 else -1;
      case DoUnlink(dp, name) =>
        FirstIs(t[dp].entries, name);
        var ok, i, slot := Unlink(dp, name);
        r := if ok then 0 else -1;
      case DoGet(i) =>
        Iget(i);
        r := 0;
      case DoPut(i) =>
        Iput(i);
        r := 0;
    }
  }

  /** What the file system starts from: a root directory that is its own parent. */
  lemma RootAlone(t: Inodes)
    requires |t| > ROOT && t[ROOT] == Inode(Dir, 1, [Entry(ROOT, "."), Entry(ROOT, "..")])
    requires forall i :: 0 <= i < |t| && i != ROOT ==> t[i].kind == Free
    ensures LinksOk(t, map[])
  {
    var z := seq(|t|, i requires 0 <= i < |t| => t[i].(kind := Free));
    assert t == z[ROOT := t[ROOT]];
    CountZero(z, ROOT);
    CountSet(z, ROOT, t[ROOT], ROOT);
    var es := t[ROOT].entries;
    assert es == [] + [Entry(ROOT, ".")] + [Entry(ROOT, "..")];
    CountInAdd([], Entry(ROOT, "."), ROOT);
    CountInAdd([] + [Entry(ROOT, ".")], Entry(ROOT, ".."), ROOT);
    assert DirOk(t, map[], ROOT);
  }

  /**
    Over every sequence of calls, from a root directory alone, inodes, references and results are
    those of the calls one after the other, and after each of them every link count is the number
    of names and every inode in use has a name or a reference.
  */
  method RunCalls(ninodes: nat, calls: seq<SysCall>) returns (ft: FileTree, rs: seq<int>, ghost ws: seq<Places>)
    requires ninodes > ROOT
    ensures fresh(ft) && (ft.Now(), rs) == CallAll(Mkfs(ninodes), calls)
    ensures |ws| == |calls| + 1 && forall n: nat :: n <= |calls| ==> TreeInv(CallAll(Mkfs(ninodes), calls[..n]).0, ws[n])
  {
    hide Call, TreeInv;
    ft := new FileTree(ninodes);
    rs, ws := [], [ft.w];
    ghost var s := Mkfs(ninodes);
    assert calls[..0] == [];
    for n := 0 to |calls|
      invariant ft.Ok() && (ft.Now(), rs) == CallAll(s, calls[..n])
      invariant |ws| == n + 1 && forall m: nat :: m <= n ==> TreeInv(CallAll(s, calls[..m]).0, ws[m])
    {
      var r := ft.Do(calls[n]);
      assert calls[..n + 1][..n] == calls[..n];
      rs, ws := rs + [r], ws + [ft.w];
    }
    assert calls[..|calls|] == calls;
  }

  /** Make a directory, hold on to it, and remove it. */
  const MAKE_AND_REMOVE: seq<SysCall> := [DoCreate(ROOT, "d", Dir), DoUnlink(ROOT, "d")]

  /** These calls leave a removed directory with a reference: a file made in it now would have a link and no name. */
  method RemovedDirReached() returns (ft: FileTree, d: nat, i: nat)
    ensures ft.Ok() && ft.Now() == CallAll(Mkfs(4), MAKE_AND_REMOVE).0
    ensures d < |ft.t| && 0 < i < |ft.t| && i != d && ft.t[d].kind == Dir && ft.refs[d] == 1 && ft.t[i].kind == Free
    ensures !CountsOk(NewFile(ft.t, d, i, "f", File))
  {
    hide LinksOk, RefsOk;
    ft := new FileTree(4);
    var r := ft.Do(DoCreate(ROOT, "d", Dir));
    Made(Mkfs(4));
    ghost var s := ft.Now();
    r := ft.Do(DoUnlink(ROOT, "d"));
    Removed(s);
    d, i := 2, 3;
    NewFileExactly(ft.t, ft.w, d, i, "f", File);
    assert MAKE_AND_REMOVE[..1] == [DoCreate(ROOT, "d", Dir)] && MAKE_AND_REMOVE[..1][..0] == [];
    assert CallAll(Mkfs(4), MAKE_AND_REMOVE[..1]).0 == s;
  }

  lemma Made(s: Tree)
    requires s == Mkfs(4)
    ensures var u := Call(s, DoCreate(ROOT, "d", Dir)).s;
            && u.t == [s.t[0], Inode(Dir, 2, [Entry(1, "."), Entry(1, ".."), Entry(2, "d")]),
                       Inode(Dir, 1, [Entry(2, "."), Entry(1, "..")]), s.t[3]]
            && u.refs == [0, 0, 1, 0]
  {
    var es := s.t[ROOT].entries;
    FirstIs(es, "d");
    FreeIs(s.t);
    assert Absent(es, "d") && FirstFree(s.t, 2);
    assert es[1..] == [Entry(1, "..")] && es[1..][1..] == [] && Slot(es) == 2;
    assert Put(es, 2, Entry(2, "d")) == [Entry(1, "."), Entry(1, ".."), Entry(2, "d")];
    var u := Call(s, DoCreate(ROOT, "d", Dir)).s;
    assert u.t == NewDir(s.t, ROOT, 2, "d");
    assert u.t[1] == Inode(Dir, 2, [Entry(1, "."), Entry(1, ".."), Entry(2, "d")]);
  }

  lemma Removed(s: Tree)
    requires |s.t| == 4 && s.refs == [0, 0, 1, 0]
    requires s.t[1] == Inode(Dir, 2, [Entry(1, "."), Entry(1, ".."), Entry(2, "d")])
    requires s.t[2] == Inode(Dir, 1, [Entry(2, "."), Entry(1, "..")])
    ensures var u := Call(s, DoUnlink(ROOT, "d")).s;
            u.refs == s.refs && u.t == s.t[1 := u.t[1]][2 := s.t[2].(nlink := 0)]
  {
    var es := s.t[ROOT].entries;
    FirstIs(es, "d");
    assert First(es, "d", 2);
  }

  /** The names "." and ".." are always taken. */
  lemma DotsTaken(t: Inodes, w: Places, d: nat, name: string)
    requires LinksOk(t, w) && d < |t| && Alive(t[d])
    requires Absent(t[d].entries, name)
    ensures name != "." && name != ".."
  {
    assert DirOk(t, w, d);
    assert t[d].entries[0].inum == d && t[0].kind == Free;
    assert Alive(t[t[d].entries[1].inum]);
  }

  /** An entry with another name comes after them, and its inode is live. */
  lemma NamedSlot(t: Inodes, w: Places, d: nat, k: nat)
    requires LinksOk(t, w) && d < |t| && Alive(t[d]) && k < |t[d].entries| && t[d].entries[k].inum != 0
    requires t[d].entries[k].name != "." && t[d].entries[k].name != ".."
    ensures k >= 2 && t[d].entries[k].inum < |t| && t[t[d].entries[k].inum].kind != Free
  {
    assert DirOk(t, w, d);
    NoFreeNamed(t, w, d, k);
  }
}
