/**
 The entries of the namespace and the circular doubly linked lists through them (namespace.c
 lines 31-80): the two operations on links, and what they do to the rings that the links form.
 */
module Entries {

  /** What a link is for: the head of a list, or one of the two links inside an entry. */
  datatype Role = RootHead | SlotHead | SubdirHead | ChildLink | HashLink

  class Link {
    ghost const role: Role
    var next: Link
    var prev: Link
    /** The entry that the link is inside of: what list_entry computes. */
    var entry: Entry?

    /** init_list_head: a ring of its own. */
    constructor (ghost role0: Role)
      ensures role == role0 && next == this && prev == this && entry == null
    {
      role := role0;
      next, prev, entry := this, this, null;
    }
  }

  class Entry {
    const name: string
    const parent: Entry?
    const address: nat
    const subdir: Link
    const child: Link
    const hash: Link
    /** How many entries are above this one. */
    ghost const depth: nat

    constructor (name0: string, parent0: Entry?, address0: nat)
      ensures name == name0 && parent == parent0 && address == address0
      ensures depth == if parent0 == null then 0 else parent0.depth + 1
      ensures fresh(subdir) && fresh(child) && fresh(hash) && Roles(this) && Inside(this)
      ensures subdir.next == subdir && subdir.prev == subdir
    {
      name, parent, address := name0, parent0, address0;
      depth := if parent0 == null then 0 else parent0.depth + 1;
      subdir := new Link(SubdirHead);
      child := new Link(ChildLink);
      hash := new Link(HashLink);
      new;
      child.entry := this;
      hash.entry := this;
    }
  }

  ghost predicate Roles(e: Entry)
  {
    e.subdir.role == SubdirHead && e.child.role == ChildLink && e.hash.role == HashLink
  }

  /** The links lead back to their entry. */
  ghost predicate Inside(e: Entry)
    reads e.child`entry, e.hash`entry
  {
    e.child.entry == e && e.hash.entry == e
  }

  // ---------------------------------------------------------------- rings

  /** The links of some nodes, as values. */
  datatype Wires = Wires(next: map<Link, Link>, prev: map<Link, Link>)

  ghost function WiresOf(nodes: set<Link>): (w: Wires)
    reads nodes
  {
    Wires(Nexts(nodes), Prevs(nodes))
  }

  ghost function Nexts(nodes: set<Link>): (m: map<Link, Link>)
    reads nodes
  {
    map l | l in nodes :: l.next
  }

  ghost function Prevs(nodes: set<Link>): (m: map<Link, Link>)
    reads nodes
  {
    map l | l in nodes :: l.prev
  }

  function After(n: nat, i: nat): (j: nat)
    requires i < n
    ensures j < n
  {
    if i + 1 < n then i + 1 else 0
  }

  ghost predicate Distinct(r: seq<Link>)
  {
    forall i, j :: 0 <= i < j < |r| ==> r[i] != r[j]
  }

  /** The links go around `r`, in both directions. */
  ghost predicate Linked(w: Wires, r: seq<Link>)
  {
    && r != [] && Distinct(r) && (forall i :: 0 <= i < |r| ==> r[i] in w.next && r[i] in w.prev)
    && forall i :: 0 <= i < |r| ==> w.next[r[i]] == r[After(|r|, i)] && w.prev[r[After(|r|, i)]] == r[i]
  }

  /** list_add: the link goes to the end, which is before the head. */
  ghost function Add(w: Wires, e: Link, head: Link): (w': Wires)
    requires head in w.prev
  {
    var last := w.prev[head];
    Wires(w.next[e := head][last := e], w.prev[e := last][head := e])
  }

  /** list_del: the neighbours are linked with each other; the link itself keeps its pointers. */
  ghost function Del(w: Wires, e: Link): (w': Wires)
    requires e in w.next && e in w.prev
  {
    Wires(w.next[w.prev[e] := w.next[e]], w.prev[w.next[e] := w.prev[e]])
  }

  method ListAdd(entry: Link, head: Link, ghost nodes: set<Link>)
    requires entry in nodes && head in nodes && head.prev in nodes && entry != head && entry != head.prev
    modifies entry`next, entry`prev, head`prev, head.prev`next
    ensures WiresOf(nodes) == Add(old(WiresOf(nodes)), entry, head)
  {
    var next: Link := head;
    var prev: Link := head.prev;
    ghost var n0: map<Link, Link>, p0: map<Link, Link> := Nexts(nodes), Prevs(nodes);
    entry.next := next;
    entry.prev := prev;
    prev.next := entry;
    next.prev := entry;
    assert Nexts(nodes) == n0[entry := head][prev := entry];
    assert Prevs(nodes) == p0[entry := prev][head := entry];
  }

  method ListDel(entry: Link, ghost nodes: set<Link>)
    requires entry in nodes && entry.next in nodes && entry.prev in nodes
    modifies entry.prev`next, entry.next`prev
    ensures WiresOf(nodes) == Del(old(WiresOf(nodes)), entry)
  {
    var next: Link := entry.next;
    var prev: Link := entry.prev;
    ghost var n0: map<Link, Link>, p0: map<Link, Link> := Nexts(nodes), Prevs(nodes);
    prev.next := next;
    next.prev := prev;
    assert Nexts(nodes) == n0[prev := next];
    assert Prevs(nodes) == p0[next := prev];
  }

  ghost predicate Disjoint(r: seq<Link>, q: seq<Link>)
  {
    forall i, j :: 0 <= i < |r| && 0 <= j < |q| ==> r[i] != q[j]
  }

  lemma LastOf(w: Wires, r: seq<Link>)
    requires Linked(w, r)
    ensures r[0] in w.prev && w.prev[r[0]] == r[|r| - 1]
  {
    assert r[After(|r|, |r| - 1)] == r[0];
  }

  /** A link that is added to a ring is at its end. */
  lemma AddLinked(w: Wires, r: seq<Link>, e: Link)
    requires Linked(w, r) && e !in r
    ensures r[0] in w.prev && Linked(Add(w, e, r[0]), r + [e])
  {
    LastOf(w, r);
    var w', q := Add(w, e, r[0]), r + [e];
    forall i | 0 <= i < |q| ensures w'.next[q[i]] == q[After(|q|, i)] && w'.prev[q[After(|q|, i)]] == q[i] {
      if i + 1 < |r| {
        assert q[i] == r[i] && q[i + 1] == r[i + 1] && r[After(|r|, i)] == r[i + 1];
      }
    }
  }

  /** Other rings do not change when a link is added to a ring. */
  lemma AddOther(w: Wires, r: seq<Link>, e: Link, q: seq<Link>)
    requires Linked(w, r) && Linked(w, q) && e !in q && Disjoint(r, q)
    ensures r[0] in w.prev && Linked(Add(w, e, r[0]), q)
  {
    LastOf(w, r);
    var w' := Add(w, e, r[0]);
    forall i | 0 <= i < |q| ensures w'.next[q[i]] == q[After(|q|, i)] && w'.prev[q[After(|q|, i)]] == q[i] {
      assert q[After(|q|, i)] in q && q[i] in q;
    }
  }

  /** A ring without its link number `k`. */
  function Cut(r: seq<Link>, k: nat): (q: seq<Link>)
    requires k < |r|
  {
    r[..k] + r[k + 1..]
  }

  lemma CutAt(r: seq<Link>, k: nat, i: nat)
    requires k < |r| && i < |r| - 1
    ensures Cut(r, k)[i] == if i < k then r[i] else r[i + 1]
  {
  }

  lemma CutDistinct(r: seq<Link>, k: nat)
    requires Distinct(r) && k < |r|
    ensures Distinct(Cut(r, k))
  {
    forall i, j | 0 <= i < j < |r| - 1 ensures Cut(r, k)[i] != Cut(r, k)[j] {
      CutAt(r, k, i);
      CutAt(r, k, j);
    }
  }

  lemma Neighbours(w: Wires, r: seq<Link>, k: nat)
    requires Linked(w, r) && 0 < k < |r|
    ensures r[k] in w.next && r[k] in w.prev && w.prev[r[k]] == r[k - 1] && w.next[r[k]] == r[After(|r|, k)]
  {
    assert After(|r|, k - 1) == k;
  }

  lemma LinkedAt(w: Wires, r: seq<Link>, i: nat)
    requires Linked(w, r) && i < |r|
    ensures r[i] in w.next && r[i] in w.prev && r[After(|r|, i)] in w.prev
    ensures w.next[r[i]] == r[After(|r|, i)] && w.prev[r[After(|r|, i)]] == r[i]
  {
    hide After, Distinct;
  }

  lemma Differ(w: Wires, r: seq<Link>, i: nat, j: nat)
    requires Linked(w, r) && i < |r| && j < |r|
    ensures r[i] == r[j] <==> i == j
  {
    hide After;
  }

  /** Around the gap, and elsewhere, a step of the shorter ring is right. */
  lemma DelAt(w: Wires, r: seq<Link>, k: nat, i: nat)
    requires Linked(w, r) && 0 < k < |r| && i < |r| - 1 && r[k] in w.next && r[k] in w.prev
    ensures var w', q := Del(w, r[k]), Cut(r, k);
            && |q| == |r| - 1 && q[i] in w'.next && q[i] in w'.prev && q[After(|q|, i)] in w'.prev
            && w'.next[q[i]] == q[After(|q|, i)] && w'.prev[q[After(|q|, i)]] == q[i]
  {
    hide Linked;
    Neighbours(w, r, k);
    var n, j := |r|, if i < k then i else i + 1;
    CutAt(r, k, i);
    CutAt(r, k, After(n - 1, i));
    LinkedAt(w, r, j);
    LinkedAt(w, r, After(n, j));
    LinkedAt(w, r, After(n, k));
    Differ(w, r, j, k - 1);
    Differ(w, r, After(n, j), After(n, k));
  }

  lemma DelLinked(w: Wires, r: seq<Link>, k: nat)
    requires Linked(w, r) && 0 < k < |r|
    ensures r[k] in w.next && r[k] in w.prev && Linked(Del(w, r[k]), Cut(r, k))
  {
    Neighbours(w, r, k);
    CutDistinct(r, k);
    hide Cut, Distinct, After, Del;
    forall i | 0 <= i < |r| - 1 ensures var w', q := Del(w, r[k]), Cut(r, k);
            && |q| == |r| - 1 && q[i] in w'.next && q[i] in w'.prev
            && w'.next[q[i]] == q[After(|q|, i)] && w'.prev[q[After(|q|, i)]] == q[i] {
      DelAt(w, r, k, i);
    }
  }

  lemma DelOther(w: Wires, r: seq<Link>, k: nat, q: seq<Link>)
    requires Linked(w, r) && 0 < k < |r| && Linked(w, q) && Disjoint(r, q)
    ensures r[k] in w.next && r[k] in w.prev && Linked(Del(w, r[k]), q)
  {
    Neighbours(w, r, k);
    var w' := Del(w, r[k]);
    forall i | 0 <= i < |q| ensures w'.next[q[i]] == q[After(|q|, i)] && w'.prev[q[After(|q|, i)]] == q[i] {
      assert q[After(|q|, i)] in q && q[i] in q;
    }
  }
}
