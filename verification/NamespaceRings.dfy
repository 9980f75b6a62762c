/**
 The rings of links behind the namespace's lists: one for the children of each entry and one for
 each slot of the hash table, all apart from each other.
 */
module NamespaceRings {

  import opened Entries
  import opened NamespaceTree

  ghost function Hashes(s: seq<Entry>): (r: seq<Link>)
    ensures |r| == |s| && forall i :: 0 <= i < |s| ==> r[i] == s[i].hash
  {
    seq(|s|, i requires 0 <= i < |s| => s[i].hash)
  }

  ghost function Childs(s: seq<Entry>): (r: seq<Link>)
    ensures |r| == |s| && forall i :: 0 <= i < |s| ==> r[i] == s[i].child
  {
    seq(|s|, i requires 0 <= i < |s| => s[i].child)
  }

  /** subdir_head */
  function HeadOf(root: Link, p: Entry?): (h: Link)
  {
    if p == null then root else p.subdir
  }

  ghost function HashRing(head: Link, s: seq<Entry>): (r: seq<Link>)
    ensures |r| == |s| + 1 && r[0] == head && forall i :: 0 <= i < |s| ==> r[i + 1] == s[i].hash
  {
    [head] + Hashes(s)
  }

  ghost function ChildRing(root: Link, p: Entry?, s: seq<Entry>): (r: seq<Link>)
    ensures |r| == |s| + 1 && r[0] == HeadOf(root, p) && forall i :: 0 <= i < |s| ==> r[i + 1] == s[i].child
  {
    [HeadOf(root, p)] + Childs(s)
  }

  /** No two entries share links. */
  ghost predicate Separate(live: set<Entry>)
  {
    && (forall e :: e in live ==> Roles(e))
    && forall e, f :: e in live && f in live && (e.hash == f.hash || e.child == f.child || e.subdir == f.subdir) ==>
         e == f
  }

  ghost predicate Heads(heads: seq<Link>)
  {
    (forall k :: 0 <= k < |heads| ==> heads[k].role == SlotHead) && forall k, m :: 0 <= k < m < |heads| ==>
        heads[k] != heads[m]
  }

  ghost predicate HashWired(w: Wires, heads: seq<Link>, tab: seq<seq<Entry>>)
  {
    |heads| == |tab| && forall k :: 0 <= k < |tab| ==> Linked(w, HashRing(heads[k], tab[k]))
  }

  ghost predicate KidsWired(w: Wires, root: Link, kids: map<Entry?, seq<Entry>>)
  {
    forall p :: p in kids ==> Linked(w, ChildRing(root, p, kids[p]))
  }

  /** Lists of different entries under different heads. */
  lemma HashDisjoint(h: Link, s: seq<Entry>, g: Link, t: seq<Entry>, live: set<Entry>)
    requires Separate(live) && h != g && h.role == SlotHead && g.role == SlotHead
    requires (forall e :: e in s ==> e in live && e !in t) && forall e :: e in t ==> e in live
    ensures Disjoint(HashRing(h, s), HashRing(g, t))
  {
    var r, q := HashRing(h, s), HashRing(g, t);
    forall i, j | 0 <= i < |r| && 0 <= j < |q| ensures r[i] != q[j] {
      if i > 0 {
        assert s[i - 1] in s && r[i] == s[i - 1].hash;
      }
      if j > 0 {
        assert t[j - 1] in t && q[j] == t[j - 1].hash;
      }
    }
  }

  lemma ChildDisjoint(root: Link, p: Entry?, s: seq<Entry>, p': Entry?, t: seq<Entry>, live: set<Entry>)
    requires Separate(live) && root.role == RootHead && p != p' && (p != null ==> p in live)
    requires p' != null ==> p' in live
    requires (forall e :: e in s ==> e in live && e !in t) && forall e :: e in t ==> e in live
    ensures Disjoint(ChildRing(root, p, s), ChildRing(root, p', t))
  {
    var r, q := ChildRing(root, p, s), ChildRing(root, p', t);
    forall i, j | 0 <= i < |r| && 0 <= j < |q| ensures r[i] != q[j] {
      if i > 0 {
        assert s[i - 1] in s && r[i] == s[i - 1].child;
      }
      if j > 0 {
        assert t[j - 1] in t && q[j] == t[j - 1].child;
      }
    }
  }

  lemma KindsDisjoint(h: Link, s: seq<Entry>, root: Link, p: Entry?, t: seq<Entry>, live: set<Entry>)
    requires Separate(live) && h.role == SlotHead && root.role == RootHead && (p != null ==> p in live)
    requires (forall e :: e in s ==> e in live) && forall e :: e in t ==> e in live
    ensures Disjoint(HashRing(h, s), ChildRing(root, p, t)) && Disjoint(ChildRing(root, p, t), HashRing(h, s))
  {
    var r, q := HashRing(h, s), ChildRing(root, p, t);
    forall i, j | 0 <= i < |r| && 0 <= j < |q| ensures r[i] != q[j] {
      if i > 0 {
        assert s[i - 1] in s && r[i] == s[i - 1].hash;
      }
      if j > 0 {
        assert t[j - 1] in t && q[j] == t[j - 1].child;
      }
    }
  }

  lemma HashOutside(h: Link, s: seq<Entry>, e: Entry, live: set<Entry>)
    requires Separate(live) && e in live && h.role == SlotHead && e !in s && forall f :: f in s ==> f in live
    ensures e.hash !in HashRing(h, s)
  {
    var r := HashRing(h, s);
    forall i | 0 <= i < |r| ensures r[i] != e.hash {
      if i > 0 {
        assert s[i - 1] in s && r[i] == s[i - 1].hash;
      }
    }
  }

  lemma ChildOutside(root: Link, p: Entry?, s: seq<Entry>, e: Entry, live: set<Entry>)
    requires Separate(live) && e in live && root.role == RootHead && (p != null ==> p in live) && e !in s
              && forall f :: f in s ==> f in live
    ensures e.child !in ChildRing(root, p, s)
  {
    var r := ChildRing(root, p, s);
    forall i | 0 <= i < |r| ensures r[i] != e.child {
      if i > 0 {
        assert s[i - 1] in s && r[i] == s[i - 1].child;
      }
    }
  }

  lemma LinksKind(h: Link, s: seq<Entry>, root: Link, p: Entry?, t: seq<Entry>, e: Entry, live: set<Entry>)
    requires Separate(live) && e in live && h.role == SlotHead && root.role == RootHead && (p != null ==> p in live)
    requires (forall f :: f in s ==> f in live) && forall f :: f in t ==> f in live
    ensures e.child !in HashRing(h, s) && e.hash !in ChildRing(root, p, t)
  {
    var r, q := HashRing(h, s), ChildRing(root, p, t);
    forall i | 0 <= i < |r| ensures r[i] != e.child {
      if i > 0 {
        assert s[i - 1] in s && r[i] == s[i - 1].hash;
      }
    }
    forall i | 0 <= i < |q| ensures q[i] != e.hash {
      if i > 0 {
        assert t[i - 1] in t && q[i] == t[i - 1].child;
      }
    }
  }

  // ---------------------------------------------------------------- what is known of the lists

  /** The entries of the lists are live, and no entry is in two of them. */
  ghost predicate InPlace(tab: seq<seq<Entry>>, kids: map<Entry?, seq<Entry>>, live: set<Entry>)
  {
    && (forall k :: 0 <= k < |tab| ==> forall f :: f in tab[k] ==> f in live && Slot(f, |tab|) == k)
    && (forall p :: p in kids ==> (p == null || p in live) && forall f :: f in kids[p] ==> f in live && f.parent == p)
  }

  lemma InPlaceFrom(tab: seq<seq<Entry>>, kids: map<Entry?, seq<Entry>>, listed: set<Entry>, born: set<Entry>,
                    live: set<Entry>)
    requires |tab| > 0 && Hashed(tab, listed) && Children(kids, born) && listed <= live && born <= live
    ensures InPlace(tab, kids, live)
  {
    hide Slot, NoDuplicates;
    forall k | 0 <= k < |tab| ensures forall f :: f in tab[k] ==> f in live && Slot(f, |tab|) == k {
      assert Holds(tab[k], listed, |tab|, k);
    }
  }

  lemma SlotLists(tab: seq<seq<Entry>>, kids: map<Entry?, seq<Entry>>, live: set<Entry>, k: nat, m: nat)
    requires InPlace(tab, kids, live) && k < |tab| && m < |tab|
    ensures forall f :: f in tab[k] ==> f in live && (k != m ==> f !in tab[m])
  {
    hide Slot;
  }

  lemma KidLists(tab: seq<seq<Entry>>, kids: map<Entry?, seq<Entry>>, live: set<Entry>, p: Entry?, q: Entry?)
    requires InPlace(tab, kids, live) && p in kids && q in kids
    ensures (p != null ==> p in live) && (q != null ==> q in live) && forall f :: f in kids[p] ==>
              f in live && (p != q ==> f !in kids[q])
  {
    hide Slot;
  }

  ghost predicate Apart(root: Link, heads: seq<Link>, live: set<Entry>)
  {
    Separate(live) && Heads(heads) && root.role == RootHead
  }

  lemma ApartFacts(root: Link, heads: seq<Link>, live: set<Entry>, k: nat, m: nat)
    requires Apart(root, heads, live) && k < |heads| && m < |heads|
    ensures Separate(live) && root.role == RootHead && heads[k].role == SlotHead && heads[m].role == SlotHead
    ensures k != m ==> heads[k] != heads[m]
  {
    hide Separate;
  }

  // ---------------------------------------------------------------- adding

  lemma HashAppend(h: Link, s: seq<Entry>, e: Entry)
    ensures HashRing(h, s) + [e.hash] == HashRing(h, s + [e])
  {
  }

  lemma ChildAppend(root: Link, p: Entry?, s: seq<Entry>, e: Entry)
    ensures ChildRing(root, p, s) + [e.child] == ChildRing(root, p, s + [e])
  {
  }

  /** A new entry's link goes to a slot of the table. */
  lemma AddHash(w: Wires, root: Link, heads: seq<Link>, tab: seq<seq<Entry>>, kids: map<Entry?, seq<Entry>>,
                live: set<Entry>, e: Entry, m: nat)
    requires Apart(root, heads, live) && InPlace(tab, kids, live) && HashWired(w, heads, tab)
    requires KidsWired(w, root, kids)
    requires e in live && m < |tab| && forall k :: 0 <= k < |tab| ==> e !in tab[k]
    ensures |heads| == |tab| && heads[m] in w.prev
    ensures HashWired(Add(w, e.hash, heads[m]), heads, tab[m := tab[m] + [e]])
    ensures KidsWired(Add(w, e.hash, heads[m]), root, kids)
  {
    hide Linked, Add, HashRing, ChildRing, InPlace, Apart, Separate, Disjoint, Slot;
    var r := HashRing(heads[m], tab[m]);
    ApartFacts(root, heads, live, m, m);
    SlotLists(tab, kids, live, m, m);
    HashOutside(heads[m], tab[m], e, live);
    AddLinked(w, r, e.hash);
    HashAppend(heads[m], tab[m], e);
    var w' := Add(w, e.hash, heads[m]);
    forall k: nat | k < |tab| && k != m ensures Linked(w', HashRing(heads[k], tab[k])) {
      ApartFacts(root, heads, live, m, k);
      SlotLists(tab, kids, live, m, k);
      SlotLists(tab, kids, live, k, m);
      HashDisjoint(heads[m], tab[m], heads[k], tab[k], live);
      HashOutside(heads[k], tab[k], e, live);
      AddOther(w, r, e.hash, HashRing(heads[k], tab[k]));
    }
    forall p | p in kids ensures Linked(w', ChildRing(root, p, kids[p])) {
      KidLists(tab, kids, live, p, p);
      KindsDisjoint(heads[m], tab[m], root, p, kids[p], live);
      LinksKind(heads[m], tab[m], root, p, kids[p], e, live);
      AddOther(w, r, e.hash, ChildRing(root, p, kids[p]));
    }
  }

  /** A new entry's link goes to its parent's children. */
  lemma AddChild(w: Wires, root: Link, heads: seq<Link>, tab: seq<seq<Entry>>, kids: map<Entry?, seq<Entry>>,
                 live: set<Entry>, e: Entry, p: Entry?)
    requires Apart(root, heads, live) && InPlace(tab, kids, live) && HashWired(w, heads, tab)
    requires KidsWired(w, root, kids)
    requires e in live && p in kids && forall q :: q in kids ==> e !in kids[q]
    ensures var h := HeadOf(root, p);
            h in w.prev && HashWired(Add(w, e.child, h), heads, tab)
            && KidsWired(Add(w, e.child, h), root, kids[p := kids[p] + [e]])
  {
    hide Linked, Add, HashRing, ChildRing, InPlace, Apart, Separate, Disjoint, Slot;
    var r, h := ChildRing(root, p, kids[p]), HeadOf(root, p);
    RootFacts(root, heads, live);
    KidLists(tab, kids, live, p, p);
    ChildOutside(root, p, kids[p], e, live);
    AddLinked(w, r, e.child);
    ChildAppend(root, p, kids[p], e);
    var w' := Add(w, e.child, h);
    forall k: nat | k < |tab| ensures Linked(w', HashRing(heads[k], tab[k])) {
      ApartFacts(root, heads, live, k, k);
      SlotLists(tab, kids, live, k, k);
      KindsDisjoint(heads[k], tab[k], root, p, kids[p], live);
      LinksKind(heads[k], tab[k], root, p, kids[p], e, live);
      AddOther(w, r, e.child, HashRing(heads[k], tab[k]));
    }
    forall q | q in kids && q != p ensures Linked(w', ChildRing(root, q, kids[q])) {
      KidLists(tab, kids, live, p, q);
      KidLists(tab, kids, live, q, p);
      ChildDisjoint(root, p, kids[p], q, kids[q], live);
      ChildOutside(root, q, kids[q], e, live);
      AddOther(w, r, e.child, ChildRing(root, q, kids[q]));
    }
  }

  lemma RootFacts(root: Link, heads: seq<Link>, live: set<Entry>)
    requires Apart(root, heads, live)
    ensures Separate(live) && root.role == RootHead
  {
    hide Separate;
  }

  // ---------------------------------------------------------------- deleting

  lemma HashCut(h: Link, s: seq<Entry>, e: Entry) returns (x: nat)
    requires e in s && NoDuplicates(s)
    ensures x < |s| && s[x] == e && Cut(HashRing(h, s), x + 1) == HashRing(h, Without(s, e))
  {
    x := WithoutAt(s, e);
  }

  lemma ChildCut(root: Link, p: Entry?, s: seq<Entry>, e: Entry) returns (x: nat)
    requires e in s && NoDuplicates(s)
    ensures x < |s| && s[x] == e && Cut(ChildRing(root, p, s), x + 1) == ChildRing(root, p, Without(s, e))
  {
    x := WithoutAt(s, e);
  }

  lemma {:induction false} WithoutAt(s: seq<Entry>, e: Entry) returns (x: nat)
    requires e in s
    ensures x < |s| && s[x] == e && Without(s, e) == s[..x] + s[x + 1..]
    decreases |s|
  {
    if s[0] == e {
      x := 0;
    } else {
      var y := WithoutAt(s[1..], e);
      x := y + 1;
      assert s[..x] == [s[0]] + s[1..][..y] && s[x + 1..] == s[1..][y + 1..];
    }
  }

  /** An entry's link leaves its slot. */
  lemma DelHash(w: Wires, root: Link, heads: seq<Link>, tab: seq<seq<Entry>>, kids: map<Entry?, seq<Entry>>,
                live: set<Entry>, e: Entry, m: nat)
    requires Apart(root, heads, live) && InPlace(tab, kids, live) && HashWired(w, heads, tab)
    requires KidsWired(w, root, kids)
    requires m < |tab| && e in tab[m] && NoDuplicates(tab[m])
    ensures e.hash in w.next && e.hash in w.prev
    ensures HashWired(Del(w, e.hash), heads, tab[m := Without(tab[m], e)]) && KidsWired(Del(w, e.hash), root, kids)
  {
    hide Linked, Del, Cut, HashRing, ChildRing, InPlace, Apart, Separate, Disjoint, Slot, NoDuplicates, Without;
    var r := HashRing(heads[m], tab[m]);
    ApartFacts(root, heads, live, m, m);
    SlotLists(tab, kids, live, m, m);
    var x := HashCut(heads[m], tab[m], e);
    DelLinked(w, r, x + 1);
    var w' := Del(w, e.hash);
    forall k: nat | k < |tab| && k != m ensures Linked(w', HashRing(heads[k], tab[k])) {
      ApartFacts(root, heads, live, m, k);
      SlotLists(tab, kids, live, m, k);
      SlotLists(tab, kids, live, k, m);
      HashDisjoint(heads[m], tab[m], heads[k], tab[k], live);
      DelOther(w, r, x + 1, HashRing(heads[k], tab[k]));
    }
    forall p | p in kids ensures Linked(w', ChildRing(root, p, kids[p])) {
      KidLists(tab, kids, live, p, p);
      KindsDisjoint(heads[m], tab[m], root, p, kids[p], live);
      DelOther(w, r, x + 1, ChildRing(root, p, kids[p]));
    }
  }

  /** An entry's link leaves its parent's children. */
  lemma DelChild(w: Wires, root: Link, heads: seq<Link>, tab: seq<seq<Entry>>, kids: map<Entry?, seq<Entry>>,
                 live: set<Entry>, e: Entry, p: Entry?)
    requires Apart(root, heads, live) && InPlace(tab, kids, live) && HashWired(w, heads, tab)
    requires KidsWired(w, root, kids)
    requires p in kids && e in kids[p] && NoDuplicates(kids[p])
    ensures e.child in w.next && e.child in w.prev
    ensures HashWired(Del(w, e.child), heads, tab) && KidsWired(Del(w, e.child), root, kids[p := Without(kids[p], e)])
  {
    hide Linked, Del, Cut, HashRing, ChildRing, InPlace, Apart, Separate, Disjoint, Slot, NoDuplicates, Without;
    var r := ChildRing(root, p, kids[p]);
    RootFacts(root, heads, live);
    KidLists(tab, kids, live, p, p);
    var x := ChildCut(root, p, kids[p], e);
    DelLinked(w, r, x + 1);
    var w' := Del(w, e.child);
    forall k: nat | k < |tab| ensures Linked(w', HashRing(heads[k], tab[k])) {
      ApartFacts(root, heads, live, k, k);
      SlotLists(tab, kids, live, k, k);
      KindsDisjoint(heads[k], tab[k], root, p, kids[p], live);
      DelOther(w, r, x + 1, HashRing(heads[k], tab[k]));
    }
    forall q | q in kids && q != p ensures Linked(w', ChildRing(root, q, kids[q])) {
      KidLists(tab, kids, live, p, q);
      KidLists(tab, kids, live, q, p);
      ChildDisjoint(root, p, kids[p], q, kids[q], live);
      DelOther(w, r, x + 1, ChildRing(root, q, kids[q]));
    }
  }

  // ---------------------------------------------------------------- moving to another table

  /** The slots from `i` on are still rings. */
  ghost predicate OldWired(w: Wires, heads: seq<Link>, tab: seq<seq<Entry>>, i: nat)
  {
    |heads| == |tab| && forall k :: i <= k < |tab| ==> Linked(w, HashRing(heads[k], tab[k]))
  }

  /** From link `j + 1` on, one still gets around the ring that is being broken. */
  ghost predicate Onward(w: Wires, r: seq<Link>, j: nat)
  {
    forall x :: j < x < |r| ==> r[x] in w.next && w.next[r[x]] == r[After(|r|, x)]
  }

  lemma OnwardStart(w: Wires, heads: seq<Link>, tab: seq<seq<Entry>>, i: nat)
    requires OldWired(w, heads, tab, i) && i < |tab|
    ensures |heads| == |tab| && Onward(w, HashRing(heads[i], tab[i]), 0) && OldWired(w, heads, tab, i + 1)
    ensures heads[i] in w.next && w.next[heads[i]] == HashRing(heads[i], tab[i])[After(|tab[i]| + 1, 0)]
  {
    hide After, Distinct;
    var r := HashRing(heads[i], tab[i]);
    assert Linked(w, r) && r[0] == heads[i];
  }

  lemma OnwardAt(w: Wires, h: Link, s: seq<Entry>, j: nat)
    requires Onward(w, HashRing(h, s), j) && j < |s|
    ensures s[j].hash in w.next && w.next[s[j].hash] == if j + 1 < |s| then s[j + 1].hash else h
  {
    hide HashRing;
    var r := HashRing(h, s);
    assert r[j + 1] == s[j].hash && After(|r|, j + 1) == if j + 1 < |s| then j + 2 else 0;
  }

  lemma AddOnward(w: Wires, n: seq<Link>, e: Link, r: seq<Link>, j: nat)
    requires Linked(w, n) && Onward(w, r, j) && forall x :: j + 1 < x < |r| ==> r[x] != e && r[x] !in n
    ensures n[0] in w.prev && Onward(Add(w, e, n[0]), r, j + 1)
  {
    LastOf(w, n);
    assert n[|n| - 1] in n;
    hide Linked, After;
  }

  ghost predicate HeadsApart(heads: seq<Link>, heads': seq<Link>)
  {
    forall a, b :: 0 <= a < |heads| && 0 <= b < |heads'| ==> heads[a] != heads'[b]
  }

  /** The entries that are not moved yet when `j` entries of list `i` are. */
  ghost predicate Waiting(tab: seq<seq<Entry>>, moved: set<Entry>, i: nat, j: nat)
  {
    && (forall k :: i < k < |tab| ==> forall f :: f in tab[k] ==> f !in moved)
    && (i < |tab| ==> forall x :: j <= x < |tab[i]| ==> tab[i][x] !in moved)
  }

  /** The old lists, of which some are moved already, next to the new ones. */
  ghost predicate Moving(w: Wires, root: Link, heads: seq<Link>, tab: seq<seq<Entry>>, kids: map<Entry?, seq<Entry>>,
                         live: set<Entry>,
                         heads': seq<Link>, tab': seq<seq<Entry>>)
  {
    && Apart(root, heads, live) && Apart(root, heads', live) && HeadsApart(heads, heads')
    && InPlace(tab, kids, live) && InPlace(tab', kids, live)
    && HashWired(w, heads', tab') && KidsWired(w, root, kids)
  }

  /** A list of the old table that is not moved yet stays when an entry goes to a new list. */
  lemma MoveBeside(w: Wires, root: Link, heads: seq<Link>, tab: seq<seq<Entry>>, kids: map<Entry?, seq<Entry>>,
                   live: set<Entry>,
                   heads': seq<Link>, tab': seq<seq<Entry>>, moved: set<Entry>, e: Entry, m: nat, k: nat)
    requires Moving(w, root, heads, tab, kids, live, heads', tab') && m < |tab'| && k < |tab| && |heads| == |tab|
    requires |heads'| == |tab'|
    requires Linked(w, HashRing(heads[k], tab[k])) && e in live && e !in tab[k]
    requires (forall f :: f in tab'[m] ==> f in moved) && forall f :: f in tab[k] ==> f !in moved
    ensures heads'[m] in w.prev && Linked(Add(w, e.hash, heads'[m]), HashRing(heads[k], tab[k]))
  {
    hide Linked, Add, HashRing, Separate, Disjoint, Slot, KidsWired, Apart, InPlace;
    ApartFacts(root, heads', live, m, m);
    ApartFacts(root, heads, live, k, k);
    SlotLists(tab', kids, live, m, m);
    SlotLists(tab, kids, live, k, k);
    HashDisjoint(heads'[m], tab'[m], heads[k], tab[k], live);
    HashOutside(heads[k], tab[k], e, live);
    AddOther(w, HashRing(heads'[m], tab'[m]), e.hash, HashRing(heads[k], tab[k]));
  }

  /** The rest of the list that is walked stays too, though its ring is broken. */
  lemma MoveAlong(w: Wires, root: Link, heads: seq<Link>, tab: seq<seq<Entry>>, kids: map<Entry?, seq<Entry>>,
                  live: set<Entry>,
                  heads': seq<Link>, tab': seq<seq<Entry>>, moved: set<Entry>, m: nat, i: nat, j: nat)
    requires Moving(w, root, heads, tab, kids, live, heads', tab') && m < |tab'| && i < |tab| && j < |tab[i]|
    requires |heads| == |tab| && |heads'| == |tab'|
    requires Onward(w, HashRing(heads[i], tab[i]), j) && NoDuplicates(tab[i])
    requires (forall f :: f in tab'[m] ==> f in moved) && forall x :: j <= x < |tab[i]| ==> tab[i][x] !in moved
    ensures heads'[m] in w.prev && Onward(Add(w, tab[i][j].hash, heads'[m]), HashRing(heads[i], tab[i]), j + 1)
  {
    hide Linked, Add, Separate, Disjoint, Slot, KidsWired, Apart, InPlace, Onward, HashRing;
    var r, n, s := HashRing(heads[i], tab[i]), HashRing(heads'[m], tab'[m]), tab[i];
    RootFacts(root, heads, live);
    ApartFacts(root, heads', live, m, m);
    SlotLists(tab', kids, live, m, m);
    SlotLists(tab, kids, live, i, i);
    forall x | j + 1 < x < |r| ensures r[x] != s[j].hash && r[x] !in n {
      var f := s[x - 1];
      assert f in s && s[j] in s && f in live && r[x] == f.hash;
      DifferentHash(live, f, s[j]);
      HashOutside(heads'[m], tab'[m], f, live);
    }
    AddOnward(w, n, s[j].hash, r, j);
  }

  lemma DifferentHash(live: set<Entry>, e: Entry, f: Entry)
    requires Separate(live) && e in live && f in live && e != f
    ensures e.hash != f.hash
  {
  }

  /** One entry of the list that is walked goes to its new list. */
  lemma MoveStep(w: Wires, root: Link, heads: seq<Link>, tab: seq<seq<Entry>>, kids: map<Entry?, seq<Entry>>,
                 live: set<Entry>,
                 heads': seq<Link>, tab': seq<seq<Entry>>, moved: set<Entry>, m: nat, i: nat, j: nat)
    requires Moving(w, root, heads, tab, kids, live, heads', tab') && |tab'| > 0 && Hashed(tab', moved)
    requires Waiting(tab, moved, i, j)
    requires i < |tab| && j < |tab[i]| && NoDuplicates(tab[i]) && m == Slot(tab[i][j], |tab'|)
    requires OldWired(w, heads, tab, i + 1) && |heads| == |tab| && Onward(w, HashRing(heads[i], tab[i]), j)
    ensures var e := tab[i][j];
            && |heads'| == |tab'| && heads'[m] in w.prev && e !in moved
            && var w', tab'' := Add(w, e.hash, heads'[m]), tab'[m := tab'[m] + [e]];
               && Moving(w', root, heads, tab, kids, live, heads', tab'') && Hashed(tab'', moved + {e})
               && Waiting(tab, moved + {e}, i, j + 1)
               && OldWired(w', heads, tab, i + 1) && Onward(w', HashRing(heads[i], tab[i]), j + 1)
  {
    hide Linked, Add, HashRing, Apart, Separate, Slot, InPlace, KidsWired, Hashed, Onward, HeadsApart, NoDuplicates;
    var e := tab[i][j];
    assert e in tab[i];
    SlotLists(tab, kids, live, i, i);
    NotInTable(tab', moved, e);
    AddHash(w, root, heads', tab', kids, live, e, m);
    AddHashed(tab', moved, e);
    AddInPlace(tab', kids, live, e, m);
    TableLists(tab', moved, m);
    forall k: nat | i + 1 <= k < |tab| ensures Linked(Add(w, e.hash, heads'[m]), HashRing(heads[k], tab[k])) {
      SlotLists(tab, kids, live, i, k);
      MoveBeside(w, root, heads, tab, kids, live, heads', tab', moved, e, m, k);
    }
    MoveAlong(w, root, heads, tab, kids, live, heads', tab', moved, m, i, j);
    WaitingStep(tab, kids, live, moved, i, j);
  }

  lemma WaitingStep(tab: seq<seq<Entry>>, kids: map<Entry?, seq<Entry>>, live: set<Entry>, moved: set<Entry>, i: nat,
                    j: nat)
    requires InPlace(tab, kids, live) && Waiting(tab, moved, i, j) && i < |tab| && j < |tab[i]| && NoDuplicates(tab[i])
    ensures Waiting(tab, moved + {tab[i][j]}, i, j + 1)
  {
    hide Slot;
    assert tab[i][j] in tab[i];
  }

  lemma NotInTable(tab: seq<seq<Entry>>, live: set<Entry>, e: Entry)
    requires |tab| > 0 && Hashed(tab, live) && e !in live
    ensures forall k :: 0 <= k < |tab| ==> e !in tab[k]
  {
    hide Slot, NoDuplicates;
    forall k | 0 <= k < |tab| ensures e !in tab[k] {
      assert Holds(tab[k], live, |tab|, k);
    }
  }

  lemma TableLists(tab: seq<seq<Entry>>, live: set<Entry>, k: nat)
    requires |tab| > 0 && Hashed(tab, live) && k < |tab|
    ensures NoDuplicates(tab[k]) && forall f :: f in tab[k] ==> f in live
  {
    hide Slot, NoDuplicates;
    assert Holds(tab[k], live, |tab|, k);
  }

  lemma AddInPlace(tab: seq<seq<Entry>>, kids: map<Entry?, seq<Entry>>, live: set<Entry>, e: Entry, m: nat)
    requires InPlace(tab, kids, live) && e in live && |tab| > 0 && m == Slot(e, |tab|)
    ensures InPlace(tab[m := tab[m] + [e]], kids, live)
  {
    hide Slot;
  }

  /** The next list is walked. */
  lemma NextList(tab: seq<seq<Entry>>, kids: map<Entry?, seq<Entry>>, live: set<Entry>, moved: set<Entry>, i: nat)
    requires InPlace(tab, kids, live) && i < |tab| && Waiting(tab, moved, i, |tab[i]|)
    ensures Waiting(tab, moved, i + 1, 0)
  {
    hide Slot, InPlace;
    if i + 1 < |tab| {
      var s := tab[i + 1];
      forall x | 0 <= x < |s| ensures s[x] !in moved {
        assert s[x] in s;
      }
    }
  }
}
