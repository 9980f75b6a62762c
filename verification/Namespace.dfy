/**
 The namespace (namespace.c): looking up, freeing, growing and shrinking the table, and paths, on
 linked lists whose links are inside the entries.
 */
module Namespace {

  import opened Entries
  import opened NameHash
  import opened NamespaceRings
  import opened NamespaceTree
  import opened Paths

  lemma WiresAt(nodes: set<Link>, l: Link)
    requires l in nodes
    ensures l in WiresOf(nodes).next && l in WiresOf(nodes).prev && WiresOf(nodes).next[l] == l.next
    ensures WiresOf(nodes).prev[l] == l.prev
  {
  }

  lemma InWires(nodes: set<Link>, l: Link)
    requires l in WiresOf(nodes).next || l in WiresOf(nodes).prev
    ensures l in nodes
  {
  }

  /** alloc_hash_table */
  method AllocHashTable(size: nat) returns (tab: array<Link>, ghost heads: set<Link>)
    requires size > 0
    ensures fresh(tab) && tab.Length == size && Heads(tab[..]) && fresh(heads) && heads == set l | l in tab[..]
    ensures forall l :: l in heads ==> l.next == l && l.prev == l
  {
    var first := new Link(SlotHead);
    tab := new Link[size](_ => first);
    var i := 1;
    while i < size
      invariant 1 <= i <= size && tab[0] == first && first.role == SlotHead && first.next == first
      invariant first.prev == first
      invariant forall k :: 0 <= k < i ==>
                tab[k].role == SlotHead && tab[k].next == tab[k] && tab[k].prev == tab[k] && fresh(tab[k])
      invariant forall k, m :: 0 <= k < m < i ==> tab[k] != tab[m]
    {
      var head := new Link(SlotHead);
      tab[i] := head;
      i := i + 1;
    }
    heads := set l | l in tab[..];
  }

  /** Rings stay when nodes are added. */
  lemma Grown(nodes: set<Link>, more: set<Link>, r: seq<Link>)
    requires Linked(WiresOf(nodes), r)
    ensures Linked(WiresOf(nodes + more), r)
  {
    hide After, Distinct;
    forall i | 0 <= i < |r| ensures r[i] in nodes {
      InWires(nodes, r[i]);
    }
  }

  lemma GrownAll(nodes: set<Link>, more: set<Link>, root: Link, heads: seq<Link>, tab: seq<seq<Entry>>,
                 kids: map<Entry?, seq<Entry>>)
    requires HashWired(WiresOf(nodes), heads, tab) && KidsWired(WiresOf(nodes), root, kids)
    ensures HashWired(WiresOf(nodes + more), heads, tab) && KidsWired(WiresOf(nodes + more), root, kids)
  {
    hide Linked, WiresOf, HashRing, ChildRing;
    forall k | 0 <= k < |tab| ensures Linked(WiresOf(nodes + more), HashRing(heads[k], tab[k])) {
      Grown(nodes, more, HashRing(heads[k], tab[k]));
    }
    forall p | p in kids ensures Linked(WiresOf(nodes + more), ChildRing(root, p, kids[p])) {
      Grown(nodes, more, ChildRing(root, p, kids[p]));
    }
  }

  lemma Alone(nodes: set<Link>, h: Link)
    requires h in nodes && h.next == h && h.prev == h
    ensures Linked(WiresOf(nodes), [h])
  {
  }

  lemma EmptyRings(h: Link, root: Link, p: Entry?)
    ensures HashRing(h, []) == [h] && ChildRing(root, p, []) == [HeadOf(root, p)]
  {
  }

  ghost predicate AllInside(live: set<Entry>, nodes: set<Link>)
    reads nodes`entry
  {
    forall e :: e in live ==> e.hash in nodes && e.child in nodes && e.subdir in nodes && Inside(e)
  }

  lemma InsideFacts(live: set<Entry>, nodes: set<Link>, e: Entry)
    requires AllInside(live, nodes) && e in live
    ensures e.hash in nodes && e.child in nodes && e.subdir in nodes && e.child.entry == e && e.hash.entry == e
  {
  }

  lemma SlotLink(root: Link, heads: seq<Link>, live: set<Entry>, k: nat, e: Entry)
    requires Apart(root, heads, live) && k < |heads| && e in live
    ensures heads[k] != e.hash
  {
  }

  /** Where one is in a list: at an entry, or back at the head. */
  function Stop(head: Link, s: seq<Entry>, j: nat): (l: Link)
  {
    if j < |s| then s[j].hash else head
  }

  lemma StopIs(head: Link, s: seq<Entry>, j: nat)
    ensures Stop(head, s, j) == if j < |s| then s[j].hash else head
  {
  }

  lemma FirstStop(head: Link, s: seq<Entry>)
    ensures HashRing(head, s)[After(|s| + 1, 0)] == Stop(head, s, 0)
  {
    hide HashRing;
  }

  /**
   One list of the old table goes into the new one.  The entries are not taken out of their old
   list first: what is left of it is only ever walked forward.
   */
  method MoveList(head: Link, newTab: array<Link>, ghost nodes: set<Link>, ghost root: Link, ghost heads: seq<Link>,
                  ghost tab: seq<seq<Entry>>, ghost kids: map<Entry?, seq<Entry>>, ghost live: set<Entry>,
                  ghost new0: seq<seq<Entry>>, ghost i: nat) returns (ghost new1: seq<seq<Entry>>)
    requires i < |tab| == |heads| && head == heads[i] && Hashed(tab, live) && AllInside(live, nodes)
    requires |new0| == newTab.Length > 0
    requires Moving(WiresOf(nodes), root, heads, tab, kids, live, newTab[..], new0)
    requires OldWired(WiresOf(nodes), heads, tab, i)
    requires Hashed(new0, Before(tab, live, i)) && Waiting(tab, Before(tab, live, i), i, 0)
    modifies nodes`next, nodes`prev
    ensures AllInside(live, nodes) && |new1| == |new0|
    ensures Moving(WiresOf(nodes), root, heads, tab, kids, live, newTab[..], new1)
    ensures OldWired(WiresOf(nodes), heads, tab, i + 1)
    ensures Hashed(new1, Before(tab, live, i + 1)) && Waiting(tab, Before(tab, live, i + 1), i + 1, 0)
  {
    hide *;
    ghost var moved, s, heads' := Before(tab, live, i), tab[i], newTab[..];
    ghost var j: nat := 0;
    new1 := new0;
    TableLists(tab, live, i);
    MovingFacts(WiresOf(nodes), root, heads, tab, kids, live, heads', new1);
    OnwardStart(WiresOf(nodes), heads, tab, i);
    FirstStop(head, s);
    InWires(nodes, head);
    WiresAt(nodes, head);
    BeforeLive(tab, live, i);
    assert s[..0] == [];
    var ptr: Link := head.next;
    while ptr != head
      invariant j <= |s| && ptr == Stop(head, s, j) && newTab[..] == heads' && |new1| == |new0|
      invariant AllInside(live, nodes)
      invariant moved == Before(tab, live, i) + (set x | x in s[..j]) && moved <= live
      invariant Moving(WiresOf(nodes), root, heads, tab, kids, live, heads', new1)
      invariant OldWired(WiresOf(nodes), heads, tab, i + 1)
      invariant Onward(WiresOf(nodes), HashRing(heads[i], s), j) && Hashed(new1, moved) && Waiting(tab, moved, i, j)
      decreases |s| - j
    {
      StopIs(head, s, j);
      assert s[j] in s;
      InsideFacts(live, nodes, s[j]);
      var ent: Entry := ptr.entry;
      var hash := NamespaceHash(Address(ent.parent), ent.name);
      var size := newTab.Length;
      SlotIs(ent, size, hash);
      var k: nat := hash % size;
      OnwardAt(WiresOf(nodes), head, s, j);
      WiresAt(nodes, ptr);
      ptr := ptr.next;
      StopIs(head, s, j + 1);
      MovingFacts(WiresOf(nodes), root, heads, tab, kids, live, heads', new1);
      MoveStep(WiresOf(nodes), root, heads, tab, kids, live, heads', new1, moved, k, i, j);
      NewPlace(nodes, heads', new1, moved, k, ent, live, root);
      ListAdd(ent.hash, newTab[k], nodes);
      new1 := new1[k := new1[k] + [ent]];
      moved := moved + {ent};
      assert s[..j + 1] == s[..j] + [ent];
      j := j + 1;
    }
    StopIs(head, s, j);
    if j < |s| {
      assert s[j] in s;
      SlotLink(root, heads, live, i, s[j]);
    }
    AllMoved(tab, live, i);
    MovingFacts(WiresOf(nodes), root, heads, tab, kids, live, heads', new1);
    NextList(tab, kids, live, moved, i);
  }

  /** All lists of the old table go into the new one. */
  method MoveAll(hashtab: array<Link>, newTab: array<Link>, ghost nodes: set<Link>, ghost root: Link,
                 ghost tab: seq<seq<Entry>>, ghost kids: map<Entry?, seq<Entry>>, ghost live: set<Entry>,
                 ghost new0: seq<seq<Entry>>) returns (ghost new1: seq<seq<Entry>>)
    requires hashtab.Length == |tab| > 0 && Hashed(tab, live) && AllInside(live, nodes) && |new0| == newTab.Length > 0
    requires Moving(WiresOf(nodes), root, hashtab[..], tab, kids, live, newTab[..], new0)
    requires OldWired(WiresOf(nodes), hashtab[..], tab, 0)
    requires Hashed(new0, Before(tab, live, 0)) && Waiting(tab, Before(tab, live, 0), 0, 0)
    modifies nodes`next, nodes`prev
    ensures AllInside(live, nodes) && |new1| == |new0| && Hashed(new1, live) && Apart(root, newTab[..], live)
    ensures HashWired(WiresOf(nodes), newTab[..], new1) && KidsWired(WiresOf(nodes), root, kids)
  {
    hide *;
    ghost var heads, heads' := hashtab[..], newTab[..];
    new1 := new0;
    var i := 0;
    while i < hashtab.Length
      invariant 0 <= i <= hashtab.Length == |tab| && |new1| == newTab.Length && AllInside(live, nodes)
      invariant hashtab[..] == heads && newTab[..] == heads'
      invariant Moving(WiresOf(nodes), root, heads, tab, kids, live, heads', new1)
      invariant OldWired(WiresOf(nodes), heads, tab, i)
      invariant Hashed(new1, Before(tab, live, i)) && Waiting(tab, Before(tab, live, i), i, 0)
    {
      new1 := MoveList(hashtab[i], newTab, nodes, root, heads, tab, kids, live, new1, i);
      i := i + 1;
    }
    EveryMoved(tab, live);
    MovingFacts(WiresOf(nodes), root, heads, tab, kids, live, heads', new1);
  }

  lemma MovingFacts(w: Wires, root: Link, heads: seq<Link>, tab: seq<seq<Entry>>, kids: map<Entry?, seq<Entry>>,
                    live: set<Entry>,
                    heads': seq<Link>, tab': seq<seq<Entry>>)
    requires Moving(w, root, heads, tab, kids, live, heads', tab')
    ensures Apart(root, heads, live) && Apart(root, heads', live) && InPlace(tab, kids, live)
    ensures InPlace(tab', kids, live)
    ensures HashWired(w, heads', tab') && KidsWired(w, root, kids) && |heads'| == |tab'|
  {
    hide InPlace, Apart, KidsWired, Linked;
  }

  /** The place at the end of a slot, for list_add. */
  lemma NewPlace(nodes: set<Link>, heads: seq<Link>, tab: seq<seq<Entry>>, listed: set<Entry>, k: nat, e: Entry,
                 live: set<Entry>, root: Link)
    requires HashWired(WiresOf(nodes), heads, tab) && Apart(root, heads, live) && k < |tab| && |tab| > 0
    requires Hashed(tab, listed)
    requires e in live && e !in listed && listed <= live
    ensures |heads| == |tab| && heads[k] in nodes && heads[k].prev in nodes && e.hash != heads[k]
    ensures e.hash != heads[k].prev
    ensures heads[k] in WiresOf(nodes).prev && WiresOf(nodes).prev[heads[k]] == heads[k].prev
  {
    hide Linked, HashRing, Hashed, Separate;
    var r := HashRing(heads[k], tab[k]);
    assert Linked(WiresOf(nodes), r);
    TableLists(tab, listed, k);
    ApartFacts(root, heads, live, k, k);
    HashOutside(heads[k], tab[k], e, live);
    LastOf(WiresOf(nodes), r);
    RingNodes(nodes, r);
    WiresAt(nodes, heads[k]);
    assert r[|r| - 1] in r && r[0] in r;
  }

  lemma RingNodes(nodes: set<Link>, r: seq<Link>)
    requires Linked(WiresOf(nodes), r)
    ensures forall l :: l in r ==> l in nodes
  {
    hide After, Distinct;
  }

  lemma StartWired(root: Link, heads: seq<Link>, tab: seq<seq<Entry>>, nodes: set<Link>)
    requires root.role == RootHead && root.next == root && root.prev == root && root in nodes && Heads(heads)
    requires |heads| == |tab|
    requires forall l :: l in heads ==> l in nodes && l.next == l && l.prev == l
    requires forall k :: 0 <= k < |tab| ==> tab[k] == []
    ensures Apart(root, heads, {}) && HashWired(WiresOf(nodes), heads, tab)
    ensures KidsWired(WiresOf(nodes), root, map[null := []])
  {
    hide Linked, WiresOf;
    forall k | 0 <= k < |tab| ensures Linked(WiresOf(nodes), HashRing(heads[k], tab[k])) {
      assert heads[k] in heads;
      Alone(nodes, heads[k]);
      EmptyRings(heads[k], root, null);
    }
    Alone(nodes, root);
    EmptyRings(root, root, null);
  }

  lemma StartTable(tab: seq<seq<Entry>>)
    requires |tab| > 0 && forall k :: 0 <= k < |tab| ==> tab[k] == []
    ensures Hashed(tab, {}) && Children(map[null := []], {}) && Tree({})
  {
    hide Slot;
  }

  lemma NoneInside(nodes: set<Link>)
    ensures AllInside({}, nodes)
  {
  }

  lemma Sizes()
    ensures 0 < MIN_SIZE
  {
  }

  /** A new table next to the old one. */
  lemma MovingStart(root: Link, heads: seq<Link>, tab: seq<seq<Entry>>, kids: map<Entry?, seq<Entry>>, live: set<Entry>,
                    heads': seq<Link>, new0: seq<seq<Entry>>, nodes: set<Link>, more: set<Link>)
    requires |tab| > 0 && Hashed(tab, live) && Children(kids, live) && Apart(root, heads, live)
    requires AllInside(live, nodes)
    requires HashWired(WiresOf(nodes), heads, tab) && KidsWired(WiresOf(nodes), root, kids)
    requires Heads(heads') && |heads'| == |new0| > 0 && (forall k :: 0 <= k < |new0| ==> new0[k] == [])
    requires more == (set l | l in heads') && more !! nodes
    requires forall l :: l in more ==> l.next == l && l.prev == l
    ensures Moving(WiresOf(nodes + more), root, heads, tab, kids, live, heads', new0)
    ensures OldWired(WiresOf(nodes + more), heads, tab, 0)
    ensures Hashed(new0, Before(tab, live, 0)) && Waiting(tab, Before(tab, live, 0), 0, 0)
    ensures AllInside(live, nodes + more)
  {
    hide Linked, WiresOf, HashRing, ChildRing, Hashed, Separate, Slot, InPlace, Children;
    GrownAll(nodes, more, root, heads, tab, kids);
    InPlaceFrom(tab, kids, live, live, live);
    NewTable(new0);
    InPlaceFrom(new0, kids, {}, live, live);
    BeforeNone(tab, live);
    HeadNodes(nodes, heads, tab);
    forall k | 0 <= k < |new0| ensures Linked(WiresOf(nodes + more), HashRing(heads'[k], new0[k])) {
      assert heads'[k] in heads';
      Alone(nodes + more, heads'[k]);
      EmptyRings(heads'[k], root, null);
    }
    forall a, b | 0 <= a < |heads| && 0 <= b < |heads'| ensures heads[a] != heads'[b] {
      assert heads'[b] in more;
    }
  }

  lemma HeadNodes(nodes: set<Link>, heads: seq<Link>, tab: seq<seq<Entry>>)
    requires HashWired(WiresOf(nodes), heads, tab)
    ensures forall k :: 0 <= k < |heads| ==> heads[k] in nodes
  {
    hide Linked, HashRing;
    forall k | 0 <= k < |heads| ensures heads[k] in nodes {
      var r := HashRing(heads[k], tab[k]);
      assert Linked(WiresOf(nodes), r);
      RingNodes(nodes, r);
      assert r[0] in r;
    }
  }

  // ---------------------------------------------------------------- the steps of inserting and freeing

  /** The place at the end of a ring, for list_add. */
  lemma PlaceAt(nodes: set<Link>, r: seq<Link>, e: Link)
    requires Linked(WiresOf(nodes), r) && e !in r
    ensures r[0] in nodes && r[0].prev in nodes && e != r[0] && e != r[0].prev
  {
    hide Distinct, After;
    LastOf(WiresOf(nodes), r);
    RingNodes(nodes, r);
    assert r[0] in r && r[|r| - 1] in r;
    WiresAt(nodes, r[0]);
  }

  lemma ChildPlace(nodes: set<Link>, root: Link, heads: seq<Link>, tab: seq<seq<Entry>>, kids: map<Entry?, seq<Entry>>,
                   live: set<Entry>,
                   e: Entry, p: Entry?)
    requires Apart(root, heads, live) && InPlace(tab, kids, live) && KidsWired(WiresOf(nodes), root, kids) && e in live
    requires p in kids && e !in kids[p]
    ensures var h := HeadOf(root, p); h in nodes && h.prev in nodes && e.child != h && e.child != h.prev
  {
    hide Linked, ChildRing, Apart, Separate, InPlace;
    RootFacts(root, heads, live);
    KidLists(tab, kids, live, p, p);
    ChildOutside(root, p, kids[p], e, live);
    PlaceAt(nodes, ChildRing(root, p, kids[p]), e.child);
  }

  lemma HashPlace(nodes: set<Link>, root: Link, heads: seq<Link>, tab: seq<seq<Entry>>, kids: map<Entry?, seq<Entry>>,
                  live: set<Entry>,
                  listed: set<Entry>, e: Entry, k: nat)
    requires Apart(root, heads, live) && InPlace(tab, kids, live) && HashWired(WiresOf(nodes), heads, tab) && |tab| > 0
    requires Hashed(tab, listed)
    requires e in live && e !in listed && k == Slot(e, |tab|)
    ensures |heads| == |tab| && heads[k] in nodes && heads[k].prev in nodes && e.hash != heads[k]
    ensures e.hash != heads[k].prev
    ensures forall m :: 0 <= m < |tab| ==> e !in tab[m]
  {
    hide Linked, HashRing, Apart, Separate, InPlace, Slot, Hashed;
    ApartFacts(root, heads, live, k, k);
    SlotLists(tab, kids, live, k, k);
    NotInTable(tab, listed, e);
    HashOutside(heads[k], tab[k], e, live);
    PlaceAt(nodes, HashRing(heads[k], tab[k]), e.hash);
  }

  /** With its links next to the others, and no children, a new entry is ready to be linked. */
  lemma InsertStart(root: Link, heads: seq<Link>, tab: seq<seq<Entry>>, kids: map<Entry?, seq<Entry>>,
                    live: set<Entry>, e: Entry, nodes: set<Link>)
    requires |tab| > 0 && Hashed(tab, live) && Children(kids, live) && Apart(root, heads, live)
    requires AllInside(live, nodes)
    requires HashWired(WiresOf(nodes), heads, tab) && KidsWired(WiresOf(nodes), root, kids)
    requires e !in live && Roles(e) && Inside(e) && e.subdir.next == e.subdir && e.subdir.prev == e.subdir
    requires {e.subdir, e.child, e.hash} !! nodes && (e.parent != null ==> e.parent in live)
    ensures var nodes', live', kids' := nodes + {e.subdir, e.child, e.hash}, live + {e}, kids[e := []];
            && Apart(root, heads, live') && AllInside(live', nodes') && InPlace(tab, kids', live')
            && HashWired(WiresOf(nodes'), heads, tab) && KidsWired(WiresOf(nodes'), root, kids')
            && e.parent in kids && e.parent in kids' && kids'[e.parent] == kids[e.parent] && e !in kids'[e.parent]
            && forall q :: q in kids' ==> e !in kids'[q]
  {
    hide *;
    var nodes', live' := nodes + {e.subdir, e.child, e.hash}, live + {e};
    GrownAll(nodes, {e.subdir, e.child, e.hash}, root, heads, tab, kids);
    Alone(nodes', e.subdir);
    NewKids(WiresOf(nodes'), root, kids, e);
    InPlaceFrom(tab, kids, live, live, live');
    NewInPlace(tab, kids, live', e);
    ApartMore(root, heads, live, e, nodes);
    InsideMore(live, e, nodes);
    NotAKid(kids, live, e);
  }

  lemma NewKids(w: Wires, root: Link, kids: map<Entry?, seq<Entry>>, e: Entry)
    requires KidsWired(w, root, kids) && Linked(w, [e.subdir])
    ensures KidsWired(w, root, kids[e := []])
  {
    hide Linked, ChildRing;
    EmptyRings(root, root, e);
  }

  lemma NewInPlace(tab: seq<seq<Entry>>, kids: map<Entry?, seq<Entry>>, live: set<Entry>, e: Entry)
    requires InPlace(tab, kids, live) && e in live
    ensures InPlace(tab, kids[e := []], live)
  {
    hide Slot;
  }

  lemma ApartMore(root: Link, heads: seq<Link>, live: set<Entry>, e: Entry, nodes: set<Link>)
    requires Apart(root, heads, live) && AllInside(live, nodes) && Roles(e) && {e.subdir, e.child, e.hash} !! nodes
    ensures Apart(root, heads, live + {e})
  {
    SeparateMore(live, e, nodes);
    hide Separate, AllInside;
  }

  lemma SeparateMore(live: set<Entry>, e: Entry, nodes: set<Link>)
    requires Separate(live) && AllInside(live, nodes) && Roles(e) && {e.subdir, e.child, e.hash} !! nodes
    ensures Separate(live + {e})
  {
  }

  lemma InsideMore(live: set<Entry>, e: Entry, nodes: set<Link>)
    requires AllInside(live, nodes) && Inside(e)
    ensures AllInside(live + {e}, nodes + {e.subdir, e.child, e.hash})
  {
  }

  lemma NotAKid(kids: map<Entry?, seq<Entry>>, live: set<Entry>, e: Entry)
    requires Children(kids, live) && e !in live && (e.parent != null ==> e.parent in live)
    ensures e !in kids && e.parent in kids && e.parent != e && forall q :: q in kids ==> e !in kids[q]
  {
  }

  lemma ChildInPlace(tab: seq<seq<Entry>>, kids: map<Entry?, seq<Entry>>, live: set<Entry>, e: Entry)
    requires InPlace(tab, kids, live) && e in live && e.parent in kids
    ensures InPlace(tab, kids[e.parent := kids[e.parent] + [e]], live)
  {
    hide Slot;
  }

  lemma LessInPlace(tab: seq<seq<Entry>>, kids: map<Entry?, seq<Entry>>, live: set<Entry>, p: Entry?, s: seq<Entry>)
    requires InPlace(tab, kids, live) && p in kids && forall f :: f in s ==> f in kids[p]
    ensures InPlace(tab, kids[p := s], live)
  {
    hide Slot;
  }

  lemma AddChildren(kids: map<Entry?, seq<Entry>>, live: set<Entry>, e: Entry)
    requires Children(kids, live) && Tree(live) && e !in live && e.parent in kids && e.parent != e
    ensures Children(kids[e := []][e.parent := kids[e.parent] + [e]], live + {e})
  {
    hide Lists, Tree;
    var kids' := kids[e := []][e.parent := kids[e.parent] + [e]];
    forall p | p in kids' ensures Lists(kids'[p], live + {e}, p) {
      if p == e {
        NewLists(live, e);
      } else {
        AddLists(kids[p], live, p, e);
      }
    }
  }

  lemma DelChildren(kids: map<Entry?, seq<Entry>>, live: set<Entry>, e: Entry)
    requires Children(kids, live) && Tree(live) && e in live && e.parent in kids && e in kids && kids[e] == []
    ensures Children(kids[e.parent := Without(kids[e.parent], e)] - {e}, live - {e}) && Tree(live - {e})
  {
    DelTree(live, e);
    hide Lists, Tree, Without;
    var kids' := kids[e.parent := Without(kids[e.parent], e)] - {e};
    forall p | p in kids' ensures Lists(kids'[p], live - {e}, p) {
      DelLists(kids[p], live, p, e);
    }
  }

  /** Where an entry to be freed is. */
  lemma DeleteStart(tab: seq<seq<Entry>>, kids: map<Entry?, seq<Entry>>, live: set<Entry>, e: Entry)
    requires |tab| > 0 && Hashed(tab, live) && Children(kids, live) && Tree(live) && e in live
    ensures var k := Slot(e, |tab|); e in tab[k] && NoDuplicates(tab[k])
    ensures InPlace(tab, kids, live) && e.parent in kids && e.parent != e && e in kids[e.parent]
    ensures NoDuplicates(kids[e.parent])
    ensures forall f :: f in Without(kids[e.parent], e) ==> f in kids[e.parent]
  {
    InPlaceFrom(tab, kids, live, live, live);
    hide NoDuplicates, Slot, Without;
    assert Holds(tab[Slot(e, |tab|)], live, |tab|, Slot(e, |tab|));
    assert Lists(kids[e.parent], live, e.parent);
  }

  /** A link in a ring has its neighbours among the nodes, for list_del. */
  lemma LinkInRing(nodes: set<Link>, r: seq<Link>, x: nat)
    requires Linked(WiresOf(nodes), r) && 0 < x < |r|
    ensures r[x] in nodes && r[x].next in nodes && r[x].prev in nodes
  {
    hide Linked, After;
    Neighbours(WiresOf(nodes), r, x);
    RingNodes(nodes, r);
    assert r[x] in r && r[x - 1] in r && r[After(|r|, x)] in r;
    WiresAt(nodes, r[x]);
  }

  lemma ChildInRing(nodes: set<Link>, root: Link, heads: seq<Link>, tab: seq<seq<Entry>>, kids: map<Entry?,
                    seq<Entry>>, live: set<Entry>, e: Entry)
    requires KidsWired(WiresOf(nodes), root, kids) && e.parent in kids && e in kids[e.parent]
    ensures e.child in nodes && e.child.next in nodes && e.child.prev in nodes
  {
    hide Linked, ChildRing;
    var s := kids[e.parent];
    var x :| 0 <= x < |s| && s[x] == e;
    LinkInRing(nodes, ChildRing(root, e.parent, s), x + 1);
  }

  lemma HashInRing(nodes: set<Link>, root: Link, heads: seq<Link>, tab: seq<seq<Entry>>, kids: map<Entry?, seq<Entry>>,
                   live: set<Entry>, e: Entry, k: nat)
    requires HashWired(WiresOf(nodes), heads, tab) && k < |tab| && e in tab[k]
    ensures e.hash in nodes && e.hash.next in nodes && e.hash.prev in nodes
  {
    hide Linked, HashRing;
    var s := tab[k];
    var x :| 0 <= x < |s| && s[x] == e;
    LinkInRing(nodes, HashRing(heads[k], s), x + 1);
  }

  /** Without the entry the rest is as it should be. */
  lemma DelWired(w: Wires, root: Link, heads: seq<Link>, kids: map<Entry?, seq<Entry>>, live: set<Entry>, e: Entry,
                 nodes: set<Link>)
    requires Apart(root, heads, live) && AllInside(live, nodes) && KidsWired(w, root, kids)
    ensures Apart(root, heads, live - {e}) && AllInside(live - {e}, nodes) && KidsWired(w, root, kids - {e})
  {
    hide Linked, ChildRing;
  }

  /** The two list_add calls of lookup_name. */
  method LinkEntry(ent: Entry, head: Link, slot: Link, ghost nodes: set<Link>, ghost root: Link, ghost heads: seq<Link>,
                   ghost tab: seq<seq<Entry>>, ghost kids: map<Entry?, seq<Entry>>, ghost live: set<Entry>,
                       ghost k: nat)
    requires |tab| > 0 && |heads| == |tab| && Hashed(tab, live) && ent !in live && k == Slot(ent, |tab|)
    requires slot == heads[k]
    requires Apart(root, heads, live + {ent}) && AllInside(live + {ent}, nodes) && InPlace(tab, kids, live + {ent})
    requires HashWired(WiresOf(nodes), heads, tab) && KidsWired(WiresOf(nodes), root, kids)
    requires ent.parent in kids && head == HeadOf(root, ent.parent) && forall q :: q in kids ==> ent !in kids[q]
    modifies nodes`next, nodes`prev
    ensures AllInside(live + {ent}, nodes) && HashWired(WiresOf(nodes), heads, tab[k := tab[k] + [ent]])
    ensures KidsWired(WiresOf(nodes), root, kids[ent.parent := kids[ent.parent] + [ent]])
  {
    hide *;
    ghost var live', kids' := live + {ent}, kids[ent.parent := kids[ent.parent] + [ent]];
    InsideFacts(live', nodes, ent);
    ChildPlace(nodes, root, heads, tab, kids, live', ent, ent.parent);
    AddChild(WiresOf(nodes), root, heads, tab, kids, live', ent, ent.parent);
    ListAdd(ent.child, head, nodes);
    ChildInPlace(tab, kids, live', ent);
    HashPlace(nodes, root, heads, tab, kids', live', live, ent, k);
    AddHash(WiresOf(nodes), root, heads, tab, kids', live', ent, k);
    ListAdd(ent.hash, slot, nodes);
  }

  /** The two list_del calls of free_entry_locked. */
  method UnlinkEntry(ent: Entry, ghost nodes: set<Link>, ghost root: Link, ghost heads: seq<Link>,
                     ghost tab: seq<seq<Entry>>, ghost kids: map<Entry?, seq<Entry>>, ghost live: set<Entry>,
                         ghost k: nat)
    requires |tab| > 0 && |heads| == |tab| && Hashed(tab, live) && Children(kids, live) && Tree(live) && ent in live
    requires k == Slot(ent, |tab|)
    requires Apart(root, heads, live) && AllInside(live, nodes) && ent.parent in kids
    requires HashWired(WiresOf(nodes), heads, tab) && KidsWired(WiresOf(nodes), root, kids)
    modifies nodes`next, nodes`prev
    ensures AllInside(live, nodes) && HashWired(WiresOf(nodes), heads, tab[k := Without(tab[k], ent)])
    ensures KidsWired(WiresOf(nodes), root, kids[ent.parent := Without(kids[ent.parent], ent)])
  {
    hide *;
    ghost var kids' := kids[ent.parent := Without(kids[ent.parent], ent)];
    DeleteStart(tab, kids, live, ent);
    ChildInRing(nodes, root, heads, tab, kids, live, ent);
    DelChild(WiresOf(nodes), root, heads, tab, kids, live, ent, ent.parent);
    ListDel(ent.child, nodes);
    LessInPlace(tab, kids, live, ent.parent, Without(kids[ent.parent], ent));
    HashInRing(nodes, root, heads, tab, kids', live, ent, k);
    DelHash(WiresOf(nodes), root, heads, tab, kids', live, ent, k);
    ListDel(ent.hash, nodes);
  }

  // ---------------------------------------------------------------- walking

  /** If an entry is there, it is in its slot. */
  lemma InList(tab: seq<seq<Entry>>, live: set<Entry>, parent: Entry?, name: string, k: nat)
    requires |tab| > 0 && Hashed(tab, live) && k < |tab| && k == Hash(Address(parent), name) % |tab|
    requires forall i :: 0 <= i < |tab[k]| ==> tab[k][i].parent != parent || tab[k][i].name != name
    ensures !Taken(live, parent, name)
  {
    hide Hash, NoDuplicates;
    assert Holds(tab[k], live, |tab|, k);
  }

  /** From the head of a slot one walks through its entries and comes back. */
  lemma SlotRing(nodes: set<Link>, heads: seq<Link>, tab: seq<seq<Entry>>, k: nat)
    requires HashWired(WiresOf(nodes), heads, tab) && k < |tab|
    ensures |heads| == |tab| && heads[k].next == Stop(heads[k], tab[k], 0)
    ensures forall j :: 0 <= j < |tab[k]| ==> tab[k][j].hash.next == Stop(heads[k], tab[k], j + 1)
  {
    hide Linked, HashRing;
    var r := HashRing(heads[k], tab[k]);
    assert Linked(WiresOf(nodes), r);
    forall x: nat | x < |r| ensures r[x].next == r[After(|r|, x)] {
      LinkedAt(WiresOf(nodes), r, x);
      RingNodes(nodes, r);
      WiresAt(nodes, r[x]);
    }
    assert r[0].next == r[After(|r|, 0)];
    forall j | 0 <= j < |tab[k]| ensures tab[k][j].hash.next == Stop(heads[k], tab[k], j + 1) {
      assert r[j + 1].next == r[After(|r|, j + 1)];
    }
  }

  function KidStop(head: Link, s: seq<Entry>, j: nat): (l: Link)
  {
    if j < |s| then s[j].child else head
  }

  lemma KidStopIs(head: Link, s: seq<Entry>, j: nat)
    ensures KidStop(head, s, j) == if j < |s| then s[j].child else head
  {
  }

  lemma KidRing(nodes: set<Link>, root: Link, kids: map<Entry?, seq<Entry>>, p: Entry?)
    requires KidsWired(WiresOf(nodes), root, kids) && p in kids
    ensures var h, s := HeadOf(root, p), kids[p];
            h.next == KidStop(h, s, 0) && forall j :: 0 <= j < |s| ==> s[j].child.next == KidStop(h, s, j + 1)
  {
    hide Linked, ChildRing;
    var h, s := HeadOf(root, p), kids[p];
    var r := ChildRing(root, p, s);
    assert Linked(WiresOf(nodes), r);
    forall x: nat | x < |r| ensures r[x].next == r[After(|r|, x)] {
      LinkedAt(WiresOf(nodes), r, x);
      RingNodes(nodes, r);
      WiresAt(nodes, r[x]);
    }
    assert r[0].next == r[After(|r|, 0)];
    forall j | 0 <= j < |s| ensures s[j].child.next == KidStop(h, s, j + 1) {
      assert r[j + 1].next == r[After(|r|, j + 1)];
    }
  }

  lemma KidLink(root: Link, heads: seq<Link>, live: set<Entry>, p: Entry?, e: Entry)
    requires Apart(root, heads, live) && e in live && (p != null ==> p in live)
    ensures HeadOf(root, p) != e.child
  {
  }

  lemma KidsLive(kids: map<Entry?, seq<Entry>>, live: set<Entry>, p: Entry?)
    requires Children(kids, live) && p in kids
    ensures (p != null ==> p in live) && forall e :: e in kids[p] ==> e in live
  {
  }

  lemma KidsOf(kids: map<Entry?, seq<Entry>>, live: set<Entry>, e: Entry) returns (s: seq<Entry>)
    requires Children(kids, live) && Tree(live) && e in live
    ensures e.parent in kids && s == kids[e.parent] && e in s && NoDuplicates(s)
  {
    s := kids[e.parent];
  }

  lemma IndexOfKid(s: seq<Entry>, e: Entry) returns (x: nat)
    requires e in s && NoDuplicates(s)
    ensures x < |s| && s[x] == e && forall y :: 0 <= y < |s| && s[y] == e ==> y == x
  {
    x :| 0 <= x < |s| && s[x] == e;
  }

  class Namespace {
    const root: Link
    var hashsize: nat
    var numentries: nat
    var hashtab: array<Link>
    /** The entries that there are, and their order in the slots and below their parents. */
    ghost var live: set<Entry>
    ghost var tab: seq<seq<Entry>>
    ghost var kids: map<Entry?, seq<Entry>>
    /** All links of the namespace. */
    ghost var nodes: set<Link>

    ghost predicate Table()
      reads this`hashtab, this`hashsize, this`numentries, this`live, this`tab
    {
      hashtab.Length == hashsize == |tab| > 0 && numentries == |live| && Hashed(tab, live)
    }

    ghost predicate Listed()
      reads this`kids, this`live
    {
      Children(kids, live) && Tree(live)
    }

    ghost predicate Wired()
      reads this`hashtab, this`live, this`tab, this`kids, this`nodes, hashtab, nodes
    {
      && Apart(root, hashtab[..], live) && AllInside(live, nodes)
      && HashWired(WiresOf(nodes), hashtab[..], tab) && KidsWired(WiresOf(nodes), root, kids)
    }

    /** The links form one ring for each slot and one for the children of each entry, in the order of the lists. */
    ghost predicate Valid()
      reads this, hashtab, nodes
    {
      Table() && Listed() && Wired()
    }

    lemma ValidFacts()
      requires Valid()
      ensures Table() && Listed() && Wired() && hashsize > 0 && Tree(live)
    {
    }

    /**
     What any run of look-ups and frees keeps: at most one entry has a given parent and name, each
     entry is in the slot of its hash and below its parent, and the entries are counted.
     */
    lemma ValidMeans(e: Entry)
      requires Valid() && e in live
      ensures numentries == |live| && hashsize == |tab| == hashtab.Length > 0
      ensures forall f :: f in live && f.parent == e.parent && f.name == e.name ==> f == e
      ensures forall k :: 0 <= k < hashsize ==> (e in tab[k] <==> k == Hash(Address(e.parent), e.name) % hashsize)
      ensures e.parent != null ==> e.parent in live
      ensures e.parent in kids && (forall p :: p in kids ==> (e in kids[p] <==> p == e.parent))
      ensures forall k :: 0 <= k < hashsize ==> Linked(WiresOf(nodes), HashRing(hashtab[k], tab[k]))
      ensures forall p :: p in kids ==> Linked(WiresOf(nodes), ChildRing(root, p, kids[p]))
    {
      hide Linked, WiresOf, HashRing, ChildRing, Hash, NoDuplicates, Apart, AllInside;
      forall k | 0 <= k < hashsize ensures e in tab[k] <==> k == Hash(Address(e.parent), e.name) % hashsize {
        assert Holds(tab[k], live, hashsize, k);
      }
      forall k | 0 <= k < hashsize ensures Linked(WiresOf(nodes), HashRing(hashtab[k], tab[k])) {
        assert hashtab[..][k] == hashtab[k];
      }
    }

    lemma IsValid()
      requires Table() && Listed() && Wired()
      ensures Valid()
    {
    }

    lemma TableFacts()
      requires Table()
      ensures hashtab.Length == hashsize == |tab| > 0 && numentries == |live| && Hashed(tab, live)
    {
    }

    lemma IsTable()
      requires hashtab.Length == hashsize == |tab| > 0 && numentries == |live| && Hashed(tab, live)
      ensures Table()
    {
    }

    lemma ListedFacts()
      requires Listed()
      ensures Children(kids, live) && Tree(live)
    {
    }

    lemma IsListed()
      requires Children(kids, live) && Tree(live)
      ensures Listed()
    {
    }

    lemma WiredFacts()
      requires Wired()
      ensures Apart(root, hashtab[..], live) && AllInside(live, nodes)
      ensures HashWired(WiresOf(nodes), hashtab[..], tab) && KidsWired(WiresOf(nodes), root, kids)
    {
    }

    lemma IsWired()
      requires Apart(root, hashtab[..], live) && AllInside(live, nodes)
      requires HashWired(WiresOf(nodes), hashtab[..], tab) && KidsWired(WiresOf(nodes), root, kids)
      ensures Wired()
    {
    }

    /** av_namespace_new */
    constructor ()
      ensures Valid() && live == {} && fresh(hashtab) && fresh(nodes)
    {
      hide *;
      Sizes();
      var head := new Link(RootHead);
      var table, heads := AllocHashTable(MIN_SIZE);
      root := head;
      hashsize, numentries, hashtab := MIN_SIZE, 0, table;
      live, tab, kids, nodes := {}, seq(MIN_SIZE, _ => []), map[null := []], heads + {head};
      new;
      StartWired(head, hashtab[..], tab, nodes);
      StartTable(tab);
      IsTable();
      IsListed();
      NoneInside(nodes);
      IsWired();
      IsValid();
    }

    /** resize_hashtable: the same entries in a table of another size, if it is too full or too empty. */
    method Resize()
      requires Valid()
      modifies this`hashtab, this`hashsize, this`tab, this`nodes, nodes`next, nodes`prev
      ensures Valid() && (hashtab == old(hashtab) || fresh(hashtab)) && fresh(nodes - old(nodes)) && old(nodes) <= nodes
    {
      hide *;
      ValidFacts();
      TableFacts();
      ListedFacts();
      WiredFacts();
      if (10 * numentries > hashsize || hashsize <= MIN_SIZE) && (numentries < 3 * hashsize || hashsize >= MAX_SIZE) {
        return;
      }
      var newSize := SpacedPrimesClosest(numentries);
      var newTab, heads' := AllocHashTable(newSize);
      ghost var all := nodes + heads';
      ghost var heads, tab0, newHeads := hashtab[..], tab, newTab[..];
      ghost var new0: seq<seq<Entry>> := seq(newSize, _ => []);
      MovingStart(root, heads, tab0, kids, live, newHeads, new0, nodes, heads');
      ghost var new1 := MoveAll(hashtab, newTab, all, root, tab0, kids, live, new0);
      Install(newTab, newSize, new1, all);
    }

    /** The new table takes the place of the old one. */
    method Install(newTab: array<Link>, newSize: nat, ghost new1: seq<seq<Entry>>, ghost all: set<Link>)
      requires Listed() && numentries == |live| && newTab.Length == newSize == |new1| > 0 && Hashed(new1, live)
      requires Apart(root, newTab[..], live) && AllInside(live, all)
      requires HashWired(WiresOf(all), newTab[..], new1) && KidsWired(WiresOf(all), root, kids)
      modifies this`hashtab, this`hashsize, this`tab, this`nodes
      ensures Valid() && hashtab == newTab && nodes == all
    {
      hide *;
      ghost var heads := newTab[..];
      hashtab := newTab;
      hashsize := newSize;
      tab := new1;
      nodes := all;
      assert hashtab[..] == heads;
      IsTable();
      IsWired();
      IsValid();
    }

    /** A new entry goes to its parent's children and to its slot of the table. */
    method Insert(ent: Entry, k: nat)
      requires Valid() && ent !in live && !Taken(live, ent.parent, ent.name)
      requires ent.parent != null ==> ent.parent in live && ent.parent.depth < ent.depth
      requires Roles(ent) && Inside(ent) && ent.subdir.next == ent.subdir && ent.subdir.prev == ent.subdir
      requires {ent.subdir, ent.child, ent.hash} !! nodes && k == Slot(ent, hashsize)
      modifies this`live, this`tab, this`kids, this`nodes, this`numentries
      modifies (nodes + {ent.subdir, ent.child, ent.hash})`next, (nodes + {ent.subdir, ent.child, ent.hash})`prev
      ensures Valid() && live == old(live) + {ent} && nodes == old(nodes) + {ent.subdir, ent.child, ent.hash}
      ensures ent.parent in old(kids) && kids == old(kids)[ent := []][ent.parent := old(kids)[ent.parent] + [ent]]
    {
      hide *;
      ValidFacts();
      TableFacts();
      ListedFacts();
      WiredFacts();
      ghost var heads, all := hashtab[..], nodes + {ent.subdir, ent.child, ent.hash};
      InsertStart(root, heads, tab, kids, live, ent, nodes);
      var head := HeadOf(root, ent.parent);
      LinkEntry(ent, head, hashtab[k], all, root, heads, tab, kids[ent := []], live, k);
      assert hashtab[..] == heads && kids[ent := []][ent.parent] == kids[ent.parent];
      Record(ent, k, all);
    }

    /** The books are brought up to date with the links. */
    method Record(ent: Entry, ghost k: nat, ghost all: set<Link>)
      requires Table() && Listed() && ent !in live && !Taken(live, ent.parent, ent.name)
      requires k == Slot(ent, |tab|) < |tab|
      requires ent.parent in kids && ent.parent != ent
      requires ent.parent != null ==> ent.parent in live && ent.parent.depth < ent.depth
      requires Apart(root, hashtab[..], live + {ent}) && AllInside(live + {ent}, all)
      requires HashWired(WiresOf(all), hashtab[..], tab[k := tab[k] + [ent]])
      requires KidsWired(WiresOf(all), root, kids[ent := []][ent.parent := kids[ent.parent] + [ent]])
      modifies this`live, this`tab, this`kids, this`nodes, this`numentries
      ensures Valid() && live == old(live) + {ent} && nodes == all
      ensures kids == old(kids)[ent := []][ent.parent := old(kids)[ent.parent] + [ent]]
    {
      hide *;
      TableFacts();
      ListedFacts();
      AddHashed(tab, live, ent);
      AddChildren(kids, live, ent);
      AddTree(live, ent);
      kids := kids[ent := []][ent.parent := kids[ent.parent] + [ent]];
      tab := tab[k := tab[k] + [ent]];
      numentries := numentries + 1;
      live := live + {ent};
      nodes := all;
      IsTable();
      IsListed();
      IsWired();
      IsValid();
    }

    /** free_entry_locked, for an entry without children: nothing else refers to it. */
    method FreeEntry(ent: Entry)
      requires Valid() && ent in live && ent in kids && kids[ent] == []
      modifies this`live, this`tab, this`kids, this`nodes, this`numentries, this`hashtab, this`hashsize
      modifies nodes`next, nodes`prev
      ensures Valid() && live == old(live) - {ent} && fresh(nodes - old(nodes)) && old(nodes) <= nodes
      ensures ent.parent in old(kids) && kids == old(kids)[ent.parent := Without(old(kids)[ent.parent], ent)] - {ent}
    {
      hide *;
      ValidFacts();
      TableFacts();
      ListedFacts();
      WiredFacts();
      ghost var heads := hashtab[..];
      ghost var k := Slot(ent, |tab|);
      DeleteStart(tab, kids, live, ent);
      UnlinkEntry(ent, nodes, root, heads, tab, kids, live, k);
      Forget(ent, k);
      Resize();
    }

    /** The books without the entry. */
    method Forget(ent: Entry, ghost k: nat)
      requires Table() && Listed() && ent in live && ent in kids && kids[ent] == [] && k == Slot(ent, |tab|) < |tab|
      requires ent.parent in kids
      requires Apart(root, hashtab[..], live) && AllInside(live, nodes)
      requires HashWired(WiresOf(nodes), hashtab[..], tab[k := Without(tab[k], ent)])
      requires KidsWired(WiresOf(nodes), root, kids[ent.parent := Without(kids[ent.parent], ent)])
      modifies this`live, this`tab, this`kids, this`numentries
      ensures Valid() && live == old(live) - {ent}
      ensures kids == old(kids)[ent.parent := Without(old(kids)[ent.parent], ent)] - {ent}
    {
      hide *;
      TableFacts();
      ListedFacts();
      DelHashed(tab, live, ent);
      DelChildren(kids, live, ent);
      DelWired(WiresOf(nodes), root, hashtab[..], kids[ent.parent := Without(kids[ent.parent], ent)], live, ent, nodes);
      kids := kids[ent.parent := Without(kids[ent.parent], ent)] - {ent};
      tab := tab[k := Without(tab[k], ent)];
      numentries := numentries - 1;
      live := live - {ent};
      IsTable();
      IsListed();
      IsWired();
      IsValid();
    }

    /** Looks through one slot. */
    method Search(k: nat, parent: Entry?, name: string) returns (ent: Entry?)
      requires Valid() && k < hashtab.Length && k == Hash(Address(parent), name) % hashsize
      ensures ent != null ==> ent in live && ent.parent == parent && ent.name == name
      ensures ent == null ==> !Taken(live, parent, name)
    {
      hide *;
      ValidFacts();
      TableFacts();
      WiredFacts();
      ghost var heads, s, j := hashtab[..], tab[k], 0;
      TableLists(tab, live, k);
      var head := hashtab[k];
      SlotRing(nodes, heads, tab, k);
      var ptr: Link := head.next;
      while ptr != head
        invariant j <= |s| && ptr == Stop(head, s, j)
        invariant forall i :: 0 <= i < j ==> s[i].parent != parent || s[i].name != name
        decreases |s| - j
      {
        StopIs(head, s, j);
        assert s[j] in s;
        InsideFacts(live, nodes, s[j]);
        ent := ptr.entry;
        if ent.parent == parent && ent.name == name {
          return;
        }
        ptr := ptr.next;
        j := j + 1;
      }
      StopIs(head, s, j);
      if j < |s| {
        assert s[j] in s;
        SlotLink(root, heads, live, k, s[j]);
      }
      InList(tab, live, parent, name, k);
      return null;
    }

    /** lookup_name: finds the entry with that parent and name, or makes it. */
    method LookupName(parent: Entry?, name: string) returns (ent: Entry)
      requires Valid() && (parent != null ==> parent in live)
      modifies this`live, this`tab, this`kids, this`nodes, this`numentries, this`hashtab, this`hashsize
      modifies nodes`next, nodes`prev
      ensures Valid() && ent in live && ent.parent == parent && ent.name == name && fresh(nodes - old(nodes))
      ensures old(nodes) <= nodes
      ensures live == old(live) || (live == old(live) + {ent} && fresh(ent) && !old(Taken(live, parent, name)))
      ensures if live == old(live) then kids == old(kids)
              else parent in old(kids) && kids == old(kids)[ent := []][parent := old(kids)[parent] + [ent]]
    {
      hide *;
      ValidFacts();
      TableFacts();
      var hash := NamespaceHash(Address(parent), name);
      var k: nat := hash % hashsize;
      var known := Search(k, parent, name);
      if known != null {
        return known;
      }
      var address: int := *;
      ent := new Entry(name, parent, if address < 0 then 0 else address);
      SlotIs(ent, hashsize, hash);
      Insert(ent, k);
      Resize();
    }

    // ---------------------------------------------------------------- the children in order

    /** av_namespace_nth: the children in the order in which they were made. */
    method Nth(parent: Entry?, n: nat) returns (ent: Entry?)
      requires Valid() && parent in kids
      ensures ent == if n < |kids[parent]| then kids[parent][n] else null
    {
      hide *;
      ValidFacts();
      ListedFacts();
      WiredFacts();
      ghost var s, j := kids[parent], 0;
      KidsLive(kids, live, parent);
      var head := HeadOf(root, parent);
      KidRing(nodes, root, kids, parent);
      var ptr: Link := head.next;
      var i: nat := n;
      while ptr != head
        invariant j <= |s| && ptr == KidStop(head, s, j) && i + j == n
        decreases |s| - j
      {
        KidStopIs(head, s, j);
        assert s[j] in s;
        InsideFacts(live, nodes, s[j]);
        if i == 0 {
          return ptr.entry;
        }
        i := i - 1;
        ptr := ptr.next;
        j := j + 1;
      }
      KidStopIs(head, s, j);
      if j < |s| {
        assert s[j] in s;
        KidLink(root, hashtab[..], live, parent, s[j]);
      }
      return null;
    }

    /** av_namespace_next: the next child of the same parent. */
    method Next(ent: Entry) returns (next: Entry?)
      requires Valid() && ent in live
      ensures ent.parent in kids && ent in kids[ent.parent]
      ensures forall x :: 0 <= x < |kids[ent.parent]| && kids[ent.parent][x] == ent ==>
                next == if x + 1 < |kids[ent.parent]| then kids[ent.parent][x + 1] else null
    {
      hide *;
      ValidFacts();
      ListedFacts();
      WiredFacts();
      ghost var s := KidsOf(kids, live, ent);
      KidsLive(kids, live, ent.parent);
      var head := HeadOf(root, ent.parent);
      KidRing(nodes, root, kids, ent.parent);
      var curr := ent.child.next;
      ghost var x: nat := IndexOfKid(s, ent);
      KidStopIs(head, s, x);
      KidStopIs(head, s, x + 1);
      if x + 1 < |s| {
        assert s[x + 1] in s;
        InsideFacts(live, nodes, s[x + 1]);
        KidLink(root, hashtab[..], live, ent.parent, s[x + 1]);
      }
      if curr == head {
        return null;
      }
      return curr.entry;
    }


    /** getpath */
    method GetPath(ent: Entry) returns (path: string)
      requires Valid() && ent in live
      ensures path == Join(Names(live, ent))
      decreases ent.depth
    {
      hide Table, Wired, Children;
      var names := Names(live, ent);
      if ent.parent == null {
        return ent.name;
      }
      path := GetPath(ent.parent);
      path := path + "/" + ent.name;
      assert names[..|names| - 1] == Names(live, ent.parent);
    }

    /** Whether there is an entry with these names. */
    ghost predicate Known(names: seq<string>)
      requires Tree(live)
      reads this`live
    {
      exists e :: e in live && Names(live, e) == names
    }

    /** av_namespace_resolve: the entry with the names of the path, made if it is not there. */
    method Resolve(path: string) returns (ent: Entry?)
      requires Valid()
      modifies this, nodes`next, nodes`prev
      ensures Valid() && old(live) <= live && Tree(live) && old(Tree(live))
      ensures path == [] ==> ent == null && live == old(live)
      ensures path != [] ==> ent != null && ent in live && Names(live, ent) == Components(path)
      ensures old(Known(Components(path))) ==> live == old(live)
    {
      hide *;
      ValidFacts();
      var p := path;
      ent := null;
      ghost var done: seq<string> := [];
      ghost var all := Components(path);
      assert done + Components(p) == all;
      ghost var known := Known(all);
      while p != []
        invariant Valid() && Tree(live) && old(live) <= live && fresh(nodes - old(nodes)) && old(nodes) <= nodes
        invariant done + Components(p) == all && (ent == null <==> done == []) && (p == path <==> done == [])
        invariant ent != null ==> ent in live && Names(live, ent) == done
        invariant known || done == [] ==> live == old(live)
        decreases |p|
      {
        var n := FindSlash(p);
        FirstOf(p);
        if known {
          OnKnownWay(all, done, ent, p[..n]);
        }
        ghost var was := live;
        var next := LookupName(ent, p[..n]);
        ValidFacts();
        if ent != null {
          NamesStay(was, live, ent);
        }
        NamesOf(live, next);
        done := done + [p[..n]];
        ent := next;
        p := p[n..];
        var m := SkipSlashes(p);
        p := p[m..];
        assert done + Components(p) == all;
      }
      NoComponents();
    }

    lemma OnKnownWay(all: seq<string>, done: seq<string>, ent: Entry?, name: string)
      requires Tree(live) && Known(all) && |done| < |all| && done == all[..|done|] && all[|done|] == name
      requires if done == [] then ent == null else ent != null && ent in live && Names(live, ent) == done
      ensures Taken(live, ent, name)
    {
      var e :| e in live && Names(live, e) == all;
      NextOnTheWay(live, e, ent, |done|);
    }

    /**
     Resolving the path of an entry gives that entry back exactly if its names are clean; and then
     nothing is made.
     */
    method ResolvePath(e: Entry) returns (path: string, ent: Entry?)
      requires Valid() && e in live
      modifies this, nodes`next, nodes`prev
      ensures Valid() && old(Tree(live))
      ensures ent == e <==> Clean(old(Names(live, e)))
      ensures ent == e ==> live == old(live)
    {
      hide *;
      ValidFacts();
      path := GetPath(e);
      ghost var names, was := Names(live, e), live;
      RoundTrip(names);
      KnownIs(e);
      ent := Resolve(path);
      NamesStay(was, live, e);
      NoComponents();
      if ent != null && Names(live, ent) == names {
        NamesUnique(live, ent, e);
      }
      HasNames(live, e);
    }

    lemma KnownIs(e: Entry)
      requires Tree(live) && e in live
      ensures Known(Names(live, e))
    {
    }
  }

  lemma FirstOf(p: string)
    requires p != []
    ensures Components(p) == [p[..Span(p)]] + Components(p[Span(p)..][Slashes(p[Span(p)..])..])
    ensures |p[Span(p)..][Slashes(p[Span(p)..])..]| < |p|
  {
    assert Rest(p) == p[Span(p)..][Slashes(p[Span(p)..])..];
  }

  lemma NoComponents()
    ensures Components([]) == []
  {
  }
}
