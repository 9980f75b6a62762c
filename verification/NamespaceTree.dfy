/**
 What the namespace's lists and its table hold (namespace.c), as sequences of entries: a tree of
 named entries, the children of each, and the slots of the hash table.
 */
module NamespaceTree {

  import opened Entries
  import opened NameHash

  function Address(e: Entry?): (a: nat)
  {
    if e == null then 0 else e.address
  }

  /** The list that an entry belongs to, in a table of a size. */
  function Slot(e: Entry, size: nat): (k: nat)
    requires size > 0
    ensures k < size
  {
    Hash(Address(e.parent), e.name) % size
  }

  predicate NoDuplicates(s: seq<Entry>)
  {
    forall i, j :: 0 <= i < j < |s| ==> s[i] != s[j]
  }

  /** `s` lists the entries of `live` below `p`. */
  ghost predicate Lists(s: seq<Entry>, live: set<Entry>, p: Entry?)
  {
    NoDuplicates(s) && (forall e :: e in s ==> e in live && e.parent == p) && forall e ::
        e in live && e.parent == p ==> e in s
  }

  /** `s` lists the entries of `live` in a slot. */
  ghost predicate Holds(s: seq<Entry>, live: set<Entry>, size: nat, k: nat)
    requires size > 0
  {
    && NoDuplicates(s) && (forall e :: e in s ==> e in live && Slot(e, size) == k)
    && forall e :: e in live && Slot(e, size) == k ==> e in s
  }

  /** Every list of the table has the entries of its slot. */
  ghost predicate Hashed(tab: seq<seq<Entry>>, live: set<Entry>)
    requires |tab| > 0
  {
    forall k :: 0 <= k < |tab| ==> Holds(tab[k], live, |tab|, k)
  }

  /** Every list of children has the children. */
  ghost predicate Children(kids: map<Entry?, seq<Entry>>, live: set<Entry>)
  {
    && null in kids && (forall p :: p in live ==> p in kids) && (forall p :: p in kids ==> p == null || p in live)
    && forall p :: p in kids ==> Lists(kids[p], live, p)
  }

  /** Parents are there, and no two entries have the same parent and name. */
  ghost predicate Tree(live: set<Entry>)
  {
    && (forall e :: e in live && e.parent != null ==> e.parent in live && e.parent.depth < e.depth)
    && (forall e, f :: e in live && f in live && e.parent == f.parent && e.name == f.name ==> e == f)
  }

  lemma AddHolds(s: seq<Entry>, live: set<Entry>, size: nat, k: nat, e: Entry)
    requires size > 0 && Holds(s, live, size, k) && e !in live
    ensures Slot(e, size) == k ==> Holds(s + [e], live + {e}, size, k)
    ensures Slot(e, size) != k ==> Holds(s, live + {e}, size, k)
  {
    hide Slot;
  }

  lemma AddHashed(tab: seq<seq<Entry>>, live: set<Entry>, e: Entry)
    requires |tab| > 0 && Hashed(tab, live) && e !in live
    ensures var k := Slot(e, |tab|); Hashed(tab[k := tab[k] + [e]], live + {e})
  {
    hide Holds, Slot;
    var k := Slot(e, |tab|);
    var tab' := tab[k := tab[k] + [e]];
    forall i | 0 <= i < |tab| ensures Holds(tab'[i], live + {e}, |tab|, i) {
      AddHolds(tab[i], live, |tab|, i, e);
    }
  }

  function Without(s: seq<Entry>, e: Entry): (r: seq<Entry>)
    ensures e !in s ==> r == s
    ensures forall x :: x in r ==> x in s
  {
    if s == [] then [] else if s[0] == e then s[1..] else [s[0]] + Without(s[1..], e)
  }

  lemma {:induction false} WithoutIs(s: seq<Entry>, e: Entry)
    requires NoDuplicates(s)
    ensures NoDuplicates(Without(s, e)) && forall x :: x in Without(s, e) <==> x in s && x != e
    decreases |s|
  {
    if s != [] && s[0] != e {
      var more := s[1..];
      WithoutIs(more, e);
      var r := Without(more, e);
      assert Without(s, e) == [s[0]] + r;
      assert forall j :: 0 <= j < |more| ==> more[j] == s[j + 1];
      assert s[0] !in more;
      forall i, j | 0 <= i < j < |r| + 1 ensures ([s[0]] + r)[i] != ([s[0]] + r)[j] {
        assert r[j - 1] in r;
      }
      assert forall x :: x in s <==> x == s[0] || x in more;
    }
  }

  lemma DelHashed(tab: seq<seq<Entry>>, live: set<Entry>, e: Entry)
    requires |tab| > 0 && Hashed(tab, live) && e in live
    ensures var k := Slot(e, |tab|); Hashed(tab[k := Without(tab[k], e)], live - {e})
  {
    hide Slot, NoDuplicates, Without;
    var k := Slot(e, |tab|);
    var tab' := tab[k := Without(tab[k], e)];
    forall i | 0 <= i < |tab| ensures Holds(tab'[i], live - {e}, |tab|, i) {
      WithoutIs(tab[i], e);
    }
  }

  // ---------------------------------------------------------------- the tree

  lemma AddLists(s: seq<Entry>, live: set<Entry>, p: Entry?, e: Entry)
    requires Lists(s, live, p) && e !in live
    ensures Lists(if e.parent == p then s + [e] else s, live + {e}, p)
  {
  }

  lemma DelLists(s: seq<Entry>, live: set<Entry>, p: Entry?, e: Entry)
    requires Lists(s, live, p) && e in live
    ensures Lists(if e.parent == p then Without(s, e) else s, live - {e}, p)
  {
    WithoutIs(s, e);
    hide NoDuplicates, Without;
  }

  /** A new entry has no children. */
  lemma NewLists(live: set<Entry>, e: Entry)
    requires Tree(live) && e !in live && e.parent != e
    ensures Lists([], live + {e}, e)
  {
  }

  ghost predicate Taken(live: set<Entry>, parent: Entry?, name: string)
  {
    exists e :: e in live && e.parent == parent && e.name == name
  }

  lemma AddTree(live: set<Entry>, e: Entry)
    requires Tree(live) && e !in live && !Taken(live, e.parent, e.name)
    requires e.parent != null ==> e.parent in live && e.parent.depth < e.depth
    ensures Tree(live + {e})
  {
  }

  lemma DelTree(live: set<Entry>, e: Entry)
    requires Tree(live) && Lists([], live, e)
    ensures Tree(live - {e})
  {
    assert forall f :: f in live && f.parent == e ==> f in [];
  }

  /** The names from the top down to an entry. */
  ghost function Names(live: set<Entry>, e: Entry): (s: seq<string>)
    requires Tree(live) && e in live
    ensures s != []
    decreases e.depth
  {
    if e.parent == null then [e.name] else Names(live, e.parent) + [e.name]
  }

  /** There is only one entry with given names. */
  lemma {:induction false} NamesUnique(live: set<Entry>, e: Entry, f: Entry)
    requires Tree(live) && e in live && f in live && Names(live, e) == Names(live, f)
    ensures e == f
    decreases e.depth
  {
    var s, t := Names(live, e), Names(live, f);
    assert s[|s| - 1] == e.name && t[|t| - 1] == f.name;
    if e.parent != null && f.parent != null {
      assert s[..|s| - 1] == Names(live, e.parent) && t[..|t| - 1] == Names(live, f.parent);
      NamesUnique(live, e.parent, f.parent);
    }
  }

  /** Entries keep their names when others are added. */
  lemma {:induction false} NamesStay(live: set<Entry>, live': set<Entry>, e: Entry)
    requires Tree(live) && Tree(live') && live <= live' && e in live
    ensures Names(live, e) == Names(live', e)
    decreases e.depth
  {
    if e.parent != null {
      NamesStay(live, live', e.parent);
    }
  }

  /** The entry on the way to `e` that has the first `k` names, and the one above it. */
  lemma {:induction false} OnTheWay(live: set<Entry>, e: Entry, k: nat) returns (a: Entry)
    requires Tree(live) && e in live && 1 <= k <= |Names(live, e)|
    ensures a in live && Names(live, a) == Names(live, e)[..k] && a.name == Names(live, e)[k - 1]
    decreases e.depth
  {
    var s := Names(live, e);
    if k == |s| {
      a := e;
      assert s[..k] == s;
    } else {
      assert s[..|s| - 1] == Names(live, e.parent);
      a := OnTheWay(live, e.parent, k);
      assert s[..|s| - 1][..k] == s[..k];
    }
  }

  /** The next entry on the way is the one that a look-up finds. */
  lemma NextOnTheWay(live: set<Entry>, e: Entry, ent: Entry?, k: nat)
    requires Tree(live) && e in live && k < |Names(live, e)|
    requires if k == 0 then ent == null else ent != null && ent in live && Names(live, ent) == Names(live, e)[..k]
    ensures Taken(live, ent, Names(live, e)[k])
  {
    var s := Names(live, e);
    var a := OnTheWay(live, e, k + 1);
    if a.parent != null {
      assert Names(live, a) == Names(live, a.parent) + [a.name];
      assert Names(live, a.parent) == Names(live, a)[..k] == s[..k];
      if k > 0 {
        NamesUnique(live, a.parent, ent);
      }
    } else {
      assert |Names(live, a)| == 1;
    }
  }

  lemma NamesOf(live: set<Entry>, e: Entry)
    requires Tree(live) && e in live
    ensures Names(live, e) == if e.parent == null then [e.name]
              else (ParentThere(live, e); Names(live, e.parent) + [e.name])
  {
  }

  lemma ParentThere(live: set<Entry>, e: Entry)
    requires Tree(live) && e in live && e.parent != null
    ensures e.parent in live
  {
  }

  lemma HasNames(live: set<Entry>, e: Entry)
    requires Tree(live) && e in live
    ensures Names(live, e) != []
  {
  }

  // ---------------------------------------------------------------- a table of another size

  lemma NewTable(tab: seq<seq<Entry>>)
    requires |tab| > 0 && forall k :: 0 <= k < |tab| ==> tab[k] == []
    ensures Hashed(tab, {})
  {
    hide Slot;
  }

  lemma BeforeNone(tab: seq<seq<Entry>>, live: set<Entry>)
    requires |tab| > 0
    ensures Before(tab, live, 0) == {}
  {
    hide Slot;
  }

  /** The entries of `live` in the first `i` lists. */
  ghost function Before(tab: seq<seq<Entry>>, live: set<Entry>, i: nat): (s: set<Entry>)
    requires |tab| > 0
  {
    set e | e in live && Slot(e, |tab|) < i
  }

  lemma BeforeLive(tab: seq<seq<Entry>>, live: set<Entry>, i: nat)
    requires |tab| > 0
    ensures Before(tab, live, i) <= live
  {
  }

  lemma SlotIs(e: Entry, size: nat, hash: nat)
    requires size > 0 && hash == Hash(Address(e.parent), e.name)
    ensures Slot(e, size) == hash % size
  {
  }

  lemma AllMoved(tab: seq<seq<Entry>>, live: set<Entry>, i: nat)
    requires |tab| > 0 && Hashed(tab, live) && i < |tab|
    ensures Before(tab, live, i + 1) == Before(tab, live, i) + set x | x in tab[i][..|tab[i]|]
  {
    hide Slot, NoDuplicates;
    assert Holds(tab[i], live, |tab|, i);
    assert tab[i][..|tab[i]|] == tab[i];
  }

  lemma EveryMoved(tab: seq<seq<Entry>>, live: set<Entry>)
    requires |tab| > 0
    ensures Before(tab, live, |tab|) == live
  {
  }
}
