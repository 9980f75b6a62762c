/**
 Paths of names (namespace.c lines 284-326): the path that getpath builds, the names that
 av_namespace_resolve reads from a path, and when they are the same.
 */
module Paths {

  /** The length of the first component: up to a slash or the end. */
  function Span(path: string): (n: nat)
    ensures n <= |path|
    ensures forall i :: 0 <= i < n ==> path[i] != '/'
    ensures n < |path| ==> path[n] == '/'
  {
    if path == [] || path[0] == '/' then 0 else 1 + Span(path[1..])
  }

  /** How many slashes a path starts with. */
  function Slashes(path: string): (n: nat)
    ensures n <= |path|
    ensures forall i :: 0 <= i < n ==> path[i] == '/'
    ensures n < |path| ==> path[n] != '/'
  {
    if path == [] || path[0] != '/' then 0 else 1 + Slashes(path[1..])
  }

  lemma {:induction false} SpanFrom(path: string, n: nat)
    requires n <= |path| && forall i :: 0 <= i < n ==> path[i] != '/'
    ensures Span(path) == n + Span(path[n..])
  {
    if n > 0 {
      SpanFrom(path[1..], n - 1);
      assert path[1..][n - 1..] == path[n..];
    } else {
      assert path[0..] == path;
    }
  }

  lemma {:induction false} SlashesFrom(path: string, n: nat)
    requires n <= |path| && forall i :: 0 <= i < n ==> path[i] == '/'
    ensures Slashes(path) == n + Slashes(path[n..])
  {
    if n > 0 {
      SlashesFrom(path[1..], n - 1);
      assert path[1..][n - 1..] == path[n..];
    } else {
      assert path[0..] == path;
    }
  }

  method FindSlash(path: string) returns (n: nat)
    ensures n == Span(path)
  {
    n := 0;
    while n < |path| && path[n] != '/'
      invariant n <= |path| && forall i :: 0 <= i < n ==> path[i] != '/'
    {
      n := n + 1;
    }
    SpanFrom(path, n);
  }

  method SkipSlashes(path: string) returns (n: nat)
    ensures n == Slashes(path)
  {
    n := 0;
    while n < |path| && path[n] == '/'
      invariant n <= |path| && forall i :: 0 <= i < n ==> path[i] == '/'
    {
      n := n + 1;
    }
    SlashesFrom(path, n);
  }

  /** What is left of a non-empty path after its first component and the slashes that follow. */
  function Rest(path: string): (r: string)
    requires path != []
    ensures |r| < |path|
  {
    var s := path[Span(path)..];
    s[Slashes(s)..]
  }

  /** The names that av_namespace_resolve looks up. */
  function Components(path: string): (names: seq<string>)
    decreases |path|
  {
    if path == [] then [] else [path[..Span(path)]] + Components(Rest(path))
  }

  /** The path of names, as getpath builds it. */
  function Join(names: seq<string>): (path: string)
    requires names != []
  {
    if |names| == 1 then names[0] else Join(names[..|names| - 1]) + "/" + names[|names| - 1]
  }

  /** No slashes in names, no empty names but the first, and not only an empty one. */
  predicate Clean(names: seq<string>)
  {
    && names != [] && names != [""]
    && (forall i :: 0 <= i < |names| ==> '/' !in names[i])
    && (forall i :: 1 <= i < |names| ==> names[i] != "")
  }

  lemma {:induction false} SpanOf(name: string, rest: string)
    requires '/' !in name && (rest == [] || rest[0] == '/')
    ensures Span(name + rest) == |name|
  {
    if name != [] {
      SpanOf(name[1..], rest);
      assert (name + rest)[1..] == name[1..] + rest;
    } else {
      assert name + rest == rest;
    }
  }

  /** The path of a first name and others starts with that name. */
  lemma {:induction false} JoinFirst(names: seq<string>)
    requires |names| > 1
    ensures Join(names) == names[0] + "/" + Join(names[1..])
    decreases |names|
  {
    var n := |names| - 1;
    var front := names[..n];
    if n > 1 {
      JoinFirst(front);
      assert front[1..] == names[1..][..n - 1] && names[1..][n - 1] == names[n];
      assert names[0] + "/" + Join(front[1..]) + "/" + names[n] == names[0] + "/" + (Join(front[1..]) + "/" + names[n]);
    } else {
      assert front == [names[0]] && names[1..] == [names[1]];
    }
  }

  lemma {:induction false} JoinStart(names: seq<string>)
    requires names != [] && names[0] != "" && '/' !in names[0]
    ensures Join(names) != [] && Join(names)[0] != '/'
  {
    if |names| > 1 {
      JoinFirst(names);
    }
    assert names[0][0] in names[0];
  }

  lemma {:induction false} SlashesOne(s: string)
    requires s != [] && s[0] != '/'
    ensures Slashes("/" + s) == 1
  {
    assert ("/" + s)[1..] == s;
  }

  lemma FirstComponent(name: string, more: string)
    requires '/' !in name && more != [] && more[0] != '/'
    ensures Components(name + "/" + more) == [name] + Components(more)
  {
    var rest := "/" + more;
    var path := name + rest;
    assert name + "/" + more == path;
    SpanOf(name, rest);
    SlashesOne(more);
    assert path[..|name|] == name && path[|name|..] == rest && rest[1..] == more;
  }

  lemma LastComponent(name: string)
    requires '/' !in name && name != []
    ensures Components(name) == [name]
  {
    SpanOf(name, []);
    assert name + [] == name;
    assert Components([]) == [];
  }

  /** Reading the path of clean names gives the names. */
  lemma {:induction false} JoinComponents(names: seq<string>)
    requires Clean(names)
    ensures Components(Join(names)) == names
    decreases |names|
  {
    if |names| == 1 {
      LastComponent(names[0]);
      assert names == [names[0]];
    } else {
      var more := names[1..];
      JoinFirst(names);
      JoinStart(more);
      JoinComponents(more);
      FirstComponent(names[0], Join(more));
      assert names == [names[0]] + more;
    }
  }

  lemma NoNames()
    ensures Components([]) == []
  {
  }

  lemma ComponentsStep(path: string)
    requires path != []
    ensures var name := path[..Span(path)];
            && Components(path) == [name] + Components(Rest(path)) && '/' !in name && (path[0] != '/' ==> name != "")
            && (Rest(path) != [] ==> Rest(path)[0] != '/')
  {
    var name := path[..Span(path)];
    assert forall i :: 0 <= i < |name| ==> name[i] == path[i];
  }

  /** Names read from a path have no slashes, and only the first can be empty. */
  lemma {:induction false} ComponentsSound(path: string)
    ensures forall i :: 0 <= i < |Components(path)| ==> '/' !in Components(path)[i]
    ensures forall i :: 1 <= i < |Components(path)| ==> Components(path)[i] != ""
    ensures path != [] && path[0] != '/' ==> Components(path) != [] && Components(path)[0] != ""
    decreases |path|
  {
    hide *;
    NoNames();
    if path != [] {
      var more := Components(Rest(path));
      ComponentsSound(Rest(path));
      ComponentsStep(path);
      forall i | 1 <= i < |Components(path)| ensures Components(path)[i] == more[i - 1] && (i == 1 ==> more[0] != "") {
      }
    }
  }

  /** Exactly the clean names can be read back from their path. */
  lemma RoundTrip(names: seq<string>)
    requires names != []
    ensures Components(Join(names)) == names <==> Clean(names)
  {
    if Clean(names) {
      JoinComponents(names);
    }
    ComponentsSound(Join(names));
    assert Join([""]) == "" && Components("") == [];
  }
}
