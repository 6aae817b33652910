/** Which entries the GetParameterNames walk lists: each reportable one, and only once. */
module ParameterNamesListing {
  import opened Common
  import opened Paths
  import opened ParameterNames
  import opened ParameterNamesProofs

  // ----- Each path at most once -----

  ghost predicate PathsDiffer(entries: seq<Entry>, i: nat, j: nat)
    requires i < |entries| && j < |entries|
  {
    entries[i].path != entries[j].path
  }

  ghost predicate PathsDistinct(entries: seq<Entry>) {
    forall i, j :: 0 <= i < j < |entries| ==> PathsDiffer(entries, i, j)
  }

  ghost predicate Disjoint(a: seq<Entry>, b: seq<Entry>) {
    forall i, j :: 0 <= i < |a| && 0 <= j < |b| ==> a[i].path != b[j].path
  }

  lemma DistinctConcat(a: seq<Entry>, b: seq<Entry>)
    requires PathsDistinct(a) && PathsDistinct(b) && Disjoint(a, b)
    ensures PathsDistinct(a + b)
  {
    forall i, j | 0 <= i < j < |a + b|
      ensures PathsDiffer(a + b, i, j)
    {
      assert j < |a| ==> PathsDiffer(a, i, j);
      assert i >= |a| ==> PathsDiffer(b, i - |a|, j - |a|);
    }
  }

  /** Every entry is a parameter of `path` with one of the first `n` names. */
  ghost predicate AreParams(entries: seq<Entry>, path: string, names: seq<string>, n: nat) {
    forall k :: 0 <= k < |entries| ==> exists i :: 0 <= i < n && i < |names| && entries[k].path == path + names[i]
  }

  /** At or below one of the first `n` children. */
  ghost predicate UnderChild(e: Entry, path: string, names: seq<string>, n: nat) {
    exists i :: 0 <= i < n && i < |names| && ChildPath(path, names[i]) <= e.path
  }

  ghost predicate UnderChildren(entries: seq<Entry>, path: string, names: seq<string>, n: nat) {
    forall k :: 0 <= k < |entries| ==> UnderChild(entries[k], path, names, n)
  }

  lemma SamePathSameName(path: string, a: string, b: string)
    requires path + a == path + b
    ensures a == b
  {
    assert (path + a)[|path|..] == a && (path + b)[|path|..] == b;
  }

  lemma {:induction false} ParamsDistinct(allowed: Access, path: string, node: Node, names: seq<string>, n: nat)
    requires n <= |names| && NoRepeats(names) && forall i :: 0 <= i < |names| ==> names[i] in node.params
    ensures PathsDistinct(ParamEntries(allowed, path, node, names, n))
    ensures AreParams(ParamEntries(allowed, path, node, names, n), path, names, n)
  {
    if n > 0 {
      ParamsDistinct(allowed, path, node, names, n - 1);
      var before, here := ParamEntries(allowed, path, node, names, n - 1), ParamEntry(allowed, path, node, names[n - 1]);
      forall i, j | 0 <= i < |before| && 0 <= j < |here|
        ensures before[i].path != here[j].path
      {
        var k :| 0 <= k < n - 1 && before[i].path == path + names[k];
        if before[i].path == here[j].path {
          assert Differ(names, k, n - 1);
          SamePathSameName(path, names[k], names[n - 1]);
        }
      }
      DistinctConcat(before, here);
    }
  }

  lemma SortedNoRepeats(node: Node)
    requires WellFormed(node)
    ensures NoRepeats(SortedParams(node)) && NoRepeats(SortedChildren(node))
    ensures Ascending(SortedParams(node)) && Ascending(SortedChildren(node))
  {
    AscendingDiffer(SortedParams(node));
    AscendingDiffer(SortedChildren(node));
  }

  ghost predicate AllAtOrBelow(entries: seq<Entry>, path: string) {
    forall k :: 0 <= k < |entries| ==> path <= entries[k].path
  }

  lemma EntriesAtOrBelow(allowed: Access, path: string, node: Node)
    requires WellFormed(node) && IsObjectPath(path)
    ensures AllAtOrBelow(Entries(allowed, false, path, node), path)
  {
    if node.reply.Described? {
      EntriesSplit(allowed, path, node);
      BelowIsBelow(allowed, path, node);
    }
  }

  lemma OwnDisjointFromBelow(own: seq<Entry>, below: seq<Entry>, path: string)
    requires IsObjectPath(path) && AllBelow(below, path) && forall k :: 0 <= k < |own| ==> own[k].path == path
    ensures Disjoint(own, below)
  {
  }

  lemma ParamsDisjointFromChildren(params: seq<Entry>, children: seq<Entry>, path: string, names: seq<string>, childNames: seq<string>)
    requires AreParams(params, path, names, |names|) && UnderChildren(children, path, childNames, |childNames|)
    requires forall i :: 0 <= i < |names| ==> SimpleName(names[i])
    ensures Disjoint(params, children)
  {
    forall i, j | 0 <= i < |params| && 0 <= j < |children|
      ensures params[i].path != children[j].path
    {
      var p :| 0 <= p < |names| && params[i].path == path + names[p];
      assert UnderChild(children[j], path, childNames, |childNames|);
      var c :| 0 <= c < |childNames| && ChildPath(path, childNames[c]) <= children[j].path;
      if params[i].path == children[j].path {
        BelowChildIsNotParam(path, names[p], childNames[c]);
      }
    }
  }

  lemma NextChildDisjoint(before: seq<Entry>, here: seq<Entry>, path: string, names: seq<string>, n: nat)
    requires n < |names| && NoRepeats(names) && forall i :: 0 <= i < |names| ==> SimpleName(names[i])
    requires UnderChildren(before, path, names, n) && AllAtOrBelow(here, ChildPath(path, names[n]))
    ensures Disjoint(before, here)
  {
    forall i, j | 0 <= i < |before| && 0 <= j < |here|
      ensures before[i].path != here[j].path
    {
      assert UnderChild(before[i], path, names, n);
      var k :| 0 <= k < n && ChildPath(path, names[k]) <= before[i].path;
      if before[i].path == here[j].path {
        assert Differ(names, k, n);
        ChildPathsDisjoint(path, names[k], names[n], here[j].path);
      }
    }
  }

  lemma UnderChildrenConcat(before: seq<Entry>, here: seq<Entry>, path: string, names: seq<string>, n: nat)
    requires n < |names| && UnderChildren(before, path, names, n) && AllAtOrBelow(here, ChildPath(path, names[n]))
    ensures UnderChildren(before + here, path, names, n + 1)
  {
    forall k | 0 <= k < |before + here|
      ensures UnderChild((before + here)[k], path, names, n + 1)
    {
      if k < |before| {
        var i :| 0 <= i < n && i < |names| && ChildPath(path, names[i]) <= before[k].path;
        assert ChildPath(path, names[i]) <= (before + here)[k].path;
      } else {
        assert ChildPath(path, names[n]) <= (before + here)[k].path;
      }
    }
  }

  lemma AddChild(before: seq<Entry>, here: seq<Entry>, path: string, names: seq<string>, n: nat)
    requires n < |names| && NoRepeats(names) && forall i :: 0 <= i < |names| ==> SimpleName(names[i])
    requires PathsDistinct(before) && UnderChildren(before, path, names, n)
    requires PathsDistinct(here) && AllAtOrBelow(here, ChildPath(path, names[n]))
    ensures PathsDistinct(before + here) && UnderChildren(before + here, path, names, n + 1)
  {
    NextChildDisjoint(before, here, path, names, n);
    DistinctConcat(before, here);
    UnderChildrenConcat(before, here, path, names, n);
  }

  lemma {:induction false} ChildDistinct(allowed: Access, path: string, node: Node) returns (entries: seq<Entry>)
    requires WellFormed(node) && IsObjectPath(path)
    ensures entries == Entries(allowed, false, path, node) && PathsDistinct(entries) && AllAtOrBelow(entries, path)
    decreases node, 2
  {
    entries := Entries(allowed, false, path, node);
    ListedOnce(allowed, path, node);
    EntriesAtOrBelow(allowed, path, node);
  }

  lemma {:induction false} ChildrenDistinct(allowed: Access, path: string, node: Node, names: seq<string>, n: nat)
      returns (entries: seq<Entry>)
    requires WellFormed(node) && IsObjectPath(path) && n <= |names| && NoRepeats(names)
    requires forall i :: 0 <= i < |names| ==> names[i] in node.child
    ensures entries == ChildrenEntries(allowed, false, path, node, names, n)
    ensures PathsDistinct(entries) && UnderChildren(entries, path, names, n)
    decreases node, 0, n
  {
    entries := [];
    if n > 0 {
      var before := ChildrenDistinct(allowed, path, node, names, n - 1);
      var here := ChildDistinct(allowed, ChildPath(path, names[n - 1]), node.child[names[n - 1]]);
      AddChild(before, here, path, names, n - 1);
      entries := before + here;
    }
  }

  /** No path is listed twice. */
  lemma {:induction false} ListedOnce(allowed: Access, path: string, node: Node)
    requires WellFormed(node) && IsObjectPath(path)
    ensures PathsDistinct(Entries(allowed, false, path, node))
    decreases node, 1
  {
    if node.reply.Described? {
      var own, params := OwnEntry(allowed, path, node), OwnParams(allowed, path, node);
      var names := SortedChildren(node);
      SortedNoRepeats(node);
      EntriesSplit(allowed, path, node);
      ParamsDistinct(allowed, path, node, SortedParams(node), |SortedParams(node)|);
      var children := ChildrenDistinct(allowed, path, node, names, |names|);
      ParamsDisjointFromChildren(params, children, path, SortedParams(node), names);
      DistinctConcat(params, children);
      BelowIsBelow(allowed, path, node);
      OwnDisjointFromBelow(own, params + children, path);
      DistinctConcat(own, params + children);
    }
  }

  // ----- Exactly what may be reported -----

  /** The object that `route`, a list of child names, leads to; nothing if a description is missing on the way. */
  function Reach(path: string, node: Node, route: seq<string>): (r: Option<(string, Node)>)
    decreases |route|
  {
    if !node.reply.Described? then None
    else if route == [] then Some((path, node))
    else if route[0] in node.child then Reach(ChildPath(path, route[0]), node.child[route[0]], route[1..])
    else None
  }

  /** The object itself, or one of its parameters unless it is a template; the object must be allowed either way. */
  ghost predicate OwnReport(allowed: Access, path: string, node: Node, e: Entry) {
    && allowed.own(path)
    && (e == Entry(path, node.kind.Template? || node.kind.Instance?)
        || (!node.kind.Template? && exists x :: x in node.params && allowed.own(path + x) && e == Entry(path + x, !node.params[x])))
  }

  ghost predicate Reports(allowed: Access, path: string, node: Node, route: seq<string>, e: Entry) {
    Reach(path, node, route).Some? &&
    OwnReport(allowed, Reach(path, node, route).value.0, Reach(path, node, route).value.1, e)
  }

  lemma {:induction false} ParamListed(allowed: Access, path: string, node: Node, names: seq<string>, n: nat, e: Entry)
    requires n <= |names| && forall i :: 0 <= i < |names| ==> names[i] in node.params
    ensures e in ParamEntries(allowed, path, node, names, n) <==>
            exists i :: 0 <= i < n && allowed.own(path + names[i]) && e == Entry(path + names[i], !node.params[names[i]])
  {
    if n > 0 {
      ParamListed(allowed, path, node, names, n - 1, e);
      assert e in ParamEntries(allowed, path, node, names, n) <==>
          e in ParamEntries(allowed, path, node, names, n - 1) || e in ParamEntry(allowed, path, node, names[n - 1]);
    }
  }

  lemma OwnListed(allowed: Access, path: string, node: Node, e: Entry)
    requires WellFormed(node)
    ensures e in OwnEntry(allowed, path, node) + OwnParams(allowed, path, node) <==> OwnReport(allowed, path, node, e)
  {
    var names := SortedParams(node);
    ParamListed(allowed, path, node, names, |names|, e);
    forall x | x in node.params
      ensures exists i :: 0 <= i < |names| && names[i] == x
    {
      assert x in NameSet(names);
    }
  }

  lemma InConcat<T>(a: seq<T>, b: seq<T>, e: T)
    ensures e in a + b <==> e in a || e in b
  {
  }

  lemma {:induction false} FindPart(parts: seq<seq<Entry>>, e: Entry) returns (i: nat)
    requires e in Joined(parts)
    ensures i < |parts| && e in parts[i]
  {
    var init, last := parts[..|parts| - 1], parts[|parts| - 1];
    InConcat(Joined(init), last, e);
    i := |parts| - 1;
    if e !in last {
      i := FindPart(init, e);
    }
  }

  lemma {:induction false} PartIsJoined(parts: seq<seq<Entry>>, i: nat, e: Entry)
    requires i < |parts| && e in parts[i]
    ensures e in Joined(parts)
  {
    var init, last := parts[..|parts| - 1], parts[|parts| - 1];
    InConcat(Joined(init), last, e);
    if i < |init| {
      PartIsJoined(init, i, e);
    }
  }

  ghost predicate PartOfChild(allowed: Access, path: string, node: Node, names: seq<string>, parts: seq<seq<Entry>>, i: nat)
    requires WellFormed(node) && i < |parts| && i < |names| && names[i] in node.child
  {
    parts[i] == Entries(allowed, false, ChildPath(path, names[i]), node.child[names[i]])
  }

  /** The listing below an object, cut up by child. */
  lemma {:induction false} ChildParts(allowed: Access, path: string, node: Node, names: seq<string>, n: nat)
      returns (parts: seq<seq<Entry>>)
    requires WellFormed(node) && n <= |names| && forall i :: 0 <= i < |names| ==> names[i] in node.child
    ensures |parts| == n && Joined(parts) == ChildrenEntries(allowed, false, path, node, names, n)
    ensures forall i :: 0 <= i < n ==> PartOfChild(allowed, path, node, names, parts, i)
    decreases n
  {
    parts := [];
    if n > 0 {
      var init := ChildParts(allowed, path, node, names, n - 1);
      parts := init + [Entries(allowed, false, ChildPath(path, names[n - 1]), node.child[names[n - 1]])];
      assert parts[..n - 1] == init && parts[n - 1] == Entries(allowed, false, ChildPath(path, names[n - 1]), node.child[names[n - 1]]);
      forall i | 0 <= i < n
        ensures PartOfChild(allowed, path, node, names, parts, i)
      {
        assert i < n - 1 ==> PartOfChild(allowed, path, node, names, init, i);
      }
    }
  }

  lemma {:induction false} ListedIsReported(allowed: Access, path: string, node: Node, e: Entry) returns (route: seq<string>)
    requires WellFormed(node) && e in Entries(allowed, false, path, node)
    ensures Reports(allowed, path, node, route, e)
    decreases node
  {
    var names := SortedChildren(node);
    OwnListed(allowed, path, node, e);
    if e in OwnEntry(allowed, path, node) + OwnParams(allowed, path, node) {
      route := [];
    } else {
      var parts := ChildParts(allowed, path, node, names, |names|);
      var i := FindPart(parts, e);
      assert PartOfChild(allowed, path, node, names, parts, i);
      var name := names[i];
      route := ListedIsReported(allowed, ChildPath(path, name), node.child[name], e);
      assert ([name] + route)[1..] == route;
      route := [name] + route;
    }
  }

  lemma {:induction false} ReportedIsListed(allowed: Access, path: string, node: Node, route: seq<string>, e: Entry)
    requires WellFormed(node) && Reports(allowed, path, node, route, e)
    ensures e in Entries(allowed, false, path, node)
    decreases |route|
  {
    if route == [] {
      OwnListed(allowed, path, node, e);
    } else {
      var names := SortedChildren(node);
      ReportedIsListed(allowed, ChildPath(path, route[0]), node.child[route[0]], route[1..], e);
      assert route[0] in NameSet(names);
      var i :| 0 <= i < |names| && names[i] == route[0];
      var parts := ChildParts(allowed, path, node, names, |names|);
      assert PartOfChild(allowed, path, node, names, parts, i);
      PartIsJoined(parts, i, e);
    }
  }

  /** The listing holds exactly the objects that can be reached and are allowed, and their allowed parameters. */
  lemma ListedIffReported(allowed: Access, path: string, node: Node, e: Entry)
    requires WellFormed(node)
    ensures e in Entries(allowed, false, path, node) <==> exists route :: Reports(allowed, path, node, route, e)
  {
    if e in Entries(allowed, false, path, node) {
      var route := ListedIsReported(allowed, path, node, e);
    }
    if route :| Reports(allowed, path, node, route, e) {
      ReportedIsListed(allowed, path, node, route, e);
    }
  }

  // ----- Both forms of the request, entry by entry -----

  /** A described child, as the filters fetched for the object above allow it. */
  ghost predicate ChildReport(allowed: Access, path: string, node: Node, name: string, e: Entry) {
    && name in node.child && node.child[name].reply.Described? && allowed.above(ChildPath(path, name))
    && e == Entry(ChildPath(path, name), node.child[name].kind.Template? || node.child[name].kind.Instance?)
  }

  lemma {:induction false} ChildListed(allowed: Access, path: string, node: Node, names: seq<string>, n: nat, e: Entry)
    requires WellFormed(node) && n <= |names| && forall i :: 0 <= i < |names| ==> names[i] in node.child
    ensures e in ChildrenEntries(allowed, true, path, node, names, n) <==>
            exists i :: 0 <= i < n && ChildReport(allowed, path, node, names[i], e)
  {
    if n > 0 {
      ChildListed(allowed, path, node, names, n - 1, e);
      InConcat(ChildrenEntries(allowed, true, path, node, names, n - 1),
               ChildEntry(allowed, ChildPath(path, names[n - 1]), node.child[names[n - 1]]), e);
    }
  }

  lemma OwnParamsListed(allowed: Access, path: string, node: Node, e: Entry)
    requires WellFormed(node)
    ensures e in OwnParams(allowed, path, node) <==>
            allowed.own(path) && !node.kind.Template?
            && exists x :: x in node.params && allowed.own(path + x) && e == Entry(path + x, !node.params[x])
  {
    var names := SortedParams(node);
    ParamListed(allowed, path, node, names, |names|, e);
    forall x | x in node.params
      ensures exists i :: 0 <= i < |names| && names[i] == x
    {
      assert x in NameSet(names);
    }
  }

  /** With NextLevel: the allowed parameters of the object, unless it is a template, and its described children. */
  lemma NextLevelListsIff(allowed: Access, path: string, node: Node, e: Entry)
    requires WellFormed(node)
    ensures e in Entries(allowed, true, path, node) <==>
            node.reply.Described?
            && ((allowed.own(path) && !node.kind.Template?
                 && exists x :: x in node.params && allowed.own(path + x) && e == Entry(path + x, !node.params[x]))
                || exists name :: ChildReport(allowed, path, node, name, e))
  {
    if node.reply.Described? {
      var names := SortedChildren(node);
      NextLevelSplit(allowed, path, node);
      InConcat(OwnParams(allowed, path, node), ChildrenEntries(allowed, true, path, node, names, |names|), e);
      OwnParamsListed(allowed, path, node, e);
      ChildListed(allowed, path, node, names, |names|, e);
      if name :| ChildReport(allowed, path, node, name, e) {
        assert name in NameSet(names);
      }
    }
  }

  lemma {:induction false} ReachedIsBelow(path: string, node: Node, route: seq<string>)
    requires WellFormed(node) && IsObjectPath(path) && Reach(path, node, route).Some?
    ensures var (q, n) := Reach(path, node, route).value;
            path <= q && IsObjectPath(q) && WellFormed(n) && (route != [] ==> ChildPath(path, route[0]) <= q)
    decreases |route|
  {
    if route != [] {
      ReachedIsBelow(ChildPath(path, route[0]), node.child[route[0]], route[1..]);
    }
  }

  /** No two routes lead to one path. */
  lemma {:induction false} RouteIsUnique(path: string, node: Node, a: seq<string>, b: seq<string>)
    requires WellFormed(node) && IsObjectPath(path) && Reach(path, node, a).Some? && Reach(path, node, b).Some?
    requires Reach(path, node, a).value.0 == Reach(path, node, b).value.0
    ensures a == b
    decreases |a|
  {
    ReachedIsBelow(path, node, a);
    ReachedIsBelow(path, node, b);
    if a != [] && b != [] {
      ChildPathsDisjoint(path, a[0], b[0], Reach(path, node, a).value.0);
      RouteIsUnique(ChildPath(path, a[0]), node.child[a[0]], a[1..], b[1..]);
      assert a == [a[0]] + a[1..] && b == [b[0]] + b[1..];
    }
  }

  /** The path of a parameter does not end with a dot, so it is not that of an object. */
  lemma ParamIsNoObject(path: string, name: string)
    requires SimpleName(name)
    ensures !IsObjectPath(path + name)
  {
    assert (path + name)[|path + name| - 1] == name[|name| - 1];
  }

  /**
   * In both forms of the request, the entry of an object says that it is writable, so that
   * instances can be added or deleted there, exactly if it is a template or an instance.
   */
  lemma ObjectWritableIff(allowed: Access, nextLevel: bool, path: string, node: Node, route: seq<string>, e: Entry)
    requires WellFormed(node) && IsObjectPath(path) && Reach(path, node, route).Some?
    requires e in Entries(allowed, nextLevel, path, node) && e.path == Reach(path, node, route).value.0
    ensures var reached := Reach(path, node, route).value.1;
            e.writable <==> reached.kind.Template? || reached.kind.Instance?
  {
    ReachedIsBelow(path, node, route);
    if nextLevel {
      NextLevelListsIff(allowed, path, node, e);
      forall x | x in node.params
        ensures e.path != path + x
      {
        ParamIsNoObject(path, x);
      }
      var name :| ChildReport(allowed, path, node, name, e);
      assert Reach(ChildPath(path, name), node.child[name], []) == Some((e.path, node.child[name]));
      assert [name][1..] == [];
      assert Reach(path, node, [name]) == Some((e.path, node.child[name]));
      RouteIsUnique(path, node, route, [name]);
    } else {
      var place := ListedIsReported(allowed, path, node, e);
      var (q, n) := Reach(path, node, place).value;
      ReachedIsBelow(path, node, place);
      forall x | x in n.params
        ensures e.path != q + x
      {
        ParamIsNoObject(q, x);
      }
      RouteIsUnique(path, node, route, place);
    }
  }
}
