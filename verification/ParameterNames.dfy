/**
 * GetParameterNames: the walk over the object tree (DM_AmxParameterNames.c), index addressing.
 *
 * The bus describes an object by listing its parameters and children in any order; the walk
 * sorts both before it reports them. Access rules are an oracle on paths.
 */
module ParameterNames {
  import opened Common
  import opened Paths

  datatype Kind = Singleton | Template | Instance

  /** What describing an object yields: a description, an object to skip, or an error. */
  datatype Reply = Described | Skipped | Failing

  /** `params` maps a parameter name to whether it is read-only. */
  datatype Node = Node(
    kind: Kind,
    reply: Reply,
    paramNames: seq<string>,
    params: map<string, bool>,
    childNames: seq<string>,
    child: map<string, Node>)

  datatype Entry = Entry(path: string, writable: bool)

  /**
   * The access rules: what the filters fetched for a path say about that path, and what those
   * fetched for the object asked about say about an object below it.
   */
  datatype Access = Access(own: string -> bool, above: string -> bool)

  // ----- Names in strcmp order -----

  predicate NameLe(a: string, b: string) {
    a == [] || (b != [] && (a[0] < b[0] || (a[0] == b[0] && NameLe(a[1..], b[1..]))))
  }

  lemma {:induction false} NameLeTotal(a: string, b: string)
    ensures NameLe(a, b) || NameLe(b, a)
    ensures NameLe(a, b) && NameLe(b, a) ==> a == b
  {
    if a != [] && b != [] && a[0] == b[0] {
      NameLeTotal(a[1..], b[1..]);
      assert a == [a[0]] + a[1..] && b == [b[0]] + b[1..];
    }
  }

  lemma {:induction false} NameLeTransitive(a: string, b: string, c: string)
    requires NameLe(a, b) && NameLe(b, c)
    ensures NameLe(a, c)
  {
    if a != [] && a[0] == b[0] == c[0] {
      NameLeTransitive(a[1..], b[1..], c[1..]);
    }
  }

  /** The order is that of strcmp: a proper beginning comes first, and otherwise the first character that differs decides. */
  lemma {:induction false} NameLeIff(a: string, b: string)
    ensures NameLe(a, b) <==> a <= b || exists k :: 0 <= k < |a| && k < |b| && a[..k] == b[..k] && a[k] < b[k]
  {
    if a != [] && b != [] && a[0] == b[0] {
      var x, y := a[1..], b[1..];
      NameLeIff(x, y);
      if k :| 0 <= k < |x| && k < |y| && x[..k] == y[..k] && x[k] < y[k] {
        assert a[..k + 1] == [a[0]] + x[..k] && b[..k + 1] == [b[0]] + y[..k];
        assert a[k + 1] < b[k + 1];
      }
      if k :| 0 <= k < |a| && k < |b| && a[..k] == b[..k] && a[k] < b[k] {
        assert k > 0 && x[k - 1] < y[k - 1];
        assert x[..k - 1] == a[..k][1..] && y[..k - 1] == b[..k][1..];
      }
      assert a == [a[0]] + x && b == [b[0]] + y;
    } else if a != [] && b != [] {
      assert a[..0] == b[..0];
    }
  }

  function Insert(name: string, sorted: seq<string>): (r: seq<string>) {
    if sorted == [] || NameLe(name, sorted[0]) then [name] + sorted
    else [sorted[0]] + Insert(name, sorted[1..])
  }

  /** The order of amxc_llist_sort with strcmp, and of sorted hash-table keys. */
  function SortNames(names: seq<string>): (r: seq<string>) {
    if names == [] then [] else Insert(names[0], SortNames(names[1..]))
  }

  function NameSet(names: seq<string>): (r: set<string>) {
    set x | x in names
  }

  ghost predicate Ascends(names: seq<string>, i: nat, j: nat)
    requires i < |names| && j < |names|
  {
    NameLe(names[i], names[j]) && names[i] != names[j]
  }

  ghost predicate Ascending(names: seq<string>) {
    forall i, j :: 0 <= i < j < |names| ==> Ascends(names, i, j)
  }

  ghost predicate Differ(names: seq<string>, i: nat, j: nat)
    requires i < |names| && j < |names|
  {
    names[i] != names[j]
  }

  ghost predicate NoRepeats(names: seq<string>) {
    forall i, j :: 0 <= i < j < |names| ==> Differ(names, i, j)
  }

  /** A name before all others, put in front. */
  lemma PrependKeeps(name: string, sorted: seq<string>)
    requires Ascending(sorted) && forall j :: 0 <= j < |sorted| ==> NameLe(name, sorted[j]) && name != sorted[j]
    ensures Ascending([name] + sorted)
  {
    var all := [name] + sorted;
    forall i, j | 0 <= i < j < |all|
      ensures Ascends(all, i, j)
    {
      assert i > 0 ==> Ascends(sorted, i - 1, j - 1);
    }
  }

  lemma TailAscends(sorted: seq<string>)
    requires Ascending(sorted) && sorted != []
    ensures Ascending(sorted[1..]) && forall j :: 1 <= j < |sorted| ==> NameLe(sorted[0], sorted[j]) && sorted[0] != sorted[j]
  {
    forall i, j | 0 <= i < j < |sorted[1..]|
      ensures Ascends(sorted[1..], i, j)
    {
      assert Ascends(sorted, i + 1, j + 1);
    }
    forall j | 1 <= j < |sorted|
      ensures NameLe(sorted[0], sorted[j]) && sorted[0] != sorted[j]
    {
      assert Ascends(sorted, 0, j);
    }
  }

  lemma {:induction false} InsertKeeps(name: string, sorted: seq<string>)
    requires Ascending(sorted) && name !in sorted
    ensures Ascending(Insert(name, sorted))
    ensures forall x :: x in Insert(name, sorted) <==> x == name || x in sorted
    ensures |Insert(name, sorted)| == |sorted| + 1
  {
    if sorted == [] || NameLe(name, sorted[0]) {
      forall j | 0 <= j < |sorted|
        ensures NameLe(name, sorted[j])
      {
        if j > 0 {
          TailAscends(sorted);
          NameLeTransitive(name, sorted[0], sorted[j]);
        }
      }
      PrependKeeps(name, sorted);
    } else {
      TailAscends(sorted);
      InsertKeeps(name, sorted[1..]);
      NameLeTotal(name, sorted[0]);
      var rest := Insert(name, sorted[1..]);
      forall j | 0 <= j < |rest|
        ensures NameLe(sorted[0], rest[j]) && sorted[0] != rest[j]
      {
        assert rest[j] in rest;
        assert rest[j] == name || rest[j] in sorted[1..];
      }
      PrependKeeps(sorted[0], rest);
    }
  }

  lemma TailRepeatsNot(names: seq<string>)
    requires NoRepeats(names) && names != []
    ensures NoRepeats(names[1..]) && names[0] !in names[1..]
  {
    forall i, j | 0 <= i < j < |names[1..]|
      ensures Differ(names[1..], i, j)
    {
      assert Differ(names, i + 1, j + 1);
    }
    assert forall j :: 0 <= j < |names[1..]| ==> Differ(names, 0, j + 1) && names[1..][j] == names[j + 1];
  }

  /** Sorting keeps exactly the names given, each once, in strictly ascending order. */
  lemma {:induction false} SortedNames(names: seq<string>)
    requires NoRepeats(names)
    ensures Ascending(SortNames(names))
    ensures forall x :: x in SortNames(names) <==> x in names
    ensures NameSet(SortNames(names)) == NameSet(names)
    ensures |SortNames(names)| == |names|
  {
    if names != [] {
      TailRepeatsNot(names);
      SortedNames(names[1..]);
      InsertKeeps(names[0], SortNames(names[1..]));
    }
  }

  lemma AscendingDiffer(names: seq<string>)
    requires Ascending(names)
    ensures NoRepeats(names)
  {
    forall i, j | 0 <= i < j < |names|
      ensures Differ(names, i, j)
    {
      assert Ascends(names, i, j);
    }
  }

  // ----- Well-formed trees -----

  ghost predicate WellFormed(node: Node)
    decreases node
  {
    && NoRepeats(node.paramNames) && NoRepeats(node.childNames)
    && NameSet(node.paramNames) == node.params.Keys && NameSet(node.childNames) == node.child.Keys
    && (forall x :: x in node.params ==> SimpleName(x))
    && (forall x :: x in node.child ==> SimpleName(x))
    && (forall x {:trigger WellFormed(node.child[x])} :: x in node.child ==> WellFormed(node.child[x]))
  }

  // ----- The listings, as sequences -----

  /** `names` is `given` in ascending order. */
  ghost predicate SortOf(names: seq<string>, given: seq<string>) {
    Ascending(names) && NameSet(names) == NameSet(given)
  }

  lemma SomeName(names: seq<string>)
    requires names != []
    ensures NameSet(names) != {}
  {
    assert names[0] in NameSet(names);
  }

  /** There is only one way to sort. */
  lemma {:induction false} SortIsUnique(a: seq<string>, b: seq<string>)
    requires Ascending(a) && Ascending(b) && NameSet(a) == NameSet(b)
    ensures a == b
  {
    if a == [] {
      if b != [] {
        SomeName(b);
      }
    } else {
      assert a[0] in NameSet(b) && a[0] in NameSet(a);
      SameHead(a, b);
      TailAscends(a);
      TailAscends(b);
      assert NameSet(a[1..]) == NameSet(a) - {a[0]} && NameSet(b[1..]) == NameSet(b) - {b[0]};
      SortIsUnique(a[1..], b[1..]);
      assert a == [a[0]] + a[1..] && b == [b[0]] + b[1..];
    }
  }

  lemma SameHead(a: seq<string>, b: seq<string>)
    requires Ascending(a) && Ascending(b) && NameSet(a) == NameSet(b) && a != []
    ensures b != [] && a[0] == b[0]
  {
    assert a[0] in NameSet(b);
    var i :| 0 <= i < |b| && b[i] == a[0];
    assert b[0] in NameSet(a);
    var j :| 0 <= j < |a| && a[j] == b[0];
    assert (i > 0 ==> Ascends(b, 0, i)) && (j > 0 ==> Ascends(a, 0, j));
    NameLeTotal(a[0], b[0]);
  }

  /** The names of a description in the order in which the walk goes through them. */
  ghost function Sorted(given: seq<string>): (names: seq<string>)
    requires NoRepeats(given)
    ensures SortOf(names, given)
  {
    SortedNames(given);
    assert SortOf(SortNames(given), given);
    var names :| SortOf(names, given);
    names
  }

  lemma SortNamesIsSorted(given: seq<string>)
    requires NoRepeats(given)
    ensures SortNames(given) == Sorted(given)
  {
    SortedNames(given);
    SortIsUnique(SortNames(given), Sorted(given));
  }

  ghost function SortedParams(node: Node): (names: seq<string>)
    requires WellFormed(node)
    ensures NameSet(names) == node.params.Keys && forall i :: 0 <= i < |names| ==> names[i] in node.params
  {
    var names := Sorted(node.paramNames);
    assert forall i :: 0 <= i < |names| ==> names[i] in NameSet(names);
    names
  }

  ghost function SortedChildren(node: Node): (names: seq<string>)
    requires WellFormed(node)
    ensures NameSet(names) == node.child.Keys && forall i :: 0 <= i < |names| ==> names[i] in node.child
  {
    var names := Sorted(node.childNames);
    assert forall i :: 0 <= i < |names| ==> names[i] in NameSet(names);
    names
  }

  function ParamEntry(allowed: Access, path: string, node: Node, name: string): (r: seq<Entry>)
    requires name in node.params
  {
    if allowed.own(path + name) then [Entry(path + name, !node.params[name])] else []
  }

  /** The parameters among the first `n` names. */
  function ParamEntries(allowed: Access, path: string, node: Node, names: seq<string>, n: nat): (r: seq<Entry>)
    requires n <= |names| && forall i :: 0 <= i < |names| ==> names[i] in node.params
  {
    if n == 0 then [] else ParamEntries(allowed, path, node, names, n - 1) + ParamEntry(allowed, path, node, names[n - 1])
  }

  function ObjectEntry(path: string, node: Node): (r: Entry) {
    Entry(path, !node.kind.Singleton?)
  }

  /** The parameters of an object; a template reports none. */
  ghost function OwnParams(allowed: Access, path: string, node: Node): (r: seq<Entry>)
    requires WellFormed(node)
  {
    if !allowed.own(path) || node.kind.Template? then []
    else ParamEntries(allowed, path, node, SortedParams(node), |SortedParams(node)|)
  }

  /** The object itself if asked for, then its parameters; nothing if the object is not allowed. */
  ghost function OwnEntries(allowed: Access, path: string, node: Node, includeObject: bool): (r: seq<Entry>)
    requires WellFormed(node)
  {
    (if allowed.own(path) && includeObject then [ObjectEntry(path, node)] else []) + OwnParams(allowed, path, node)
  }

  /** The single entry of an object one level down. */
  function ChildEntry(allowed: Access, path: string, node: Node): (r: seq<Entry>) {
    if node.reply.Described? && allowed.above(path) then [ObjectEntry(path, node)] else []
  }

  /**
   * With `nextLevel`, the parameters of `path` and the objects directly below it; without, the
   * object itself, its parameters and everything below it, in pre-order.
   */
  ghost function Entries(allowed: Access, nextLevel: bool, path: string, node: Node): (r: seq<Entry>)
    requires WellFormed(node)
    decreases node
  {
    if !node.reply.Described? then []
    else OwnEntries(allowed, path, node, !nextLevel) +
         ChildrenEntries(allowed, nextLevel, path, node, SortedChildren(node), |SortedChildren(node)|)
  }

  /** What the first `n` children contribute. */
  ghost function ChildrenEntries(allowed: Access, nextLevel: bool, path: string, node: Node, names: seq<string>, n: nat): (r: seq<Entry>)
    requires WellFormed(node) && n <= |names| && forall i :: 0 <= i < |names| ==> names[i] in node.child
    decreases node, n
  {
    if n == 0 then []
    else
      var c, q := node.child[names[n - 1]], ChildPath(path, names[n - 1]);
      ChildrenEntries(allowed, nextLevel, path, node, names, n - 1) +
      if nextLevel then ChildEntry(allowed, q, c) else Entries(allowed, false, q, c)
  }

  lemma ConcatAssociative<T>(a: seq<T>, b: seq<T>, c: seq<T>)
    ensures a + (b + c) == (a + b) + c
  {
  }

  lemma NextParam(allowed: Access, path: string, node: Node, names: seq<string>, n: nat, before: seq<Entry>)
    requires n < |names| && forall i :: 0 <= i < |names| ==> names[i] in node.params
    ensures before + ParamEntries(allowed, path, node, names, n + 1) ==
            (before + ParamEntries(allowed, path, node, names, n)) + ParamEntry(allowed, path, node, names[n])
  {
    ConcatAssociative(before, ParamEntries(allowed, path, node, names, n), ParamEntry(allowed, path, node, names[n]));
  }

  lemma NextChild(allowed: Access, nextLevel: bool, path: string, node: Node, names: seq<string>, n: nat, before: seq<Entry>)
    requires WellFormed(node) && n < |names| && forall i :: 0 <= i < |names| ==> names[i] in node.child
    ensures var c, q := node.child[names[n]], ChildPath(path, names[n]);
            before + ChildrenEntries(allowed, nextLevel, path, node, names, n + 1) ==
            (before + ChildrenEntries(allowed, nextLevel, path, node, names, n)) +
            if nextLevel then ChildEntry(allowed, q, c) else Entries(allowed, false, q, c)
  {
    var c, q := node.child[names[n]], ChildPath(path, names[n]);
    ConcatAssociative(before, ChildrenEntries(allowed, nextLevel, path, node, names, n),
                      if nextLevel then ChildEntry(allowed, q, c) else Entries(allowed, false, q, c));
  }

  // ----- The walk, appending to the caller's list -----

  /** Whether a walk ends with an error: each child overwrites the result of the one before. */
  ghost predicate WalkFails(node: Node)
    requires WellFormed(node)
    decreases node
  {
    match node.reply
    case Failing => true
    case Skipped => false
    case Described =>
      var names := SortedChildren(node);
      names != [] && WalkFails(node.child[names[|names| - 1]])
  }

  ghost predicate ObjectFails(nextLevel: bool, node: Node)
    requires WellFormed(node)
  {
    if nextLevel then node.reply.Failing? else WalkFails(node)
  }

  /** An object that a requested path resolves to. */
  datatype Found = Found(path: string, node: Node)

  /** Object `k` can be walked without error, and `listings[k]` is what it contributes. */
  ghost predicate ListedAt(allowed: Access, nextLevel: bool, objects: seq<Found>, listings: seq<seq<Entry>>, k: nat)
    requires k < |objects| && k < |listings|
  {
    && WellFormed(objects[k].node) && !ObjectFails(nextLevel, objects[k].node)
    && listings[k] == Entries(allowed, nextLevel, objects[k].path, objects[k].node)
  }

  function Joined(listings: seq<seq<Entry>>): (entries: seq<Entry>) {
    if listings == [] then [] else Joined(listings[..|listings| - 1]) + listings[|listings| - 1]
  }

  lemma EntriesParts(allowed: Access, nextLevel: bool, path: string, node: Node, before: seq<Entry>)
    requires WellFormed(node) && node.reply.Described?
    ensures before + Entries(allowed, nextLevel, path, node) ==
            (before + OwnEntries(allowed, path, node, !nextLevel)) +
            ChildrenEntries(allowed, nextLevel, path, node, SortedChildren(node), |SortedChildren(node)|)
  {
    ConcatAssociative(before, OwnEntries(allowed, path, node, !nextLevel),
                      ChildrenEntries(allowed, nextLevel, path, node, SortedChildren(node), |SortedChildren(node)|));
  }

  method SortByName(given: seq<string>) returns (names: seq<string>)
    requires NoRepeats(given)
    ensures names == Sorted(given)
  {
    SortNamesIsSorted(given);
    names := SortNames(given);
  }

  class InfoList {
    var entries: seq<Entry>

    method GetParameter(allowed: Access, path: string, name: string, readOnly: bool)
      modifies this
      ensures entries == old(entries) + if allowed.own(path + name) then [Entry(path + name, !readOnly)] else []
    {
      var paramPath := path + name;
      if !allowed.own(paramPath) {
        return;
      }
      entries := entries + [Entry(paramPath, !readOnly)];
    }

    method GetParameters(allowed: Access, path: string, includeObject: bool, node: Node)
      requires WellFormed(node)
      modifies this
      ensures entries == old(entries) + OwnEntries(allowed, path, node, includeObject)
    {
      if !allowed.own(path) {
        return;
      }
      ConcatAssociative(entries, if includeObject then [ObjectEntry(path, node)] else [], OwnParams(allowed, path, node));
      if includeObject {
        entries := entries + [Entry(path, node.kind.Template? || node.kind.Instance?)];
      }
      if node.kind.Template? {
        return;
      }
      var keys := SortByName(node.paramNames);
      ghost var before := entries;
      for i := 0 to |keys|
        invariant entries == before + ParamEntries(allowed, path, node, keys, i)
      {
        NextParam(allowed, path, node, keys, i, before);
        GetParameter(allowed, path, keys[i], node.params[keys[i]]);
      }
    }

    /** One object directly below the one asked about. */
    method GetChild(allowed: Access, path: string, node: Node)
      modifies this
      ensures entries == old(entries) + ChildEntry(allowed, path, node)
    {
      if node.reply.Described? && allowed.above(path) {
        entries := entries + [Entry(path, node.kind.Template? || node.kind.Instance?)];
      }
    }

    method GetNames(allowed: Access, nextLevel: bool, path: string, node: Node) returns (failed: bool)
      requires WellFormed(node)
      modifies this
      ensures entries == old(entries) + Entries(allowed, nextLevel, path, node)
      ensures failed <==> ObjectFails(nextLevel, node)
      decreases node, 1
    {
      failed := false;
      if !node.reply.Described? {
        failed := node.reply.Failing?;
        return;
      }
      GetParameters(allowed, path, !nextLevel, node);
      var names := SortByName(node.childNames);
      EntriesParts(allowed, nextLevel, path, node, old(entries));
      failed := GetChildren(allowed, nextLevel, path, node, names);
    }

    /** The loop over the sorted children. */
    method GetChildren(allowed: Access, nextLevel: bool, path: string, node: Node, names: seq<string>) returns (failed: bool)
      requires WellFormed(node) && forall i :: 0 <= i < |names| ==> names[i] in node.child
      modifies this
      ensures entries == old(entries) + ChildrenEntries(allowed, nextLevel, path, node, names, |names|)
      ensures failed <==> !nextLevel && names != [] && WalkFails(node.child[names[|names| - 1]])
      decreases node, 0
    {
      failed := false;
      ghost var before := entries;
      for i := 0 to |names|
        invariant entries == before + ChildrenEntries(allowed, nextLevel, path, node, names, i)
        invariant failed <==> !nextLevel && i > 0 && WalkFails(node.child[names[i - 1]])
      {
        var childPath := path + names[i] + ".";
        var childNode := node.child[names[i]];
        NextChild(allowed, nextLevel, path, node, names, i, before);
        if nextLevel {
          GetChild(allowed, childPath, childNode);
        } else {
          failed := GetNames(allowed, false, childPath, childNode);
        }
      }
    }

    /** One object of a request; what it adds is returned as well. */
    method WalkObject(allowed: Access, nextLevel: bool, found: Found) returns (failed: bool, ghost listing: seq<Entry>)
      requires WellFormed(found.node)
      modifies this
      ensures failed <==> ObjectFails(nextLevel, found.node)
      ensures listing == Entries(allowed, nextLevel, found.path, found.node)
      ensures entries == old(entries) + listing
    {
      listing := Entries(allowed, nextLevel, found.path, found.node);
      failed := GetNames(allowed, nextLevel, found.path, found.node);
    }

    /**
     * The answer to the RPC for a partial path: the objects it resolves to, one after the other until
     * one fails. An error, or a path that is not valid or does not resolve, empties the list.
     */
    method PartialPath(allowed: Access, nextLevel: bool, valid: bool, objects: Option<seq<Found>>)
        returns (failed: bool, ghost listings: seq<seq<Entry>>)
      requires entries == [] && (objects.Some? ==> forall k :: 0 <= k < |objects.value| ==> WellFormed(objects.value[k].node))
      modifies this
      ensures !valid || objects.None? ==> failed
      ensures valid && objects.Some? ==>
                && |listings| <= |objects.value|
                && (forall k :: 0 <= k < |listings| ==> ListedAt(allowed, nextLevel, objects.value, listings, k))
                && (failed <==> |listings| < |objects.value|)
                && (failed ==> ObjectFails(nextLevel, objects.value[|listings|].node))
      ensures entries == if failed then [] else Joined(listings)
    {
      failed, listings := true, [];
      if valid && objects.Some? {
        failed, listings := WalkObjects(allowed, nextLevel, objects.value);
      }
      if failed {
        entries := [];
      }
    }

    method WalkObjects(allowed: Access, nextLevel: bool, objects: seq<Found>) returns (failed: bool, ghost listings: seq<seq<Entry>>)
      requires entries == [] && forall k :: 0 <= k < |objects| ==> WellFormed(objects[k].node)
      modifies this
      ensures |listings| <= |objects|
      ensures forall k :: 0 <= k < |listings| ==> ListedAt(allowed, nextLevel, objects, listings, k)
      ensures failed <==> |listings| < |objects|
      ensures failed ==> ObjectFails(nextLevel, objects[|listings|].node)
      ensures !failed ==> entries == Joined(listings)
    {
      listings := [];
      for i := 0 to |objects|
        invariant |listings| == i && entries == Joined(listings)
        invariant forall k :: 0 <= k < i ==> ListedAt(allowed, nextLevel, objects, listings, k)
      {
        ghost var listing;
        failed, listing := WalkObject(allowed, nextLevel, objects[i]);
        if failed {
          return;
        }
        NextListing(allowed, nextLevel, objects, listings, listing);
        listings := listings + [listing];
      }
      failed := false;
    }
  }

  lemma NextListing(allowed: Access, nextLevel: bool, objects: seq<Found>, listings: seq<seq<Entry>>, listing: seq<Entry>)
    requires |listings| < |objects| && WellFormed(objects[|listings|].node) && !ObjectFails(nextLevel, objects[|listings|].node)
    requires listing == Entries(allowed, nextLevel, objects[|listings|].path, objects[|listings|].node)
    requires forall k :: 0 <= k < |listings| ==> ListedAt(allowed, nextLevel, objects, listings, k)
    ensures forall k :: 0 <= k <= |listings| ==> ListedAt(allowed, nextLevel, objects, listings + [listing], k)
    ensures Joined(listings + [listing]) == Joined(listings) + listing
  {
    var more := listings + [listing];
    forall k | 0 <= k <= |listings|
      ensures ListedAt(allowed, nextLevel, objects, more, k)
    {
      assert k < |listings| ==> ListedAt(allowed, nextLevel, objects, listings, k) && more[k] == listings[k];
    }
    assert more[..|more| - 1] == listings;
  }
}
