/** What the GetParameterNames walk lists, and how its two forms are related. */
module ParameterNamesProofs {
  import opened Paths
  import opened ParameterNames

  // ----- Next level is the full listing, filtered -----

  function Filter<T>(s: seq<T>, keep: T -> bool): (r: seq<T>) {
    if s == [] then [] else (if keep(s[0]) then [s[0]] else []) + Filter(s[1..], keep)
  }

  lemma {:induction false} FilterConcat<T>(a: seq<T>, b: seq<T>, keep: T -> bool)
    ensures Filter(a + b, keep) == Filter(a, keep) + Filter(b, keep)
  {
    if a == [] {
      assert a + b == b;
    } else {
      assert (a + b)[0] == a[0] && (a + b)[1..] == a[1..] + b;
      FilterConcat(a[1..], b, keep);
      ConcatAssociative(if keep(a[0]) then [a[0]] else [], Filter(a[1..], keep), Filter(b, keep));
    }
  }

  function BelongsTo(path: string): (keep: Entry -> bool) {
    (e: Entry) => Parent(e.path) == path
  }

  /** The entries that belong directly to `path`, in order. */
  function DirectlyUnder(entries: seq<Entry>, path: string): (r: seq<Entry>) {
    Filter(entries, BelongsTo(path))
  }

  lemma DirectlyUnderConcat(a: seq<Entry>, b: seq<Entry>, path: string)
    ensures DirectlyUnder(a + b, path) == DirectlyUnder(a, path) + DirectlyUnder(b, path)
  {
    FilterConcat(a, b, BelongsTo(path));
  }

  lemma FilterBoth(a: seq<Entry>, b: seq<Entry>, a': seq<Entry>, b': seq<Entry>, path: string)
    requires DirectlyUnder(a, path) == a' && DirectlyUnder(b, path) == b'
    ensures DirectlyUnder(a + b, path) == a' + b'
  {
    DirectlyUnderConcat(a, b, path);
  }

  /** Every entry belongs directly to `path`. */
  ghost predicate AllUnder(entries: seq<Entry>, path: string) {
    forall k :: 0 <= k < |entries| ==> Parent(entries[k].path) == path
  }

  /** Every entry belongs to something at or below `path`. */
  ghost predicate AllBelow(entries: seq<Entry>, path: string) {
    forall k :: 0 <= k < |entries| ==> path <= entries[k].path && |Parent(entries[k].path)| >= |path|
  }

  lemma {:induction false} UnderIsKept(entries: seq<Entry>, path: string)
    requires AllUnder(entries, path)
    ensures DirectlyUnder(entries, path) == entries
  {
    if entries != [] {
      UnderIsKept(entries[1..], path);
    }
  }

  lemma {:induction false} DeeperIsDropped(entries: seq<Entry>, path: string, deeper: string)
    requires AllBelow(entries, deeper) && |deeper| > |path|
    ensures DirectlyUnder(entries, path) == []
  {
    if entries != [] {
      DeeperIsDropped(entries[1..], path, deeper);
    }
  }

  lemma {:induction false} ParamsUnder(allowed: Access, path: string, node: Node, names: seq<string>, n: nat)
    requires IsObjectPath(path) && n <= |names|
    requires forall i :: 0 <= i < |names| ==> names[i] in node.params && SimpleName(names[i])
    ensures AllUnder(ParamEntries(allowed, path, node, names, n), path)
    ensures AllBelow(ParamEntries(allowed, path, node, names, n), path)
  {
    if n > 0 {
      ParamsUnder(allowed, path, node, names, n - 1);
      ParentOfParam(path, names[n - 1]);
    }
  }

  lemma OwnParamsUnder(allowed: Access, path: string, node: Node)
    requires WellFormed(node) && IsObjectPath(path)
    ensures AllUnder(OwnParams(allowed, path, node), path)
    ensures AllBelow(OwnParams(allowed, path, node), path)
  {
    ParamsUnder(allowed, path, node, SortedParams(node), |SortedParams(node)|);
  }

  /** What a walk of one object lists: its own entry if it is allowed, and entries below it. */
  function OwnEntry(allowed: Access, path: string, node: Node): (r: seq<Entry>) {
    if allowed.own(path) then [ObjectEntry(path, node)] else []
  }

  ghost function BelowEntries(allowed: Access, path: string, node: Node): (r: seq<Entry>)
    requires WellFormed(node)
  {
    OwnParams(allowed, path, node) + ChildrenEntries(allowed, false, path, node, SortedChildren(node), |SortedChildren(node)|)
  }

  lemma EntriesSplit(allowed: Access, path: string, node: Node)
    requires WellFormed(node) && node.reply.Described?
    ensures Entries(allowed, false, path, node) == OwnEntry(allowed, path, node) + BelowEntries(allowed, path, node)
  {
    ConcatAssociative(OwnEntry(allowed, path, node), OwnParams(allowed, path, node),
                      ChildrenEntries(allowed, false, path, node, SortedChildren(node), |SortedChildren(node)|));
  }

  lemma AllBelowConcat(a: seq<Entry>, b: seq<Entry>, path: string)
    requires AllBelow(a, path) && AllBelow(b, path)
    ensures AllBelow(a + b, path)
  {
  }

  lemma AllBelowWeaken(entries: seq<Entry>, path: string, q: string)
    requires AllBelow(entries, q) && path <= q
    ensures AllBelow(entries, path)
  {
  }

  /** Below the object itself, everything belongs to it or to something further down. */
  lemma {:induction false} BelowIsBelow(allowed: Access, path: string, node: Node)
    requires WellFormed(node) && IsObjectPath(path)
    ensures AllBelow(BelowEntries(allowed, path, node), path)
    decreases node, 1
  {
    OwnParamsUnder(allowed, path, node);
    ChildrenBelow(allowed, path, node, SortedChildren(node), |SortedChildren(node)|);
    AllBelowConcat(OwnParams(allowed, path, node),
                   ChildrenEntries(allowed, false, path, node, SortedChildren(node), |SortedChildren(node)|), path);
  }

  /** Everything that a child contributes belongs to the object above it or to something further down. */
  lemma ChildBelow(allowed: Access, path: string, name: string, c: Node)
    requires WellFormed(c) && IsObjectPath(path) && SimpleName(name)
    requires AllBelow(BelowEntries(allowed, ChildPath(path, name), c), ChildPath(path, name))
    ensures AllBelow(Entries(allowed, false, ChildPath(path, name), c), path)
  {
    if c.reply.Described? {
      var q := ChildPath(path, name);
      EntriesSplit(allowed, q, c);
      AllBelowWeaken(BelowEntries(allowed, q, c), path, q);
      ParentOfChild(path, name);
      AllBelowConcat(OwnEntry(allowed, q, c), BelowEntries(allowed, q, c), path);
    }
  }

  lemma {:induction false} ChildrenBelow(allowed: Access, path: string, node: Node, names: seq<string>, n: nat)
    requires WellFormed(node) && IsObjectPath(path) && n <= |names| && forall i :: 0 <= i < |names| ==> names[i] in node.child
    ensures AllBelow(ChildrenEntries(allowed, false, path, node, names, n), path)
    decreases node, 0, n
  {
    if n > 0 {
      var c, q := node.child[names[n - 1]], ChildPath(path, names[n - 1]);
      assert AllBelow(Entries(allowed, false, q, c), path) by {
        BelowIsBelow(allowed, q, c);
        ChildBelow(allowed, path, names[n - 1], c);
      }
      ChildrenBelow(allowed, path, node, names, n - 1);
      AllBelowConcat(ChildrenEntries(allowed, false, path, node, names, n - 1), Entries(allowed, false, q, c), path);
    }
  }

  /** Below a child, nothing belongs to the object above. */
  lemma BelowChildDropped(allowed: Access, path: string, name: string, c: Node)
    requires WellFormed(c) && IsObjectPath(path) && SimpleName(name)
    ensures DirectlyUnder(BelowEntries(allowed, ChildPath(path, name), c), path) == []
  {
    BelowIsBelow(allowed, ChildPath(path, name), c);
    DeeperIsDropped(BelowEntries(allowed, ChildPath(path, name), c), path, ChildPath(path, name));
  }

  lemma ChildKept(allowed: Access, path: string, name: string, c: Node)
    requires IsObjectPath(path) && SimpleName(name)
    ensures DirectlyUnder(OwnEntry(allowed, ChildPath(path, name), c), path) == OwnEntry(allowed, ChildPath(path, name), c)
  {
    ParentOfChild(path, name);
    UnderIsKept(OwnEntry(allowed, ChildPath(path, name), c), path);
  }

  /** Every path judged by its own filters. */
  function Strict(allowed: Access): (strict: Access) {
    Access(allowed.own, allowed.own)
  }

  /** Of everything at and below one child, only the child itself belongs to the object above. */
  lemma ChildFiltered(allowed: Access, path: string, name: string, c: Node)
    requires WellFormed(c) && IsObjectPath(path) && SimpleName(name)
    ensures DirectlyUnder(Entries(allowed, false, ChildPath(path, name), c), path) == ChildEntry(Strict(allowed), ChildPath(path, name), c)
  {
    if c.reply.Described? {
      var q := ChildPath(path, name);
      EntriesSplit(allowed, q, c);
      ChildKept(allowed, path, name, c);
      BelowChildDropped(allowed, path, name, c);
      FilterBoth(OwnEntry(allowed, q, c), BelowEntries(allowed, q, c), OwnEntry(allowed, q, c), [], path);
    }
  }

  lemma {:induction false} ChildrenFiltered(allowed: Access, path: string, node: Node, names: seq<string>, n: nat)
    requires WellFormed(node) && IsObjectPath(path) && n <= |names| && forall i :: 0 <= i < |names| ==> names[i] in node.child
    ensures DirectlyUnder(ChildrenEntries(allowed, false, path, node, names, n), path) ==
            ChildrenEntries(Strict(allowed), true, path, node, names, n)
  {
    if n > 0 {
      var c, q := node.child[names[n - 1]], ChildPath(path, names[n - 1]);
      ChildrenFiltered(allowed, path, node, names, n - 1);
      ChildFiltered(allowed, path, names[n - 1], c);
      FilterBoth(ChildrenEntries(allowed, false, path, node, names, n - 1), Entries(allowed, false, q, c),
                 ChildrenEntries(Strict(allowed), true, path, node, names, n - 1), ChildEntry(Strict(allowed), q, c), path);
    }
  }

  /** An object never belongs to itself. */
  lemma OwnDropped(allowed: Access, path: string, node: Node)
    requires path != ""
    ensures DirectlyUnder(OwnEntry(allowed, path, node), path) == []
  {
    assert |Parent(path)| < |path|;
    if OwnEntry(allowed, path, node) != [] {
      var own := [ObjectEntry(path, node)];
      assert OwnEntry(allowed, path, node) == own && own[1..] == [] && !BelongsTo(path)(own[0]);
      assert Filter(own[1..], BelongsTo(path)) == [];
    }
  }

  /** The full listing, cut down to what belongs directly to the object asked about, judges the children by their own filters. */
  lemma FilteredListing(allowed: Access, path: string, node: Node)
    requires WellFormed(node) && IsObjectPath(path) && node.reply.Described?
    ensures DirectlyUnder(Entries(allowed, false, path, node), path) ==
            OwnParams(allowed, path, node) + ChildrenEntries(Strict(allowed), true, path, node, SortedChildren(node), |SortedChildren(node)|)
  {
    var own, params := OwnEntry(allowed, path, node), OwnParams(allowed, path, node);
    var names := SortedChildren(node);
    var children, next := ChildrenEntries(allowed, false, path, node, names, |names|), ChildrenEntries(Strict(allowed), true, path, node, names, |names|);
    EntriesSplit(allowed, path, node);
    OwnDropped(allowed, path, node);
    OwnParamsUnder(allowed, path, node);
    UnderIsKept(params, path);
    ChildrenFiltered(allowed, path, node, names, |names|);
    FilterBoth(params, children, params, next, path);
    FilterBoth(own, params + children, [], params + next, path);
  }

  // ----- The filters of the object above -----

  /** For every described child, the filters fetched for the object above say what its own do. */
  ghost predicate FiltersAgree(allowed: Access, path: string, node: Node) {
    forall x :: x in node.child && node.child[x].reply.Described? ==>
      allowed.above(ChildPath(path, x)) == allowed.own(ChildPath(path, x))
  }

  lemma {:induction false} AgreeingChildren(allowed: Access, path: string, node: Node, names: seq<string>, n: nat)
    requires WellFormed(node) && n <= |names| && forall i :: 0 <= i < |names| ==> names[i] in node.child
    requires FiltersAgree(allowed, path, node)
    ensures ChildrenEntries(allowed, true, path, node, names, n) == ChildrenEntries(Strict(allowed), true, path, node, names, n)
  {
    if n > 0 {
      AgreeingChildren(allowed, path, node, names, n - 1);
    }
  }

  ghost predicate HasPath(entries: seq<Entry>, path: string) {
    exists k :: 0 <= k < |entries| && entries[k].path == path
  }

  lemma HasPathConcat(a: seq<Entry>, b: seq<Entry>, path: string)
    ensures HasPath(a + b, path) <==> HasPath(a, path) || HasPath(b, path)
  {
    assert forall k :: 0 <= k < |a| ==> (a + b)[k] == a[k];
    assert forall k :: 0 <= k < |b| ==> (a + b)[|a| + k] == b[k];
  }

  lemma ChildPathInjective(path: string, a: string, b: string)
    requires ChildPath(path, a) == ChildPath(path, b)
    ensures a == b
  {
    var n := |ChildPath(path, a)| - 1;
    assert ChildPath(path, a)[..n] == path + a && ChildPath(path, b)[..n] == path + b;
    assert (path + a)[|path|..] == a && (path + b)[|path|..] == b;
  }

  /** The next level holds a child exactly if the child is described and the filters that are asked allow it. */
  lemma {:induction false} NextLevelHolds(allowed: Access, path: string, node: Node, names: seq<string>, n: nat, x: string)
    requires WellFormed(node) && n <= |names| && forall i :: 0 <= i < |names| ==> names[i] in node.child
    requires x in node.child
    ensures HasPath(ChildrenEntries(allowed, true, path, node, names, n), ChildPath(path, x)) <==>
            x in names[..n] && node.child[x].reply.Described? && allowed.above(ChildPath(path, x))
  {
    if n > 0 {
      var name := names[n - 1];
      var before, here := ChildrenEntries(allowed, true, path, node, names, n - 1), ChildEntry(allowed, ChildPath(path, name), node.child[name]);
      NextLevelHolds(allowed, path, node, names, n - 1, x);
      HasPathConcat(before, here, ChildPath(path, x));
      assert names[..n] == names[..n - 1] + [name];
      HereHolds(allowed, path, name, node.child[name], x);
    }
  }

  lemma HereHolds(allowed: Access, path: string, name: string, c: Node, x: string)
    ensures HasPath(ChildEntry(allowed, ChildPath(path, name), c), ChildPath(path, x)) <==>
            x == name && c.reply.Described? && allowed.above(ChildPath(path, name))
  {
    var here := ChildEntry(allowed, ChildPath(path, name), c);
    if here != [] {
      assert here[0].path == ChildPath(path, name);
      if ChildPath(path, x) == ChildPath(path, name) {
        ChildPathInjective(path, x, name);
      }
    }
  }

  lemma ChildrenAgreeIff(allowed: Access, path: string, node: Node)
    requires WellFormed(node)
    ensures var names := SortedChildren(node);
            ChildrenEntries(allowed, true, path, node, names, |names|) == ChildrenEntries(Strict(allowed), true, path, node, names, |names|)
            <==> FiltersAgree(allowed, path, node)
  {
    var names := SortedChildren(node);
    if FiltersAgree(allowed, path, node) {
      AgreeingChildren(allowed, path, node, names, |names|);
    } else {
      var x :| x in node.child && node.child[x].reply.Described? && allowed.above(ChildPath(path, x)) != allowed.own(ChildPath(path, x));
      assert x in NameSet(names) && names[..|names|] == names;
      NextLevelHolds(allowed, path, node, names, |names|, x);
      NextLevelHolds(Strict(allowed), path, node, names, |names|, x);
    }
  }

  lemma NextLevelSplit(allowed: Access, path: string, node: Node)
    requires WellFormed(node) && node.reply.Described?
    ensures Entries(allowed, true, path, node) ==
            OwnParams(allowed, path, node) + ChildrenEntries(allowed, true, path, node, SortedChildren(node), |SortedChildren(node)|)
  {
  }

  lemma SameTail(a: seq<Entry>, b: seq<Entry>, c: seq<Entry>)
    ensures a + b == a + c <==> b == c
  {
    assert (a + b)[|a|..] == b && (a + c)[|a|..] == c;
  }

  /**
   * NextLevel=true gives exactly the entries of NextLevel=false that belong directly to the object
   * asked about, in the same order, if and only if the filters fetched for that object and those
   * fetched for its children agree about the children.
   */
  lemma NextLevelIsFilteredListing(allowed: Access, path: string, node: Node)
    requires WellFormed(node) && IsObjectPath(path)
    ensures Entries(allowed, true, path, node) == DirectlyUnder(Entries(allowed, false, path, node), path)
            <==> !node.reply.Described? || FiltersAgree(allowed, path, node)
  {
    if node.reply.Described? {
      NextLevelSplit(allowed, path, node);
      FilteredListing(allowed, path, node);
      ChildrenAgreeIff(allowed, path, node);
      SameTail(OwnParams(allowed, path, node),
               ChildrenEntries(allowed, true, path, node, SortedChildren(node), |SortedChildren(node)|),
               ChildrenEntries(Strict(allowed), true, path, node, SortedChildren(node), |SortedChildren(node)|));
    }
  }
}
