/**
 * When the verdict of a GetParameterNames walk can be trusted. The walk keeps the result of the
 * last child only, so of all the descriptions it asks for it reports on a single one.
 */
module ParameterNamesVerdict {
  import opened ParameterNames
  import opened ParameterNamesListing

  /** Some description asked for on the walk fails. */
  ghost predicate SomeFails(node: Node)
    decreases node
  {
    match node.reply
    case Failing => true
    case Skipped => false
    case Described => exists x :: x in node.child && SomeFails(node.child[x])
  }

  /** The child that is last in order. */
  ghost function LastChild(node: Node): (name: string)
    requires WellFormed(node) && SortedChildren(node) != []
    ensures name in node.child && forall x :: x in node.child ==> NameLe(x, name)
  {
    SortedNoRepeats(node);
    var names := SortedChildren(node);
    LastIsGreatest(node, names);
    names[|names| - 1]
  }

  lemma LastIsGreatest(node: Node, names: seq<string>)
    requires names != [] && Ascending(names) && NameSet(names) == node.child.Keys
    ensures forall x :: x in node.child ==> NameLe(x, names[|names| - 1])
  {
    forall x | x in node.child
      ensures NameLe(x, names[|names| - 1])
    {
      assert x in NameSet(names);
      var i :| 0 <= i < |names| && names[i] == x;
      NameLeTotal(x, x);
      assert i < |names| - 1 ==> Ascends(names, i, |names| - 1);
    }
  }

  /** Where the walk ends up by always taking the last child. */
  ghost function LastMet(node: Node): (last: Node)
    requires WellFormed(node)
    decreases node
  {
    if node.reply.Described? && SortedChildren(node) != [] then LastMet(node.child[LastChild(node)]) else node
  }

  /** The walk reports an error exactly if the one description at the end of the chain of last children fails. */
  lemma {:induction false} WalkFailsIff(node: Node)
    requires WellFormed(node)
    ensures WalkFails(node) <==> LastMet(node).reply.Failing?
    decreases node
  {
    if node.reply.Described? && SortedChildren(node) != [] {
      WalkFailsIff(node.child[LastChild(node)]);
    }
  }

  /** A failure beside the chain of last children: below an earlier child of an object on it. */
  ghost predicate FailsBeside(node: Node)
    requires WellFormed(node)
    decreases node
  {
    && node.reply.Described? && SortedChildren(node) != []
    && ((exists x :: x in node.child && x != LastChild(node) && SomeFails(node.child[x]))
        || FailsBeside(node.child[LastChild(node)]))
  }

  lemma ChildIsSorted(node: Node)
    requires WellFormed(node)
    ensures SortedChildren(node) == [] ==> forall x :: x !in node.child
  {
    assert SortedChildren(node) == [] ==> NameSet(SortedChildren(node)) == {};
  }

  lemma {:induction false} FailuresSplit(node: Node)
    requires WellFormed(node)
    ensures SomeFails(node) <==> WalkFails(node) || FailsBeside(node)
    decreases node
  {
    ChildIsSorted(node);
    if node.reply.Described? && SortedChildren(node) != [] {
      var last := LastChild(node);
      FailuresSplit(node.child[last]);
      assert SomeFails(node.child[last]) ==> SomeFails(node);
    }
  }

  /** An error reported is real; a real one is lost exactly if it lies beside the chain of last children and the end of that chain is sound. */
  lemma FailureIsLostIff(node: Node)
    requires WellFormed(node)
    ensures WalkFails(node) ==> SomeFails(node)
    ensures SomeFails(node) && !WalkFails(node) <==> FailsBeside(node) && !LastMet(node).reply.Failing?
  {
    FailuresSplit(node);
    WalkFailsIff(node);
  }

  // ----- Trees for which the verdict is right whatever the bus answers -----

  /** The same tree, up to what describing its objects yields. */
  ghost predicate SameTree(a: Node, b: Node)
    decreases a
  {
    && a.kind == b.kind && a.paramNames == b.paramNames && a.params == b.params
    && a.childNames == b.childNames && a.child.Keys == b.child.Keys
    && forall x {:trigger a.child[x]} :: x in a.child ==> SameTree(a.child[x], b.child[x])
  }

  /** No object has more than one child. */
  ghost predicate IsChain(node: Node)
    decreases node
  {
    |node.childNames| <= 1 && forall x :: x in node.child ==> IsChain(node.child[x])
  }

  lemma {:induction false} SameTreeReflexive(node: Node)
    ensures SameTree(node, node)
    decreases node
  {
    forall x | x in node.child
      ensures SameTree(node.child[x], node.child[x])
    {
      SameTreeReflexive(node.child[x]);
    }
  }

  lemma {:induction false} SameTreeWellFormed(a: Node, b: Node)
    requires WellFormed(a) && SameTree(a, b)
    ensures WellFormed(b) && (IsChain(a) ==> IsChain(b))
    decreases a
  {
    forall x | x in b.child
      ensures WellFormed(b.child[x]) && (IsChain(a) ==> IsChain(b.child[x]))
    {
      assert x in a.child && SameTree(a.child[x], b.child[x]);
      SameTreeWellFormed(a.child[x], b.child[x]);
    }
  }

  lemma {:induction false} ChainVerdict(node: Node)
    requires WellFormed(node) && IsChain(node)
    ensures !FailsBeside(node)
    decreases node
  {
    if node.reply.Described? && SortedChildren(node) != [] {
      var last := LastChild(node);
      ChainVerdict(node.child[last]);
      forall x | x in node.child
        ensures x == last
      {
        assert x in NameSet(node.childNames) && last in NameSet(node.childNames);
      }
    }
  }

  lemma SameTreeReplied(node: Node, reply: Reply)
    ensures SameTree(node, node.(reply := reply))
  {
    forall x | x in node.child
      ensures SameTree(node.child[x], node.child[x])
    {
      SameTreeReflexive(node.child[x]);
    }
  }

  /** The last child is skipped and every other one fails. */
  ghost function OthersFail(node: Node): (tree: Node)
    requires WellFormed(node) && SortedChildren(node) != []
  {
    var last := LastChild(node);
    node.(reply := Described,
          child := map x | x in node.child :: node.child[x].(reply := if x == last then Skipped else Failing))
  }

  lemma OthersFailSameTree(node: Node)
    requires WellFormed(node) && SortedChildren(node) != []
    ensures SameTree(node, OthersFail(node))
  {
    var tree := OthersFail(node);
    forall x | x in node.child
      ensures SameTree(node.child[x], tree.child[x])
    {
      SameTreeReplied(node.child[x], tree.child[x].reply);
    }
  }

  lemma LastSkippedSucceeds(tree: Node)
    requires WellFormed(tree) && tree.reply.Described? && SortedChildren(tree) != []
    requires tree.child[LastChild(tree)].reply.Skipped?
    ensures !WalkFails(tree)
  {
  }

  lemma SameNamesSameLast(a: Node, b: Node)
    requires WellFormed(a) && WellFormed(b) && a.childNames == b.childNames && SortedChildren(a) != []
    ensures SortedChildren(b) != [] && LastChild(a) == LastChild(b)
  {
  }

  lemma OthersFailUnseen(node: Node, other: string)
    requires WellFormed(node) && SortedChildren(node) != [] && other in node.child && other != LastChild(node)
    requires WellFormed(OthersFail(node))
    ensures SomeFails(OthersFail(node)) && !WalkFails(OthersFail(node))
  {
    var tree := OthersFail(node);
    SameNamesSameLast(node, tree);
    LastSkippedSucceeds(tree);
    assert SomeFails(tree.child[other]);
  }

  lemma OnlyChildDecides(tree: Node, name: string)
    requires WellFormed(tree) && tree.reply.Described? && tree.child.Keys == {name}
    ensures WalkFails(tree) <==> WalkFails(tree.child[name])
    ensures SomeFails(tree) <==> SomeFails(tree.child[name])
  {
    ChildIsSorted(tree);
    assert name in tree.child;
    assert LastChild(tree) in tree.child.Keys;
  }

  /** The same object, described, above another only child. */
  function Above(node: Node, name: string, below: Node): (tree: Node) {
    node.(reply := Described, child := map[name := below])
  }

  lemma AboveSameTree(node: Node, name: string, below: Node)
    requires node.child.Keys == {name} && SameTree(node.child[name], below)
    ensures SameTree(node, Above(node, name, below))
  {
    assert forall x :: x in node.child <==> x == name;
  }

  lemma ChildrenOfNames(node: Node)
    requires WellFormed(node)
    ensures |node.childNames| > 1 ==> node.childNames[0] in node.child && node.childNames[1] in node.child && node.childNames[0] != node.childNames[1]
    ensures |node.childNames| == 1 ==> node.child.Keys == {node.childNames[0]}
    ensures |node.childNames| == 0 ==> node.child.Keys == {}
  {
    assert forall i :: 0 <= i < |node.childNames| ==> node.childNames[i] in NameSet(node.childNames);
    assert |node.childNames| > 1 ==> Differ(node.childNames, 0, 1);
  }

  /** Wherever a tree branches, there are replies with which a failure is lost. */
  lemma {:induction false} BranchLosesFailure(node: Node) returns (tree: Node)
    requires WellFormed(node) && !IsChain(node)
    ensures SameTree(node, tree) && WellFormed(tree) && SomeFails(tree) && !WalkFails(tree)
    decreases node
  {
    ChildIsSorted(node);
    ChildrenOfNames(node);
    if |node.childNames| > 1 {
      var other := if node.childNames[0] == LastChild(node) then node.childNames[1] else node.childNames[0];
      tree := OthersFail(node);
      OthersFailSameTree(node);
      SameTreeWellFormed(node, tree);
      OthersFailUnseen(node, other);
    } else {
      var name :| name in node.child && !IsChain(node.child[name]);
      var below := BranchLosesFailure(node.child[name]);
      tree := Above(node, name, below);
      AboveSameTree(node, name, below);
      SameTreeWellFormed(node, tree);
      OnlyChildDecides(tree, name);
    }
  }

  /** Success can be trusted, whatever describing the objects yields, exactly if no object of the tree has two children. */
  lemma SuccessIsTruthfulIff(node: Node)
    requires WellFormed(node)
    ensures (forall tree :: SameTree(node, tree) && WellFormed(tree) && SomeFails(tree) ==> WalkFails(tree)) <==> IsChain(node)
  {
    if IsChain(node) {
      forall tree | SameTree(node, tree) && WellFormed(tree) && SomeFails(tree)
        ensures WalkFails(tree)
      {
        SameTreeWellFormed(node, tree);
        ChainVerdict(tree);
        FailuresSplit(tree);
      }
    } else {
      var tree := BranchLosesFailure(node);
    }
  }

  // ----- The next level -----

  /** Some description asked for with NextLevel fails. */
  ghost predicate SomeNextFails(node: Node) {
    node.reply.Failing? || (node.reply.Described? && exists x :: x in node.child && node.child[x].reply.Failing?)
  }

  ghost function ChildrenFail(node: Node): (tree: Node) {
    node.(reply := Described, child := map x | x in node.child :: node.child[x].(reply := Failing))
  }

  lemma ChildrenFailSameTree(node: Node)
    ensures SameTree(node, ChildrenFail(node))
  {
    forall x | x in node.child
      ensures SameTree(node.child[x], ChildrenFail(node).child[x])
    {
      SameTreeReplied(node.child[x], Failing);
    }
  }

  lemma LeafLosesNothing(node: Node, tree: Node)
    requires WellFormed(node) && node.childNames == [] && SameTree(node, tree) && SomeNextFails(tree)
    ensures tree.reply.Failing?
  {
    ChildrenOfNames(node);
  }

  lemma ChildrenFailUnseen(node: Node)
    requires WellFormed(node) && node.childNames != []
    ensures SomeNextFails(ChildrenFail(node)) && !ChildrenFail(node).reply.Failing?
  {
    var x := node.childNames[0];
    assert x in NameSet(node.childNames);
    assert ChildrenFail(node).child[x].reply.Failing?;
  }

  /** With NextLevel, success can be trusted whatever describing the objects yields exactly if the object asked about has no children. */
  lemma NextLevelSuccessIsTruthfulIff(node: Node)
    requires WellFormed(node)
    ensures (forall tree :: SameTree(node, tree) && WellFormed(tree) && SomeNextFails(tree) ==> ObjectFails(true, tree)) <==>
            node.childNames == []
  {
    if node.childNames == [] {
      forall tree | SameTree(node, tree) && WellFormed(tree) && SomeNextFails(tree)
        ensures ObjectFails(true, tree)
      {
        LeafLosesNothing(node, tree);
      }
    } else {
      ChildrenFailSameTree(node);
      SameTreeWellFormed(node, ChildrenFail(node));
      ChildrenFailUnseen(node);
    }
  }

  // ----- A failing description that goes unnoticed -----

  /** The error of an earlier child is overwritten: the walk succeeds although a description failed on the way. */
  lemma FailureOfEarlierChildIsLost()
    ensures var broken := Node(Singleton, Failing, [], map[], [], map[]);
            var sound := Node(Singleton, Described, [], map[], [], map[]);
            var root := Node(Singleton, Described, [], map[], ["B", "A"], map["A" := broken, "B" := sound]);
            WellFormed(root) && WalkFails(root.child["A"]) && !WalkFails(root)
  {
    var broken := Node(Singleton, Failing, [], map[], [], map[]);
    var sound := Node(Singleton, Described, [], map[], [], map[]);
    var root := Node(Singleton, Described, [], map[], ["B", "A"], map["A" := broken, "B" := sound]);
    assert NameSet(["B", "A"]) == {"A", "B"} == root.child.Keys;
    assert NameLe("A", "B") && Ascends(["A", "B"], 0, 1) && Differ(["B", "A"], 0, 1);
    assert NameSet(["A", "B"]) == NameSet(["B", "A"]);
    SortIsUnique(SortedChildren(root), ["A", "B"]);
    SortIsUnique(SortedChildren(sound), []);
  }
}
