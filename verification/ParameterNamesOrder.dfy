/** The order of the listing: pre-order, with parameters and children in ascending order of name. */
module ParameterNamesOrder {
  import opened Common
  import opened Paths
  import opened ParameterNames
  import opened ParameterNamesProofs
  import opened ParameterNamesListing

  /** The place of an entry: the names that lead to its object, and the parameter unless it is the object itself. */
  datatype Place = Place(route: seq<string>, param: Option<string>)

  predicate NameLt(a: string, b: string) {
    a != b && NameLe(a, b)
  }

  /** An object before its parameters, these before everything below it, names in ascending order at every level. */
  predicate Before(a: Place, b: Place)
    decreases |a.route|
  {
    if a.route == [] then
      b.route != [] || (b.param.Some? && (a.param.Some? ==> NameLt(a.param.value, b.param.value)))
    else
      b.route != [] && (NameLt(a.route[0], b.route[0])
                        || (a.route[0] == b.route[0] && Before(a.(route := a.route[1..]), b.(route := b.route[1..]))))
  }

  /** `e` is what there is to report at that place. */
  ghost predicate Marks(allowed: Access, path: string, node: Node, place: Place, e: Entry) {
    var reached := Reach(path, node, place.route);
    && reached.Some?
    && var (q, n) := reached.value;
       && allowed.own(q)
       && match place.param
          case None => e == Entry(q, n.kind.Template? || n.kind.Instance?)
          case Some(x) => !n.kind.Template? && x in n.params && allowed.own(q + x) && e == Entry(q + x, !n.params[x])
  }

  ghost predicate MarksAt(allowed: Access, path: string, node: Node, places: seq<Place>, entries: seq<Entry>, k: nat)
    requires k < |places| == |entries|
  {
    Marks(allowed, path, node, places[k], entries[k])
  }

  ghost predicate AllMarked(allowed: Access, path: string, node: Node, places: seq<Place>, entries: seq<Entry>) {
    |places| == |entries| && forall k :: 0 <= k < |places| ==> MarksAt(allowed, path, node, places, entries, k)
  }

  ghost predicate BeforeAt(places: seq<Place>, i: nat, j: nat)
    requires i < |places| && j < |places|
  {
    Before(places[i], places[j])
  }

  ghost predicate InOrder(places: seq<Place>) {
    forall i, j :: 0 <= i < j < |places| ==> BeforeAt(places, i, j)
  }

  ghost predicate AllBefore(a: seq<Place>, b: seq<Place>) {
    forall i, j :: 0 <= i < |a| && 0 <= j < |b| ==> Before(a[i], b[j])
  }

  lemma JoinOrder(a: seq<Place>, b: seq<Place>)
    requires InOrder(a) && InOrder(b) && AllBefore(a, b)
    ensures InOrder(a + b)
  {
    forall i, j | 0 <= i < j < |a + b|
      ensures BeforeAt(a + b, i, j)
    {
      assert j < |a| ==> BeforeAt(a, i, j);
      assert i >= |a| ==> BeforeAt(b, i - |a|, j - |a|);
    }
  }

  lemma JoinMarks(allowed: Access, path: string, node: Node, a: seq<Place>, b: seq<Place>, x: seq<Entry>, y: seq<Entry>)
    requires AllMarked(allowed, path, node, a, x) && AllMarked(allowed, path, node, b, y)
    ensures AllMarked(allowed, path, node, a + b, x + y)
  {
    forall k | 0 <= k < |a + b|
      ensures MarksAt(allowed, path, node, a + b, x + y, k)
    {
      assert k < |a| ==> MarksAt(allowed, path, node, a, x, k);
      assert k >= |a| ==> MarksAt(allowed, path, node, b, y, k - |a|);
    }
  }

  // ----- The object itself and its parameters -----

  ghost predicate AreParamPlaces(places: seq<Place>, names: seq<string>, n: nat) {
    forall k :: 0 <= k < |places| ==> places[k].route == [] && exists i :: 0 <= i < n && i < |names| && places[k].param == Some(names[i])
  }

  lemma {:induction false} ParamPlaces(allowed: Access, path: string, node: Node, names: seq<string>, n: nat) returns (places: seq<Place>)
    requires node.reply.Described? && allowed.own(path) && !node.kind.Template?
    requires n <= |names| && Ascending(names) && forall i :: 0 <= i < |names| ==> names[i] in node.params
    ensures AllMarked(allowed, path, node, places, ParamEntries(allowed, path, node, names, n))
    ensures InOrder(places) && AreParamPlaces(places, names, n)
  {
    places := [];
    if n > 0 {
      var before := ParamPlaces(allowed, path, node, names, n - 1);
      var name := names[n - 1];
      var here := if allowed.own(path + name) then [Place([], Some(name))] else [];
      assert AllMarked(allowed, path, node, here, ParamEntry(allowed, path, node, name));
      JoinMarks(allowed, path, node, before, here, ParamEntries(allowed, path, node, names, n - 1), ParamEntry(allowed, path, node, name));
      forall k, j | 0 <= k < |before| && 0 <= j < |here|
        ensures Before(before[k], here[j])
      {
        var i :| 0 <= i < n - 1 && before[k].param == Some(names[i]);
        assert Ascends(names, i, n - 1);
      }
      JoinOrder(before, here);
      places := before + here;
    }
  }

  lemma OwnPlaces(allowed: Access, path: string, node: Node) returns (places: seq<Place>)
    requires WellFormed(node) && node.reply.Described?
    ensures AllMarked(allowed, path, node, places, OwnEntry(allowed, path, node) + OwnParams(allowed, path, node))
    ensures InOrder(places) && forall k :: 0 <= k < |places| ==> places[k].route == []
  {
    var own := if allowed.own(path) then [Place([], None)] else [];
    assert AllMarked(allowed, path, node, own, OwnEntry(allowed, path, node));
    var params: seq<Place> := [];
    if allowed.own(path) && !node.kind.Template? {
      SortedNoRepeats(node);
      params := ParamPlaces(allowed, path, node, SortedParams(node), |SortedParams(node)|);
    }
    JoinMarks(allowed, path, node, own, params, OwnEntry(allowed, path, node), OwnParams(allowed, path, node));
    JoinOrder(own, params);
    places := own + params;
  }

  // ----- The children -----

  function Pushed(name: string, places: seq<Place>): (r: seq<Place>)
    ensures |r| == |places| && forall k :: 0 <= k < |r| ==> r[k] == Place([name] + places[k].route, places[k].param)
  {
    seq(|places|, k requires 0 <= k < |places| => Place([name] + places[k].route, places[k].param))
  }

  lemma PushMark(allowed: Access, path: string, node: Node, name: string, place: Place, e: Entry)
    requires node.reply.Described? && name in node.child && Marks(allowed, ChildPath(path, name), node.child[name], place, e)
    ensures Marks(allowed, path, node, Place([name] + place.route, place.param), e)
  {
    assert ([name] + place.route)[1..] == place.route;
  }

  lemma PushOrder(name: string, places: seq<Place>)
    requires InOrder(places)
    ensures InOrder(Pushed(name, places))
  {
    var pushed := Pushed(name, places);
    forall i, j | 0 <= i < j < |pushed|
      ensures BeforeAt(pushed, i, j)
    {
      assert BeforeAt(places, i, j);
      assert pushed[i].route[1..] == places[i].route && pushed[j].route[1..] == places[j].route;
    }
  }

  ghost predicate BelowChild(place: Place, names: seq<string>, n: nat) {
    place.route != [] && exists i :: 0 <= i < n && i < |names| && place.route[0] == names[i]
  }

  ghost predicate BelowChildren(places: seq<Place>, names: seq<string>, n: nat) {
    forall k :: 0 <= k < |places| ==> BelowChild(places[k], names, n)
  }

  lemma EarlierChildrenBefore(before: seq<Place>, here: seq<Place>, names: seq<string>, n: nat)
    requires n < |names| && Ascending(names) && BelowChildren(before, names, n)
    ensures AllBefore(before, Pushed(names[n], here)) && BelowChildren(before + Pushed(names[n], here), names, n + 1)
  {
    var pushed := Pushed(names[n], here);
    forall i, j | 0 <= i < |before| && 0 <= j < |pushed|
      ensures Before(before[i], pushed[j])
    {
      assert BelowChild(before[i], names, n);
      var c :| 0 <= c < n && before[i].route[0] == names[c];
      assert Ascends(names, c, n);
    }
    forall k | 0 <= k < |before + pushed|
      ensures BelowChild((before + pushed)[k], names, n + 1)
    {
      if k < |before| {
        assert BelowChild(before[k], names, n);
      } else {
        assert (before + pushed)[k].route[0] == names[n];
      }
    }
  }

  lemma ChildPlaces(allowed: Access, path: string, node: Node, name: string, inner: seq<Place>, entries: seq<Entry>)
    requires node.reply.Described? && name in node.child
    requires AllMarked(allowed, ChildPath(path, name), node.child[name], inner, entries) && InOrder(inner)
    ensures AllMarked(allowed, path, node, Pushed(name, inner), entries) && InOrder(Pushed(name, inner))
  {
    PushOrder(name, inner);
    forall k | 0 <= k < |inner|
      ensures MarksAt(allowed, path, node, Pushed(name, inner), entries, k)
    {
      assert MarksAt(allowed, ChildPath(path, name), node.child[name], inner, entries, k);
      PushMark(allowed, path, node, name, inner[k], entries[k]);
    }
  }

  lemma {:induction false} ChildrenPlaces(allowed: Access, path: string, node: Node, names: seq<string>, n: nat)
      returns (places: seq<Place>, entries: seq<Entry>)
    requires WellFormed(node) && node.reply.Described? && n <= |names| && Ascending(names)
    requires forall i :: 0 <= i < |names| ==> names[i] in node.child
    ensures entries == ChildrenEntries(allowed, false, path, node, names, n)
    ensures AllMarked(allowed, path, node, places, entries)
    ensures InOrder(places) && BelowChildren(places, names, n)
    decreases node, 0, n
  {
    places, entries := [], [];
    if n > 0 {
      var name := names[n - 1];
      var before, listed := ChildrenPlaces(allowed, path, node, names, n - 1);
      var inner, here := ListedInPreOrder(allowed, ChildPath(path, name), node.child[name]);
      ChildPlaces(allowed, path, node, name, inner, here);
      JoinMarks(allowed, path, node, before, Pushed(name, inner), listed, here);
      EarlierChildrenBefore(before, inner, names, n - 1);
      JoinOrder(before, Pushed(name, inner));
      places, entries := before + Pushed(name, inner), listed + here;
    }
  }

  /**
   * The listing visits its places strictly in pre-order. With ListedIffReported, which says what is
   * listed, this fixes the listing.
   */
  lemma {:induction false} ListedInPreOrder(allowed: Access, path: string, node: Node)
      returns (places: seq<Place>, entries: seq<Entry>)
    requires WellFormed(node)
    ensures entries == Entries(allowed, false, path, node)
    ensures AllMarked(allowed, path, node, places, entries) && InOrder(places)
    decreases node, 1
  {
    places, entries := [], [];
    if node.reply.Described? {
      var names := SortedChildren(node);
      SortedNoRepeats(node);
      var own := OwnPlaces(allowed, path, node);
      var below, listed := ChildrenPlaces(allowed, path, node, names, |names|);
      JoinMarks(allowed, path, node, own, below, OwnEntry(allowed, path, node) + OwnParams(allowed, path, node), listed);
      assert AllBefore(own, below) by {
        assert forall j :: 0 <= j < |below| ==> BelowChild(below[j], names, |names|);
      }
      JoinOrder(own, below);
      places, entries := own + below, OwnEntry(allowed, path, node) + OwnParams(allowed, path, node) + listed;
    }
  }

  // ----- The order is a strict one -----

  lemma {:induction false} BeforeIsIrreflexive(a: Place)
    ensures !Before(a, a)
    decreases |a.route|
  {
    if a.route != [] {
      BeforeIsIrreflexive(a.(route := a.route[1..]));
    }
  }

  lemma {:induction false} BeforeIsTransitive(a: Place, b: Place, c: Place)
    requires Before(a, b) && Before(b, c)
    ensures Before(a, c)
    decreases |a.route|
  {
    if a.route == [] {
      if b.route == [] && c.route == [] && a.param.Some? {
        NameLtTransitive(a.param.value, b.param.value, c.param.value);
      }
    } else if a.route[0] == b.route[0] == c.route[0] {
      BeforeIsTransitive(a.(route := a.route[1..]), b.(route := b.route[1..]), c.(route := c.route[1..]));
    } else if a.route[0] != b.route[0] && b.route[0] != c.route[0] {
      NameLtTransitive(a.route[0], b.route[0], c.route[0]);
    }
  }

  lemma NameLtTransitive(a: string, b: string, c: string)
    requires NameLt(a, b) && NameLt(b, c)
    ensures NameLt(a, c)
  {
    NameLeTransitive(a, b, c);
    NameLeTotal(a, b);
    NameLeTotal(b, c);
  }
}
