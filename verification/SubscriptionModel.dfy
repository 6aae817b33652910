/** Value-change subscriptions: one bus subscription per object, shared by any number of subscribers (DM_AmxCommon.c). */
module SubscriptionModel {
  import opened Common
  import opened Paths

  /** One subscriber: the parameter it watches (or the object itself) and the id it was given. */
  datatype Info = Info(parameter: string, id: int)
  datatype Entry = Entry(objectPath: string, infos: seq<Info>)

  /** The list, and what the bus has been asked to deliver. */
  datatype State = State(entries: seq<Entry>, live: multiset<string>)

  /** `id` is the hash of path and filter; `busOk` is how the bus answers, if it is asked. */
  datatype Call = Add(path: string, id: int, busOk: bool) | Delete(id: int, busOk: bool)

  const ROOT: string := "."

  /** The object part of a path, closed by a dot even when it is empty. */
  function Terminated(path: string): (r: string) {
    if ObjectPath(path) == "" then ROOT else ObjectPath(path)
  }

  function Watched(path: string): (r: string) {
    if IsObjectPath(path) then path else ParamName(path)
  }

  function ObjectPaths(entries: seq<Entry>): (paths: seq<string>)
    ensures |paths| == |entries| && forall k :: 0 <= k < |paths| ==> paths[k] == entries[k].objectPath
  {
    seq(|entries|, k requires 0 <= k < |entries| => entries[k].objectPath)
  }

  function FindPath(entries: seq<Entry>, objectPath: string): (n: nat)
    ensures n <= |entries| && (n < |entries| ==> entries[n].objectPath == objectPath)
    ensures forall k :: 0 <= k < n ==> entries[k].objectPath != objectPath
  {
    Position(ObjectPaths(entries), objectPath)
  }

  lemma FindPathUnique(entries: seq<Entry>, objectPath: string, n: nat)
    requires n <= |entries| && (n < |entries| ==> entries[n].objectPath == objectPath)
    requires forall k :: 0 <= k < n ==> entries[k].objectPath != objectPath
    ensures FindPath(entries, objectPath) == n
  {
    PositionUnique(ObjectPaths(entries), objectPath, n);
  }

  predicate HasId(infos: seq<Info>, id: int) {
    exists k :: 0 <= k < |infos| && infos[k].id == id
  }

  function IdAt(infos: seq<Info>, id: int): (n: nat)
    ensures n <= |infos| && (n < |infos| ==> infos[n].id == id)
    ensures forall k :: 0 <= k < n ==> infos[k].id != id
    ensures n < |infos| <==> HasId(infos, id)
  {
    if infos == [] || infos[0].id == id then 0 else 1 + IdAt(infos[1..], id)
  }

  function FindId(entries: seq<Entry>, id: int): (n: nat)
    ensures n <= |entries| && (n < |entries| ==> HasId(entries[n].infos, id))
    ensures forall k :: 0 <= k < n ==> !HasId(entries[k].infos, id)
  {
    if entries == [] || HasId(entries[0].infos, id) then 0 else 1 + FindId(entries[1..], id)
  }

  lemma {:induction false} FindIdUnique(entries: seq<Entry>, id: int, n: nat)
    requires n <= |entries| && (n < |entries| ==> HasId(entries[n].infos, id))
    requires forall k :: 0 <= k < n ==> !HasId(entries[k].infos, id)
    ensures FindId(entries, id) == n
  {
  }

  /** The id is forgotten before the bus is asked, so a refused unsubscribe leaves an object nobody watches. */
  function Released(infos: seq<Info>, id: int): (r: seq<Info>)
    requires HasId(infos, id)
  {
    Without(infos, IdAt(infos, id))
  }

  function Succeeds(s: State, call: Call): (r: bool) {
    match call
    case Add(path, id, busOk) =>
      Terminated(path) != ROOT && (FindPath(s.entries, Terminated(path)) < |s.entries| || busOk)
    case Delete(id, busOk) =>
      var n := FindId(s.entries, id);
      n < |s.entries| && (Released(s.entries[n].infos, id) != [] || busOk)
  }

  function Step(s: State, call: Call): (s': State) {
    match call
    case Add(path, id, busOk) =>
      var target := Terminated(path);
      var n := FindPath(s.entries, target);
      var info := Info(Watched(path), id);
      if !Succeeds(s, call) then s
      else if n < |s.entries| then s.(entries := s.entries[n := Entry(target, s.entries[n].infos + [info])])
      else State(s.entries + [Entry(target, [info])], s.live + multiset{target})
    case Delete(id, busOk) =>
      var n := FindId(s.entries, id);
      if n == |s.entries| then s
      else
        var entry := s.entries[n];
        var infos := Released(entry.infos, id);
        if infos == [] && busOk then State(Without(s.entries, n), s.live - multiset{entry.objectPath})
        else s.(entries := s.entries[n := Entry(entry.objectPath, infos)])
  }

  function Run(s: State, calls: seq<Call>): (s': State)
    decreases |calls|
  {
    if calls == [] then s else Run(Step(s, calls[0]), calls[1..])
  }

  // ----- The bus and the list -----

  ghost predicate Listed(entries: seq<Entry>) {
    && (forall i, j :: 0 <= i < j < |entries| ==> entries[i].objectPath != entries[j].objectPath)
    && forall i :: 0 <= i < |entries| ==> entries[i].objectPath != ROOT
  }

  /** Every object is listed once, never the root, and the bus delivers exactly the listed objects. */
  ghost predicate Inv(s: State) {
    Listed(s.entries) && s.live == multiset(ObjectPaths(s.entries))
  }

  lemma UpdateKeepsListed(entries: seq<Entry>, n: nat, entry: Entry)
    requires Listed(entries) && n < |entries| && entry.objectPath == entries[n].objectPath
    ensures Listed(entries[n := entry]) && ObjectPaths(entries[n := entry]) == ObjectPaths(entries)
  {
  }

  lemma AppendKeepsListed(entries: seq<Entry>, entry: Entry)
    requires Listed(entries) && entry.objectPath != ROOT && forall k :: 0 <= k < |entries| ==> entries[k].objectPath != entry.objectPath
    ensures Listed(entries + [entry]) && ObjectPaths(entries + [entry]) == ObjectPaths(entries) + [entry.objectPath]
  {
  }

  lemma WithoutKeepsListed(entries: seq<Entry>, n: nat)
    requires Listed(entries) && n < |entries|
    ensures Listed(Without(entries, n))
  {
    var rest := Without(entries, n);
    assert forall k :: 0 <= k < |rest| ==> rest[k] == entries[if k < n then k else k + 1];
  }

  lemma WithoutPaths(entries: seq<Entry>, n: nat)
    requires n < |entries|
    ensures multiset(ObjectPaths(Without(entries, n))) == multiset(ObjectPaths(entries)) - multiset{entries[n].objectPath}
  {
    var paths := ObjectPaths(entries);
    assert ObjectPaths(Without(entries, n)) == paths[..n] + paths[n + 1..];
    assert paths == paths[..n] + [paths[n]] + paths[n + 1..];
  }

  lemma StepKeepsInv(s: State, call: Call)
    requires Inv(s)
    ensures Inv(Step(s, call))
  {
    match call {
      case Add(path, id, busOk) =>
        var target, info := Terminated(path), Info(Watched(path), id);
        var n := FindPath(s.entries, target);
        if !Succeeds(s, call) {
        } else if n < |s.entries| {
          UpdateKeepsListed(s.entries, n, Entry(target, s.entries[n].infos + [info]));
        } else {
          AppendKeepsListed(s.entries, Entry(target, [info]));
        }
      case Delete(id, busOk) =>
        var n := FindId(s.entries, id);
        if n < |s.entries| {
          WithoutKeepsListed(s.entries, n);
          WithoutPaths(s.entries, n);
          UpdateKeepsListed(s.entries, n, Entry(s.entries[n].objectPath, Released(s.entries[n].infos, id)));
        }
    }
  }

  /** However the bus answers, over every run it delivers exactly the listed objects, each once. */
  lemma {:induction false} RunKeepsInv(s: State, calls: seq<Call>)
    requires Inv(s)
    ensures Inv(Run(s, calls))
    decreases |calls|
  {
    if calls != [] {
      StepKeepsInv(s, calls[0]);
      RunKeepsInv(Step(s, calls[0]), calls[1..]);
    }
  }

  // ----- What a call does, spelled out -----

  lemma PathIsTaken(owner: string, param: string)
    requires owner != "" && owner[|owner| - 1] == '.' && '.' !in param
    ensures Terminated(owner + param) == owner && Watched(owner + param) == if param == "" then owner + param else param
  {
    ObjectOfExtension(owner, param);
    assert (owner + param)[|owner|..] == param;
    if param != "" {
      assert (owner + param)[|owner + param| - 1] == param[|param| - 1];
    }
  }

  /**
   * A path is taken apart behind its last dot. A watched object gets one more watcher, of the
   * parameter or, if there is none, of the object; another one is subscribed on the bus, if the
   * bus agrees, and listed with this watcher.
   */
  lemma AddDecides(s: State, owner: string, param: string, id: int, busOk: bool)
    requires Listed(s.entries) && owner != "" && owner != "." && owner[|owner| - 1] == '.' && '.' !in param
    ensures var call := Add(owner + param, id, busOk);
            var s', info := Step(s, call), Info(if param == "" then owner else param, id);
            && (forall n :: 0 <= n < |s.entries| && s.entries[n].objectPath == owner ==>
                  Succeeds(s, call) && s' == s.(entries := s.entries[n := Entry(owner, s.entries[n].infos + [info])]))
            && ((forall n :: 0 <= n < |s.entries| ==> s.entries[n].objectPath != owner) ==>
                  && (Succeeds(s, call) <==> busOk)
                  && s' == if busOk then State(s.entries + [Entry(owner, [info])], s.live + multiset{owner}) else s)
  {
    PathIsTaken(owner, param);
    assert owner + "" == owner;
  }

  lemma {:induction false} NoDotNoObject(path: string)
    requires '.' !in path
    ensures ObjectPath(path) == ""
  {
    if path != "" {
      NoDotNoObject(path[..|path| - 1]);
    }
  }

  /** A path without an object, or right below the root, is refused. */
  lemma RootIsRefused(s: State, param: string, id: int, busOk: bool)
    requires '.' !in param
    ensures !Succeeds(s, Add(param, id, busOk)) && Step(s, Add(param, id, busOk)) == s
    ensures !Succeeds(s, Add("." + param, id, busOk)) && Step(s, Add("." + param, id, busOk)) == s
  {
    PathIsTaken(".", param);
    NoDotNoObject(param);
  }

  lemma FirstWatcher(infos: seq<Info>, id: int, k: nat)
    requires k < |infos| && infos[k].id == id && forall j :: 0 <= j < k ==> infos[j].id != id
    ensures HasId(infos, id) && Released(infos, id) == infos[..k] + infos[k + 1..]
  {
    assert IdAt(infos, id) == k;
  }

  /**
   * A deletion takes the first watcher with the id off the first object that has one. If the
   * object has none left, the bus subscription is ended and the object unlisted, unless the bus
   * refuses: then the call fails, and the object stays listed without watchers.
   */
  lemma DeleteDecides(s: State, id: int, busOk: bool, p: nat, k: nat)
    requires p < |s.entries| && k < |s.entries[p].infos| && s.entries[p].infos[k].id == id
    requires forall j :: 0 <= j < k ==> s.entries[p].infos[j].id != id
    requires forall i, j :: 0 <= i < p && 0 <= j < |s.entries[i].infos| ==> s.entries[i].infos[j].id != id
    ensures var call, entry := Delete(id, busOk), s.entries[p];
            var s', rest := Step(s, call), entry.infos[..k] + entry.infos[k + 1..];
            && (Succeeds(s, call) <==> rest != [] || busOk)
            && s' == if rest == [] && busOk then State(s.entries[..p] + s.entries[p + 1..], s.live - multiset{entry.objectPath})
                     else s.(entries := s.entries[p := Entry(entry.objectPath, rest)])
  {
    FirstWatcher(s.entries[p].infos, id, k);
    FindIdUnique(s.entries, id, p);
  }

  /** Deleting an id that nobody holds fails and changes nothing. */
  lemma UnknownIdIsRefused(s: State, id: int, busOk: bool)
    requires forall i, j :: 0 <= i < |s.entries| && 0 <= j < |s.entries[i].infos| ==> s.entries[i].infos[j].id != id
    ensures !Succeeds(s, Delete(id, busOk)) && Step(s, Delete(id, busOk)) == s
  {
    FindIdUnique(s.entries, id, |s.entries|);
  }

  // ----- Counting subscribers -----

  function Count(infos: seq<Info>, id: int): (r: nat) {
    if infos == [] then 0 else (if infos[0].id == id then 1 else 0) + Count(infos[1..], id)
  }

  function Held(entries: seq<Entry>, id: int): (r: nat) {
    if entries == [] then 0 else Count(entries[0].infos, id) + Held(entries[1..], id)
  }

  lemma {:induction false} CountConcat(a: seq<Info>, b: seq<Info>, id: int)
    ensures Count(a + b, id) == Count(a, id) + Count(b, id)
  {
    if a == [] {
      assert a + b == b;
    } else {
      assert (a + b)[1..] == a[1..] + b;
      CountConcat(a[1..], b, id);
    }
  }

  lemma CountReleased(infos: seq<Info>, id: int, other: int)
    requires HasId(infos, id)
    ensures Count(infos, other) == Count(Released(infos, id), other) + if other == id then 1 else 0
  {
    var n := IdAt(infos, id);
    assert infos == infos[..n] + ([infos[n]] + infos[n + 1..]);
    CountConcat(infos[..n], [infos[n]] + infos[n + 1..], other);
    CountConcat([infos[n]], infos[n + 1..], other);
    CountConcat(infos[..n], infos[n + 1..], other);
  }

  lemma {:induction false} HeldConcat(a: seq<Entry>, b: seq<Entry>, id: int)
    ensures Held(a + b, id) == Held(a, id) + Held(b, id)
  {
    if a == [] {
      assert a + b == b;
    } else {
      assert (a + b)[1..] == a[1..] + b;
      HeldConcat(a[1..], b, id);
    }
  }

  lemma HeldSplit(a: seq<Entry>, entry: Entry, b: seq<Entry>, id: int)
    ensures Held(a + [entry] + b, id) == Held(a + b, id) + Count(entry.infos, id)
  {
    HeldConcat(a + [entry], b, id);
    HeldConcat(a, [entry], id);
    HeldConcat(a, b, id);
  }

  lemma HeldUpdate(entries: seq<Entry>, n: nat, entry: Entry, id: int)
    requires n < |entries|
    ensures Held(entries[n := entry], id) + Count(entries[n].infos, id) == Held(entries, id) + Count(entry.infos, id)
    ensures Held(entries, id) == Held(Without(entries, n), id) + Count(entries[n].infos, id)
  {
    assert entries == entries[..n] + [entries[n]] + entries[n + 1..];
    assert entries[n := entry] == entries[..n] + [entry] + entries[n + 1..];
    HeldSplit(entries[..n], entries[n], entries[n + 1..], id);
    HeldSplit(entries[..n], entry, entries[n + 1..], id);
  }

  lemma {:induction false} HeldIffFound(entries: seq<Entry>, id: int)
    ensures Held(entries, id) > 0 <==> FindId(entries, id) < |entries|
  {
    if entries != [] {
      CountIffHas(entries[0].infos, id);
      HeldIffFound(entries[1..], id);
    }
  }

  lemma {:induction false} CountIffHas(infos: seq<Info>, id: int)
    ensures Count(infos, id) > 0 <==> HasId(infos, id)
  {
    if infos != [] {
      CountIffHas(infos[1..], id);
      assert HasId(infos, id) <==> IdAt(infos, id) < |infos|;
      assert HasId(infos[1..], id) <==> IdAt(infos[1..], id) < |infos[1..]|;
    }
  }

  function Bit(b: bool): (r: int) {
    if b then 1 else 0
  }

  /** What one call does to the number of subscribers that hold an id. */
  lemma StepHeld(s: State, call: Call, id: int)
    ensures Held(Step(s, call).entries, id) == Held(s.entries, id)
            + Bit(call.Add? && call.id == id && Succeeds(s, call)) - Bit(call.Delete? && call.id == id && Held(s.entries, id) > 0)
  {
    HeldIffFound(s.entries, id);
    match call {
      case Add(path, i, busOk) =>
        var n, info := FindPath(s.entries, Terminated(path)), Info(Watched(path), i);
        if !Succeeds(s, call) {
        } else if n < |s.entries| {
          HeldUpdate(s.entries, n, Entry(Terminated(path), s.entries[n].infos + [info]), id);
          CountConcat(s.entries[n].infos, [info], id);
        } else {
          HeldConcat(s.entries, [Entry(Terminated(path), [info])], id);
          assert Count([info], id) == Bit(i == id);
        }
      case Delete(i, busOk) =>
        var n := FindId(s.entries, i);
        if n < |s.entries| {
          var infos := Released(s.entries[n].infos, i);
          HeldUpdate(s.entries, n, Entry(s.entries[n].objectPath, infos), id);
          CountReleased(s.entries[n].infos, i, id);
        }
    }
  }

  /** How many calls of a run answer `Succeeds` as asked: additions of the id, or deletions of it. */
  function Answered(s: State, calls: seq<Call>, id: int, adding: bool): (r: nat)
    decreases |calls|
  {
    if calls == [] then
      0
    else
      Bit(calls[0].Add? == adding && calls[0].id == id && Succeeds(s, calls[0]))
      + Answered(Step(s, calls[0]), calls[1..], id, adding)
  }

  /** Deletions that report an error although the id was held. */
  function Broken(s: State, calls: seq<Call>, id: int): (r: nat)
    decreases |calls|
  {
    if calls == [] then
      0
    else
      Bit(calls[0].Delete? && calls[0].id == id && Held(s.entries, id) > 0 && !Succeeds(s, calls[0]))
      + Broken(Step(s, calls[0]), calls[1..], id)
  }

  /** Over every run the holders of an id are its additions less its deletions, those that reported an error for an id still held included. */
  lemma {:induction false} HeldIsAddsMinusDeletes(s: State, calls: seq<Call>, id: int)
    ensures Held(Run(s, calls).entries, id) ==
            Held(s.entries, id) + Answered(s, calls, id, true) - Answered(s, calls, id, false) - Broken(s, calls, id)
    decreases |calls|
  {
    if calls != [] {
      StepHeld(s, calls[0], id);
      HeldIffFound(s.entries, id);
      HeldIsAddsMinusDeletes(Step(s, calls[0]), calls[1..], id);
    }
  }

  ghost predicate AllWatched(s: State) {
    forall i :: 0 <= i < |s.entries| ==> s.entries[i].infos != []
  }

  /** The one call that leaves an object subscribed to and watched by nobody: the bus refuses to unsubscribe its last watcher. */
  predicate Strands(s: State, call: Call) {
    call.Delete? && !call.busOk && var n := FindId(s.entries, call.id);
    n < |s.entries| && |s.entries[n].infos| == 1
  }

  lemma AllWatchedIff(s: State, call: Call)
    requires AllWatched(s)
    ensures AllWatched(Step(s, call)) <==> !Strands(s, call)
    ensures Strands(s, call) <==> call.Delete? && Held(s.entries, call.id) > 0 && !Succeeds(s, call)
  {
    var entries' := Step(s, call).entries;
    HeldIffFound(s.entries, call.id);
    if call.Delete? && FindId(s.entries, call.id) < |s.entries| {
      var n := FindId(s.entries, call.id);
      var infos := Released(s.entries[n].infos, call.id);
      if infos == [] && call.busOk {
        assert forall k :: 0 <= k < |entries'| ==> entries'[k] == s.entries[if k < n then k else k + 1];
      } else {
        assert entries'[n].infos == infos;
      }
    }
  }

  /** As long as the bus unsubscribes, every listed object is watched and no deletion of a held id fails. */
  lemma {:induction false} WatchedWhileBusObeys(s: State, calls: seq<Call>, id: int)
    requires AllWatched(s)
    requires forall k :: 0 <= k < |calls| && calls[k].Delete? ==> calls[k].busOk
    ensures AllWatched(Run(s, calls)) && Broken(s, calls, id) == 0
    decreases |calls|
  {
    if calls != [] {
      AllWatchedIff(s, calls[0]);
      assert forall k :: 0 <= k < |calls[1..]| ==> calls[1..][k] == calls[k + 1];
      WatchedWhileBusObeys(Step(s, calls[0]), calls[1..], id);
    }
  }

  /** A stranded object is subscribed to for good: nothing but a new subscriber for it ever touches it again. */
  lemma {:induction false} StrandedStays(s: State, calls: seq<Call>, objectPath: string)
    requires Inv(s) && Entry(objectPath, []) in s.entries
    requires forall k :: 0 <= k < |calls| && calls[k].Add? ==> Terminated(calls[k].path) != objectPath
    ensures Entry(objectPath, []) in Run(s, calls).entries && Run(s, calls).live[objectPath] == 1
    decreases |calls|
  {
    if calls == [] {
      LiveOnce(s, objectPath);
    } else {
      StrandedStep(s, calls[0], objectPath);
      StepKeepsInv(s, calls[0]);
      assert forall k :: 0 <= k < |calls[1..]| ==> calls[1..][k] == calls[k + 1];
      StrandedStays(Step(s, calls[0]), calls[1..], objectPath);
    }
  }

  lemma WithoutKeepsOthers(entries: seq<Entry>, n: nat, i: nat)
    requires n < |entries| && i < |entries| && i != n
    ensures entries[i] in Without(entries, n)
  {
    assert Without(entries, n)[if i < n then i else i - 1] == entries[i];
  }

  lemma StrandedStep(s: State, call: Call, objectPath: string)
    requires Entry(objectPath, []) in s.entries
    requires call.Add? ==> Terminated(call.path) != objectPath
    ensures Entry(objectPath, []) in Step(s, call).entries
  {
    var i :| 0 <= i < |s.entries| && s.entries[i] == Entry(objectPath, []);
    match call {
      case Add(path, id, busOk) =>
        assert Step(s, call).entries[i] == s.entries[i];
      case Delete(id, busOk) =>
        var n := FindId(s.entries, id);
        if n < |s.entries| && Released(s.entries[n].infos, id) == [] && busOk {
          WithoutKeepsOthers(s.entries, n, i);
        } else {
          assert Step(s, call).entries[i] == s.entries[i];
        }
    }
  }

  lemma LiveOnce(s: State, objectPath: string)
    requires Inv(s) && Entry(objectPath, []) in s.entries
    ensures s.live[objectPath] == 1
  {
    var n :| 0 <= n < |s.entries| && s.entries[n] == Entry(objectPath, []);
    var paths := ObjectPaths(s.entries);
    assert paths == paths[..n] + [objectPath] + paths[n + 1..];
    assert objectPath !in paths[..n] && objectPath !in paths[n + 1..];
  }

  /** It takes one subscriber and one refusal of the bus. */
  lemma StrandingHappens(path: string, id: int)
    requires Terminated(path) != ROOT
    ensures Run(State([], multiset{}), [Add(path, id, true), Delete(id, false)]) ==
            State([Entry(Terminated(path), [])], multiset{Terminated(path)})
  {
    var calls := [Add(path, id, true), Delete(id, false)];
    var s := State([], multiset{});
    var s1 := State([Entry(Terminated(path), [Info(Watched(path), id)])], multiset{Terminated(path)});
    assert Step(s, calls[0]) == s1;
    assert s1.entries[0].infos[0].id == id;
    assert Released(s1.entries[0].infos, id) == [];
    assert calls[1..][0] == calls[1] && calls[1..][1..] == [];
    assert Run(s, calls) == Run(s1, calls[1..]) == Run(Step(s1, calls[1]), calls[1..][1..]);
  }

  // ----- Whose subscription a deletion ends -----

  /** Ids are told apart by object: `home` gives the object an id was made for. */
  ghost predicate EntryAtHome(entry: Entry, home: map<int, string>) {
    forall k :: 0 <= k < |entry.infos| ==> entry.infos[k].id in home && home[entry.infos[k].id] == entry.objectPath
  }

  ghost predicate AtHome(s: State, home: map<int, string>) {
    forall i :: 0 <= i < |s.entries| ==> EntryAtHome(s.entries[i], home)
  }

  ghost predicate Respects(call: Call, home: map<int, string>) {
    call.Add? ==> call.id in home && home[call.id] == Terminated(call.path)
  }

  lemma ReleasedAtHome(entry: Entry, id: int, home: map<int, string>)
    requires EntryAtHome(entry, home) && HasId(entry.infos, id)
    ensures EntryAtHome(Entry(entry.objectPath, Released(entry.infos, id)), home)
  {
    var m, infos := IdAt(entry.infos, id), Released(entry.infos, id);
    assert forall k :: 0 <= k < |infos| ==> infos[k] == entry.infos[if k < m then k else k + 1];
  }

  lemma StepKeepsHome(s: State, call: Call, home: map<int, string>)
    requires AtHome(s, home) && Respects(call, home)
    ensures AtHome(Step(s, call), home)
  {
    if call.Delete? && FindId(s.entries, call.id) < |s.entries| {
      var n := FindId(s.entries, call.id);
      ReleasedAtHome(s.entries[n], call.id, home);
      var rest := Without(s.entries, n);
      assert forall k :: 0 <= k < |rest| ==> rest[k] == s.entries[if k < n then k else k + 1];
    }
  }

  /** When no two objects share an id, a deletion over any run reaches the object that the id was made for, and no other. */
  lemma {:induction false} DeleteReachesHome(s: State, calls: seq<Call>, id: int, home: map<int, string>)
    requires AtHome(s, home) && forall k :: 0 <= k < |calls| ==> Respects(calls[k], home)
    ensures var entries := Run(s, calls).entries; var n := FindId(entries, id);
            n < |entries| ==> id in home && entries[n].objectPath == home[id]
    decreases |calls|
  {
    if calls == [] {
      var n := FindId(s.entries, id);
      if n < |s.entries| {
        assert EntryAtHome(s.entries[n], home);
      }
    } else {
      StepKeepsHome(s, calls[0], home);
      assert forall k :: 0 <= k < |calls[1..]| ==> calls[1..][k] == calls[k + 1];
      DeleteReachesHome(Step(s, calls[0]), calls[1..], id, home);
    }
  }

  /** The subscribers of an object. */
  function Watchers(entries: seq<Entry>, objectPath: string): (infos: seq<Info>) {
    var n := FindPath(entries, objectPath);
    if n < |entries| then entries[n].infos else []
  }

  ghost predicate HeldEarlier(entries: seq<Entry>, id: int, p: nat)
    requires p <= |entries|
  {
    exists k :: 0 <= k < p && HasId(entries[k].infos, id)
  }

  lemma DeleteReachesIff(s: State, id: int, p: nat)
    requires p < |s.entries| && HasId(s.entries[p].infos, id)
    ensures FindId(s.entries, id) == p <==> !HeldEarlier(s.entries, id, p)
  {
    if !HeldEarlier(s.entries, id, p) {
      FindIdUnique(s.entries, id, p);
    }
  }

  lemma WatchersWithout(entries: seq<Entry>, n: nat, p: nat)
    requires Listed(entries) && n < |entries| && p < |entries|
    ensures Watchers(Without(entries, n), entries[p].objectPath) == if p == n then [] else entries[p].infos
  {
    var rest := Without(entries, n);
    assert forall k :: 0 <= k < |rest| ==> rest[k] == entries[if k < n then k else k + 1];
    FindPathUnique(rest, entries[p].objectPath, if p == n then |rest| else if p < n then p else p - 1);
  }

  lemma WatchersUpdated(entries: seq<Entry>, n: nat, infos: seq<Info>, p: nat)
    requires Listed(entries) && n < |entries| && p < |entries|
    ensures Watchers(entries[n := Entry(entries[n].objectPath, infos)], entries[p].objectPath) ==
            if p == n then infos else entries[p].infos
  {
    FindPathUnique(entries[n := Entry(entries[n].objectPath, infos)], entries[p].objectPath, p);
  }

  lemma WatchersAfter(s: State, id: int, busOk: bool, p: nat)
    requires Listed(s.entries) && p < |s.entries|
    ensures var n := FindId(s.entries, id);
            Watchers(Step(s, Delete(id, busOk)).entries, s.entries[p].objectPath) ==
            if p == n then Released(s.entries[p].infos, id) else s.entries[p].infos
  {
    var n := FindId(s.entries, id);
    if n < |s.entries| {
      WatchersWithout(s.entries, n, p);
      WatchersUpdated(s.entries, n, Released(s.entries[n].infos, id), p);
    } else {
      FindPathUnique(s.entries, s.entries[p].objectPath, p);
    }
  }

  lemma ReleasedIsShorter(infos: seq<Info>, id: int)
    requires HasId(infos, id)
    ensures |Released(infos, id)| == |infos| - 1
  {
  }

  /**
   * Deleting an id that an object holds takes one of that object's subscribers, its first with
   * the id, exactly if no object listed before holds the id as well; otherwise it leaves all of
   * them in place.
   */
  lemma DeleteEndsOwnIff(s: State, id: int, busOk: bool, p: nat)
    requires Inv(s) && p < |s.entries| && HasId(s.entries[p].infos, id)
    ensures var after := Watchers(Step(s, Delete(id, busOk)).entries, s.entries[p].objectPath);
            && (after == Released(s.entries[p].infos, id) <==> !HeldEarlier(s.entries, id, p))
            && (after == s.entries[p].infos <==> HeldEarlier(s.entries, id, p))
  {
    DeleteReachesIff(s, id, p);
    WatchersAfter(s, id, busOk, p);
    ReleasedIsShorter(s.entries[p].infos, id);
  }

  lemma RunOfThree(s: State, a: Call, b: Call, c: Call)
    ensures Run(s, [a, b, c]) == Step(Step(Step(s, a), b), c)
  {
    var calls := [a, b, c];
    assert calls[1..] == [b, c] && [b, c][1..] == [c] && [c][1..] == [];
    assert Run(s, calls) == Run(Step(s, a), [b, c]) == Run(Step(Step(s, a), b), [c]) == Run(Step(Step(Step(s, a), b), c), []);
  }

  /** With a shared id, deleting the later subscription ends the earlier one: the later object stays subscribed, its owner believing otherwise. */
  lemma SharedIdEndsTheWrongOne(first: string, second: string, id: int)
    requires Terminated(first) != ROOT && Terminated(second) != ROOT && Terminated(first) != Terminated(second)
    ensures Run(State([], multiset{}), [Add(first, id, true), Add(second, id, true), Delete(id, true)]) ==
            State([Entry(Terminated(second), [Info(Watched(second), id)])], multiset{Terminated(second)})
  {
    var s := State([], multiset{});
    var s1 := Step(s, Add(first, id, true));
    assert s1.entries == [Entry(Terminated(first), [Info(Watched(first), id)])];
    var s2 := Step(s1, Add(second, id, true));
    assert s2.entries == s1.entries + [Entry(Terminated(second), [Info(Watched(second), id)])];
    assert s2.entries[0].infos[0].id == id;
    assert FindId(s2.entries, id) == 0;
    var s3 := Step(s2, Delete(id, true));
    RunOfThree(s, Add(first, id, true), Add(second, id, true), Delete(id, true));
    assert Released(s2.entries[0].infos, id) == [];
    assert Without(s2.entries, 0) == s2.entries[1..];
  }
}
