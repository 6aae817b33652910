/** The subscription list as it is kept: records that loops look up and change in place. */
module SubscriptionList {
  import opened Common
  import opened SubscriptionModel

  class Subscription {
    const objectPath: string
    var infos: seq<Info>

    constructor (objectPath: string)
      ensures this.objectPath == objectPath && infos == []
    {
      this.objectPath, infos := objectPath, [];
    }

    ghost function Value(): (r: Entry)
      reads this
    {
      Entry(objectPath, infos)
    }

    /** Drop the first watcher with that id. */
    method DeleteInfo(id: int)
      modifies this
      ensures infos == if HasId(old(infos), id) then Released(old(infos), id) else old(infos)
    {
      var index, todel := 0, -1;
      while index < |infos|
        invariant 0 <= index <= |infos| && todel == -1 && infos == old(infos)
        invariant forall k :: 0 <= k < index ==> infos[k].id != id
      {
        if infos[index].id == id {
          todel := index;
          break;
        }
        index := index + 1;
      }
      if todel >= 0 {
        assert IdAt(infos, id) == index;
        infos := infos[..index] + infos[index + 1..];
      }
    }
  }

  class SubscriptionList {
    var subs: seq<Subscription>
    /** The objects the bus delivers. */
    ghost var live: multiset<string>

    /** `s` is what the list and the bus hold, and no two list items are the same record. */
    ghost predicate Holds(s: State)
      reads this, subs
    {
      && (forall i, j :: 0 <= i < j < |subs| ==> subs[i] != subs[j])
      && |s.entries| == |subs|
      && (forall i :: 0 <= i < |subs| ==> subs[i].Value() == s.entries[i])
      && live == s.live
    }

    constructor ()
      ensures Holds(State([], multiset{})) && subs == []
    {
      subs, live := [], multiset{};
    }

    method FindByID(id: int, ghost s: State) returns (found: Option<Subscription>)
      requires Holds(s)
      ensures var n := FindId(s.entries, id);
              found == if n < |subs| then Some(subs[n]) else None
    {
      for i := 0 to |subs|
        invariant forall k :: 0 <= k < i ==> !HasId(s.entries[k].infos, id)
      {
        var sub := subs[i];
        assert sub.Value() == s.entries[i];
        for k := 0 to |sub.infos|
          invariant forall m :: 0 <= m < k ==> sub.infos[m].id != id
        {
          if sub.infos[k].id == id {
            FindIdUnique(s.entries, id, i);
            return Some(sub);
          }
        }
      }
      FindIdUnique(s.entries, id, |subs|);
      return None;
    }

    method Find(path: string, ghost s: State) returns (found: Option<Subscription>)
      requires Holds(s)
      ensures var n := FindPath(s.entries, path);
              found == if n < |subs| then Some(subs[n]) else None
    {
      for i := 0 to |subs|
        invariant forall k :: 0 <= k < i ==> s.entries[k].objectPath != path
      {
        assert subs[i].Value() == s.entries[i];
        if subs[i].objectPath == path {
          FindPathUnique(s.entries, path, i);
          return Some(subs[i]);
        }
      }
      FindPathUnique(s.entries, path, |subs|);
      return None;
    }

    method DeleteFromList(sub: Subscription, ghost n: nat)
      requires n < |subs| && subs[n] == sub
      requires forall i, j :: 0 <= i < j < |subs| ==> subs[i] != subs[j]
      modifies this`subs
      ensures subs == Without(old(subs), n)
    {
      var index, todel := 0, -1;
      while index < |subs|
        invariant 0 <= index <= n && todel == -1 && subs == old(subs)
      {
        if subs[index] == sub {
          todel := index;
          break;
        }
        index := index + 1;
      }
      if todel >= 0 {
        subs := subs[..index] + subs[index + 1..];
      }
    }

    /** `id` is the hash of path and filter, and `busOk` the answer of the bus. An error never discards a listed record. */
    method AddSubscription(path: string, id: int, busOk: bool, ghost s: State) returns (ok: bool, subscriptionID: Option<int>)
      requires Holds(s) && Inv(s)
      modifies this, subs
      ensures Holds(Step(s, Add(path, id, busOk))) && ok == Succeeds(s, Add(path, id, busOk))
      ensures old(subs) <= subs && (!ok ==> subs == old(subs))
      ensures subscriptionID == if Terminated(path) == ROOT then None else Some(id)
    {
      var objectPath := Terminated(path);
      var found := Find(objectPath, s);
      if objectPath == ROOT {
        return false, None;
      }
      var info := Info(Watched(path), id);
      if found.Some? {
        var sub := found.value;
        sub.infos := sub.infos + [info];
      } else {
        if !busOk {
          return false, Some(id);
        }
        var sub := new Subscription(objectPath);
        live := live + multiset{objectPath};
        subs := subs + [sub];
        sub.infos := sub.infos + [info];
      }
      return true, Some(id);
    }

    /** Take the subscriber with that id off the n-th record. */
    method Release(sub: Subscription, id: int, ghost s: State, ghost n: nat)
      requires Holds(s) && n < |subs| && subs[n] == sub && HasId(s.entries[n].infos, id)
      modifies sub
      ensures Holds(s.(entries := s.entries[n := Entry(s.entries[n].objectPath, Released(s.entries[n].infos, id))]))
    {
      assert sub.Value() == s.entries[n];
      sub.DeleteInfo(id);
    }

    /** The bus no longer delivers the n-th object, and its record goes. */
    method Drop(sub: Subscription, ghost s: State, ghost n: nat)
      requires Holds(s) && n < |subs| && subs[n] == sub
      modifies this
      ensures Holds(State(Without(s.entries, n), s.live - multiset{s.entries[n].objectPath}))
    {
      assert sub.Value() == s.entries[n];
      live := live - multiset{sub.objectPath};
      DeleteFromList(sub, n);
      assert forall k :: 0 <= k < |subs| ==> subs[k] == old(subs)[if k < n then k else k + 1];
    }

    method DeleteSubscription(id: int, busOk: bool, ghost s: State) returns (ok: bool)
      requires Holds(s)
      modifies this, subs
      ensures Holds(Step(s, Delete(id, busOk))) && ok == Succeeds(s, Delete(id, busOk))
    {
      var found := FindByID(id, s);
      if found.None? {
        return false;
      }
      var sub := found.value;
      ghost var n := FindId(s.entries, id);
      ghost var released := s.(entries := s.entries[n := Entry(s.entries[n].objectPath, Released(s.entries[n].infos, id))]);
      Release(sub, id, s, n);
      assert sub.Value() == released.entries[n];
      if sub.infos == [] {
        if !busOk {
          return false;
        }
        Drop(sub, released, n);
        assert Without(released.entries, n) == Without(s.entries, n);
      }
      return true;
    }
  }
}
