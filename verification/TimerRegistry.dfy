/** The registry as it is written: a singly linked list whose head and next pointers are rewritten in place. */
module TimerRegistry {
  import opened Common
  import opened TimerModel

  class TimerItem {
    const name: string
    const handler: Option<nat>
    const repeats: bool
    var wait: int
    var next: TimerItem?

    constructor (name: string, handler: Option<nat>, repeats: bool)
      ensures this.name == name && this.handler == handler && this.repeats == repeats && next == null
    {
      this.name, this.handler, this.repeats := name, handler, repeats;
      wait, next := 0, null;
    }

    ghost function Value(): (r: Entry)
      reads this
    {
      Entry(name, handler, repeats, wait)
    }
  }

  class Registry {
    var head: TimerItem?
    ghost var items: seq<TimerItem>

    /** The item after the first `i`, or null. */
    ghost function At(i: nat): (r: TimerItem?)
      reads this
    {
      if i < |items| then items[i] else null
    }

    ghost predicate Linked(i: nat)
      requires i < |items|
      reads this, items
    {
      items[i].next == At(i + 1)
    }

    ghost predicate Valid()
      reads this, items
    {
      && head == At(0)
      && (forall i, j :: 0 <= i < j < |items| ==> items[i] != items[j])
      && (forall i :: 0 <= i < |items| ==> Linked(i))
    }

    /** `entries` is what the list holds. */
    ghost predicate Holds(entries: seq<Entry>)
      reads this, items
    {
      |entries| == |items| && forall i :: 0 <= i < |items| ==> items[i].Value() == entries[i]
    }

    constructor ()
      ensures Valid() && items == []
    {
      head, items := null, [];
    }

    method FindTimer(name: string, ghost entries: seq<Entry>) returns (item: TimerItem?)
      requires Valid() && Holds(entries)
      ensures name == "" ==> item == null
      ensures name != "" ==> item == At(Find(entries, name))
    {
      item := null;
      if name == "" {
        return;
      }
      var timer := head;
      ghost var i := 0;
      while timer != null && timer.name != name
        invariant 0 <= i <= |items| && timer == At(i)
        invariant forall k :: 0 <= k < i ==> entries[k].name != name
        decreases |items| - i
      {
        assert Linked(i) && items[i].Value() == entries[i];
        timer := timer.next;
        i := i + 1;
      }
      assert i < |items| ==> items[i].Value() == entries[i];
      FindUnique(entries, name, i);
      item := timer;
    }

    method Append(item: TimerItem, ghost entries: seq<Entry>)
      requires Valid() && Holds(entries) && item !in items
      modifies this, items, item
      ensures Valid() && items == old(items) + [item]
      ensures Holds(entries + [old(item.Value())])
    {
      item.next := null;
      if head == null {
        head := item;
        items := [item];
      } else {
        var last := head;
        ghost var i := 0;
        while last.next != null
          invariant 0 <= i < |items| && last == items[i]
          invariant Valid() && Holds(entries)
          decreases |items| - i
        {
          assert Linked(i);
          last := last.next;
          i := i + 1;
        }
        assert Linked(i);
        assert i == |items| - 1;
        forall k | 0 <= k < |items|
          ensures items[k].next == old(items[k].next) && items[k].Value() == entries[k]
        {
          assert items[k] != item;
        }
        AppendAfter(last, item, entries);
      }
    }

    /** Link a new last item behind the old one. */
    method AppendAfter(last: TimerItem, item: TimerItem, ghost entries: seq<Entry>)
      requires Valid() && Holds(entries) && item !in items && item.next == null
      requires items != [] && last == items[|items| - 1]
      modifies this, last
      ensures Valid() && items == old(items) + [item]
      ensures Holds(entries + [old(item.Value())])
    {
      ghost var before := items;
      assert forall k :: 0 <= k < |items| ==> Linked(k);
      last.next := item;
      items := items + [item];
      forall k | 0 <= k < |items|
        ensures Linked(k)
      {
        if k < |before| - 1 {
          assert old(Linked(k)) && before[k] != last;
        }
      }
    }

    /** Take the first item of that name out of the chain. */
    method Remove(name: string, ghost entries: seq<Entry>)
      requires Valid() && Holds(entries)
      modifies this, items
      ensures Valid()
      ensures var n := Find(entries, name);
              if n == |entries| then items == old(items) && Holds(entries)
              else items == old(items)[..n] + old(items)[n + 1..] && Holds(Without(entries, n))
    {
      var item, prev := head, null;
      ghost var i := 0;
      while item != null && item.name != name
        invariant 0 <= i <= |items| && item == At(i) && prev == if i == 0 then null else items[i - 1]
        invariant forall k :: 0 <= k < i ==> entries[k].name != name
        decreases |items| - i
      {
        assert Linked(i) && items[i].Value() == entries[i];
        prev, item := item, item.next;
        i := i + 1;
      }
      assert i < |items| ==> items[i].Value() == entries[i];
      FindUnique(entries, name, i);
      if item != null {
        Unlink(item, prev, i, entries);
      }
    }

    method Unlink(item: TimerItem, prev: TimerItem?, ghost i: nat, ghost entries: seq<Entry>)
      requires Valid() && Holds(entries) && i < |items|
      requires item == items[i] && prev == if i == 0 then null else items[i - 1]
      modifies this, if prev == null then {} else {prev}
      ensures Valid() && items == old(items)[..i] + old(items)[i + 1..]
      ensures Holds(Without(entries, i))
    {
      ghost var before := items;
      assert forall k :: 0 <= k < |items| ==> Linked(k);
      assert Linked(i) && (i > 0 ==> items[0] != items[i]);
      assert i > 0 ==> Linked(i - 1) && items[i - 1] == prev;
      if item == head {
        head := item.next;
      }
      if prev != null {
        prev.next := item.next;
      }
      items := items[..i] + items[i + 1..];
      assert forall k :: 0 <= k < |items| ==> items[k] == before[if k < i then k else k + 1];
      assert head == At(0);
      forall k | 0 <= k < |items|
        ensures Linked(k)
      {
        if k == i - 1 {
          assert old(Linked(i));
        } else {
          var j := if k < i then k else k + 1;
          assert old(Linked(j)) && before[j] != prev;
        }
      }
      forall k | 0 <= k < |items|
        ensures items[k].Value() == Without(entries, i)[k]
      {
        assert before[if k < i then k else k + 1].Value() == entries[if k < i then k else k + 1];
      }
    }

    /** A known timer is only given its new waiting time. */
    method Restart(timer: TimerItem, wait: int, ghost entries: seq<Entry>, ghost n: nat)
      requires Valid() && Holds(entries) && n < |items| && items[n] == timer
      modifies timer`wait
      ensures Valid() && Holds(entries[n := entries[n].(wait := wait)])
    {
      timer.wait := wait;
      forall k | 0 <= k < |items|
        ensures Linked(k) && items[k].Value() == entries[n := entries[n].(wait := wait)][k]
      {
        assert old(Linked(k)) && old(items[k].Value()) == entries[k];
      }
    }

    method StartTimer(name: string, wait: int, interval: int, handler: Option<nat>, ghost entries: seq<Entry>) returns (ok: bool)
      requires Valid() && Holds(entries)
      modifies this, items
      ensures Valid() && fresh(set t | t in items && t !in old(items))
      ensures Holds(Started(entries, name, wait, interval, handler))
      ensures ok <==> name != ""
    {
      if name == "" {
        return false;
      }
      var timer := FindTimer(name, entries);
      ghost var n := Find(entries, name);
      if timer == null {
        timer := new TimerItem(name, handler, interval != 0);
        timer.wait := wait;
        Append(timer, entries);
      } else {
        Restart(timer, wait, entries, n);
      }
      ok := true;
    }

    method StopTimer(name: string, ghost entries: seq<Entry>) returns (ok: bool)
      requires Valid() && Holds(entries)
      modifies this, items
      ensures Valid() && forall t :: t in items ==> t in old(items)
      ensures Holds(Stopped(entries, name))
      ensures ok <==> name != "" && Find(entries, name) < |entries|
    {
      var item := FindTimer(name, entries);
      ok := item != null;
      if ok {
        Remove(name, entries);
      }
    }

    method Obey(command: Command, ghost entries: seq<Entry>)
      requires Valid() && Holds(entries)
      modifies this, items
      ensures Valid() && fresh(set t | t in items && t !in old(items))
      ensures Holds(Obeyed(entries, command))
    {
      match command {
        case StartCommand(name, wait, interval, handler) => var ok := StartTimer(name, wait, interval, handler, entries);
        case StopCommand(name) => var ok := StopTimer(name, entries);
      }
    }

    /** A handler at work. */
    method RunHandler(commands: seq<Command>, ghost entries: seq<Entry>)
      requires Valid() && Holds(entries)
      modifies this, items
      ensures Valid() && Holds(ObeyedAll(entries, commands))
    {
      ghost var now := entries;
      for k := 0 to |commands|
        invariant Valid() && Holds(now)
        invariant fresh(set t | t in items && t !in old(items))
        invariant ObeyedAll(now, commands[k..]) == ObeyedAll(entries, commands)
      {
        assert commands[k..][0] == commands[k] && commands[k..][1..] == commands[k + 1..];
        Obey(commands[k], now);
        now := Obeyed(now, commands[k]);
      }
    }

    method FindByAddress(timer: TimerItem) returns (found: bool)
      requires Valid()
      ensures found <==> timer in items
    {
      var t := head;
      ghost var i := 0;
      while t != null && t != timer
        invariant 0 <= i <= |items| && t == At(i)
        invariant timer !in items[..i]
        decreases |items| - i
      {
        assert Linked(i);
        t := t.next;
        i := i + 1;
      }
      found := t != null;
    }

    /** A timer has run out; `commands` is what its handler will do. */
    method TimeoutHandler(timer: TimerItem, commands: seq<Command>, ghost entries: seq<Entry>, ghost n: nat)
      requires Valid() && Holds(entries) && UniqueNames(entries)
      requires timer in items ==> n < |items| && items[n] == timer
      modifies this, items
      ensures Valid()
      ensures Holds(if timer in old(items) then Fired(entries, n, commands) else entries)
    {
      var found := FindByAddress(timer);
      if !found {
        return;
      }
      assert items[n].Value() == entries[n];
      if timer.handler.None? {
        return;
      }
      ghost var rest := entries;
      if !timer.repeats {
        FindUnique(entries, timer.name, n);
        Remove(timer.name, entries);
        rest := Without(entries, n);
      }
      RunHandler(commands, rest);
    }

    method RemoveAll()
      requires Valid()
      modifies this
      ensures Valid() && items == []
    {
      var item := head;
      ghost var i := 0;
      while item != null
        invariant 0 <= i <= |items| && item == At(i)
        decreases |items| - i
      {
        assert Linked(i);
        item := item.next;
        i := i + 1;
      }
      head, items := null, [];
    }
  }
}
