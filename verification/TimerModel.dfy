/** The named-timer registry as an ordered map from names to timers (cwmpd_timer.c). */
module TimerModel {
  import opened Common

  /** `handler` identifies a callback; `wait` is the time in seconds the timer was last started with. */
  datatype Entry = Entry(name: string, handler: Option<nat>, repeats: bool, wait: int)

  /** What a handler may ask of the registry. */
  datatype Command = StartCommand(name: string, wait: int, interval: int, handler: Option<nat>) | StopCommand(name: string)

  function Names(entries: seq<Entry>): (names: seq<string>)
    ensures |names| == |entries| && forall k :: 0 <= k < |names| ==> names[k] == entries[k].name
  {
    seq(|entries|, k requires 0 <= k < |entries| => entries[k].name)
  }

  function Find(entries: seq<Entry>, name: string): (n: nat)
    ensures n <= |entries| && (n < |entries| ==> entries[n].name == name)
    ensures forall k :: 0 <= k < n ==> entries[k].name != name
  {
    Position(Names(entries), name)
  }

  lemma FindUnique(entries: seq<Entry>, name: string, n: nat)
    requires n <= |entries| && (n < |entries| ==> entries[n].name == name) && forall k :: 0 <= k < n ==> entries[k].name != name
    ensures Find(entries, name) == n
  {
    PositionUnique(Names(entries), name, n);
  }

  /** A known timer is only restarted: it keeps its handler and whether it repeats. */
  function Started(entries: seq<Entry>, name: string, wait: int, interval: int, handler: Option<nat>): (r: seq<Entry>) {
    var n := Find(entries, name);
    if name == "" then entries
    else if n < |entries| then entries[n := entries[n].(wait := wait)]
    else entries + [Entry(name, handler, interval != 0, wait)]
  }

  function Stopped(entries: seq<Entry>, name: string): (r: seq<Entry>) {
    var n := Find(entries, name);
    if name == "" || n == |entries| then entries else Without(entries, n)
  }

  function Obeyed(entries: seq<Entry>, command: Command): (r: seq<Entry>) {
    match command
    case StartCommand(name, wait, interval, handler) => Started(entries, name, wait, interval, handler)
    case StopCommand(name) => Stopped(entries, name)
  }

  function ObeyedAll(entries: seq<Entry>, commands: seq<Command>): (r: seq<Entry>)
    decreases |commands|
  {
    if commands == [] then entries else ObeyedAll(Obeyed(entries, commands[0]), commands[1..])
  }

  /** The n-th timer runs out and its handler issues `commands`: a one-shot timer is gone before they are carried out. */
  function Fired(entries: seq<Entry>, n: nat, commands: seq<Command>): (r: seq<Entry>)
    requires n < |entries|
  {
    if entries[n].handler.None? then entries
    else ObeyedAll(if entries[n].repeats then entries else Without(entries, n), commands)
  }

  // ----- A map, in the order of first start -----

  ghost predicate UniqueNames(entries: seq<Entry>) {
    && (forall i, j :: 0 <= i < j < |entries| ==> entries[i].name != entries[j].name)
    && forall i :: 0 <= i < |entries| ==> entries[i].name != ""
  }

  function Lookup(entries: seq<Entry>, name: string): (r: Option<Entry>) {
    var n := Find(entries, name);
    if n < |entries| then Some(entries[n]) else None
  }

  lemma StartedKeepsUnique(entries: seq<Entry>, name: string, wait: int, interval: int, handler: Option<nat>)
    requires UniqueNames(entries)
    ensures UniqueNames(Started(entries, name, wait, interval, handler))
  {
  }

  lemma WithoutKeepsUnique(entries: seq<Entry>, n: nat)
    requires UniqueNames(entries) && n < |entries|
    ensures UniqueNames(Without(entries, n))
  {
    assert forall k :: 0 <= k < |Without(entries, n)| ==> Without(entries, n)[k] == entries[if k < n then k else k + 1];
  }

  lemma ObeyedKeepsUnique(entries: seq<Entry>, command: Command)
    requires UniqueNames(entries)
    ensures UniqueNames(Obeyed(entries, command))
  {
    match command {
      case StartCommand(name, wait, interval, handler) => StartedKeepsUnique(entries, name, wait, interval, handler);
      case StopCommand(name) =>
        if Find(entries, name) < |entries| {
          WithoutKeepsUnique(entries, Find(entries, name));
        }
    }
  }

  /** Names stay unique through every sequence of starts and stops, from handlers or elsewhere. */
  lemma {:induction false} ObeyedAllKeepsUnique(entries: seq<Entry>, commands: seq<Command>)
    requires UniqueNames(entries)
    ensures UniqueNames(ObeyedAll(entries, commands))
    decreases |commands|
  {
    if commands != [] {
      ObeyedKeepsUnique(entries, commands[0]);
      ObeyedAllKeepsUnique(Obeyed(entries, commands[0]), commands[1..]);
    }
  }

  lemma FiredKeepsUnique(entries: seq<Entry>, n: nat, commands: seq<Command>)
    requires UniqueNames(entries) && n < |entries|
    ensures UniqueNames(Fired(entries, n, commands))
  {
    WithoutKeepsUnique(entries, n);
    ObeyedAllKeepsUnique(if entries[n].repeats then entries else Without(entries, n), commands);
  }

  /** Starting a timer changes the entry of that name only, and keeps what a known timer was created with. */
  lemma StartedLookup(entries: seq<Entry>, name: string, wait: int, interval: int, handler: Option<nat>, other: string)
    requires name != ""
    ensures Lookup(Started(entries, name, wait, interval, handler), other) ==
            if other != name then Lookup(entries, other)
            else match Lookup(entries, name)
              case Some(e) => Some(e.(wait := wait))
              case None => Some(Entry(name, handler, interval != 0, wait))
  {
    var entries' := Started(entries, name, wait, interval, handler);
    var m := Find(entries, other);
    FindUnique(entries', other, if other == name || m < |entries| then m else |entries'|);
  }

  lemma LookupWithout(entries: seq<Entry>, n: nat, other: string)
    requires UniqueNames(entries) && n < |entries|
    ensures Lookup(Without(entries, n), other) == if other == entries[n].name then None else Lookup(entries, other)
  {
    var m, rest := Find(entries, other), Without(entries, n);
    assert forall k :: 0 <= k < |rest| ==> rest[k] == entries[if k < n then k else k + 1];
    FindUnique(rest, other, if other == entries[n].name then |rest| else if m < n then m else m - 1);
  }

  lemma LookupAbsent(entries: seq<Entry>, name: string)
    requires Find(entries, name) == |entries|
    ensures Lookup(entries, name) == None
  {
  }

  /** Stopping a timer removes the entry of that name and no other. */
  lemma StoppedLookup(entries: seq<Entry>, name: string, other: string)
    requires UniqueNames(entries) && name != ""
    ensures Lookup(Stopped(entries, name), other) == if other == name then None else Lookup(entries, other)
  {
    var n := Find(entries, name);
    if n < |entries| {
      LookupWithout(entries, n, other);
    } else {
      LookupAbsent(entries, name);
    }
  }

  function NameOf(command: Command): (name: string) {
    match command
    case StartCommand(name, _, _, _) => name
    case StopCommand(name) => name
  }

  lemma {:induction false} OthersAreObeyed(entries: seq<Entry>, commands: seq<Command>, other: string)
    requires UniqueNames(entries) && forall k :: 0 <= k < |commands| ==> NameOf(commands[k]) != other
    ensures Lookup(ObeyedAll(entries, commands), other) == Lookup(entries, other)
    decreases |commands|
  {
    if commands != [] {
      match commands[0] {
        case StartCommand(name, wait, interval, handler) =>
          if name != "" {
            StartedLookup(entries, name, wait, interval, handler, other);
          }
        case StopCommand(name) =>
          if name != "" {
            StoppedLookup(entries, name, other);
          }
      }
      ObeyedKeepsUnique(entries, commands[0]);
      OthersAreObeyed(Obeyed(entries, commands[0]), commands[1..], other);
    }
  }

  /**
   * When a timer runs out, a name that its handler does not mention is found as before, except
   * that of the timer itself if it does not repeat: that one is gone. A timer without a handler stays.
   */
  lemma FiredLookup(entries: seq<Entry>, n: nat, commands: seq<Command>, other: string)
    requires UniqueNames(entries) && n < |entries|
    requires forall k :: 0 <= k < |commands| ==> NameOf(commands[k]) != other
    ensures Lookup(Fired(entries, n, commands), other) ==
            if entries[n].handler != None && !entries[n].repeats && other == entries[n].name then None else Lookup(entries, other)
    ensures entries[n].handler == None ==> Fired(entries, n, commands) == entries
  {
    if entries[n].handler.Some? {
      WithoutKeepsUnique(entries, n);
      LookupWithout(entries, n, other);
      OthersAreObeyed(if entries[n].repeats then entries else Without(entries, n), commands, other);
    }
  }

  /** A one-shot timer that restarts its own name from its handler comes back fresh, with the new handler and interval, at the end. */
  lemma OneShotMayRestartItself(entries: seq<Entry>, n: nat, wait: int, interval: int, handler: Option<nat>)
    requires UniqueNames(entries) && n < |entries| && !entries[n].repeats && entries[n].handler.Some?
    ensures Fired(entries, n, [StartCommand(entries[n].name, wait, interval, handler)]) ==
            Without(entries, n) + [Entry(entries[n].name, handler, interval != 0, wait)]
  {
    var rest, name := Without(entries, n), entries[n].name;
    assert forall k :: 0 <= k < |rest| ==> rest[k] == entries[if k < n then k else k + 1];
    FindUnique(rest, name, |rest|);
    var commands := [StartCommand(name, wait, interval, handler)];
    assert commands[1..] == [];
    assert ObeyedAll(rest, commands) == ObeyedAll(Obeyed(rest, commands[0]), []);
  }

  /** A repeating timer that does so keeps its old handler and goes on repeating. */
  lemma RepeatingCannotBeReplaced(entries: seq<Entry>, n: nat, wait: int, interval: int, handler: Option<nat>)
    requires UniqueNames(entries) && n < |entries| && entries[n].repeats && entries[n].handler.Some?
    ensures Fired(entries, n, [StartCommand(entries[n].name, wait, interval, handler)]) == entries[n := entries[n].(wait := wait)]
  {
    FindUnique(entries, entries[n].name, n);
    var commands := [StartCommand(entries[n].name, wait, interval, handler)];
    assert commands[1..] == [];
    assert ObeyedAll(entries, commands) == ObeyedAll(Obeyed(entries, commands[0]), []);
  }
}
