/** A lock for every key, as those who use it see it: a table of the keys that are held and by whom. */
module LockTable {
  import opened Kube

  type Table = map<string, nat>

  datatype LockEvent = Taken(t: nat, key: string) | Given(t: nat, key: string)

  /** A thread takes a key that nobody holds. */
  function Take(held: Table, t: nat, key: string): Option<Table> {
    if key in held then None else Some(held[key := t])
  }

  /** A thread gives back a key that it holds. */
  function Give(held: Table, t: nat, key: string): Option<Table> {
    if key in held && held[key] == t then Some(held - {key}) else None
  }

  function Change(held: Table, e: LockEvent): Option<Table> {
    match e
    case Taken(t, key) => Take(held, t, key)
    case Given(t, key) => Give(held, t, key)
  }

  /** The table after a sequence of events, if each of them is possible. */
  function Replay(held: Table, events: seq<LockEvent>): Option<Table> {
    if events == [] then Some(held)
    else
      var before := Replay(held, events[..|events| - 1]);
      if before.Some? then Change(before.value, events[|events| - 1]) else None
  }
}
