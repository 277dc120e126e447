/** What the state means: a ledger of units, a stack of savepoints over it, and the actions that
    transactions apply.  Module StateHeap shows that the state built from shared, partly mutable
    trees behaves exactly like this. */
module Store {
  import opened Units

  /** Units by identifier; the units carry no caches. */
  type Ledger = map<UnitId, Unit>

  datatype Error = NotFound | AlreadyExists | AlreadyUnlocked | Rejected

  datatype Result = Ok(ledger: Ledger) | Err(error: Error)

  /** An update of unit data: from the data (None for a dummy unit) to new data, or None to refuse. */
  type UpdateFunction = Option<UnitData> -> Option<Option<UnitData>>

  datatype Action =
    | AddUnit(id: UnitId, data: UnitData)
    | AddOrPromoteUnit(id: UnitId, data: UnitData)
    | AddDummyUnit(id: UnitId)
    | UpdateUnitData(id: UnitId, f: UpdateFunction)
    | SetStateLock(id: UnitId, lock: Tx)
    | RemoveStateLock(id: UnitId)
    | DeleteUnit(id: UnitId)
    | MarkForDeletion(id: UnitId, round: nat)

  function NewUnit(data: Option<UnitData>): (u: Unit)
  {
    Unit([], NoHash, data, 0, None, 0, NoHash, false)
  }

  function Add(m: Ledger, id: UnitId, u: Unit): (r: Result)
  {
    if id in m then Err(AlreadyExists) else Ok(m[id := u])
  }

  function Act(m: Ledger, a: Action): (r: Result)
  {
    match a
    case AddUnit(id, data) => Add(m, id, NewUnit(Some(data)))
    case AddDummyUnit(id) => Add(m, id, NewUnit(None))
    case AddOrPromoteUnit(id, data) =>
      if id !in m then Ok(m[id := NewUnit(Some(data))])
      else if m[id].data.Some? then Err(Rejected)
      else Ok(m[id := NewUnit(Some(data))])
    case UpdateUnitData(id, f) =>
      if id !in m then Err(NotFound)
      else if f(m[id].data).None? then Err(Rejected)
      else Ok(m[id := m[id].(data := f(m[id].data).value)])
    case SetStateLock(id, lock) =>
      if id !in m then Err(NotFound)
      else if m[id].lock.Some? then Err(Rejected)
      else Ok(m[id := m[id].(lock := Some(lock))])
    case RemoveStateLock(id) =>
      if id !in m then Err(NotFound)
      else if m[id].lock.None? then Err(AlreadyUnlocked)
      else Ok(m[id := m[id].(lock := None)])
    case DeleteUnit(id) =>
      if id !in m then Err(NotFound) else Ok(m - {id})
    case MarkForDeletion(id, round) =>
      if id !in m then Err(NotFound) else Ok(m[id := m[id].(deletionRound := round)])
  }

  /** Actions one after another, up to the first that fails. */
  function ActAll(m: Ledger, actions: seq<Action>): (r: Result)
    decreases |actions|
  {
    if actions == [] then Ok(m)
    else
      var n := |actions| - 1;
      match ActAll(m, actions[..n])
      case Err(e) => Err(e)
      case Ok(m') => Act(m', actions[n])
  }

  lemma OneAction(m: Ledger, a: Action)
    ensures ActAll(m, [a]) == Act(m, a)
  {
    assert [a][..0] == [];
  }

  /** All or nothing. */
  function Apply(m: Ledger, actions: seq<Action>): (m': Ledger)
  {
    match ActAll(m, actions)
    case Ok(l) => l
    case Err(_) => m
  }

  function WithLog(u: Unit, txr: Digest): (r: Unit)
  {
    var prev := if |u.logs| == 0 then NoHash else u.logs[|u.logs| - 1].head;
    u.(logs := u.logs + [Log(txr, LedgerHead(prev, txr), u.data, u.deletionRound, u.lock)])
  }

  function AddUnitLog(m: Ledger, id: UnitId, txr: Digest): (r: Result)
  {
    if id in m then Ok(m[id := WithLog(m[id], txr)]) else Err(NotFound)
  }

  /** A unit with several log entries keeps one, for its present data. */
  function Pruned(u: Unit): (r: Unit)
  {
    if |u.logs| <= 1 then u
    else u.(logs := [Log(NoHash, u.logs[|u.logs| - 1].head, u.data, u.deletionRound, u.lock)])
  }

  function Prune(m: Ledger): (m': Ledger)
  {
    map id | id in m :: Pruned(m[id])
  }

  /** The ledger when only the units `ids` have been pruned. */
  function PruneSome(m: Ledger, ids: set<UnitId>): (m': Ledger)
  {
    map id | id in m :: if id in ids then Pruned(m[id]) else m[id]
  }

  lemma PruneOne(m: Ledger, ids: set<UnitId>, id: UnitId)
    requires id in m
    ensures var p := PruneSome(m, ids); PruneSome(m, ids + {id}) == p[id := Pruned(p[id])]
  {
  }

  // ----- the savepoint stack -----

  type Stack = s: seq<Ledger> | |s| >= 1 witness [map[]]

  function Top(s: Stack): (m: Ledger) { s[|s| - 1] }

  function SetTop(s: Stack, m: Ledger): (s': Stack) { s[|s| - 1 := m] }

  function Savepoint(s: Stack): (s': Stack) { s + [Top(s)] }

  function RollbackTo(s: Stack, id: nat): (s': Stack)
    requires id >= 1
  {
    if id > |s| then s else s[..id]
  }

  function ReleaseTo(s: Stack, id: nat): (s': Stack)
    requires id >= 1
  {
    if id > |s| then s else s[..id - 1] + [Top(s)]
  }

  /** Rolling back to a savepoint undoes whatever was done on top of it, however deep; releasing it
      keeps the top and gives the depth back. */
  lemma SavepointUndone(s: Stack, above: seq<Ledger>)
    requires |above| >= 1
    ensures RollbackTo(s + above, |s|) == s
    ensures ReleaseTo(s + above, |s|) == SetTop(s, above[|above| - 1])
  {
    assert (s + above)[..|s|] == s;
    assert (s + above)[..|s| - 1] == s[..|s| - 1];
  }
}
