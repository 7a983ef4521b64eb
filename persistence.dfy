/** The saved game: a three-field snapshot of the state and the rule that
    turns a stored snapshot back into a state, each field falling back to its
    own default. */
module Persistence {
  import opened Wrappers
  import opened Catalog
  import opened Economy

  /** A stored record. A field is None when it is missing or null; a money
      field holding 0 is kept as Some(0). */
  datatype Snapshot = Snapshot(
    money: Option<int>,
    trains: Option<seq<Train>>,
    routes: Option<seq<Route>>)

  /** The snapshot written after a change: all three fields of the state. */
  function Save(s: GameState): (snap: Snapshot)
    ensures snap.money.Some? && snap.trains.Some? && snap.routes.Some?
  {
    Snapshot(Some(s.money), Some(s.trains), Some(s.routes))
  }

  /** Money as loaded: a missing or falsy amount (0 counts as falsy) becomes
      the starting money. */
  function RestoreMoney(m: Option<int>): (r: int)
    ensures r != 0
    ensures m.Some? && m.value != 0 ==> r == m.value
    ensures m.None? || m == Some(0) ==> r == StartingMoney
  {
    match m
    case Some(v) => if v != 0 then v else StartingMoney
    case None => StartingMoney
  }

  /** The state a stored snapshot is loaded into: each field defaults on its
      own, so a loaded game never has zero money. */
  function Restore(snap: Snapshot): (s: GameState)
    ensures s.money != 0
    ensures snap.money.Some? && snap.money.value != 0 ==> s.money == snap.money.value
    ensures snap.money.None? || snap.money == Some(0) ==> s.money == StartingMoney
    ensures snap.trains.None? ==> s.trains == []
    ensures snap.trains.Some? ==> s.trains == snap.trains.value
    ensures snap.routes.None? ==> s.routes == []
    ensures snap.routes.Some? ==> s.routes == snap.routes.value
  {
    GameState(
      RestoreMoney(snap.money),
      match snap.trains case Some(ts) => ts case None => [],
      match snap.routes case Some(rs) => rs case None => [])
  }

  /** Loading what was saved gives back the same state exactly when its
      money is not zero; a zero balance comes back as the starting money. */
  lemma LoadAfterSave(s: GameState)
    ensures Restore(Save(s)) == s <==> s.money != 0
    ensures s.money == 0 ==> Restore(Save(s)) == s.(money := StartingMoney)
  {
    if s.money == 0 {
      assert Restore(Save(s)).money != s.money;
    }
  }

  /** A record with no fields at all loads as a fresh game. */
  lemma RestoreEmpty()
    ensures Restore(Snapshot(None, None, None)) == Initial
  {
  }

  /** Each field defaults independently: replacing one field of the record
      changes only the matching field of the loaded state. */
  lemma RestoreFieldwise(snap: Snapshot, m: Option<int>, ts: Option<seq<Train>>, rs: Option<seq<Route>>)
    ensures Restore(snap.(money := m)) == Restore(snap).(money := Restore(snap.(money := m)).money)
    ensures Restore(snap.(trains := ts)) == Restore(snap).(trains := Restore(snap.(trains := ts)).trains)
    ensures Restore(snap.(routes := rs)) == Restore(snap).(routes := Restore(snap.(routes := rs)).routes)
  {
  }

  /** Saving and loading keeps the game invariant: a valid state either
      comes back unchanged or, with zero money, as the same fleet and routes
      with the starting money. */
  lemma LoadAfterSaveKeepsValid(s: GameState)
    requires ValidState(s)
    ensures ValidState(Restore(Save(s)))
  {
    LoadAfterSave(s);
  }
}
