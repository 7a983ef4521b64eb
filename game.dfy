/** The running game: money, fleet and routes updated in place, plus the
    browser's stored record. Each method performs the source's steps and is
    proved to end in the state its rule gives (module Economy for trades and
    income ticks, Persistence.Restore for loading). A trade or tick that
    changes the state also stores that state's snapshot; a refused call, a
    route purchase that does nothing, and a load leave the store as it was. */
module Game {
  import opened Wrappers
  import opened Catalog
  import Economy
  import opened Persistence

  class Game {
    var money: int
    var trains: seq<Economy.Train>
    var routes: seq<Economy.Route>
    /** The record kept in local storage under the game's key. */
    var saved: Option<Snapshot>

    /** The current state as a value. */
    function State(): Economy.GameState
      reads this
    {
      Economy.GameState(money, trains, routes)
    }

    /** A page load before the saved game is read: the starting money, no
        trains, no routes, and whatever the store holds from earlier sessions. */
    constructor (stored: Option<Snapshot>)
      ensures State() == Economy.Initial && saved == stored
    {
      money := StartingMoney;
      trains := [];
      routes := [];
      saved := stored;
    }

    /** Writes the whole state to storage. */
    method SaveGameData()
      modifies this`saved
      ensures saved == Some(Save(State()))
    {
      saved := Some(Snapshot(Some(money), Some(trains), Some(routes)));
    }

    /** Reads the stored record: with none stored nothing changes, otherwise
        every field is taken from it or falls back to its default. */
    method LoadGameData()
      modifies this`money, this`trains, this`routes
      ensures State() == if saved.None? then old(State()) else Restore(saved.value)
    {
      match saved {
        case None =>
        case Some(data) =>
          money := if data.money.Some? && data.money.value != 0 then data.money.value else StartingMoney;
          trains := if data.trains.Some? then data.trains.value else [];
          routes := if data.routes.Some? then data.routes.value else [];
      }
    }

    /** What a page load does once the document is ready: read the saved
        game, then refresh the money display, which saves the state again.
        The click handlers and the one-second income timer are not modelled. */
    method Start()
      modifies this
      ensures State() == if old(saved).None? then old(State()) else Restore(old(saved).value)
      ensures saved == Some(Save(State()))
    {
      LoadGameData();
      SaveGameData();
    }

    /** Buys a train: a car count outside 1..MaxCars or money below the
        surcharge refuses the purchase and changes nothing; otherwise the
        surcharge is debited, the new train appended and the state saved. */
    method AddTrain(order: Economy.TrainOrder, additionalCost: int) returns (error: Option<Economy.TrainError>)
      requires 1 <= order.cars <= MaxCars && additionalCost <= money ==> FindType(order.typeName).Some?
      modifies this
      ensures match Economy.AddTrain(old(State()), order, additionalCost)
        case Success(s) => error == None && State() == s && saved == Some(Save(s))
        case Failure(e) => error == Some(e) && State() == old(State()) && saved == old(saved)
    {
      if order.cars < 1 || order.cars > MaxCars {
        return Some(Economy.CarsOutOfRange);
      }
      if money < additionalCost {
        return Some(Economy.InsufficientFunds);
      }
      money := money - additionalCost;
      SaveGameData();
      var tier := FindType(order.typeName).value;
      var newTrain := Economy.NewTrain(order, tier);
      trains := trains + [newTrain];
      SaveGameData();
      error := None;
    }

    /** Buys a route when money covers its price and fewer than MaxRoutes are
        owned, saving afterwards; otherwise nothing happens. */
    method AddRoute()
      modifies this
      ensures State() == Economy.AddRoute(old(State()))
      ensures saved == if State() == old(State()) then old(saved) else Some(Save(State()))
    {
      if money >= RoutePrice && |routes| < MaxRoutes {
        routes := routes + [Economy.Route(0)];
        money := money - RoutePrice;
        SaveGameData();
      }
    }

    /** Sells fleet entry `index`: an index with no train fails before
        anything changes; otherwise the buy-back is credited, the entry
        removed and the state saved. */
    method SellTrain(index: int) returns (sold: bool)
      modifies this
      ensures match Economy.SellTrain(old(State()), index)
        case Some(s) => sold && State() == s && saved == Some(Save(s))
        case None => !sold && State() == old(State()) && saved == old(saved)
    {
      if index < 0 || index >= |trains| {
        return false;
      }
      var train := trains[index];
      money := money + train.minIncome * 10;
      trains := trains[..index] + trains[index + 1..];
      SaveGameData();
      sold := true;
    }

    /** One income tick: walks the fleet in order adding, for each train, its
        pick plus its minimum income, then saves (also with an empty fleet). */
    method UpdateIncome(picks: seq<int>)
      requires Economy.PicksInRange(trains, picks)
      modifies this
      ensures State() == Economy.IncomeTick(old(State()), picks)
      ensures saved == Some(Save(State()))
    {
      var i := 0;
      while i < |trains|
        invariant 0 <= i <= |trains|
        invariant trains == old(trains) && routes == old(routes)
        invariant money == old(money) + Economy.TickIncome(trains[..i], picks[..i])
      {
        var income := picks[i] + trains[i].minIncome;
        money := money + income;
        assert trains[..i + 1][..i] == trains[..i];
        assert picks[..i + 1][..i] == picks[..i];
        i := i + 1;
      }
      assert trains[..i] == trains && picks[..i] == picks;
      SaveGameData();
    }
  }
}
