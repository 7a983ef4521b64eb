/** The game state as a value and the rules that change it: buying a train,
    buying a route, selling a train and one income tick. The class in module
    Game performs these steps in place; the functions here are what its
    methods are proved against, and the lemmas here state what the rules
    guarantee. */
module Economy {
  import opened Wrappers
  import opened Catalog

  /** A fleet entry. `minIncome` and `maxIncome` are cached when the train is
      bought and never recomputed. */
  datatype Train = Train(
    name: string,
    cars: int,
    typeName: string,
    memo: string,
    trainNumber: string,
    minIncome: int,
    maxIncome: int)

  /** A route; its income is set to 0 on purchase and nothing changes it. */
  datatype Route = Route(income: int)

  datatype GameState = GameState(money: int, trains: seq<Train>, routes: seq<Route>)

  /** What the player entered to buy a train. */
  datatype TrainOrder = TrainOrder(
    name: string,
    cars: int,
    memo: string,
    typeName: string,
    trainNumber: string)

  /** Why a purchase of a train was refused. */
  datatype TrainError = CarsOutOfRange | InsufficientFunds

  /** The state of a fresh game. */
  const Initial: GameState := GameState(StartingMoney, [], [])

  // ---------------------------------------------------------------------------
  // The invariant every rule keeps

  /** A train as a purchase builds it: a legal car count and incomes that are
      the tier's per-car bounds times the car count. */
  predicate ValidTrain(t: Train) {
    1 <= t.cars <= MaxCars &&
    match FindType(t.typeName)
    case None => false
    case Some(tier) => t.minIncome == tier.min * t.cars && t.maxIncome == tier.max * t.cars
  }

  /** Money never below zero, at most MaxRoutes routes, all of them with zero
      income, and every train valid. */
  predicate ValidState(s: GameState) {
    0 <= s.money &&
    |s.routes| <= MaxRoutes &&
    (forall r :: r in s.routes ==> r.income == 0) &&
    (forall t :: t in s.trains ==> ValidTrain(t))
  }

  lemma InitialValid()
    ensures ValidState(Initial)
  {
  }

  /** A valid train earns at least 1 per tick and its range is not empty. */
  lemma ValidTrainIncome(t: Train)
    requires ValidTrain(t)
    ensures 1 <= t.minIncome <= t.maxIncome
  {
    CatalogWellFormed();
    var tier := FindType(t.typeName).value;
    assert 1 <= tier.min <= tier.max;
    assert tier.min * 1 <= tier.min * t.cars <= tier.max * t.cars;
  }

  // ---------------------------------------------------------------------------
  // Buying a train

  /** The record a purchase appends: the order's name, car count, tier name,
      memo and train number, with incomes the tier's bounds per car. */
  function NewTrain(order: TrainOrder, tier: TrainType): (t: Train)
    requires FindType(order.typeName) == Some(tier)
    ensures 1 <= order.cars <= MaxCars ==> ValidTrain(t) && 1 <= t.minIncome <= t.maxIncome
  {
    var t := Train(order.name, order.cars, order.typeName, order.memo, order.trainNumber,
                   tier.min * order.cars, tier.max * order.cars);
    if 1 <= order.cars <= MaxCars then ValidTrainIncome(t); t else t
  }

  /** Buying a train: the car count is checked first, then that the surcharge
      is affordable; a purchase debits the surcharge and appends one train. */
  function AddTrain(s: GameState, order: TrainOrder, additionalCost: int): (r: Result<GameState, TrainError>)
    requires 1 <= order.cars <= MaxCars && additionalCost <= s.money ==> FindType(order.typeName).Some?
    ensures (order.cars < 1 || order.cars > MaxCars) ==> r == Failure(CarsOutOfRange)
    ensures 1 <= order.cars <= MaxCars && s.money < additionalCost ==> r == Failure(InsufficientFunds)
    ensures r.Success? <==> 1 <= order.cars <= MaxCars && additionalCost <= s.money
    ensures r.Success? ==>
      && r.value.money == s.money - additionalCost
      && r.value.routes == s.routes
      && |r.value.trains| == |s.trains| + 1
      && r.value.trains[..|s.trains|] == s.trains
      && ValidTrain(r.value.trains[|s.trains|])
      && r.value.trains[|s.trains|] == NewTrain(order, FindType(order.typeName).value)
  {
    if order.cars < 1 || order.cars > MaxCars then Failure(CarsOutOfRange)
    else if s.money < additionalCost then Failure(InsufficientFunds)
    else
      var t := NewTrain(order, FindType(order.typeName).value);
      Success(GameState(s.money - additionalCost, s.trains + [t], s.routes))
  }

  lemma AddTrainKeepsValid(s: GameState, order: TrainOrder, additionalCost: int)
    requires ValidState(s) && FindType(order.typeName).Some?
    ensures AddTrain(s, order, additionalCost).Success? ==> ValidState(AddTrain(s, order, additionalCost).value)
  {
    var r := AddTrain(s, order, additionalCost);
    if r.Success? {
      var t := r.value.trains[|s.trains|];
      assert r.value.trains == s.trains + [t];
      forall u | u in r.value.trains ensures ValidTrain(u) {
        if u != t { assert u in s.trains; }
      }
    }
  }

  // ---------------------------------------------------------------------------
  // Buying a route

  /** Buying a route when money covers the price and fewer than MaxRoutes are
      owned; otherwise nothing happens. Trains are never touched. */
  function AddRoute(s: GameState): (r: GameState)
    ensures r.trains == s.trains
    ensures r == s || (r.routes == s.routes + [Route(0)] && r.money == s.money - RoutePrice)
    ensures r != s <==> RoutePrice <= s.money && |s.routes| < MaxRoutes
    ensures |s.routes| <= MaxRoutes ==> |r.routes| <= MaxRoutes
  {
    if s.money >= RoutePrice && |s.routes| < MaxRoutes then
      s.(money := s.money - RoutePrice, routes := s.routes + [Route(0)])
    else s
  }

  lemma AddRouteKeepsValid(s: GameState)
    requires ValidState(s)
    ensures ValidState(AddRoute(s))
  {
  }

  /** `n` presses of the route button in a row. */
  function AddRouteTimes(s: GameState, n: nat): GameState
    decreases n
  {
    if n == 0 then s else AddRouteTimes(AddRoute(s), n - 1)
  }

  /** However often routes are bought, the cap holds, the fleet is untouched,
      and exactly RoutePrice was paid per route gained; once the cap is
      reached every further purchase is a no-op. */
  lemma {:induction false} AddRouteTimesCapped(s: GameState, n: nat)
    requires |s.routes| <= MaxRoutes
    ensures |s.routes| <= |AddRouteTimes(s, n).routes| <= MaxRoutes
    ensures AddRouteTimes(s, n).trains == s.trains
    ensures AddRouteTimes(s, n).money == s.money - RoutePrice * (|AddRouteTimes(s, n).routes| - |s.routes|)
    ensures |s.routes| == MaxRoutes ==> AddRouteTimes(s, n) == s
    decreases n
  {
    if n > 0 {
      AddRouteTimesCapped(AddRoute(s), n - 1);
    }
  }

  // ---------------------------------------------------------------------------
  // Selling a train

  /** Selling entry `index`: an index outside the fleet is refused (the
      lookup yields no train), otherwise 10 times the train's minimum income
      is credited and exactly that entry is removed, keeping the order of
      the others. */
  function SellTrain(s: GameState, index: int): (r: Option<GameState>)
    ensures r.None? <==> !(0 <= index < |s.trains|)
    ensures r.Some? ==>
      && r.value.money == s.money + 10 * s.trains[index].minIncome
      && r.value.routes == s.routes
      && |r.value.trains| == |s.trains| - 1
      && (forall j :: 0 <= j < index ==> r.value.trains[j] == s.trains[j])
      && (forall j :: index <= j < |r.value.trains| ==> r.value.trains[j] == s.trains[j + 1])
  {
    if 0 <= index < |s.trains| then
      Some(GameState(s.money + s.trains[index].minIncome * 10, s.trains[..index] + s.trains[index + 1..], s.routes))
    else None
  }

  /** A sale removes one copy of the sold train and nothing else from the fleet. */
  lemma SellTrainRemovesOne(s: GameState, index: int)
    requires 0 <= index < |s.trains|
    ensures multiset(SellTrain(s, index).value.trains) + multiset{s.trains[index]} == multiset(s.trains)
  {
    var r := SellTrain(s, index).value;
    assert r.trains == s.trains[..index] + s.trains[index + 1..];
    assert s.trains == s.trains[..index] + [s.trains[index]] + s.trains[index + 1..];
  }

  lemma SellTrainKeepsValid(s: GameState, index: int)
    requires ValidState(s) && 0 <= index < |s.trains|
    ensures ValidState(SellTrain(s, index).value)
  {
    ValidTrainIncome(s.trains[index]);
    var r := SellTrain(s, index).value;
    forall u | u in r.trains ensures ValidTrain(u) {
      var j :| 0 <= j < |r.trains| && r.trains[j] == u;
      if j < index { assert u == s.trains[j]; } else { assert u == s.trains[j + 1]; }
    }
  }

  /** Buying a train and selling it straight back restores the fleet and
      leaves the money changed by the buy-back minus the surcharge. */
  lemma BuyThenSell(s: GameState, order: TrainOrder, additionalCost: int)
    requires FindType(order.typeName).Some?
    requires AddTrain(s, order, additionalCost).Success?
    ensures var tier := FindType(order.typeName).value;
      SellTrain(AddTrain(s, order, additionalCost).value, |s.trains|)
      == Some(s.(money := s.money - additionalCost + 10 * (tier.min * order.cars)))
  {
    var b := AddTrain(s, order, additionalCost).value;
    var r := SellTrain(b, |s.trains|).value;
    assert r.trains == b.trains[..|s.trains|];
  }

  // ---------------------------------------------------------------------------
  // One income tick

  /** `picks[i]` is the random offset drawn for train i: an integer between 0
      and the width of that train's income range. */
  predicate PicksInRange(trains: seq<Train>, picks: seq<int>) {
    |picks| == |trains| &&
    forall i :: 0 <= i < |trains| ==> 0 <= picks[i] <= trains[i].maxIncome - trains[i].minIncome
  }

  /** The money one tick adds: for each train, its pick plus its minimum income. */
  function TickIncome(trains: seq<Train>, picks: seq<int>): (r: int)
    requires |picks| == |trains|
    ensures (forall i :: 0 <= i < |picks| ==> picks[i] == 0) ==> r == TotalMinIncome(trains)
    decreases |trains|
  {
    if trains == [] then 0
    else TickIncome(trains[..|trains| - 1], picks[..|picks| - 1]) + (picks[|picks| - 1] + trains[|trains| - 1].minIncome)
  }

  function TotalMinIncome(trains: seq<Train>): int
    decreases |trains|
  {
    if trains == [] then 0 else TotalMinIncome(trains[..|trains| - 1]) + trains[|trains| - 1].minIncome
  }

  function TotalMaxIncome(trains: seq<Train>): int
    decreases |trains|
  {
    if trains == [] then 0 else TotalMaxIncome(trains[..|trains| - 1]) + trains[|trains| - 1].maxIncome
  }

  /** Each train contributes between its minimum and maximum income, so the
      whole tick lies between the fleet's total minimum and total maximum. */
  lemma {:induction false} TickIncomeBounds(trains: seq<Train>, picks: seq<int>)
    requires PicksInRange(trains, picks)
    ensures TotalMinIncome(trains) <= TickIncome(trains, picks) <= TotalMaxIncome(trains)
    decreases |trains|
  {
    if trains != [] {
      var n := |trains| - 1;
      assert PicksInRange(trains[..n], picks[..n]);
      TickIncomeBounds(trains[..n], picks[..n]);
    }
  }

  /** When every train's income range is a single value, the only possible
      picks are zeros and the tick adds exactly the fleet's total minimum. */
  lemma {:induction false} FixedIncomeTick(trains: seq<Train>, picks: seq<int>)
    requires PicksInRange(trains, picks)
    requires forall t :: t in trains ==> t.minIncome == t.maxIncome
    ensures TickIncome(trains, picks) == TotalMinIncome(trains) == TotalMaxIncome(trains)
    decreases |trains|
  {
    if trains != [] {
      var n := |trains| - 1;
      assert PicksInRange(trains[..n], picks[..n]);
      assert forall t :: t in trains[..n] ==> t in trains;
      assert trains[n] in trains;
      FixedIncomeTick(trains[..n], picks[..n]);
    }
  }

  /** The fleet of a valid state earns a non-negative total minimum. */
  lemma {:induction false} ValidFleetEarns(trains: seq<Train>)
    requires forall t :: t in trains ==> ValidTrain(t)
    ensures 0 <= TotalMinIncome(trains)
    decreases |trains|
  {
    if trains != [] {
      var n := |trains| - 1;
      assert forall t :: t in trains[..n] ==> t in trains;
      assert trains[n] in trains;
      ValidTrainIncome(trains[n]);
      ValidFleetEarns(trains[..n]);
    }
  }

  /** One income tick: money grows by a draw per train and nothing else
      changes; the increase lies between the fleet's total minimum and total
      maximum income. */
  function IncomeTick(s: GameState, picks: seq<int>): (r: GameState)
    requires PicksInRange(s.trains, picks)
    ensures r.trains == s.trains && r.routes == s.routes
    ensures TotalMinIncome(s.trains) <= r.money - s.money <= TotalMaxIncome(s.trains)
    ensures s.trains == [] ==> r == s
  {
    TickIncomeBounds(s.trains, picks);
    s.(money := s.money + TickIncome(s.trains, picks))
  }

  lemma IncomeTickKeepsValid(s: GameState, picks: seq<int>)
    requires ValidState(s) && PicksInRange(s.trains, picks)
    ensures ValidState(IncomeTick(s, picks))
  {
    ValidFleetEarns(s.trains);
  }
}
