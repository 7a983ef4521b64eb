/** The read-only economic catalog: the four train tiers, the fleet and route
    limits, the route price and the starting money. */
module Catalog {
  import opened Wrappers

  /** One tier of rolling stock: per-car income bounds and the flat surcharge
      charged once per purchase. */
  datatype TrainType = TrainType(name: string, min: int, max: int, cost: int)

  const TrainTypes: seq<TrainType> := [
    TrainType("普通", 1, 100, 2000),
    TrainType("急行", 50, 200, 5550),
    TrainType("特急", 150, 300, 10000),
    TrainType("観光特急", 1000, 1100, 20000)
  ]

  /** Money a new game starts with (one 万). */
  const StartingMoney: int := 10000

  /** At most this many routes can be owned. */
  const MaxRoutes: nat := 5

  /** A train has between 1 and this many cars. */
  const MaxCars: int := 6

  /** Price of one route. */
  const RoutePrice: int := 500000

  /** Every tier has a positive lower income bound below its upper bound, and
      tier names are distinct, so a lookup by name is unambiguous. */
  lemma CatalogWellFormed()
    ensures forall t :: t in TrainTypes ==> 1 <= t.min <= t.max && 0 < t.cost
    ensures forall i, j :: 0 <= i < j < |TrainTypes| ==> TrainTypes[i].name != TrainTypes[j].name
  {
  }

  /** The first entry of `types` whose name is `name`, as `Array.prototype.find` does. */
  function FindIn(types: seq<TrainType>, name: string): (r: Option<TrainType>)
    ensures r.Some? ==> r.value in types && r.value.name == name
    ensures r.Some? ==> exists i :: 0 <= i < |types| && types[i] == r.value &&
                                   forall j :: 0 <= j < i ==> types[j].name != name
    ensures r.None? <==> forall t :: t in types ==> t.name != name
    decreases |types|
  {
    if types == [] then None
    else if types[0].name == name then Some(types[0])
    else
      var r := FindIn(types[1..], name);
      if r.Some? then
        var i :| 0 <= i < |types[1..]| && types[1..][i] == r.value &&
                 forall j :: 0 <= j < i ==> types[1..][j].name != name;
        assert types[i + 1] == r.value;
        assert forall j :: 0 <= j < i + 1 ==> types[j].name != name by {
          forall j | 0 <= j < i + 1 ensures types[j].name != name {
            if j > 0 { assert types[j] == types[1..][j - 1]; }
          }
        }
        r
      else r
  }

  /** Looks a tier up in the catalog by name. */
  function FindType(name: string): (r: Option<TrainType>)
    ensures r.Some? ==> r.value in TrainTypes && r.value.name == name
    ensures r.None? <==> forall t :: t in TrainTypes ==> t.name != name
  {
    FindIn(TrainTypes, name)
  }
}
