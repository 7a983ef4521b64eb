# Train tycoon economy, modelled in Dafny

This project models the economy of a browser idle game about running a
railway (`script.js`). The player holds money (starting at 10000, one 万),
buys trains of four tiers (普通, 急行, 特急, 観光特急) with 1 to 6 cars, and
buys up to 5 routes at 500000 each. Once a second every train earns a random
amount between its cached minimum and maximum income. A train can be sold
back for 10 times its minimum income. After each change the game writes a
three-field snapshot (money, trains, routes) to the browser's local storage.
On page load it reads the snapshot back, and each field falls back to its own
default.

Files:

- `wrappers.dfy`: `Option` and `Result`.
- `catalog.dfy` (module `Catalog`): the tier table, `MaxCars`, `MaxRoutes`,
  the route price, the starting money and the lookup of a tier by name.
- `economy.dfy` (module `Economy`): the game state as a value and one pure
  rule per operation. Also the invariant `ValidState` (money never negative,
  at most 5 routes each with income 0, every train's cached incomes
  consistent with its tier and car count) and the lemmas that every rule keeps
  it.
- `display.dfy` (module `Display`): the 万/円 split of the money display.
- `persistence.dfy` (module `Persistence`): the snapshot, saving, the
  field-by-field defaulting on load, and the save/load round trip.
- `game.dfy` (module `Game`): class `Game`, whose fields are the source's
  mutable `money`, `trains` and `routes` plus the stored record. Its methods
  do the source's steps in place. Each operation is proved to end in the
  state its rule gives: the rules of `Economy` for trades and income ticks,
  `Persistence.Restore` for loading. A trade or tick that changes the state
  also stores that state's snapshot (an income tick always stores it). A
  refused call, a route purchase that does nothing, and a load leave the
  store as it was.

Modelling decisions:

- The random draw of `updateIncome` is `Math.floor(Math.random() * (max - min + 1))`.
  It becomes a caller-supplied integer per train (a "pick") between 0 and
  `maxIncome - minIncome`. The loop adds the pick plus `minIncome`, as the
  source does.
- The surcharge of `addTrain` is read from the page's `<option>` element,
  not from the tier table. It is therefore a parameter (`additionalCost`).
  The train number that the source asks for with a prompt is part of the
  order.
- Selling at an index with no train: the source reads `undefined.minIncome`
  and throws before anything changes. The model returns `None` (`sold ==
  false`) and leaves the state and the store untouched.
- Loading has two details worth stating. First, a
  stored money of 0 counts as falsy and loads as 10000, so `load(save(S)) ==
  S` holds exactly when the money of `S` is not 0 (`Persistence.LoadAfterSave`).
  Second, a malformed stored record is not caught by the code, so it does not
  fall back to defaults (see "Left out").
- `formatMoney` is modelled for every integer with JavaScript's semantics: the
  万 part is floored and the 円 part is the remainder truncated toward zero.
  For amounts of 0 and above this is the usual unique split. For a negative
  amount that is not a whole number of 万, both parts are negative and they do
  not add back up: -1 shows as -1万-1円 (`Display.FormatMoneyNegative`). In
  this file money cannot become negative from a valid state
  (`ValidState`), so this is described here rather than reported as a defect.

## Model

| member | source | states |
|---|---|---|
| `Catalog.CatalogWellFormed` | script.js:1-6 | every tier has 1 <= min <= max and a positive cost, and tier names are distinct |
| `Catalog.FindIn` | script.js:63 | the lookup finds the first entry with the requested name, and finds nothing exactly when no entry has that name |
| `Catalog.FindType` | script.js:63-64 | a tier is found in the catalog exactly when some catalog entry has that name, and the tier found has that name |
| `Economy.InitialValid` | script.js:8-10 | a fresh game (10000, no trains, no routes) satisfies the game invariant |
| `Economy.ValidTrainIncome` | script.js:63-64 | a train built from a catalog tier with 1..6 cars has 1 <= minIncome <= maxIncome |
| `Economy.NewTrain` | script.js:57-65 | the record built for a catalog tier (the tier the name lookup finds) with 1..6 cars is a valid train, with 1 <= minIncome <= maxIncome |
| `Economy.AddTrain` | script.js:41-67 | a bad car count fails with CarsOutOfRange before the money is looked at; otherwise money below the surcharge fails with InsufficientFunds; a purchase happens exactly when both checks pass, and then debits exactly the surcharge, keeps the routes, keeps the old fleet as a prefix and appends one valid train: the record built from the order's name, car count, tier, memo and train number, with the tier's per-car incomes times the car count; the tier must exist only when the purchase goes ahead |
| `Economy.AddTrainKeepsValid` | script.js:41-67 | a purchase keeps the game invariant, so money never goes below 0 |
| `Economy.AddRoute` | script.js:72-80 | the fleet is never touched; a route with income 0 is appended and exactly 500000 debited exactly when money >= 500000 and fewer than 5 routes are owned, otherwise nothing changes; at most 5 routes stay at most 5 |
| `Economy.AddRouteKeepsValid` | script.js:72-80 | buying a route keeps the game invariant |
| `Economy.AddRouteTimesCapped` | script.js:72-80 | any number of route purchases in a row never exceeds 5 routes, never touches the fleet, and costs exactly 500000 per route gained; at the cap every purchase is a no-op |
| `Economy.SellTrain` | script.js:84-87 | a sale fails exactly when the index has no train; otherwise it credits exactly 10 times that train's minIncome, keeps the routes, and removes exactly that entry, keeping the order of the rest |
| `Economy.SellTrainRemovesOne` | script.js:87 | the fleet after a sale, plus the sold train, is the old fleet as a multiset |
| `Economy.SellTrainKeepsValid` | script.js:84-87 | a sale keeps the game invariant |
| `Economy.BuyThenSell` | script.js:84-87 | selling the train just bought restores the fleet and routes, and the net money change is the buy-back minus the surcharge |
| `Economy.TickIncome` | script.js:158-160 | the money one tick adds, one draw per train in fleet order; when every pick is 0 (each train at its minimum) it is exactly the fleet's total minimum income |
| `Economy.TickIncomeBounds` | script.js:158-161 | with every pick in range, one tick adds between the fleet's total minimum and total maximum income |
| `Economy.FixedIncomeTick` | script.js:159 | when every train's minIncome equals its maxIncome, a tick adds exactly the sum of those incomes |
| `Economy.ValidFleetEarns` | script.js:157-161 | a fleet of valid trains has a non-negative total minimum income |
| `Economy.IncomeTick` | script.js:157-161 | a tick changes only money, by an amount between the fleet's total minimum and total maximum income; with no trains nothing changes |
| `Economy.IncomeTickKeepsValid` | script.js:157-161 | an income tick keeps the game invariant |
| `Display.TruncatedRemainder` | script.js:128 | the 円 part differs from the amount by a multiple of 10000, has the sign of the amount and magnitude below 10000 (the remainder truncated toward zero) |
| `Display.FormatMoney` | script.js:126-129 | the 万 part is the amount divided by 10000 rounded down; for amount >= 0, 0 <= 円 < 10000 and 万 * 10000 + 円 == amount |
| `Display.FormatMoneyUnique` | script.js:126-128 | for amount >= 0 the split is the only one with a 円 part in [0, 10000) |
| `Display.FormatMoneyNegative` | script.js:126-128 | for a negative amount that is not a whole number of 万, the two parts add up to 10000 less than the amount (-1 shows as -1万-1円) |
| `Persistence.Save` | script.js:133-139 | a save writes all three fields |
| `Persistence.RestoreMoney` | script.js:147 | a stored non-zero amount is kept; a missing or zero amount becomes the starting money 10000; so loaded money is never 0 |
| `Persistence.Restore` | script.js:145-149 | each field is taken from the record when present (money only when not 0); a missing or zero money becomes 10000 and missing trains or routes become empty; loaded money is never 0 |
| `Persistence.LoadAfterSave` | script.js:133-149 | loading what was saved gives the same state exactly when its money is not 0; money 0 comes back as 10000 with the same fleet and routes |
| `Persistence.RestoreEmpty` | script.js:147-149 | a record with no fields loads as a fresh game |
| `Persistence.RestoreFieldwise` | script.js:147-149 | changing one field of the record changes only that field of the loaded state |
| `Persistence.LoadAfterSaveKeepsValid` | script.js:133-149 | saving then loading a valid state gives a valid state |
| `Game.Game.constructor` | script.js:8-10 | a page load starts with 10000, no trains and no routes, with the store as earlier sessions left it |
| `Game.Game.SaveGameData` | script.js:133-140 | storage holds the snapshot of the current state; the state is unchanged |
| `Game.Game.LoadGameData` | script.js:143-154 | with no stored record the state is unchanged; otherwise it is the stored record with each field defaulted on its own |
| `Game.Game.Start` | script.js:23-28 | page start loads the saved game and then saves the loaded state |
| `Game.Game.AddTrain` | script.js:34-70 | a refused purchase reports its reason and leaves state and store unchanged; a purchase leaves exactly the state `Economy.AddTrain` gives, and saves it |
| `Game.Game.AddRoute` | script.js:72-82 | leaves exactly the state `Economy.AddRoute` gives, and saves only when a route was bought |
| `Game.Game.SellTrain` | script.js:84-91 | a bad index changes nothing; a sale leaves exactly the state `Economy.SellTrain` gives, and saves it |
| `Game.Game.UpdateIncome` | script.js:157-163 | the loop over the fleet leaves exactly the state `Economy.IncomeTick` gives, and saves it, also with an empty fleet |

## Left out

- Rendering: `displayTrains`, `displayRoutes`, the `textContent` write of `updateMoney`, the `document.getElementById` reads, and `updateRouteButtonState`. The last one is called but not defined in `script.js`, and it is not part of this model.
- User dialogs: `alert` messages are not modelled. The `prompt` for the train number is an input, and a cancelled prompt, which would store null, is not modelled.
- Input parsing: `parseInt` of the car count and surcharge. A non-numeric car count gives NaN, which passes the car-count check. Here both values are integers.
- Game.Game.AddTrain: requires the tier name to be in the catalog when both checks pass (a refused purchase never looks the tier up). With an unknown name the source would throw at the lookup after the surcharge was debited and saved; that path is not modelled.
- Game.Game.UpdateIncome: the random draw is a caller-supplied pick. The floating-point `Math.random` and the one-second `setInterval` timer are not modelled. The pick's precondition cannot be met for a train whose minIncome exceeds its maxIncome. Such a train can only come from an edited stored record.
- Game.Game.LoadGameData: only records that parse are modelled. The code does not catch `JSON.parse` errors, and a malformed record makes the load throw and leave the starting state.
- Numbers are unbounded integers. JavaScript numbers lose integer precision beyond 2^53, which affects money and incomes in every operation; that is not modelled, and neither is the JSON encoding of the snapshot.
- Display.FormatMoney: returns the two numbers; the `toLocaleString` digit grouping and the 万/円 text are not modelled.
- Maintenance costs and resetting the money are not implemented in `script.js`, so they are not modelled.
