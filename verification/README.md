# Ride orders: fare estimate, local order store, status actions

A Dafny model of the deterministic business logic of a ride-hailing mobile
client. It has three parts:

- **Fare calculator** (`Pricing`). A distance in kilometres becomes a
  `PriceResult`. The base fare of 10 covers the first kilometre. Every
  started extra kilometre costs 3. The price is capped at 35, and a
  `capped` flag records when the cap applied.
- **Local order store** (`OrderStore`, `OrderStoreLemmas`). This is the
  order list of the orders context without React state or storage.
  `CreateOrder` puts a fresh `Pending` order at the front. `UpdateOrderStatus`
  is a copy-on-write map that patches the orders with the id.
  `GetOrderById` finds the first order with the id.
- **Status actions of the order detail screen** (`OrderDetail`). These are
  the targets the screen offers for each status, and the options that
  `handleUpdate` passes to the store. This table is the only place the status
  machine is written down. The store itself applies any target.

The types of `src/types/models.ts` are in `Models`. `RideStatus` has five
constructors. `RideOrder` is an immutable record whose nullable columns are
`Option`s. Timestamps are opaque strings, and the current one is passed in as
`now`. The `driverId` option is tri-state (`DriverPatch`): `Keep` when it is
left out, or `Assign(None)` / `Assign(Some(d))` when it is given.

Modelling choices:
- Distances and the order's prices are exact `real`s; the fare estimate's
  amounts are exact `int`s. `Math.ceil` is `Pricing.Ceil`,
  built from `.Floor`.
- A timestamp column is "unset" when it is falsy, as the store's
  `!order.started_at` test decides. So `None` and the empty string both count
  as unset (`Models.IsSet`).
- Several orders may share an id. The store then patches all of them. The
  order it reports is the last one patched, because `updated` is reassigned on
  every match. `GetOrderById` returns the first one. Under unique ids the two
  agree (`OrderStoreLemmas.UpdatedIsWhatLookupFinds`).
- A negative distance is clamped to 0 by `Math.max`, not rejected.
- `updateOrderStatus` validates no transition, so completed back to pending
  is applied like any other target (`OrderStoreLemmas.AnyTargetIsApplied`).
  Only the detail screen restricts the targets it offers.

## Model

| member | source | states |
|---|---|---|
| Pricing.Ceil | src/utils/pricing.ts:16 | the result is the least integer not below its argument |
| Pricing.ExtraDistance | src/utils/pricing.ts:15 | the billable distance is never negative; it is 0 up to 1 km, negative distances included, and the distance beyond 1 km otherwise |
| Pricing.EstimateRidePrice | src/utils/pricing.ts:13-21 | base is always 10; the charge is a non-negative multiple of 3, 0 up to 1 km, and otherwise 3 times the least whole number of km covering the extra distance; 10 <= price <= 35; capped iff base + charge > 35; uncapped price is exactly base + charge, capped price is 35 |
| Pricing.ChargeIsFlatPerStartedKm | src/utils/pricing.ts:15-16 | every distance in the band (k, k+1] km, for k >= 1, is charged 3k: a started km is charged in full |
| Pricing.CappedBeyondNineKm | src/utils/pricing.ts:17-20 | the cap applies exactly to distances above 9 km |
| Pricing.PriceMonotone | src/utils/pricing.ts:15-18 | a longer distance never gets a lower charge or a lower price |
| Pricing.PolicyExamples | src/utils/pricing.ts:10-20 | 0 km and 1 km cost 10; 2 km cost 13; 3.4 km are charged 9 for a price of 19; 4.4 km cost 22; 10 km reach a raw 37 and are capped at 35 |
| OrderStore.NewOrder | src/context/OrdersContext.tsx:71-87 | a new order is pending with the given id; its driver, final price, schedule, start and completion are null; created and updated times are both `now`; the other columns are copied from the input |
| OrderStore.CreateOrder | src/context/OrdersContext.tsx:69-94 | the returned order is the new order with its given id and `now`, and it is prepended: the list grows by exactly one, and the old orders follow unchanged and in their order |
| OrderStore.PatchOrder | src/context/OrdersContext.tsx:108-126 | status becomes the target and `updated_at` becomes `now`, with no transition check; the start time is set only on entry to in_progress while unset, and never overwritten once set; completion time and final price are set together only on entry to completed while unset, to the given final price if any (0 included), otherwise to the estimate; the driver changes exactly when the option is given, an explicit null clears it; every other column is unchanged |
| OrderStore.UpdateOrderStatus | src/context/OrdersContext.tsx:96-134 | the list keeps its length and order; orders with another id are unchanged; orders with the id are patched; the result is null iff no order has the id, and then the list is unchanged; otherwise it is the patched order at the last position with the id |
| OrderStore.GetOrderById | src/context/OrdersContext.tsx:136-139 | the result is none iff no order has the id; otherwise it is the order at the first position with the id |
| OrderStoreLemmas.LookupAfterCreate | src/context/OrdersContext.tsx:89 | after creation the new order is found under its id, and every other id finds what it found before |
| OrderStoreLemmas.CreateKeepsIdsUnique | src/context/OrdersContext.tsx:89 | prepending an order with a fresh id keeps all ids distinct |
| OrderStoreLemmas.UpdateKeepsIds | src/context/OrdersContext.tsx:105-127 | an update changes no order's id, so distinct ids stay distinct |
| OrderStoreLemmas.LookupAfterUpdate | src/context/OrdersContext.tsx:105-128 | after an update, looking up the updated id finds the patched version of what it found before; any other id finds the same order as before |
| OrderStoreLemmas.UpdatedIsWhatLookupFinds | src/context/OrdersContext.tsx:103-131 | with distinct ids, the order the update returns is the one a later lookup finds |
| OrderStoreLemmas.AnyTargetIsApplied | src/context/OrdersContext.tsx:108-111 | for a known id every target is applied, completed back to pending included, and `updated_at` becomes `now` |
| OrderStoreLemmas.StartIsSetOnce | src/context/OrdersContext.tsx:113-115 | entering in_progress twice keeps the first start time |
| OrderStoreLemmas.CompletionIsSetOnce | src/context/OrdersContext.tsx:117-120 | completing twice keeps the first completion time and final price |
| OrderDetail.ActionsFor | src/screens/Orders/OrderDetailScreen.tsx:44-54 | pending offers exactly accepted then canceled, accepted exactly in_progress then canceled, in_progress only completed, completed and canceled nothing: each target is offered from exactly one status, except cancel from both pending and accepted; when two are offered, cancel comes second; pending and the current status are never offered |
| OrderDetail.Actions | src/screens/Orders/OrderDetailScreen.tsx:40-55 | a missing order offers nothing; a present one offers the targets of its status |
| OrderDetail.OfferedTargetsAdvance | src/screens/Orders/OrderDetailScreen.tsx:44-52 | every offered target is canceled or the next stage of pending < accepted < in_progress < completed, and leaves fewer steps to go |
| OrderDetail.HandleUpdateOptions | src/screens/Orders/OrderDetailScreen.tsx:65-69 | a final price is passed exactly when the target is completed, then the order's final price if it has one, otherwise its estimate; a driver is never passed |
| OrderDetail.HandleUpdate | src/screens/Orders/OrderDetailScreen.tsx:65-69 | the screen's update keeps the list length and reports null exactly when the order's id is no longer in the list |
| OrderDetail.UiCompletionSettlesAtEstimate | src/screens/Orders/OrderDetailScreen.tsx:66-69 | completing through the screen an order with no final price and no completion time sets the final price to the estimate and the completion time to `now` |
| OrderDetail.NewOrderIsConsistent | src/context/OrdersContext.tsx:72-87 | a new order satisfies the lifecycle invariant: it has no start time, no completion time and no final price |
| OrderDetail.UiStepKeepsConsistent | src/screens/Orders/OrderDetailScreen.tsx:44-69 | a step the screen offers keeps the lifecycle invariant, and changes no identity column and no driver |
| OrderDetail.UiRunIsBounded | src/screens/Orders/OrderDetailScreen.tsx:44-52 | a run of screen-offered steps has at most as many steps as its start status allows, three from pending |
| OrderDetail.UiRunNeverGoesBack | src/screens/Orders/OrderDetailScreen.tsx:44-52 | along a screen-driven run the steps left strictly decrease, so no status is entered twice or re-entered after it was left |
| OrderDetail.UiRunFromPendingEnds | src/screens/Orders/OrderDetailScreen.tsx:44-54 | a screen-driven run from pending that cannot be extended has one to three steps and ends in completed or canceled |
| OrderDetail.UiRunsReachEveryEnd | src/screens/Orders/OrderDetailScreen.tsx:44-52 | from pending the screen can complete a ride via accepted and in_progress, and can cancel it before or after acceptance |
| OrderDetail.ApplyUiRun | src/screens/Orders/OrderDetailScreen.tsx:65-69 | after a run of screen updates the order is in the status of the last step |
| OrderDetail.UiRunSetsEachTimestampOnce | src/context/OrdersContext.tsx:113-120 | along a screen-driven run the lifecycle invariant holds; the start time is the time of the in_progress step; the completion time is that of the completed step, with the final price equal to the estimate; without those steps the columns keep their values; identity columns and driver are untouched |
| OrderDetail.HandleUpdateKeepsOrderConsistent | src/screens/Orders/OrderDetailScreen.tsx:37-69 | with distinct ids, a screen-offered update of the order found by id returns that order after one step, a later lookup finds it, and it stays consistent |
| Scenario.RideLifecycleExample | src/context/OrdersContext.tsx:69-134 | a 4.4 km ride is estimated at 22; created, accepted with driver "d1", started and completed without an amount, it settles at 22 with its driver and with the start and completion times of those steps |

## Left out

- The haversine distance of `src/utils/geo.ts` uses floating-point trigonometry. The model takes the distance as an input.
- IEEE-754 doubles are not modelled: distances and the order's prices are exact reals and the fare estimate's amounts exact integers, so rounding in `distanceKm - 1` and NaN or infinite inputs are not covered.
- Persistence is left out: `persist`, `refreshOrders`, the AsyncStorage key and JSON (de)serialisation are I/O. Each operation returns the next list instead of storing it.
- React state, hooks, memoisation, the loading flag and the context provider are framework plumbing, and so is the auth context (`src/context/AuthContext.tsx`), which holds the session, follows auth changes and exposes sign-in and sign-out.
- Order id generation (`local-${Date.now()}`) and `new Date().toISOString()` read the clock. The id and `now` are parameters.
- The screen's labels, colours, alerts and navigation calls are rendering only.
- The backend services (`src/services/orderService.ts`, `paymentService.ts`, `authService.ts`) are query wrappers with no logic beyond field mapping.
- The static location catalogue (`src/data/locations.ts`) only feeds the distance function.
