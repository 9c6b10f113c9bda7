/**
 * The local order store with its persistence stripped away: the order list
 * is an immutable sequence, newest first, and every operation returns the
 * next list instead of writing it to storage.
 */
module OrderStore {
  import opened Nullable
  import opened Models

  datatype CreateOrderInput = CreateOrderInput(
    passengerId: string,
    pickupAddress: string,
    dropoffAddress: string,
    estimatedDistanceKm: real,
    estimatedPrice: real
  )

  /** The `driverId` option: left out (`undefined`), or given, possibly as an explicit `null`. */
  datatype DriverPatch = Keep | Assign(driver: Option<string>)

  datatype UpdateOptions = UpdateOptions(finalPrice: Option<real>, driverId: DriverPatch)

  /** A call with no options object at all. */
  const NoOptions: UpdateOptions := UpdateOptions(None, Keep)

  datatype Created = Created(orders: seq<RideOrder>, order: RideOrder)

  /** The next list, and the patched order, or `None` when no order had the id. */
  datatype Updated = Updated(orders: seq<RideOrder>, updated: Option<RideOrder>)

  predicate HasId(orders: seq<RideOrder>, id: string) {
    exists i :: 0 <= i < |orders| && orders[i].id == id
  }

  predicate UniqueIds(orders: seq<RideOrder>) {
    forall i, j :: 0 <= i < j < |orders| ==> orders[i].id != orders[j].id
  }

  /** The order `createOrder` builds; the id is a parameter in place of `local-${Date.now()}`. */
  function NewOrder(input: CreateOrderInput, id: string, now: Timestamp): (o: RideOrder)
    ensures o.id == id && o.status == Pending
    ensures o.driverId == None && o.finalPrice == None && o.scheduledAt == None
    ensures o.startedAt == None && o.completedAt == None
    ensures o.createdAt == now && o.updatedAt == now
    ensures o.passengerId == input.passengerId
    ensures o.pickupAddress == input.pickupAddress && o.dropoffAddress == input.dropoffAddress
    ensures o.estimatedDistanceKm == Some(input.estimatedDistanceKm)
    ensures o.estimatedPrice == input.estimatedPrice
  {
    RideOrder(
      id := id,
      passengerId := input.passengerId,
      driverId := None,
      pickupAddress := input.pickupAddress,
      dropoffAddress := input.dropoffAddress,
      estimatedDistanceKm := Some(input.estimatedDistanceKm),
      estimatedPrice := input.estimatedPrice,
      finalPrice := None,
      status := Pending,
      createdAt := now,
      updatedAt := now,
      scheduledAt := None,
      startedAt := None,
      completedAt := None)
  }

  /** `createOrder`: the new order goes to the front, the old orders follow in their order. */
  function CreateOrder(orders: seq<RideOrder>, input: CreateOrderInput, id: string, now: Timestamp): (r: Created)
    ensures |r.orders| == |orders| + 1
    ensures r.orders[0] == r.order && r.orders[1..] == orders
    ensures r.order == NewOrder(input, id, now)
  {
    var order := NewOrder(input, id, now);
    Created([order] + orders, order)
  }

  /**
   * The patch `updateOrderStatus` applies to one matching order. Any target
   * status is accepted; the timestamps and the final price are set once.
   */
  function PatchOrder(o: RideOrder, status: RideStatus, now: Timestamp, options: UpdateOptions): (r: RideOrder)
    ensures r.status == status && r.updatedAt == now
    ensures KeepsIdentity(o, r)
    // startedAt: set on the first entry to in_progress, never overwritten
    ensures status == InProgress && !IsSet(o.startedAt) ==> r.startedAt == Some(now)
    ensures status != InProgress || IsSet(o.startedAt) ==> r.startedAt == o.startedAt
    // completedAt and finalPrice: set together on the first entry to completed
    ensures status == Completed && !IsSet(o.completedAt) ==>
              && r.completedAt == Some(now)
              && (options.finalPrice.Some? ==> r.finalPrice == options.finalPrice)
              && (options.finalPrice.None? ==> r.finalPrice == Some(o.estimatedPrice))
    ensures status != Completed || IsSet(o.completedAt) ==>
              r.completedAt == o.completedAt && r.finalPrice == o.finalPrice
    // driverId: overwritten exactly when the option is given, null included
    ensures options.driverId.Keep? ==> r.driverId == o.driverId
    ensures options.driverId.Assign? ==> r.driverId == options.driverId.driver
  {
    var started := if status == InProgress && !IsSet(o.startedAt) then Some(now) else o.startedAt;
    var completing := status == Completed && !IsSet(o.completedAt);
    var completed := if completing then Some(now) else o.completedAt;
    var finalPrice := if completing then Some(Coalesce(options.finalPrice, o.estimatedPrice)) else o.finalPrice;
    var driver := if options.driverId.Assign? then options.driverId.driver else o.driverId;
    o.(status := status, updatedAt := now, startedAt := started, completedAt := completed,
       finalPrice := finalPrice, driverId := driver)
  }

  /**
   * `updateOrderStatus`: a copy-on-write map that patches every order with
   * the id. The reported order is the last one patched, since the map
   * reassigns it on every match.
   */
  function UpdateOrderStatus(orders: seq<RideOrder>, orderId: string, status: RideStatus,
                             now: Timestamp, options: UpdateOptions): (r: Updated)
    ensures |r.orders| == |orders|
    ensures forall i :: 0 <= i < |orders| && orders[i].id != orderId ==> r.orders[i] == orders[i]
    ensures forall i :: 0 <= i < |orders| && orders[i].id == orderId ==>
              r.orders[i] == PatchOrder(orders[i], status, now, options)
    ensures r.updated.None? <==> !HasId(orders, orderId)
    ensures !HasId(orders, orderId) ==> r.orders == orders
    ensures r.updated.Some? ==>
              exists i :: 0 <= i < |orders| && orders[i].id == orderId && r.updated.value == r.orders[i] &&
                forall j :: i < j < |orders| ==> orders[j].id != orderId
    decreases |orders|
  {
    if orders == [] then Updated([], None)
    else
      var rest := UpdateOrderStatus(orders[1..], orderId, status, now, options);
      var head := if orders[0].id == orderId then PatchOrder(orders[0], status, now, options) else orders[0];
      var updated := if rest.updated.Some? then rest.updated
                     else if orders[0].id == orderId then Some(head)
                     else None;
      Updated([head] + rest.orders, updated)
  }

  /** `getOrderById`: the first order with the id. */
  function GetOrderById(orders: seq<RideOrder>, orderId: string): (r: Option<RideOrder>)
    ensures r.None? <==> !HasId(orders, orderId)
    ensures r.Some? ==>
              exists i :: 0 <= i < |orders| && orders[i] == r.value && r.value.id == orderId &&
                forall j :: 0 <= j < i ==> orders[j].id != orderId
    decreases |orders|
  {
    if orders == [] then None
    else if orders[0].id == orderId then Some(orders[0])
    else GetOrderById(orders[1..], orderId)
  }
}

module OrderStoreLemmas {
  import opened Nullable
  import opened Models
  import opened OrderStore

  /** After `createOrder` the new order is found under its id, and every other id finds what it found before. */
  lemma {:induction false} LookupAfterCreate(orders: seq<RideOrder>, input: CreateOrderInput, id: string,
                                            now: Timestamp, other: string)
    requires other != id
    ensures GetOrderById(CreateOrder(orders, input, id, now).orders, id) == Some(NewOrder(input, id, now))
    ensures GetOrderById(CreateOrder(orders, input, id, now).orders, other) == GetOrderById(orders, other)
  {
    var next := CreateOrder(orders, input, id, now).orders;
    assert next[1..] == orders;
  }

  /** A fresh id keeps the ids unique. */
  lemma CreateKeepsIdsUnique(orders: seq<RideOrder>, input: CreateOrderInput, id: string, now: Timestamp)
    requires UniqueIds(orders) && !HasId(orders, id)
    ensures UniqueIds(CreateOrder(orders, input, id, now).orders)
  {
    var next := CreateOrder(orders, input, id, now).orders;
    forall i, j | 0 <= i < j < |next|
      ensures next[i].id != next[j].id
    {
      if i == 0 {
        assert next[j] == orders[j - 1];
      } else {
        assert next[i] == orders[i - 1] && next[j] == orders[j - 1];
      }
    }
  }

  /** A status update never changes an id. */
  lemma UpdateKeepsIds(orders: seq<RideOrder>, orderId: string, status: RideStatus, now: Timestamp,
                       options: UpdateOptions)
    ensures var next := UpdateOrderStatus(orders, orderId, status, now, options).orders;
            forall i :: 0 <= i < |orders| ==> next[i].id == orders[i].id
    ensures UniqueIds(orders) ==> UniqueIds(UpdateOrderStatus(orders, orderId, status, now, options).orders)
  {
  }

  /**
   * Looking an id up after an update finds the patched version of what it
   * found before; any other id finds the same order as before.
   */
  lemma {:induction false} LookupAfterUpdate(orders: seq<RideOrder>, orderId: string, status: RideStatus,
                                            now: Timestamp, options: UpdateOptions, key: string)
    ensures var found := GetOrderById(orders, key);
            var next := UpdateOrderStatus(orders, orderId, status, now, options).orders;
            GetOrderById(next, key) ==
              if key == orderId && found.Some? then Some(PatchOrder(found.value, status, now, options))
              else found
    decreases |orders|
  {
    if orders != [] {
      var next := UpdateOrderStatus(orders, orderId, status, now, options).orders;
      assert next[1..] == UpdateOrderStatus(orders[1..], orderId, status, now, options).orders;
      assert next[0].id == orders[0].id;
      LookupAfterUpdate(orders[1..], orderId, status, now, options, key);
    }
  }

  /** With unique ids the order the update reports is the one a lookup then finds. */
  lemma UpdatedIsWhatLookupFinds(orders: seq<RideOrder>, orderId: string, status: RideStatus,
                                 now: Timestamp, options: UpdateOptions)
    requires UniqueIds(orders)
    ensures var r := UpdateOrderStatus(orders, orderId, status, now, options);
            r.updated == GetOrderById(r.orders, orderId)
  {
    var r := UpdateOrderStatus(orders, orderId, status, now, options);
    UpdateKeepsIds(orders, orderId, status, now, options);
    var found := GetOrderById(r.orders, orderId);
    if r.updated.Some? {
      var i :| 0 <= i < |orders| && orders[i].id == orderId && r.updated.value == r.orders[i];
      var k :| 0 <= k < |r.orders| && r.orders[k] == found.value && found.value.id == orderId;
      assert i == k;
    }
  }

  /** No transition check: any target, completed back to pending included, is applied to a known id. */
  lemma AnyTargetIsApplied(orders: seq<RideOrder>, orderId: string, status: RideStatus, now: Timestamp,
                           options: UpdateOptions)
    requires HasId(orders, orderId)
    ensures var r := UpdateOrderStatus(orders, orderId, status, now, options);
            r.updated.Some? && r.updated.value.status == status && r.updated.value.updatedAt == now
  {
  }

  /** A second entry to in_progress keeps the first start time. */
  lemma StartIsSetOnce(o: RideOrder, t1: Timestamp, t2: Timestamp, options: UpdateOptions)
    requires !IsSet(o.startedAt) && t1 != ""
    ensures var once := PatchOrder(o, InProgress, t1, options);
            var twice := PatchOrder(once, InProgress, t2, options);
            once.startedAt == Some(t1) && twice.startedAt == Some(t1)
  {
  }

  /** A second completion keeps the first completion time and final price. */
  lemma CompletionIsSetOnce(o: RideOrder, t1: Timestamp, t2: Timestamp, first: UpdateOptions, second: UpdateOptions)
    requires !IsSet(o.completedAt) && t1 != ""
    ensures var once := PatchOrder(o, Completed, t1, first);
            var twice := PatchOrder(once, Completed, t2, second);
            twice.completedAt == Some(t1) && twice.finalPrice == once.finalPrice
  {
  }
}
