/** The end-to-end ride: estimate, create, accept with a driver, start, complete. */
module Scenario {
  import opened Nullable
  import opened Models
  import opened Pricing
  import opened OrderStore

  /**
   * A 4.4 km ride is estimated at 10 + ceil(3.4) * 3 = 22; taken through
   * accepted (driver "d1"), in_progress and completed without a settlement
   * amount, it settles at 22 with every timestamp set from its own step.
   */
  lemma RideLifecycleExample(orders: seq<RideOrder>, t0: Timestamp, t1: Timestamp, t2: Timestamp, t3: Timestamp)
    requires !HasId(orders, "local-1")
    ensures var estimate := EstimateRidePrice(4.4);
            var input := CreateOrderInput("p1", "A", "B", 4.4, estimate.price as real);
            var created := CreateOrder(orders, input, "local-1", t0);
            var accepted := UpdateOrderStatus(created.orders, "local-1", Accepted, t1,
                                              UpdateOptions(None, Assign(Some("d1"))));
            var started := UpdateOrderStatus(accepted.orders, "local-1", InProgress, t2, NoOptions);
            var completed := UpdateOrderStatus(started.orders, "local-1", Completed, t3, NoOptions);
            && estimate.price == 22
            && completed.updated.Some?
            && var o := completed.updated.value;
               && o.status == Completed
               && o.driverId == Some("d1")
               && o.startedAt == Some(t2)
               && o.completedAt == Some(t3)
               && o.finalPrice == Some(22.0)
               && o.createdAt == t0 && o.updatedAt == t3
               && completed.orders[1..] == orders
  {
    var estimate := EstimateRidePrice(4.4);
    assert estimate.price == 22 by {
      Pricing.PolicyExamples();
    }
    var input := CreateOrderInput("p1", "A", "B", 4.4, estimate.price as real);
    var created := CreateOrder(orders, input, "local-1", t0);
    var accepted := UpdateOrderStatus(created.orders, "local-1", Accepted, t1,
                                      UpdateOptions(None, Assign(Some("d1"))));
    var started := UpdateOrderStatus(accepted.orders, "local-1", InProgress, t2, NoOptions);
    var completed := UpdateOrderStatus(started.orders, "local-1", Completed, t3, NoOptions);
    assert accepted.updated == Some(accepted.orders[0]);
    assert started.updated == Some(started.orders[0]);
    assert completed.updated == Some(completed.orders[0]);
  }
}
