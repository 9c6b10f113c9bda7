/**
 * The order detail screen's business logic: the status actions it offers,
 * and the options `handleUpdate` passes to the store. This is the only place
 * the status machine is written down; the store itself applies any target.
 */
module OrderDetail {
  import opened Nullable
  import opened Models
  import opened OrderStore
  import OrderStoreLemmas

  /** The targets offered for an order in status `s`, in display order. */
  function ActionsFor(s: RideStatus): (r: seq<RideStatus>)
    ensures |r| <= 2
    ensures forall i, j :: 0 <= i < j < |r| ==> r[i] != r[j]
    ensures Pending !in r && s !in r
    ensures r == [] <==> s == Completed || s == Canceled
    ensures Canceled in r <==> s == Pending || s == Accepted
    ensures Accepted in r <==> s == Pending
    ensures InProgress in r <==> s == Accepted
    ensures Completed in r <==> s == InProgress
    // the main-line step is listed first, cancel second
    ensures |r| == 2 ==> r[1] == Canceled
  {
    match s
    case Pending => [Accepted, Canceled]
    case Accepted => [InProgress, Canceled]
    case InProgress => [Completed]
    case Completed => []
    case Canceled => []
  }

  /** The `actions` memo: nothing for a missing order. */
  function Actions(order: Option<RideOrder>): (r: seq<RideStatus>)
    ensures order.None? ==> r == []
    ensures order.Some? ==> r == ActionsFor(order.value.status)
  {
    match order
    case None => []
    case Some(o) => ActionsFor(o.status)
  }

  /** Position on the main line pending < accepted < in_progress < completed; canceled sits off it. */
  function Stage(s: RideStatus): nat {
    match s
    case Pending => 0
    case Accepted => 1
    case InProgress => 2
    case Completed => 3
    case Canceled => 0
  }

  /** The most UI steps still possible from `s`. */
  function StepsLeft(s: RideStatus): nat {
    match s
    case Pending => 3
    case Accepted => 2
    case InProgress => 1
    case Completed => 0
    case Canceled => 0
  }

  /** Every offered target cancels or moves strictly forward, and leaves fewer steps. */
  lemma OfferedTargetsAdvance(s: RideStatus, t: RideStatus)
    requires t in ActionsFor(s)
    ensures t == Canceled || Stage(t) == Stage(s) + 1
    ensures StepsLeft(t) < StepsLeft(s)
  {
  }

  /** The options `handleUpdate` passes: a final price only for completion, never a driver. */
  function HandleUpdateOptions(order: RideOrder, status: RideStatus): (r: UpdateOptions)
    ensures r.driverId == Keep
    ensures r.finalPrice.Some? <==> status == Completed
    ensures status == Completed && order.finalPrice.Some? ==> r.finalPrice == order.finalPrice
    ensures status == Completed && order.finalPrice.None? ==> r.finalPrice == Some(order.estimatedPrice)
  {
    UpdateOptions(
      finalPrice := if status == Completed then Some(Coalesce(order.finalPrice, order.estimatedPrice)) else None,
      driverId := Keep)
  }

  /** `handleUpdate`: the store update the screen issues for the order it shows. */
  function HandleUpdate(orders: seq<RideOrder>, order: RideOrder, status: RideStatus, now: Timestamp): (r: Updated)
    ensures |r.orders| == |orders|
    ensures r.updated.None? <==> !HasId(orders, order.id)
  {
    UpdateOrderStatus(orders, order.id, status, now, HandleUpdateOptions(order, status))
  }

  /** One UI step applied to a single order. */
  function UiStep(o: RideOrder, status: RideStatus, now: Timestamp): RideOrder {
    PatchOrder(o, status, now, HandleUpdateOptions(o, status))
  }

  /** Completing an order through the screen with no final price yet settles at the estimate. */
  lemma UiCompletionSettlesAtEstimate(o: RideOrder, now: Timestamp)
    requires o.finalPrice.None? && !IsSet(o.completedAt)
    ensures UiStep(o, Completed, now).finalPrice == Some(o.estimatedPrice)
    ensures UiStep(o, Completed, now).completedAt == Some(now)
  {
  }

  /**
   * The lifecycle invariant every UI-driven order keeps: the start time is
   * present exactly after in_progress was entered, the completion time and
   * final price exactly after completed, and the final price is the estimate.
   */
  predicate Consistent(o: RideOrder) {
    match o.status
    case Pending => o.startedAt.None? && o.completedAt.None? && o.finalPrice.None?
    case Accepted => o.startedAt.None? && o.completedAt.None? && o.finalPrice.None?
    case InProgress => o.startedAt.Some? && o.completedAt.None? && o.finalPrice.None?
    case Completed => o.startedAt.Some? && o.completedAt.Some? && o.finalPrice == Some(o.estimatedPrice)
    case Canceled => o.startedAt.None? && o.completedAt.None? && o.finalPrice.None?
  }

  lemma NewOrderIsConsistent(input: CreateOrderInput, id: string, now: Timestamp)
    ensures Consistent(NewOrder(input, id, now))
  {
  }

  /** An offered step keeps the invariant and touches only the patched columns. */
  lemma UiStepKeepsConsistent(o: RideOrder, status: RideStatus, now: Timestamp)
    requires Consistent(o) && status in ActionsFor(o.status)
    ensures Consistent(UiStep(o, status, now))
    ensures KeepsIdentity(o, UiStep(o, status, now)) && UiStep(o, status, now).driverId == o.driverId
  {
  }

  /** A sequence of targets each offered by the screen after the previous one. */
  predicate IsUiRun(s: RideStatus, steps: seq<RideStatus>)
    decreases |steps|
  {
    steps == [] || (steps[0] in ActionsFor(s) && IsUiRun(steps[0], steps[1..]))
  }

  function FinalStatus(s: RideStatus, steps: seq<RideStatus>): RideStatus {
    if steps == [] then s else steps[|steps| - 1]
  }

  /** A UI run is as long as the steps left allow: at most three from pending. */
  lemma {:induction false} UiRunIsBounded(s: RideStatus, steps: seq<RideStatus>)
    requires IsUiRun(s, steps)
    ensures |steps| <= StepsLeft(s)
    decreases |steps|
  {
    if steps != [] {
      OfferedTargetsAdvance(s, steps[0]);
      UiRunIsBounded(steps[0], steps[1..]);
    }
  }

  /** A UI run never goes back: each status it enters leaves strictly fewer steps than every earlier one. */
  lemma {:induction false} UiRunNeverGoesBack(s: RideStatus, steps: seq<RideStatus>)
    requires IsUiRun(s, steps)
    ensures forall i :: 0 <= i < |steps| ==> StepsLeft(steps[i]) < StepsLeft(s)
    ensures forall i, j :: 0 <= i < j < |steps| ==> StepsLeft(steps[j]) < StepsLeft(steps[i])
    ensures forall i :: 0 <= i < |steps| ==> steps[i] != s
    ensures forall i, j :: 0 <= i < j < |steps| ==> steps[i] != steps[j]
    decreases |steps|
  {
    if steps != [] {
      OfferedTargetsAdvance(s, steps[0]);
      UiRunNeverGoesBack(steps[0], steps[1..]);
      forall i, j | 0 <= i < j < |steps|
        ensures StepsLeft(steps[j]) < StepsLeft(steps[i])
      {
        assert steps[j] == steps[1..][j - 1];
        if i > 0 {
          assert steps[i] == steps[1..][i - 1];
        }
      }
      forall i | 0 <= i < |steps|
        ensures StepsLeft(steps[i]) < StepsLeft(s)
      {
        if i > 0 {
          assert steps[i] == steps[1..][i - 1];
        }
      }
    }
  }

  /** A run from pending that the screen can no longer extend has one to three steps and ends completed or canceled. */
  lemma UiRunFromPendingEnds(steps: seq<RideStatus>)
    requires IsUiRun(Pending, steps) && ActionsFor(FinalStatus(Pending, steps)) == []
    ensures 1 <= |steps| <= 3
    ensures FinalStatus(Pending, steps) == Completed || FinalStatus(Pending, steps) == Canceled
  {
    UiRunIsBounded(Pending, steps);
  }

  /** Through the screen a pending ride can be completed, or canceled before or after acceptance. */
  lemma UiRunsReachEveryEnd()
    ensures IsUiRun(Pending, [Accepted, InProgress, Completed])
    ensures IsUiRun(Pending, [Accepted, Canceled])
    ensures IsUiRun(Pending, [Canceled])
  {
  }

  /** The order after the screen applied `steps`, the i-th at time `nows[i]`. */
  function ApplyUiRun(o: RideOrder, steps: seq<RideStatus>, nows: seq<Timestamp>): (r: RideOrder)
    requires |nows| == |steps|
    ensures r.status == FinalStatus(o.status, steps)
    decreases |steps|
  {
    if steps == [] then o
    else ApplyUiRun(UiStep(o, steps[0], nows[0]), steps[1..], nows[1..])
  }

  /**
   * Along a UI run the invariant holds, and each timestamp is written once:
   * the start time is the time of the in_progress step, the completion time
   * that of the completed step, and completion settles at the estimate.
   */
  lemma {:induction false} UiRunSetsEachTimestampOnce(o: RideOrder, steps: seq<RideStatus>, nows: seq<Timestamp>)
    requires Consistent(o) && IsUiRun(o.status, steps) && |nows| == |steps|
    ensures var r := ApplyUiRun(o, steps, nows);
            && Consistent(r)
            && KeepsIdentity(o, r) && r.driverId == o.driverId
            && (forall i :: 0 <= i < |steps| && steps[i] == InProgress ==> r.startedAt == Some(nows[i]))
            && (InProgress !in steps ==> r.startedAt == o.startedAt)
            && (forall i :: 0 <= i < |steps| && steps[i] == Completed ==>
                  r.completedAt == Some(nows[i]) && r.finalPrice == Some(o.estimatedPrice))
            && (Completed !in steps ==> r.completedAt == o.completedAt && r.finalPrice == o.finalPrice)
    decreases |steps|
  {
    if steps != [] {
      var o' := UiStep(o, steps[0], nows[0]);
      UiStepKeepsConsistent(o, steps[0], nows[0]);
      UiRunSetsEachTimestampOnce(o', steps[1..], nows[1..]);
      UiRunNeverGoesBack(o.status, steps);
      var r := ApplyUiRun(o, steps, nows);
      assert r == ApplyUiRun(o', steps[1..], nows[1..]);
      forall i | 0 < i < |steps|
        ensures steps[i] == steps[1..][i - 1] && nows[i] == nows[1..][i - 1]
      {
      }
      if steps[0] == InProgress {
        assert InProgress !in steps[1..] by {
          forall k | 0 <= k < |steps[1..]| ensures steps[1..][k] != InProgress {
            assert steps[1..][k] == steps[k + 1];
          }
        }
      }
      if InProgress !in steps[1..] && steps[0] != InProgress {
        assert InProgress !in steps;
      }
    }
  }

  /**
   * At store level: a screen-offered update of an order found by id, in a
   * store with unique ids, patches exactly that order and keeps it consistent.
   */
  lemma HandleUpdateKeepsOrderConsistent(orders: seq<RideOrder>, orderId: string, status: RideStatus,
                                         now: Timestamp)
    requires UniqueIds(orders)
    requires GetOrderById(orders, orderId).Some?
    requires Consistent(GetOrderById(orders, orderId).value)
    requires status in Actions(GetOrderById(orders, orderId))
    ensures var o := GetOrderById(orders, orderId).value;
            var r := HandleUpdate(orders, o, status, now);
            && r.updated == Some(UiStep(o, status, now))
            && GetOrderById(r.orders, orderId) == r.updated
            && Consistent(r.updated.value)
  {
    var o := GetOrderById(orders, orderId).value;
    var r := HandleUpdate(orders, o, status, now);
    OrderStoreLemmas.UpdatedIsWhatLookupFinds(orders, o.id, status, now, HandleUpdateOptions(o, status));
    OrderStoreLemmas.LookupAfterUpdate(orders, o.id, status, now, HandleUpdateOptions(o, status), orderId);
    UiStepKeepsConsistent(o, status, now);
  }
}
