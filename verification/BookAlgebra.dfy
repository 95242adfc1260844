/** Which messages undo, merge with or stand for one another on the displayed book. */
module BookAlgebra {
  import opened Words
  import opened PriceLevels
  import opened Messages
  import opened DisplayBook
  import opened Conservation
  import opened TopOfBook

  /** Adding a fresh order and deleting it restores orders and levels, without a failure. */
  lemma AddThenDelete(d: Display, m: Body)
    requires m.AddOrder? || m.AddOrderRefresh?
    requires AllPositive(d) && PositiveVolume(m) && Fits(d, m)
    requires m.orderId !in d.orders
    ensures Apply(Apply(d, m).display, DeleteOrder(m.orderId)) == DisplayStep(d, false)
  {
    var o := Added(d, m).value;
    AddThenTake(DirectionOf(IsBid(o.side)), Levels(d, IsBid(o.side)), o.price, o.volume);
    assert d.orders[m.orderId := o] - {m.orderId} == d.orders;
  }

  /** In a stream: the pair leaves no trace on the displayed book or its failure count. */
  lemma AddDeletePairLeavesNoTrace(ms: seq<Body>, m: Body)
    requires m.AddOrder? || m.AddOrderRefresh?
    requires NeverOverflows(ms + [m]) && PositiveVolumes(ms + [m])
    requires m.orderId !in Run(ms).orders
    ensures Run(ms + [m] + [DeleteOrder(m.orderId)]) == Run(ms)
    ensures BuildFailures(ms + [m] + [DeleteOrder(m.orderId)]) == BuildFailures(ms)
  {
    assert (ms + [m])[..|ms|] == ms;
    assert (ms + [m] + [DeleteOrder(m.orderId)])[..|ms| + 1] == ms + [m];
    assert forall x <- ms :: x in ms + [m];
    RunPositive(ms);
    assert m in ms + [m];
    AddThenDelete(Run(ms), m);
  }

  /** An execution of at least the resting volume acts on the book as a delete. */
  lemma FullExecutionIsDelete(d: Display, m: Body)
    requires m.OrderExecution? && m.orderId in d.orders && m.volume >= d.orders[m.orderId].volume
    ensures Apply(d, m) == Apply(d, DeleteOrder(m.orderId))
  {
  }

  /** Successive executions of one order. */
  function ExecuteAll(d: Display, id: u64, volumes: seq<u64>): Display
    decreases volumes
  {
    if volumes == [] then d else ExecuteAll(Execute(d, id, volumes[0]).display, id, volumes[1..])
  }

  function Total(volumes: seq<u64>): nat {
    if volumes == [] then 0 else volumes[0] + Total(volumes[1..])
  }

  /** Every execution in the list finds the order live. */
  predicate AllFindLive(d: Display, id: u64, volumes: seq<u64>)
    decreases volumes
  {
    volumes != [] ==>
      id in d.orders && AllFindLive(Execute(d, id, volumes[0]).display, id, volumes[1..])
  }

  /** What an execution does when the level holds the resting volume. */
  lemma ExecuteSpec(d: Display, id: u64, volume: u64)
    requires id in d.orders && d.orders[id].volume <= LevelVolume(d, IsBid(d.orders[id].side), d.orders[id].price)
    ensures var o, d' := d.orders[id], Execute(d, id, volume).display;
            var bid, executed := IsBid(o.side), if volume > o.volume then o.volume else volume;
            && d'.orders == (if volume >= o.volume then d.orders - {id}
                             else d.orders[id := o.(volume := o.volume - volume)])
            && Levels(d', !bid) == Levels(d, !bid)
            && Levels(d', bid) == TakeAt(Levels(d, bid), o.price, executed).GetOr(Levels(d, bid))
            && LevelVolume(d', bid, o.price) == LevelVolume(d, bid, o.price) - executed
  {
    var o := d.orders[id];
    var bid, executed := IsBid(o.side), if volume > o.volume then o.volume else volume;
    TakeAtSpec(DirectionOf(bid), Levels(d, bid), o.price, executed, o.price);
    if !Has(Levels(d, bid), o.price) {
      AbsentIsZero(Levels(d, bid), o.price);
    }
  }

  /** A partly executed order rests on, and its level still holds at least its volume. */
  lemma PartlyExecuted(d: Display, id: u64, a: u64)
    requires id in d.orders && a < d.orders[id].volume <= LevelVolume(d, IsBid(d.orders[id].side), d.orders[id].price)
    ensures var d1 := Execute(d, id, a).display;
            && id in d1.orders
            && d1.orders[id] == d.orders[id].(volume := d.orders[id].volume - a)
            && d1.orders[id].volume <= LevelVolume(d1, IsBid(d1.orders[id].side), d1.orders[id].price)
  {
    ExecuteSpec(d, id, a);
  }

  lemma ExecuteTwiceOrders(d: Display, id: u64, a: u64, b: u64)
    requires id in d.orders && a < d.orders[id].volume <= LevelVolume(d, IsBid(d.orders[id].side), d.orders[id].price)
    requires a + b < TWO64
    ensures Execute(Execute(d, id, a).display, id, b).display.orders == Execute(d, id, a + b).display.orders
  {
    var d1 := Execute(d, id, a).display;
    PartlyExecuted(d, id, a);
    ExecuteSpec(d, id, a);
    ExecuteSpec(d1, id, b);
    ExecuteSpec(d, id, a + b);
    assert d1.orders - {id} == d.orders - {id};
  }

  lemma ExecuteTwiceLevels(d: Display, id: u64, a: u64, b: u64, bid: bool)
    requires id in d.orders && a < d.orders[id].volume <= LevelVolume(d, IsBid(d.orders[id].side), d.orders[id].price)
    requires a + b < TWO64
    ensures Levels(Execute(Execute(d, id, a).display, id, b).display, bid) == Levels(Execute(d, id, a + b).display, bid)
  {
    var o := d.orders[id];
    PartlyExecuted(d, id, a);
    ExecuteSpec(d, id, a);
    ExecuteSpec(Execute(d, id, a).display, id, b);
    ExecuteSpec(d, id, a + b);
    TakeTwice(Levels(d, IsBid(o.side)), o.price, a, if b > o.volume - a then o.volume - a else b);
  }

  lemma ExecuteTwice(d: Display, id: u64, a: u64, b: u64)
    requires id in d.orders && a < d.orders[id].volume <= LevelVolume(d, IsBid(d.orders[id].side), d.orders[id].price)
    requires a + b < TWO64
    ensures Execute(Execute(d, id, a).display, id, b).display == Execute(d, id, a + b).display
  {
    ExecuteTwiceOrders(d, id, a, b);
    ExecuteTwiceLevels(d, id, a, b, true);
    ExecuteTwiceLevels(d, id, a, b, false);
    SameDisplay(Execute(Execute(d, id, a).display, id, b).display, Execute(d, id, a + b).display, true);
  }

  lemma SameDisplay(d: Display, e: Display, bid: bool)
    requires d.orders == e.orders && Levels(d, bid) == Levels(e, bid) && Levels(d, !bid) == Levels(e, !bid)
    ensures d == e
  {
  }

  /** Executions that each find the order live act on the book as one execution of their sum. */
  lemma {:induction false} ExecutionsMerge(d: Display, id: u64, volumes: seq<u64>)
    requires volumes != [] && Total(volumes) < TWO64
    requires AllFindLive(d, id, volumes)
    requires d.orders[id].volume <= LevelVolume(d, IsBid(d.orders[id].side), d.orders[id].price)
    ensures ExecuteAll(d, id, volumes) == Execute(d, id, Total(volumes)).display
    decreases volumes
  {
    var a, rest := volumes[0], volumes[1..];
    if rest != [] {
      assert id in Execute(d, id, a).display.orders;
      assert a < d.orders[id].volume;
      PartlyExecuted(d, id, a);
      ExecuteTwice(d, id, a, Total(rest));
      ExecutionsMerge(Execute(d, id, a).display, id, rest);
    }
  }

  /** The precondition of `ExecutionsMerge` on the level holds on every reachable book. */
  lemma ReachableExecutionsMerge(ms: seq<Body>, id: u64, volumes: seq<u64>)
    requires NeverOverflows(ms)
    requires volumes != [] && Total(volumes) < TWO64
    requires AllFindLive(Run(ms), id, volumes)
    ensures ExecuteAll(Run(ms), id, volumes) == Execute(Run(ms), id, Total(volumes)).display
  {
    var o := Run(ms).orders[id];
    ConservationHolds(ms, IsBid(o.side), o.price);
    RestingRemove(Run(ms).orders, id, IsBid(o.side), o.price);
    ExecutionsMerge(Run(ms), id, volumes);
  }
}
