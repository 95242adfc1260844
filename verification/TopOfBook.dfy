/** When a message counts as a book-build failure, and what the top of the book is. */
module TopOfBook {
  import opened Words
  import opened PriceLevels
  import opened Messages
  import opened DisplayBook
  import opened Conservation
  import opened MapSum

  // ----- failures -----

  predicate Targets(m: Body) {
    m.ModifyOrder? || m.DeleteOrder? || m.OrderExecution? || m.ReplaceOrder?
  }

  /** `m` names an order the book does not hold. */
  predicate UnknownTarget(d: Display, m: Body) {
    Targets(m) && m.orderId !in d.orders
  }

  /** `m` names a live order whose level has no entry. */
  predicate RunglessTarget(d: Display, m: Body) {
    Targets(m) && m.orderId in d.orders &&
    var o := d.orders[m.orderId];
    !Has(Levels(d, IsBid(o.side)), o.price)
  }

  /** The exact condition of a failure, in any state whose levels account for the orders: the
      comparison of `RemoveLevel` with the stored volume never fails, only its lookup does. */
  lemma FailsIff(d: Display, m: Body, phantom: nat)
    requires Targets(m) && m.orderId in d.orders ==>
               var o := d.orders[m.orderId]; Balanced(d, IsBid(o.side), o.price, phantom)
    ensures Apply(d, m).failed <==> UnknownTarget(d, m) || RunglessTarget(d, m)
    ensures RunglessTarget(d, m) ==> d.orders[m.orderId].volume == 0
  {
    if Targets(m) && m.orderId in d.orders {
      var o := d.orders[m.orderId];
      var bid := IsBid(o.side);
      RestingRemove(d.orders, m.orderId, bid, o.price);
      var executed := if m.OrderExecution? && m.volume < o.volume then m.volume else o.volume;
      TakeAtSpec(DirectionOf(bid), Levels(d, bid), o.price, executed, o.price);
      if !Has(Levels(d, bid), o.price) {
        AbsentIsZero(Levels(d, bid), o.price);
      }
    }
  }

  function UnknownTargets(ms: seq<Body>): nat {
    if ms == [] then
      0
    else
      UnknownTargets(ms[..|ms| - 1]) + if UnknownTarget(Run(ms[..|ms| - 1]), ms[|ms| - 1]) then 1 else 0
  }

  function RunglessTargets(ms: seq<Body>): nat {
    if ms == [] then
      0
    else
      RunglessTargets(ms[..|ms| - 1]) + if RunglessTarget(Run(ms[..|ms| - 1]), ms[|ms| - 1]) then 1 else 0
  }

  /** On every stream without overflow the failures are the unknown targets and the rungless ones. */
  lemma {:induction false} FailuresSplit(ms: seq<Body>)
    requires NeverOverflows(ms)
    ensures BuildFailures(ms) == UnknownTargets(ms) + RunglessTargets(ms)
  {
    if ms != [] {
      var front := ms[..|ms| - 1];
      var d, m := Run(front), ms[|ms| - 1];
      FailuresSplit(front);
      if Targets(m) && m.orderId in d.orders {
        var o := d.orders[m.orderId];
        ConservationHolds(front, IsBid(o.side), o.price);
        FailsIff(d, m, Phantom(front, IsBid(o.side), o.price));
      } else {
        FailsIff(d, m, 0);
      }
    }
  }

  predicate PositiveVolume(m: Body) {
    m.AddOrder? || m.AddOrderRefresh? || m.ModifyOrder? || m.ReplaceOrder? ==> m.volume > 0
  }

  /** Every volume put on the book is positive; executions are free. */
  predicate PositiveVolumes(ms: seq<Body>) {
    forall m <- ms :: PositiveVolume(m)
  }

  predicate AllPositive(d: Display) {
    && (forall id <- d.orders :: d.orders[id].volume > 0)
    && Positive(d.bids)
    && Positive(d.asks)
  }

  lemma RemovePositive(d: Display, side: char, price: Price, volume: u64)
    requires AllPositive(d)
    ensures AllPositive(RemoveLevel(d, side, price, volume).display)
  {
    TakeAtSpec(DirectionOf(IsBid(side)), Levels(d, IsBid(side)), price, volume, price);
  }

  lemma InsertPositive(d: Display, id: u64, o: LiveOrder)
    requires AllPositive(d) && o.volume > 0
    requires LevelVolume(d, IsBid(o.side), o.price) + o.volume < TWO64
    ensures AllPositive(Insert(d, id, o))
  {
    AddAtPositive(DirectionOf(IsBid(o.side)), Levels(d, IsBid(o.side)), o.price, o.volume);
  }

  lemma DeletePositive(d: Display, id: u64)
    requires AllPositive(d)
    ensures AllPositive(Delete(d, id).display)
  {
    if id in d.orders {
      RemovePositive(d, d.orders[id].side, d.orders[id].price, d.orders[id].volume);
    }
  }

  /** No message with a positive volume leaves a zero order or a zero level behind. */
  lemma StepPositive(d: Display, m: Body)
    requires AllPositive(d) && PositiveVolume(m) && Fits(d, m)
    ensures AllPositive(Apply(d, m).display)
  {
    match m
    case AddOrder(id, p, v, side) => InsertPositive(d, id, LiveOrder(p, v, side));
    case AddOrderRefresh(id, p, v, side) => InsertPositive(d, id, LiveOrder(p, v, side));
    case ModifyOrder(id, p, v, _) =>
      if id in d.orders {
        ModifyIsReplace(d, id, p, v);
        DeletePositive(d, id);
        InsertPositive(Base(d, m), id, Added(d, m).value);
      }
    case ReplaceOrder(id, newId, p, v, side) =>
      DeletePositive(d, id);
      InsertPositive(Base(d, m), newId, LiveOrder(p, v, side));
    case DeleteOrder(id) => DeletePositive(d, id);
    case OrderExecution(id, _, _, v) =>
      if id in d.orders {
        var o := d.orders[id];
        RemovePositive(d, o.side, o.price, if v > o.volume then o.volume else v);
      }
    case _ =>
  }

  lemma {:induction false} RunPositive(ms: seq<Body>)
    requires NeverOverflows(ms) && PositiveVolumes(ms)
    ensures AllPositive(Run(ms))
  {
    if ms != [] {
      RunPositive(ms[..|ms| - 1]);
      StepPositive(Run(ms[..|ms| - 1]), ms[|ms| - 1]);
    }
  }

  /** With positive volumes every live order has its level, and the level holds at least as much. */
  lemma LiveOrderHasLevel(ms: seq<Body>, id: u64)
    requires NeverOverflows(ms) && PositiveVolumes(ms)
    requires id in Run(ms).orders
    ensures var o := Run(ms).orders[id];
            Has(Levels(Run(ms), IsBid(o.side)), o.price) && o.volume <= LevelVolume(Run(ms), IsBid(o.side), o.price)
  {
    var d := Run(ms);
    var o := d.orders[id];
    RunPositive(ms);
    ConservationHolds(ms, IsBid(o.side), o.price);
    RestingRemove(d.orders, id, IsBid(o.side), o.price);
    HasVolume(Levels(d, IsBid(o.side)), o.price);
  }

  /** With positive volumes, even under ID collisions, the failure counter counts exactly the
      messages whose order was not live when they arrived. */
  lemma {:induction false} FailuresAreUnknownTargets(ms: seq<Body>)
    requires NeverOverflows(ms) && PositiveVolumes(ms)
    ensures BuildFailures(ms) == UnknownTargets(ms)
  {
    FailuresSplit(ms);
    NoRunglessTargets(ms);
  }

  lemma {:induction false} NoRunglessTargets(ms: seq<Body>)
    requires NeverOverflows(ms) && PositiveVolumes(ms)
    ensures RunglessTargets(ms) == 0
  {
    if ms != [] {
      var front := ms[..|ms| - 1];
      NoRunglessTargets(front);
      if RunglessTarget(Run(front), ms[|ms| - 1]) {
        LiveOrderHasLevel(front, ms[|ms| - 1].orderId);
      }
    }
  }

  lemma RunSnoc(ms: seq<Body>, m: Body)
    ensures Run(ms + [m]) == Apply(Run(ms), m).display
  {
    assert (ms + [m])[..|ms|] == ms;
  }

  /** Zero volumes do break it: the second delete finds its order live, and fails. */
  lemma ZeroVolumesMiscount(p: Price)
    ensures var d := Run([] + [AddOrder(1, p, 0, 'B')] + [AddOrder(2, p, 0, 'B')] + [DeleteOrder(1)]);
            2 in d.orders && Apply(d, DeleteOrder(2)).failed
  {
    RunSnoc([], AddOrder(1, p, 0, 'B'));
    RunSnoc([] + [AddOrder(1, p, 0, 'B')], AddOrder(2, p, 0, 'B'));
    RunSnoc([] + [AddOrder(1, p, 0, 'B')] + [AddOrder(2, p, 0, 'B')], DeleteOrder(1));
    assert Run([]) == EMPTY_DISPLAY;
  }

  // ----- the best prices -----

  datatype PriceLevel = PriceLevel(price: Price, aggregateVolume: u64)

  datatype TopOfBook = TopOfBook(bestBid: Option<PriceLevel>, bestAsk: Option<PriceLevel>)

  /** `begin()` of one of the level maps. */
  function Best(d: Display, bid: bool): Option<PriceLevel> {
    var l := Levels(d, bid);
    if l.Empty? then None else Some(PriceLevel(l.price, l.volume))
  }

  function GetTopOfBook(d: Display): TopOfBook {
    TopOfBook(Best(d, true), Best(d, false))
  }

  /** Volume that is accounted for at a price: live orders and phantom. */
  ghost function Accounted(ms: seq<Body>, bid: bool, price: Price): nat {
    Resting(Run(ms).orders, bid, price) + Phantom(ms, bid, price)
  }

  lemma BestOfSide(ms: seq<Body>, bid: bool)
    requires NeverOverflows(ms) && PositiveVolumes(ms)
    ensures match Best(Run(ms), bid)
            case None => forall q :: Accounted(ms, bid, q) == 0
            case Some(level) =>
              && level.aggregateVolume == Accounted(ms, bid, level.price) > 0
              && forall q :: Before(DirectionOf(bid), q, level.price) ==> Accounted(ms, bid, q) == 0
  {
    var l := Levels(Run(ms), bid);
    RunPositive(ms);
    forall q
      ensures Accounted(ms, bid, q) == VolumeAt(l, q)
      ensures Accounted(ms, bid, q) > 0 ==> Has(l, q)
    {
      ConservationHolds(ms, bid, q);
      HasVolume(l, q);
    }
    if l.Rung? {
      forall q | Has(l, q) ensures !Before(DirectionOf(bid), q, l.price) {
        FirstIsBest(DirectionOf(bid), l, q);
      }
    }
  }

  /** With positive volumes the best bid is the greatest price, and the best ask the least price, with
      volume accounted for on its side, with exactly that volume; there is none exactly when no price
      has any. */
  lemma BestIsExtremum(ms: seq<Body>)
    requires NeverOverflows(ms) && PositiveVolumes(ms)
    ensures match GetTopOfBook(Run(ms)).bestBid
            case None => forall q :: Accounted(ms, true, q) == 0
            case Some(best) =>
              && best.aggregateVolume == Accounted(ms, true, best.price) > 0
              && forall q :: Accounted(ms, true, q) > 0 ==> q <= best.price
    ensures match GetTopOfBook(Run(ms)).bestAsk
            case None => forall q :: Accounted(ms, false, q) == 0
            case Some(best) =>
              && best.aggregateVolume == Accounted(ms, false, best.price) > 0
              && forall q :: Accounted(ms, false, q) > 0 ==> q >= best.price
  {
    BestOfSide(ms, true);
    BestOfSide(ms, false);
  }

  // ----- the best prices, from the live orders alone -----

  /** The summed volume of the live buy orders at a price. */
  ghost function BuyVolume(orders: map<u64, LiveOrder>, price: Price): nat {
    Sum(BuyVolumes(orders, price))
  }

  function BuyVolumes(orders: map<u64, LiveOrder>, price: Price): map<u64, nat> {
    map id | id in orders :: if orders[id].side == 'B' && orders[id].price == price then orders[id].volume else 0
  }

  /** And of all the others: every side but 'B' is an ask. */
  ghost function SellVolume(orders: map<u64, LiveOrder>, price: Price): nat {
    Sum(SellVolumes(orders, price))
  }

  function SellVolumes(orders: map<u64, LiveOrder>, price: Price): map<u64, nat> {
    map id | id in orders :: if orders[id].side != 'B' && orders[id].price == price then orders[id].volume else 0
  }

  predicate IsBuy(orders: map<u64, LiveOrder>, id: u64) {
    id in orders && orders[id].side == 'B'
  }

  predicate IsSell(orders: map<u64, LiveOrder>, id: u64) {
    id in orders && orders[id].side != 'B'
  }

  ghost predicate IsBestBid(best: Option<PriceLevel>, orders: map<u64, LiveOrder>) {
    match best
    case None => forall id :: !IsBuy(orders, id)
    case Some(level) =>
      && (exists id :: IsBuy(orders, id) && orders[id].price == level.price)
      && (forall id :: IsBuy(orders, id) ==> orders[id].price <= level.price)
      && level.aggregateVolume == BuyVolume(orders, level.price)
  }

  ghost predicate IsBestAsk(best: Option<PriceLevel>, orders: map<u64, LiveOrder>) {
    match best
    case None => forall id :: !IsSell(orders, id)
    case Some(level) =>
      && (exists id :: IsSell(orders, id) && orders[id].price == level.price)
      && (forall id :: IsSell(orders, id) ==> orders[id].price >= level.price)
      && level.aggregateVolume == SellVolume(orders, level.price)
  }

  ghost predicate IsTopOf(top: TopOfBook, orders: map<u64, LiveOrder>) {
    IsBestBid(top.bestBid, orders) && IsBestAsk(top.bestAsk, orders)
  }

  lemma VolumesAreResting(orders: map<u64, LiveOrder>, price: Price)
    ensures BuyVolume(orders, price) == Resting(orders, true, price)
    ensures SellVolume(orders, price) == Resting(orders, false, price)
  {
    assert Contributions(orders, true, price) == BuyVolumes(orders, price);
    assert Contributions(orders, false, price) == SellVolumes(orders, price);
  }

  predicate LiveOn(d: Display, id: u64, bid: bool) {
    id in d.orders && IsBid(d.orders[id].side) == bid
  }

  /** Where the accounted volume is the live volume: a price has any exactly if an order lives there. */
  lemma AccountedIsLive(ms: seq<Body>, bid: bool, price: Price)
    requires NeverOverflows(ms) && PositiveVolumes(ms) && NeverReuses(ms)
    ensures Accounted(ms, bid, price) == Resting(Run(ms).orders, bid, price)
    ensures Accounted(ms, bid, price) > 0 <==>
              exists id :: LiveOn(Run(ms), id, bid) && Run(ms).orders[id].price == price
  {
    var orders := Run(ms).orders;
    NoReuseNoPhantom(ms, bid, price);
    RunPositive(ms);
    forall id | LiveOn(Run(ms), id, bid) && orders[id].price == price ensures Resting(orders, bid, price) > 0 {
      RestingRemove(orders, id, bid, price);
    }
    if Resting(orders, bid, price) > 0 {
      SumPositive(Contributions(orders, bid, price));
      var id :| id in Contributions(orders, bid, price) && Contributions(orders, bid, price)[id] > 0;
      assert LiveOn(Run(ms), id, bid) && orders[id].price == price;
    }
  }

  /** With positive volumes and no live-ID reuse: the best bid is the greatest price of a live
      'B' order, the best ask the least price of any other, each with the summed volume of the
      live orders there, and absent exactly when no such order lives. */
  lemma TopOfBookRefinesOrders(ms: seq<Body>)
    requires NeverOverflows(ms) && PositiveVolumes(ms) && NeverReuses(ms)
    ensures IsTopOf(GetTopOfBook(Run(ms)), Run(ms).orders)
  {
    BestBidIs(ms);
    BestAskIs(ms);
  }

  lemma BestBidIs(ms: seq<Body>)
    requires NeverOverflows(ms) && PositiveVolumes(ms) && NeverReuses(ms)
    ensures IsBestBid(GetTopOfBook(Run(ms)).bestBid, Run(ms).orders)
  {
    var orders, best := Run(ms).orders, GetTopOfBook(Run(ms)).bestBid;
    BestIsExtremum(ms);
    forall id | IsBuy(orders, id) ensures Accounted(ms, true, orders[id].price) > 0 {
      AccountedIsLive(ms, true, orders[id].price);
      assert LiveOn(Run(ms), id, true);
    }
    if best.Some? {
      AccountedIsLive(ms, true, best.value.price);
      VolumesAreResting(orders, best.value.price);
      var id :| LiveOn(Run(ms), id, true) && orders[id].price == best.value.price;
      assert IsBuy(orders, id);
    }
  }

  lemma BestAskIs(ms: seq<Body>)
    requires NeverOverflows(ms) && PositiveVolumes(ms) && NeverReuses(ms)
    ensures IsBestAsk(GetTopOfBook(Run(ms)).bestAsk, Run(ms).orders)
  {
    var orders, best := Run(ms).orders, GetTopOfBook(Run(ms)).bestAsk;
    BestIsExtremum(ms);
    forall id | IsSell(orders, id) ensures Accounted(ms, false, orders[id].price) > 0 {
      AccountedIsLive(ms, false, orders[id].price);
      assert LiveOn(Run(ms), id, false);
    }
    if best.Some? {
      AccountedIsLive(ms, false, best.value.price);
      VolumesAreResting(orders, best.value.price);
      var id :| LiveOn(Run(ms), id, false) && orders[id].price == best.value.price;
      assert IsSell(orders, id);
    }
  }
}
