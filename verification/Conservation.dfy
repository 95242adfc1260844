/** The level maps against the live orders, over every stream of messages of a symbol. */
module Conservation {
  import opened Words
  import opened PriceLevels
  import opened Messages
  import opened DisplayBook

  /** The volume the level map holds at one price of one side. */
  function LevelVolume(d: Display, bid: bool, price: Price): u64 {
    VolumeAt(Levels(d, bid), price)
  }

  /** The order a message puts on the book, if any: Modify keeps the stored side. */
  function Added(d: Display, m: Body): Option<LiveOrder> {
    match m
    case AddOrder(_, price, volume, side) => Some(LiveOrder(price, volume, side))
    case AddOrderRefresh(_, price, volume, side) => Some(LiveOrder(price, volume, side))
    case ReplaceOrder(_, _, price, volume, side) => Some(LiveOrder(price, volume, side))
    case ModifyOrder(id, price, volume, _) =>
      if id in d.orders then Some(LiveOrder(price, volume, d.orders[id].side)) else None
    case _ => None
  }

  /** The book as that order finds it: what it replaces has been taken off. */
  function Base(d: Display, m: Body): Display {
    if m.ModifyOrder? || m.ReplaceOrder? then Delete(d, m.orderId).display else d
  }

  /** The level a message adds to does not overflow 64 bits. */
  predicate Fits(d: Display, m: Body) {
    Added(d, m).Some? ==>
      var o := Added(d, m).value;
      LevelVolume(Base(d, m), IsBid(o.side), o.price) + o.volume < TWO64
  }

  /** The volume, at one price of one side, of the live order a message writes over without
      taking its volume off the level. */
  function Overwritten(d: Display, m: Body, bid: bool, price: Price): nat {
    match m
    case AddOrder(id, _, _, _) => VolumeOf(d, id, bid, price)
    case AddOrderRefresh(id, _, _, _) => VolumeOf(d, id, bid, price)
    case ReplaceOrder(id, newId, _, _, _) => if newId == id then 0 else VolumeOf(d, newId, bid, price)
    case _ => 0
  }

  function VolumeOf(d: Display, id: u64, bid: bool, price: Price): nat {
    if id in d.orders then VolumeThere(d.orders[id], bid, price) else 0
  }

  /** Level volume that no live order accounts for: all the overwritten volume of the stream. */
  function Phantom(ms: seq<Body>, bid: bool, price: Price): nat {
    if ms == [] then
      0
    else
      var front := ms[..|ms| - 1];
      Phantom(front, bid, price) + Overwritten(Run(front), ms[|ms| - 1], bid, price)
  }

  ghost predicate Balanced(d: Display, bid: bool, price: Price, phantom: nat) {
    LevelVolume(d, bid, price) == Resting(d.orders, bid, price) + phantom
  }

  // ----- one step -----

  lemma InsertBalance(d: Display, id: u64, o: LiveOrder, bid: bool, price: Price, phantom: nat)
    requires Balanced(d, bid, price, phantom)
    ensures Balanced(Insert(d, id, o), bid, price, phantom + VolumeOf(d, id, bid, price)) <==>
              (RestsAt(o, bid, price) ==> LevelVolume(d, bid, price) + o.volume < TWO64)
  {
    AddAtSpec(DirectionOf(IsBid(o.side)), Levels(d, IsBid(o.side)), o.price, o.volume, price);
    RestingUpdate(d.orders, id, o, bid, price);
    WrapExact(LevelVolume(d, bid, price) + o.volume);
  }

  /** Taking volume that the level holds off it. */
  lemma RemoveBalance(d: Display, o: LiveOrder, executed: u64, bid: bool, price: Price)
    requires RestsAt(o, bid, price) ==> executed <= LevelVolume(d, bid, price)
    ensures var r := RemoveLevel(d, o.side, o.price, executed).display;
            && r.orders == d.orders
            && LevelVolume(r, bid, price) ==
               LevelVolume(d, bid, price) - if RestsAt(o, bid, price) then executed else 0
  {
    var side := IsBid(o.side);
    TakeAtSpec(DirectionOf(side), Levels(d, side), o.price, executed, price);
    if RestsAt(o, bid, price) && !Has(Levels(d, side), o.price) {
      AbsentIsZero(Levels(d, side), o.price);
    }
  }

  lemma DeleteBalance(d: Display, id: u64, bid: bool, price: Price, phantom: nat)
    requires Balanced(d, bid, price, phantom)
    ensures Balanced(Delete(d, id).display, bid, price, phantom)
  {
    if id in d.orders {
      RestingRemove(d.orders, id, bid, price);
      RemoveBalance(d, d.orders[id], d.orders[id].volume, bid, price);
    }
  }

  lemma ExecuteBalance(d: Display, id: u64, volume: u64, bid: bool, price: Price, phantom: nat)
    requires Balanced(d, bid, price, phantom)
    ensures Balanced(Execute(d, id, volume).display, bid, price, phantom)
  {
    if id in d.orders {
      var o := d.orders[id];
      var executed := if volume > o.volume then o.volume else volume;
      RestingRemove(d.orders, id, bid, price);
      RemoveBalance(d, o, executed, bid, price);
      if volume < o.volume {
        RestingUpdate(d.orders, id, o.(volume := o.volume - volume), bid, price);
      }
    }
  }

  /** Modifying a live order is replacing it by its own ID and its stored side. */
  lemma ModifyIsReplace(d: Display, id: u64, price: Price, volume: u64)
    requires id in d.orders
    ensures Modify(d, id, price, volume) ==
            Replace(d, id, id, LiveOrder(price, volume, d.orders[id].side))
  {
    var w := Withdraw(d, id).display;
    var o := LiveOrder(price, volume, d.orders[id].side);
    assert w.orders[id := o] == Drop(w, id).orders[id := o];
  }

  ghost predicate BalanceKeptIff(d: Display, m: Body, bid: bool, price: Price, phantom: nat) {
    Balanced(Apply(d, m).display, bid, price, phantom + Overwritten(d, m, bid, price)) <==>
    (Added(d, m).Some? && RestsAt(Added(d, m).value, bid, price) ==> Fits(d, m))
  }

  lemma ReplaceStepBalance(d: Display, m: Body, bid: bool, price: Price, phantom: nat)
    requires m.ReplaceOrder? && Balanced(d, bid, price, phantom)
    ensures BalanceKeptIff(d, m, bid, price, phantom)
  {
    DeleteBalance(d, m.orderId, bid, price, phantom);
    InsertBalance(Base(d, m), m.newOrderId, Added(d, m).value, bid, price, phantom);
  }

  lemma ModifyStepBalance(d: Display, m: Body, bid: bool, price: Price, phantom: nat)
    requires m.ModifyOrder? && Balanced(d, bid, price, phantom)
    ensures BalanceKeptIff(d, m, bid, price, phantom)
  {
    if m.orderId in d.orders {
      ModifyIsReplace(d, m.orderId, m.price, m.volume);
      DeleteBalance(d, m.orderId, bid, price, phantom);
      InsertBalance(Base(d, m), m.orderId, Added(d, m).value, bid, price, phantom);
    }
  }

  /** One message keeps level volume = live volume + phantom exactly when it does not overflow. */
  lemma StepBalance(d: Display, m: Body, bid: bool, price: Price, phantom: nat)
    requires Balanced(d, bid, price, phantom)
    ensures Balanced(Apply(d, m).display, bid, price, phantom + Overwritten(d, m, bid, price)) <==>
              (Added(d, m).Some? && RestsAt(Added(d, m).value, bid, price) ==> Fits(d, m))
  {
    if m.AddOrder? || m.AddOrderRefresh? {
      InsertBalance(d, m.orderId, Added(d, m).value, bid, price, phantom);
    } else if m.ModifyOrder? {
      ModifyStepBalance(d, m, bid, price, phantom);
    } else if m.ReplaceOrder? {
      ReplaceStepBalance(d, m, bid, price, phantom);
    } else if m.DeleteOrder? {
      DeleteBalance(d, m.orderId, bid, price, phantom);
    } else if m.OrderExecution? {
      ExecuteBalance(d, m.orderId, m.volume, bid, price, phantom);
    }
  }

  // ----- whole streams -----

  /** No message of the stream overflows the level it adds to. */
  predicate NeverOverflows(ms: seq<Body>) {
    ms != [] ==> NeverOverflows(ms[..|ms| - 1]) && Fits(Run(ms[..|ms| - 1]), ms[|ms| - 1])
  }

  ghost predicate Conserved(ms: seq<Body>) {
    forall bid, price :: Balanced(Run(ms), bid, price, Phantom(ms, bid, price))
  }

  /** Conservation at every price, whatever the messages, as long as no level overflows. */
  lemma {:induction false} ConservationHolds(ms: seq<Body>, bid: bool, price: Price)
    requires NeverOverflows(ms)
    ensures LevelVolume(Run(ms), bid, price) == Resting(Run(ms).orders, bid, price) + Phantom(ms, bid, price)
  {
    if ms != [] {
      var front := ms[..|ms| - 1];
      ConservationHolds(front, bid, price);
      StepBalance(Run(front), ms[|ms| - 1], bid, price, Phantom(front, bid, price));
    }
  }

  /** Overflow is the only way to lose conservation: it holds throughout a stream exactly when
      no message of the stream overflows the level it adds to. */
  lemma {:induction false} ConservedIffNoOverflow(ms: seq<Body>)
    ensures (forall n :: 0 <= n <= |ms| ==> Conserved(ms[..n])) <==> NeverOverflows(ms)
  {
    assert ms[..|ms|] == ms;
    if ms == [] {
      EmptyConserved();
    } else {
      var front := ms[..|ms| - 1];
      ConservedIffNoOverflow(front);
      assert forall n :: 0 <= n <= |front| ==> front[..n] == ms[..n];
      if Conserved(front) {
        ConservedStepIff(ms);
      }
      if forall n :: 0 <= n <= |ms| ==> Conserved(ms[..n]) {
        assert Conserved(ms[..|front|]) && Conserved(ms[..|ms|]);
        forall n | 0 <= n <= |front| ensures Conserved(front[..n]) {
          assert Conserved(ms[..n]);
        }
      }
      if NeverOverflows(ms) {
        assert Conserved(front[..|front|]) && front[..|front|] == front;
        forall n | 0 <= n <= |ms| ensures Conserved(ms[..n]) {
          if n < |ms| {
            assert Conserved(front[..n]);
          }
        }
      }
    }
  }

  /** The smallest stream that loses it: two orders of 2^63 at one price leave a level of 0. */
  lemma HugeOrdersOverflow(p: Price)
    ensures var ms := [] + [AddOrder(1, p, TWO63, 'B')] + [AddOrder(2, p, TWO63, 'B')];
            && !NeverOverflows(ms)
            && LevelVolume(Run(ms), true, p) == 0
            && Resting(Run(ms).orders, true, p) == TWO64
  {
    var m1, m2 := AddOrder(1, p, TWO63, 'B'), AddOrder(2, p, TWO63, 'B');
    var ms1, ms2 := [] + [m1], [] + [m1] + [m2];
    assert ms1[..0] == [] && ms2[..1] == ms1;
    assert Run([]) == EMPTY_DISPLAY;
    var d := Run(ms1);
    assert d == DisplayData(map[1 := LiveOrder(p, TWO63, 'B')], Rung(p, TWO63, Empty), Empty);
    RestingUpdate(map[], 1, d.orders[1], true, p);
    RestingUpdate(d.orders, 2, LiveOrder(p, TWO63, 'B'), true, p);
    assert Contributions(map[], true, p) == map[];
    assert map[][1 := d.orders[1]] == d.orders;
  }

  lemma EmptyConserved()
    ensures Conserved([])
  {
    forall bid, price ensures Balanced(Run([]), bid, price, Phantom([], bid, price)) {
      assert Contributions(map[], bid, price) == map[];
    }
  }

  /** The last message of a stream decides: it keeps conservation exactly when it fits. */
  lemma ConservedStepIff(ms: seq<Body>)
    requires ms != [] && Conserved(ms[..|ms| - 1])
    ensures Conserved(ms) <==> Fits(Run(ms[..|ms| - 1]), ms[|ms| - 1])
  {
    var front, m := ms[..|ms| - 1], ms[|ms| - 1];
    var d := Run(front);
    forall bid, price
      ensures Balanced(Run(ms), bid, price, Phantom(ms, bid, price)) <==>
                (Added(d, m).Some? && RestsAt(Added(d, m).value, bid, price) ==> Fits(d, m))
    {
      assert Balanced(d, bid, price, Phantom(front, bid, price));
      StepBalance(d, m, bid, price, Phantom(front, bid, price));
    }
    if Conserved(ms) && Added(d, m).Some? {
      var o := Added(d, m).value;
      assert Balanced(Run(ms), IsBid(o.side), o.price, Phantom(ms, IsBid(o.side), o.price));
    }
  }

  /** All volume a stream submits to the book. */
  function Submitted(ms: seq<Body>): nat {
    if ms == [] then
      0
    else
      Submitted(ms[..|ms| - 1]) + SubmittedBy(ms[|ms| - 1])
  }

  function SubmittedBy(m: Body): nat {
    if m.AddOrder? || m.AddOrderRefresh? || m.ModifyOrder? || m.ReplaceOrder? then m.volume else 0
  }

  lemma RemoveNeverAdds(d: Display, side: char, p: Price, v: u64, bid: bool, price: Price)
    ensures LevelVolume(RemoveLevel(d, side, p, v).display, bid, price) <= LevelVolume(d, bid, price)
  {
    TakeAtSpec(DirectionOf(IsBid(side)), Levels(d, IsBid(side)), p, v, price);
  }

  lemma InsertAddsAtMost(d: Display, id: u64, o: LiveOrder, bid: bool, price: Price)
    ensures LevelVolume(Insert(d, id, o), bid, price) <= LevelVolume(d, bid, price) + o.volume
  {
    AddAtSpec(DirectionOf(IsBid(o.side)), Levels(d, IsBid(o.side)), o.price, o.volume, price);
    WrapExact(LevelVolume(d, bid, price) + o.volume);
  }

  /** No level ever holds more than the stream has submitted, wrapped or not. */
  lemma {:induction false} LevelWithinSubmitted(ms: seq<Body>, bid: bool, price: Price)
    ensures LevelVolume(Run(ms), bid, price) <= Submitted(ms)
  {
    if ms != [] {
      var d, m := Run(ms[..|ms| - 1]), ms[|ms| - 1];
      LevelWithinSubmitted(ms[..|ms| - 1], bid, price);
      BaseWithin(d, m, bid, price);
      if Added(d, m).Some? && !m.ModifyOrder? {
        InsertAddsAtMost(Base(d, m), if m.ReplaceOrder? then m.newOrderId else m.orderId, Added(d, m).value, bid, price);
      } else if Added(d, m).Some? {
        ModifyIsReplace(d, m.orderId, m.price, m.volume);
        InsertAddsAtMost(Base(d, m), m.orderId, Added(d, m).value, bid, price);
      } else if m.DeleteOrder? && m.orderId in d.orders {
        var o := d.orders[m.orderId];
        RemoveNeverAdds(d, o.side, o.price, o.volume, bid, price);
      } else if m.OrderExecution? && m.orderId in d.orders {
        var o := d.orders[m.orderId];
        RemoveNeverAdds(d, o.side, o.price, if m.volume > o.volume then o.volume else m.volume, bid, price);
      }
    }
  }

  lemma BaseWithin(d: Display, m: Body, bid: bool, price: Price)
    ensures LevelVolume(Base(d, m), bid, price) <= LevelVolume(d, bid, price)
  {
    if (m.ModifyOrder? || m.ReplaceOrder?) && m.orderId in d.orders {
      var o := d.orders[m.orderId];
      RemoveNeverAdds(d, o.side, o.price, o.volume, bid, price);
    }
  }

  /** A stream that submits less than 2^64 in all never overflows a level. */
  lemma {:induction false} SmallStreamsNeverOverflow(ms: seq<Body>)
    requires Submitted(ms) < TWO64
    ensures NeverOverflows(ms)
  {
    if ms != [] {
      var front, m := ms[..|ms| - 1], ms[|ms| - 1];
      SmallStreamsNeverOverflow(front);
      if Added(Run(front), m).Some? {
        var o := Added(Run(front), m).value;
        LevelWithinSubmitted(front, IsBid(o.side), o.price);
        BaseWithin(Run(front), m, IsBid(o.side), o.price);
      }
    }
  }

  // ----- the phantom -----

  /** No Add, Refresh or Replace writes over a live order. */
  predicate NeverReuses(ms: seq<Body>) {
    ms != [] ==> NeverReuses(ms[..|ms| - 1]) && !Reuses(Run(ms[..|ms| - 1]), ms[|ms| - 1])
  }

  predicate Reuses(d: Display, m: Body) {
    match m
    case AddOrder(id, _, _, _) => id in d.orders
    case AddOrderRefresh(id, _, _, _) => id in d.orders
    case ReplaceOrder(id, newId, _, _, _) => newId != id && newId in d.orders
    case _ => false
  }

  lemma PhantomGrows(ms: seq<Body>, m: Body, bid: bool, price: Price)
    ensures Phantom(ms + [m], bid, price) == Phantom(ms, bid, price) + Overwritten(Run(ms), m, bid, price)
  {
    assert (ms + [m])[..|ms|] == ms;
  }

  /** The phantom of a stream never shrinks as the stream goes on. */
  lemma {:induction false} PhantomNeverShrinks(ms: seq<Body>, more: seq<Body>, bid: bool, price: Price)
    ensures Phantom(ms, bid, price) <= Phantom(ms + more, bid, price)
  {
    if more == [] {
      assert ms + more == ms;
    } else {
      var k := |more| - 1;
      PhantomNeverShrinks(ms, more[..k], bid, price);
      PhantomGrows(ms + more[..k], more[k], bid, price);
      assert ms + more[..k] + [more[k]] == ms + more;
    }
  }

  /** Some live order with volume is written over. */
  predicate LosesVolume(d: Display, m: Body) {
    match m
    case AddOrder(id, _, _, _) => id in d.orders && d.orders[id].volume > 0
    case AddOrderRefresh(id, _, _, _) => id in d.orders && d.orders[id].volume > 0
    case ReplaceOrder(id, newId, _, _, _) => newId != id && newId in d.orders && d.orders[newId].volume > 0
    case _ => false
  }

  predicate NeverLosesVolume(ms: seq<Body>) {
    ms != [] ==> NeverLosesVolume(ms[..|ms| - 1]) && !LosesVolume(Run(ms[..|ms| - 1]), ms[|ms| - 1])
  }

  ghost predicate NoPhantom(ms: seq<Body>) {
    forall bid, price :: Phantom(ms, bid, price) == 0
  }

  /** There is no phantom anywhere if and only if no live order with volume was ever written over. */
  lemma {:induction false} NoPhantomIff(ms: seq<Body>)
    ensures NoPhantom(ms) <==> NeverLosesVolume(ms)
  {
    if ms != [] {
      var front, m := ms[..|ms| - 1], ms[|ms| - 1];
      NoPhantomIff(front);
      if LosesVolume(Run(front), m) {
        var o := Run(front).orders[if m.ReplaceOrder? then m.newOrderId else m.orderId];
        assert Overwritten(Run(front), m, IsBid(o.side), o.price) == o.volume;
        assert Phantom(ms, IsBid(o.side), o.price) > 0;
      } else if NoPhantom(front) {
        forall bid, price ensures Phantom(ms, bid, price) == 0 {
          assert Overwritten(Run(front), m, bid, price) == 0;
        }
      } else {
        var bid, price :| Phantom(front, bid, price) != 0;
        assert Phantom(ms, bid, price) > 0;
      }
    }
  }

  lemma {:induction false} NoReuseNoPhantom(ms: seq<Body>, bid: bool, price: Price)
    requires NeverReuses(ms)
    ensures Phantom(ms, bid, price) == 0
  {
    if ms != [] {
      NoReuseNoPhantom(ms[..|ms| - 1], bid, price);
    }
  }

  /** Without live-ID reuse the levels are exactly the aggregation of the live orders. */
  lemma LevelsAggregateOrders(ms: seq<Body>, bid: bool, price: Price)
    requires NeverOverflows(ms) && NeverReuses(ms)
    ensures LevelVolume(Run(ms), bid, price) == Resting(Run(ms).orders, bid, price)
  {
    ConservationHolds(ms, bid, price);
    NoReuseNoPhantom(ms, bid, price);
  }

  ghost predicate LevelsAggregate(d: Display) {
    forall bid, price :: Balanced(d, bid, price, 0)
  }

  /** Barring overflow the levels are the aggregation of the live orders if and only if no live
      order with volume was ever written over. */
  lemma LevelsAggregateIff(ms: seq<Body>)
    requires NeverOverflows(ms)
    ensures LevelsAggregate(Run(ms)) <==> NeverLosesVolume(ms)
  {
    NoPhantomIff(ms);
    forall bid, price ensures Balanced(Run(ms), bid, price, 0) <==> Phantom(ms, bid, price) == 0 {
      ConservationHolds(ms, bid, price);
    }
  }
}
