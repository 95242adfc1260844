/** What is live, read off the messages alone: the history of an order ID, and what one message does
    to the orders and the levels. */
module OrderHistory {
  import opened Words
  import opened PriceLevels
  import opened Messages
  import opened DisplayBook
  import opened Conservation

  // ----- the history of an ID -----

  /** The message puts an order under the ID. */
  predicate Puts(m: Body, id: u64) {
    ((m.AddOrder? || m.AddOrderRefresh?) && m.orderId == id) || (m.ReplaceOrder? && m.newOrderId == id)
  }

  /** The message deletes the order of the ID, or replaces it away. */
  predicate Takes(m: Body, id: u64) {
    (m.DeleteOrder? && m.orderId == id) || (m.ReplaceOrder? && m.orderId == id && m.newOrderId != id)
  }

  predicate Modifies(m: Body, id: u64) {
    m.ModifyOrder? && m.orderId == id
  }

  predicate Executes(m: Body, id: u64) {
    m.OrderExecution? && m.orderId == id
  }

  /** The summed executions of the ID among the messages from `from` up to `end`. */
  function Executed(ms: seq<Body>, id: u64, from: nat, end: nat): nat
    requires from <= end <= |ms|
    decreases end
  {
    if from == end then 0
    else Executed(ms, id, from, end - 1) + if Executes(ms[end - 1], id) then ms[end - 1].volume else 0
  }

  /** Message `s` is the last before `n` to set price and volume of the order put by message `i`. */
  predicate LastSetting(ms: seq<Body>, id: u64, i: nat, s: nat, n: nat)
    requires n <= |ms|
  {
    && i <= s < n
    && (if s == i then Puts(ms[s], id) else Modifies(ms[s], id))
    && forall k :: s < k < n ==> !Modifies(ms[k], id)
  }

  /** Message `i` is the last before `n` to put an order under the ID, and since then it has not been
      deleted, not been replaced away, and no execution has brought the executions since the last
      setting up to the volume set there. */
  ghost predicate LivesSince(ms: seq<Body>, id: u64, i: nat, n: nat)
    requires n <= |ms|
  {
    && i < n
    && Puts(ms[i], id)
    && (forall k: nat :: i < k < n ==> LeavesAlive(ms, id, i, k))
  }

  /** Message `k` neither puts another order under the ID, nor takes it away, nor executes it in full. */
  ghost predicate LeavesAlive(ms: seq<Body>, id: u64, i: nat, k: nat)
    requires k < |ms|
  {
    && !Puts(ms[k], id)
    && !Takes(ms[k], id)
    && (Executes(ms[k], id) ==> LeavesVolume(ms, id, i, k))
  }

  /** Execution `j` does not bring the executions since the last setting up to the volume set there. */
  ghost predicate LeavesVolume(ms: seq<Body>, id: u64, i: nat, j: nat)
    requires j < |ms|
  {
    forall s: nat :: LastSetting(ms, id, i, s, j) ==> Executed(ms, id, s + 1, j + 1) < ms[s].volume
  }

  function OrderAt(d: Display, id: u64): Option<LiveOrder> {
    if id in d.orders then Some(d.orders[id]) else None
  }

  // ----- one message on one ID -----

  lemma PutSets(d: Display, m: Body, id: u64)
    requires Puts(m, id)
    ensures OrderAt(Apply(d, m).display, id) == Some(LiveOrder(m.price, m.volume, m.side))
  {
  }

  lemma TakeTakes(d: Display, m: Body, id: u64)
    requires Takes(m, id)
    ensures OrderAt(Apply(d, m).display, id) == None
  {
  }

  lemma ModifySets(d: Display, m: Body, id: u64)
    requires Modifies(m, id)
    ensures OrderAt(Apply(d, m).display, id) ==
            if id in d.orders then Some(LiveOrder(m.price, m.volume, d.orders[id].side)) else None
  {
  }

  lemma ExecutionReduces(d: Display, m: Body, id: u64)
    requires Executes(m, id)
    ensures OrderAt(Apply(d, m).display, id) ==
            if id in d.orders && m.volume < d.orders[id].volume
            then Some(LiveOrder(d.orders[id].price, d.orders[id].volume - m.volume, d.orders[id].side)) else None
  {
  }

  lemma OthersKeep(d: Display, m: Body, id: u64)
    requires !Puts(m, id) && !Takes(m, id) && !Modifies(m, id) && !Executes(m, id)
    ensures OrderAt(Apply(d, m).display, id) == OrderAt(d, id)
  {
    match m
    case AddOrder(_, _, _, _) =>
    case AddOrderRefresh(_, _, _, _) =>
    case ModifyOrder(_, _, _, _) =>
    case DeleteOrder(_) =>
    case OrderExecution(_, _, _, _) =>
    case ReplaceOrder(_, _, _, _, _) =>
    case _ =>
  }

  lemma RunNext(ms: seq<Body>, n: nat)
    requires n < |ms|
    ensures Run(ms[..n + 1]) == Apply(Run(ms[..n]), ms[n]).display
  {
    assert ms[..n + 1][..n] == ms[..n];
  }

  // ----- whole streams -----

  /** Every life has a last setting. */
  lemma {:induction false} SettingOf(ms: seq<Body>, id: u64, i: nat, n: nat) returns (s: nat)
    requires i < n <= |ms| && Puts(ms[i], id)
    ensures LastSetting(ms, id, i, s, n)
    decreases n
  {
    if n - 1 == i || Modifies(ms[n - 1], id) {
      s := n - 1;
    } else {
      s := SettingOf(ms, id, i, n - 1);
    }
  }

  /** While it lives, the order is what was last set, less what was executed since. */
  ghost predicate IsAsSet(ms: seq<Body>, id: u64, i: nat, s: nat, n: nat)
    requires n <= |ms| && LastSetting(ms, id, i, s, n) && Puts(ms[i], id)
  {
    var executed := Executed(ms, id, s + 1, n);
    && executed <= ms[s].volume
    && OrderAt(Run(ms[..n]), id) == Some(LiveOrder(ms[s].price, ms[s].volume - executed, ms[i].side))
  }

  lemma PutIsAsSet(ms: seq<Body>, id: u64, i: nat)
    requires i < |ms| && Puts(ms[i], id)
    ensures IsAsSet(ms, id, i, i, i + 1)
  {
    RunNext(ms, i);
    PutSets(Run(ms[..i]), ms[i], id);
  }

  lemma ModifiedIsAsSet(ms: seq<Body>, id: u64, i: nat, s: nat, k: nat)
    requires k < |ms| && LastSetting(ms, id, i, s, k) && Puts(ms[i], id) && IsAsSet(ms, id, i, s, k)
    requires Modifies(ms[k], id)
    ensures IsAsSet(ms, id, i, k, k + 1)
  {
    RunNext(ms, k);
    ModifySets(Run(ms[..k]), ms[k], id);
  }

  lemma StaysAsSet(ms: seq<Body>, id: u64, i: nat, s: nat, k: nat)
    requires k < |ms| && LastSetting(ms, id, i, s, k) && Puts(ms[i], id) && IsAsSet(ms, id, i, s, k)
    requires !Puts(ms[k], id) && !Takes(ms[k], id) && !Modifies(ms[k], id)
    requires Executes(ms[k], id) ==> Executed(ms, id, s + 1, k + 1) < ms[s].volume
    ensures LastSetting(ms, id, i, s, k + 1) && IsAsSet(ms, id, i, s, k + 1)
  {
    RunNext(ms, k);
    if Executes(ms[k], id) {
      ExecutionReduces(Run(ms[..k]), ms[k], id);
    } else {
      OthersKeep(Run(ms[..k]), ms[k], id);
    }
  }

  lemma {:induction false} LivingIsAsSet(ms: seq<Body>, id: u64, i: nat, s: nat, n: nat)
    requires n <= |ms| && LivesSince(ms, id, i, n) && LastSetting(ms, id, i, s, n)
    ensures IsAsSet(ms, id, i, s, n)
    decreases n
  {
    var k := n - 1;
    if i == k {
      PutIsAsSet(ms, id, i);
    } else if Modifies(ms[k], id) {
      assert s == k;
      var before := SettingOf(ms, id, i, k);
      LivingIsAsSet(ms, id, i, before, k);
      ModifiedIsAsSet(ms, id, i, before, k);
    } else {
      LivingIsAsSet(ms, id, i, s, k);
      assert LeavesAlive(ms, id, i, k);
      StaysAsSet(ms, id, i, s, k);
    }
  }

  /** What lives was put there once, and has lived since. */
  lemma {:induction false} LifeBegan(ms: seq<Body>, id: u64, n: nat) returns (i: nat)
    requires n <= |ms| && id in Run(ms[..n]).orders
    ensures LivesSince(ms, id, i, n)
    decreases n
  {
    assert n > 0 by { assert ms[..0] == []; }
    var k, d := n - 1, Run(ms[..n - 1]);
    RunNext(ms, k);
    if Puts(ms[k], id) {
      i := k;
    } else {
      StillThere(d, ms[k], id);
      i := LifeBegan(ms, id, k);
      LivesOn(ms, id, i, k);
    }
  }

  lemma LivesOn(ms: seq<Body>, id: u64, i: nat, k: nat)
    requires k < |ms| && LivesSince(ms, id, i, k) && !Puts(ms[k], id) && !Takes(ms[k], id)
    requires id in Run(ms[..k + 1]).orders
    ensures LivesSince(ms, id, i, k + 1)
  {
    assert LeavesAlive(ms, id, i, k) by {
      if Executes(ms[k], id) {
        SurvivedLeavesVolume(ms, id, i, k);
      }
    }
  }

  lemma SurvivedLeavesVolume(ms: seq<Body>, id: u64, i: nat, k: nat)
    requires k < |ms| && LivesSince(ms, id, i, k) && Executes(ms[k], id) && id in Run(ms[..k + 1]).orders
    ensures LeavesVolume(ms, id, i, k)
  {
    forall s: nat | LastSetting(ms, id, i, s, k) ensures Executed(ms, id, s + 1, k + 1) < ms[s].volume {
      NotReached(ms, id, i, s, k);
    }
  }

  lemma NotReached(ms: seq<Body>, id: u64, i: nat, s: nat, k: nat)
    requires k < |ms| && LivesSince(ms, id, i, k) && LastSetting(ms, id, i, s, k)
    requires Executes(ms[k], id) && id in Run(ms[..k + 1]).orders
    ensures Executed(ms, id, s + 1, k + 1) < ms[s].volume
  {
    RunNext(ms, k);
    LivingIsAsSet(ms, id, i, s, k);
    ExecutionReduces(Run(ms[..k]), ms[k], id);
  }

  lemma StillThere(d: Display, m: Body, id: u64)
    requires !Puts(m, id) && id in Apply(d, m).display.orders
    ensures !Takes(m, id) && id in d.orders
  {
    if Takes(m, id) {
      TakeTakes(d, m, id);
    } else if Modifies(m, id) {
      ModifySets(d, m, id);
    } else if Executes(m, id) {
      ExecutionReduces(d, m, id);
    } else {
      OthersKeep(d, m, id);
    }
  }

  /** What is live, from the history of its ID: it was put there, and since then neither deleted, nor
      replaced away, nor executed in full. */
  lemma LiveIff(ms: seq<Body>, id: u64)
    ensures id in Run(ms).orders <==> exists i :: LivesSince(ms, id, i, |ms|)
  {
    assert ms[..|ms|] == ms;
    if id in Run(ms).orders {
      var i := LifeBegan(ms, id, |ms|);
    }
    if i: nat :| LivesSince(ms, id, i, |ms|) {
      var s := SettingOf(ms, id, i, |ms|);
      LivingIsAsSet(ms, id, i, s, |ms|);
    }
  }

  /** And what it is: the side of the message that put it there, price and volume of the last setting,
      less what was executed since. */
  lemma LiveOrderIs(ms: seq<Body>, id: u64, i: nat, s: nat)
    requires LivesSince(ms, id, i, |ms|) && LastSetting(ms, id, i, s, |ms|)
    ensures Executed(ms, id, s + 1, |ms|) <= ms[s].volume
    ensures id in Run(ms).orders
    ensures Run(ms).orders[id] ==
            LiveOrder(ms[s].price, ms[s].volume - Executed(ms, id, s + 1, |ms|), ms[i].side)
  {
    LivingIsAsSet(ms, id, i, s, |ms|);
    assert ms[..|ms|] == ms;
  }

  // ----- what one message does to the book -----

  /** No order but those of `ids` is touched. */
  predicate OthersUntouched(d: Display, d': Display, ids: set<u64>) {
    forall id: u64 :: id !in ids ==> OrderAt(d', id) == OrderAt(d, id)
  }

  /** What an order holds at a price of a side. */
  function HeldAt(o: Option<LiveOrder>, bid: bool, price: Price): nat {
    if o.Some? && (o.value.side == 'B') == bid && o.value.price == price then o.value.volume else 0
  }

  /** At every price of every side the level loses what `out` held there and gains what `into` holds. */
  ghost predicate LevelsMove(d: Display, d': Display, out: Option<LiveOrder>, into: Option<LiveOrder>) {
    forall bid, price ::
      LevelVolume(d', bid, price) == LevelVolume(d, bid, price) - HeldAt(out, bid, price) + HeldAt(into, bid, price)
  }

  /** An order is put under an ID, and `out` leaves its level. */
  ghost predicate Placed(d: Display, d': Display, id: u64, o: LiveOrder, out: Option<LiveOrder>) {
    OrderAt(d', id) == Some(o) && LevelsMove(d, d', out, Some(o))
  }

  /** The whole effect of a message. */
  ghost predicate Effect(d: Display, m: Body, d': Display) {
    match m
    case AddOrder(id, price, volume, side) =>
      Placed(d, d', id, LiveOrder(price, volume, side), None) && OthersUntouched(d, d', {id})
    case AddOrderRefresh(id, price, volume, side) =>
      Placed(d, d', id, LiveOrder(price, volume, side), None) && OthersUntouched(d, d', {id})
    case ModifyOrder(id, price, volume, _) =>
      if id !in d.orders then d' == d else
        && Placed(d, d', id, LiveOrder(price, volume, d.orders[id].side), OrderAt(d, id))
        && OthersUntouched(d, d', {id})
    case DeleteOrder(id) =>
      if id !in d.orders then d' == d else
        && id !in d'.orders
        && LevelsMove(d, d', OrderAt(d, id), None)
        && OthersUntouched(d, d', {id})
    case OrderExecution(id, _, _, volume) =>
      if id !in d.orders then d' == d else
        var o := d.orders[id];
        var executed := if volume < o.volume then volume else o.volume;
        && OrderAt(d', id) ==
           (if volume >= o.volume then None else Some(LiveOrder(o.price, o.volume - volume, o.side)))
        && LevelsMove(d, d', Some(LiveOrder(o.price, executed, o.side)), None)
        && OthersUntouched(d, d', {id})
    case ReplaceOrder(id, newId, price, volume, side) =>
      && Placed(d, d', newId, LiveOrder(price, volume, side), OrderAt(d, id))
      && (newId != id ==> id !in d'.orders)
      && OthersUntouched(d, d', {id, newId})
    case _ => d' == d
  }

  lemma OrdersUntouched(d: Display, m: Body, ids: set<u64>)
    requires forall id: u64 :: id !in ids ==> !Puts(m, id) && !Takes(m, id) && !Modifies(m, id) && !Executes(m, id)
    ensures OthersUntouched(d, Apply(d, m).display, ids)
  {
    forall id: u64 | id !in ids ensures OrderAt(Apply(d, m).display, id) == OrderAt(d, id) {
      OthersKeep(d, m, id);
    }
  }

  /** The levels account for the live orders: each level holds at least what each order rests there. */
  ghost predicate Backed(d: Display) {
    forall id <- d.orders ::
      d.orders[id].volume <= LevelVolume(d, IsBid(d.orders[id].side), d.orders[id].price)
  }

  lemma RunBacked(ms: seq<Body>)
    requires NeverOverflows(ms)
    ensures Backed(Run(ms))
  {
    forall id | id in Run(ms).orders
      ensures var o := Run(ms).orders[id]; o.volume <= LevelVolume(Run(ms), IsBid(o.side), o.price)
    {
      var o := Run(ms).orders[id];
      ConservationHolds(ms, IsBid(o.side), o.price);
      RestingRemove(Run(ms).orders, id, IsBid(o.side), o.price);
    }
  }

  lemma InsertMoves(d: Display, id: u64, o: LiveOrder)
    requires LevelVolume(d, IsBid(o.side), o.price) + o.volume < TWO64
    ensures LevelsMove(d, Insert(d, id, o), None, Some(o))
  {
    forall bid, price
      ensures LevelVolume(Insert(d, id, o), bid, price) == LevelVolume(d, bid, price) + HeldAt(Some(o), bid, price)
    {
      AddAtSpec(DirectionOf(IsBid(o.side)), Levels(d, IsBid(o.side)), o.price, o.volume, price);
    }
  }

  lemma RemoveMoves(d: Display, o: LiveOrder, executed: u64)
    requires executed <= LevelVolume(d, IsBid(o.side), o.price)
    ensures var d' := RemoveLevel(d, o.side, o.price, executed).display;
            d'.orders == d.orders && LevelsMove(d, d', Some(o.(volume := executed)), None)
  {
    forall bid, price
      ensures LevelVolume(RemoveLevel(d, o.side, o.price, executed).display, bid, price) ==
              LevelVolume(d, bid, price) - HeldAt(Some(o.(volume := executed)), bid, price)
    {
      RemoveBalance(d, o, executed, bid, price);
    }
  }

  lemma DeleteMoves(d: Display, id: u64)
    requires Backed(d)
    ensures LevelsMove(d, Delete(d, id).display, OrderAt(d, id), None)
  {
    if id in d.orders {
      RemoveMoves(d, d.orders[id], d.orders[id].volume);
    }
  }

  lemma AddDoes(d: Display, m: Body)
    requires (m.AddOrder? || m.AddOrderRefresh?) && Fits(d, m)
    ensures Effect(d, m, Apply(d, m).display)
  {
    PutSets(d, m, m.orderId);
    InsertMoves(d, m.orderId, LiveOrder(m.price, m.volume, m.side));
    OrdersUntouched(d, m, {m.orderId});
  }

  lemma DeleteDoes(d: Display, m: Body)
    requires m.DeleteOrder? && Backed(d)
    ensures Effect(d, m, Apply(d, m).display)
  {
    TakeTakes(d, m, m.orderId);
    DeleteMoves(d, m.orderId);
    OrdersUntouched(d, m, {m.orderId});
  }

  lemma ExecutionDoes(d: Display, m: Body)
    requires m.OrderExecution? && Backed(d)
    ensures Effect(d, m, Apply(d, m).display)
  {
    if m.orderId in d.orders {
      var o := d.orders[m.orderId];
      ExecutionReduces(d, m, m.orderId);
      RemoveMoves(d, o, if m.volume < o.volume then m.volume else o.volume);
      OrdersUntouched(d, m, {m.orderId});
    }
  }

  lemma ReplaceMoves(d: Display, id: u64, newId: u64, o: LiveOrder)
    requires Backed(d) && LevelVolume(Delete(d, id).display, IsBid(o.side), o.price) + o.volume < TWO64
    ensures LevelsMove(d, Replace(d, id, newId, o).display, OrderAt(d, id), Some(o))
  {
    DeleteMoves(d, id);
    InsertMoves(Delete(d, id).display, newId, o);
  }

  lemma ReplaceDoes(d: Display, m: Body)
    requires m.ReplaceOrder? && Backed(d) && Fits(d, m)
    ensures Effect(d, m, Apply(d, m).display)
  {
    PutSets(d, m, m.newOrderId);
    if m.newOrderId != m.orderId {
      TakeTakes(d, m, m.orderId);
    }
    ReplaceMoves(d, m.orderId, m.newOrderId, LiveOrder(m.price, m.volume, m.side));
    OrdersUntouched(d, m, {m.orderId, m.newOrderId});
  }

  lemma ModifyDoes(d: Display, m: Body)
    requires m.ModifyOrder? && Backed(d) && Fits(d, m)
    ensures Effect(d, m, Apply(d, m).display)
  {
    if m.orderId in d.orders {
      ModifySets(d, m, m.orderId);
      ModifyIsReplace(d, m.orderId, m.price, m.volume);
      ReplaceMoves(d, m.orderId, m.orderId, LiveOrder(m.price, m.volume, d.orders[m.orderId].side));
      OrdersUntouched(d, m, {m.orderId});
    }
  }

  /** On any book whose levels account for its orders, a message that overflows no level, of whatever
      type, has exactly its effect. */
  lemma EffectOf(d: Display, m: Body)
    requires Backed(d) && Fits(d, m)
    ensures Effect(d, m, Apply(d, m).display)
  {
    if m.AddOrder? || m.AddOrderRefresh? {
      AddDoes(d, m);
    } else if m.ModifyOrder? {
      ModifyDoes(d, m);
    } else if m.DeleteOrder? {
      DeleteDoes(d, m);
    } else if m.OrderExecution? {
      ExecutionDoes(d, m);
    } else if m.ReplaceOrder? {
      ReplaceDoes(d, m);
    }
  }

  /** So it has after any stream without overflow. */
  lemma MessageDoes(ms: seq<Body>, m: Body)
    requires NeverOverflows(ms + [m])
    ensures Effect(Run(ms), m, Run(ms + [m]))
  {
    assert (ms + [m])[..|ms|] == ms;
    RunBacked(ms);
    EffectOf(Run(ms), m);
  }
}
