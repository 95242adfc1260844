/** The displayed half of one symbol's book: live orders, and the two level maps kept beside them. */
module DisplayBook {
  import opened Words
  import opened PriceLevels
  import opened Messages
  import opened MapSum

  datatype LiveOrder = LiveOrder(price: Price, volume: u64, side: char)

  datatype DisplayData = DisplayData(orders: map<u64, LiveOrder>, bids: Ladder, asks: Ladder)

  /** Both ordered maps iterate in the order of their comparator. */
  predicate Ordered(d: DisplayData) {
    Sorted(Descending, d.bids) && Sorted(Ascending, d.asks)
  }

  type Display = d: DisplayData | Ordered(d) witness DisplayData(map[], Empty, Empty)

  const EMPTY_DISPLAY: Display := DisplayData(map[], Empty, Empty)

  /** Every side but 'B' is an ask. */
  predicate IsBid(side: char) {
    side == 'B'
  }

  function Levels(d: Display, bid: bool): Ladder {
    if bid then d.bids else d.asks
  }

  function DirectionOf(bid: bool): Direction {
    if bid then Descending else Ascending
  }

  function WithLevels(d: Display, bid: bool, l: Ladder): Display
    requires Sorted(DirectionOf(bid), l)
  {
    if bid then d.(bids := l) else d.(asks := l)
  }

  function AddLevel(d: Display, side: char, price: Price, volume: u64): Display {
    var bid := IsBid(side);
    AddAtSpec(DirectionOf(bid), Levels(d, bid), price, volume, price);
    WithLevels(d, bid, AddAt(DirectionOf(bid), Levels(d, bid), price, volume))
  }

  /** A display and whether the step counts as a book-build failure. */
  datatype DisplayStep = DisplayStep(display: Display, failed: bool)

  function RemoveLevel(d: Display, side: char, price: Price, volume: u64): DisplayStep {
    var bid := IsBid(side);
    TakeAtSpec(DirectionOf(bid), Levels(d, bid), price, volume, price);
    match TakeAt(Levels(d, bid), price, volume)
    case None => DisplayStep(d, true)
    case Some(l) => DisplayStep(WithLevels(d, bid, l), false)
  }

  function Insert(d: Display, id: u64, order: LiveOrder): Display {
    AddLevel(d.(orders := d.orders[id := order]), order.side, order.price, order.volume)
  }

  /** Takes the resting volume of a live order off its level. */
  function Withdraw(d: Display, id: u64): DisplayStep
    requires id in d.orders
  {
    RemoveLevel(d, d.orders[id].side, d.orders[id].price, d.orders[id].volume)
  }

  function Drop(d: Display, id: u64): Display {
    d.(orders := d.orders - {id})
  }

  function Modify(d: Display, id: u64, price: Price, volume: u64): DisplayStep {
    if id !in d.orders then
      DisplayStep(d, true)
    else
      var r := Withdraw(d, id);
      DisplayStep(Insert(r.display, id, LiveOrder(price, volume, d.orders[id].side)), r.failed)
  }

  function Delete(d: Display, id: u64): DisplayStep {
    if id !in d.orders then
      DisplayStep(d, true)
    else
      var r := Withdraw(d, id);
      DisplayStep(Drop(r.display, id), r.failed)
  }

  function Execute(d: Display, id: u64, volume: u64): DisplayStep {
    if id !in d.orders then
      DisplayStep(d, true)
    else
      var o := d.orders[id];
      var executed := if volume > o.volume then o.volume else volume;
      var r := RemoveLevel(d, o.side, o.price, executed);
      DisplayStep(
        if volume >= o.volume then Drop(r.display, id)
        else r.display.(orders := r.display.orders[id := o.(volume := o.volume - volume)]),
        r.failed)
  }

  function Replace(d: Display, id: u64, newId: u64, order: LiveOrder): DisplayStep {
    var r := Delete(d, id);
    DisplayStep(Insert(r.display, newId, order), r.failed)
  }

  /** The effect of one message on the displayed book. */
  function Apply(d: Display, m: Body): DisplayStep {
    match m
    case AddOrder(id, price, volume, side) => DisplayStep(Insert(d, id, LiveOrder(price, volume, side)), false)
    case AddOrderRefresh(id, price, volume, side) => DisplayStep(Insert(d, id, LiveOrder(price, volume, side)), false)
    case ModifyOrder(id, price, volume, _) => Modify(d, id, price, volume)
    case DeleteOrder(id) => Delete(d, id)
    case OrderExecution(id, _, _, volume) => Execute(d, id, volume)
    case ReplaceOrder(id, newId, price, volume, side) => Replace(d, id, newId, LiveOrder(price, volume, side))
    case _ => DisplayStep(d, false)
  }

  /** The displayed book after all messages of one symbol. */
  function Run(ms: seq<Body>): Display {
    if ms == [] then EMPTY_DISPLAY else Apply(Run(ms[..|ms| - 1]), ms[|ms| - 1]).display
  }

  /** How many messages of a symbol's stream counted as book-build failures. */
  function BuildFailures(ms: seq<Body>): nat {
    if ms == [] then
      0
    else
      var front := ms[..|ms| - 1];
      BuildFailures(front) + if Apply(Run(front), ms[|ms| - 1]).failed then 1 else 0
  }

  // ----- the independent definition: aggregating the orders -----

  predicate RestsAt(o: LiveOrder, bid: bool, price: Price) {
    IsBid(o.side) == bid && o.price == price
  }

  function VolumeThere(o: LiveOrder, bid: bool, price: Price): nat {
    if RestsAt(o, bid, price) then o.volume else 0
  }

  function Contributions(orders: map<u64, LiveOrder>, bid: bool, price: Price): map<u64, nat> {
    map id | id in orders :: VolumeThere(orders[id], bid, price)
  }

  /** The summed volume of the live orders on one side at one price. */
  ghost function Resting(orders: map<u64, LiveOrder>, bid: bool, price: Price): nat {
    Sum(Contributions(orders, bid, price))
  }

  lemma RestingUpdate(orders: map<u64, LiveOrder>, id: u64, o: LiveOrder, bid: bool, price: Price)
    ensures Resting(orders[id := o], bid, price) ==
            Resting(orders, bid, price)
            - (if id in orders then VolumeThere(orders[id], bid, price) else 0)
            + VolumeThere(o, bid, price)
  {
    var c := Contributions(orders, bid, price);
    SumUpdate(c, id, VolumeThere(o, bid, price));
    assert Contributions(orders[id := o], bid, price) == c[id := VolumeThere(o, bid, price)];
  }

  lemma RestingRemove(orders: map<u64, LiveOrder>, id: u64, bid: bool, price: Price)
    requires id in orders
    ensures Resting(orders, bid, price) == VolumeThere(orders[id], bid, price) + Resting(orders - {id}, bid, price)
  {
    var c := Contributions(orders, bid, price);
    SumRemove(c, id);
    assert Contributions(orders - {id}, bid, price) == c - {id};
  }
}
