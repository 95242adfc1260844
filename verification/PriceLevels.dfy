/** The ordered maps `_bidLevels` (greatest price first) and `_askLevels` (least price first). */
module PriceLevels {
  import opened Words

  /** The comparator of an ordered map. */
  datatype Direction = Descending | Ascending

  predicate Before(dir: Direction, a: Price, b: Price) {
    match dir
    case Descending => a > b
    case Ascending => a < b
  }

  /** An ordered map as its entries in iteration order: the first rung is `begin()`. */
  datatype Ladder = Empty | Rung(price: Price, volume: u64, rest: Ladder)

  predicate Sorted(dir: Direction, l: Ladder) {
    l.Rung? ==>
      && (l.rest.Rung? ==> Before(dir, l.price, l.rest.price))
      && Sorted(dir, l.rest)
  }

  predicate Has(l: Ladder, p: Price) {
    l.Rung? && (l.price == p || Has(l.rest, p))
  }

  /** The volume stored at a price, 0 where there is no rung. */
  function VolumeAt(l: Ladder, p: Price): u64 {
    if l.Empty? then 0 else if l.price == p then l.volume else VolumeAt(l.rest, p)
  }

  /** No rung holds 0. */
  predicate Positive(l: Ladder) {
    l.Rung? ==> l.volume > 0 && Positive(l.rest)
  }

  /** `levels[p] += v`: creates the rung when it is missing, and wraps. */
  function AddAt(dir: Direction, l: Ladder, p: Price, v: u64): Ladder {
    if l.Empty? then Rung(p, v, Empty)
    else if l.price == p then l.(volume := Wrap(l.volume + v))
    else if Before(dir, p, l.price) then Rung(p, v, l)
    else l.(rest := AddAt(dir, l.rest, p, v))
  }

  /** The subtraction of `RemoveLevel`: erases a rung that reaches 0, and has no result when
      the rung is missing or holds less than `v`. */
  function TakeAt(l: Ladder, p: Price, v: u64): Option<Ladder> {
    if l.Empty? then None
    else if l.price == p then
      if l.volume < v then None
      else if l.volume == v then Some(l.rest)
      else Some(l.(volume := l.volume - v))
    else
      match TakeAt(l.rest, p, v)
      case None => None
      case Some(rest) => Some(l.(rest := rest))
  }

  /** In a sorted ladder nothing stands before the first rung. */
  lemma {:induction false} FirstIsBest(dir: Direction, l: Ladder, p: Price)
    requires Sorted(dir, l) && Has(l, p)
    ensures p == l.price || Before(dir, l.price, p)
    ensures p != l.price ==> Has(l.rest, p)
  {
    if p != l.price {
      FirstIsBest(dir, l.rest, p);
    }
  }

  lemma {:induction false} HasVolume(l: Ladder, p: Price)
    requires Positive(l)
    ensures Has(l, p) <==> VolumeAt(l, p) > 0
  {
    if l.Rung? {
      HasVolume(l.rest, p);
    }
  }

  lemma {:induction false} AbsentIsZero(l: Ladder, p: Price)
    requires !Has(l, p)
    ensures VolumeAt(l, p) == 0
  {
    if l.Rung? {
      AbsentIsZero(l.rest, p);
    }
  }

  /** Adding at `p` changes the volume at `p` alone, and keeps the order. */
  lemma {:induction false} AddAtSpec(dir: Direction, l: Ladder, p: Price, v: u64, q: Price)
    requires Sorted(dir, l)
    ensures Sorted(dir, AddAt(dir, l, p, v))
    ensures VolumeAt(AddAt(dir, l, p, v), q) == if q == p then Wrap(VolumeAt(l, p) + v) else VolumeAt(l, q)
    ensures Has(AddAt(dir, l, p, v), q) <==> q == p || Has(l, q)
  {
    if l.Rung? {
      AddAtSpec(dir, l.rest, p, v, q);
      if Before(dir, p, l.price) && Has(l, p) {
        FirstIsBest(dir, l, p);
      }
      if l.price != p && Before(dir, p, l.price) {
        AbsentIsZero(l, p);
      }
    }
  }

  lemma {:induction false} AddAtPositive(dir: Direction, l: Ladder, p: Price, v: u64)
    requires Sorted(dir, l) && Positive(l) && v > 0 && VolumeAt(l, p) + v < TWO64
    ensures Positive(AddAt(dir, l, p, v))
  {
    if l.Rung? && l.price != p && !Before(dir, p, l.price) {
      AddAtPositive(dir, l.rest, p, v);
    }
  }

  /** Taking succeeds exactly when the rung is there and holds enough; it then changes the
      volume at `p` alone, keeps the order and never leaves a 0 behind. */
  lemma {:induction false} TakeAtSpec(dir: Direction, l: Ladder, p: Price, v: u64, q: Price)
    requires Sorted(dir, l)
    ensures TakeAt(l, p, v).Some? <==> Has(l, p) && v <= VolumeAt(l, p)
    ensures var r := TakeAt(l, p, v);
            r.Some? ==>
              && Sorted(dir, r.value)
              && VolumeAt(r.value, q) == (if q == p then VolumeAt(l, p) - v else VolumeAt(l, q))
              && (Has(r.value, q) <==> if q == p then v < VolumeAt(l, p) else Has(l, q))
              && (Positive(l) ==> Positive(r.value))
  {
    if l.Rung? {
      TakeAtSpec(dir, l.rest, p, v, q);
      if Has(l.rest, l.price) {
        FirstIsBest(dir, l, l.rest.price);
        FirstIsBest(dir, l.rest, l.price);
      }
      if p == l.price {
        AbsentIsZero(l.rest, p);
      } else if TakeAt(l.rest, p, v).Some? && TakeAt(l.rest, p, v).value.Rung? {
        TakeKeepsOrder(dir, l, p, v);
      }
    }
  }

  /** What is left of the tail still comes after the head. */
  lemma {:induction false} TakeKeepsOrder(dir: Direction, l: Ladder, p: Price, v: u64)
    requires Sorted(dir, l) && l.Rung? && l.price != p
    requires TakeAt(l.rest, p, v).Some? && TakeAt(l.rest, p, v).value.Rung?
    ensures Before(dir, l.price, TakeAt(l.rest, p, v).value.price)
  {
  }

  /** Taking back what was just added restores the ladder, entry by entry. */
  lemma {:induction false} AddThenTake(dir: Direction, l: Ladder, p: Price, v: u64)
    requires Sorted(dir, l) && Positive(l) && VolumeAt(l, p) + v < TWO64
    ensures TakeAt(AddAt(dir, l, p, v), p, v) == Some(l)
  {
    if l.Rung? && l.price != p && !Before(dir, p, l.price) {
      AddThenTake(dir, l.rest, p, v);
    }
  }

  /** Two withdrawals are one withdrawal of their sum. */
  lemma {:induction false} TakeTwice(l: Ladder, p: Price, a: u64, b: u64)
    requires a + b <= VolumeAt(l, p) && a < VolumeAt(l, p)
    ensures TakeAt(l, p, a).Some?
    ensures TakeAt(TakeAt(l, p, a).value, p, b) == TakeAt(l, p, a + b)
  {
    if l.price != p {
      TakeTwice(l.rest, p, a, b);
    }
  }
}
