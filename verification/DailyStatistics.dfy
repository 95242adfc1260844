/** Open, high, low, close and volume of a trade log: the incremental fold, and what it means. */
module DailyStatistics {
  import opened Words

  datatype TradeRecord = TradeRecord(price: Price, volume: u64, cancelled: bool)

  datatype DailyStats = DailyStats(
    open: Option<Price>, high: Option<Price>, low: Option<Price>, close: Option<Price>, totalVolume: u64)

  const NO_TRADES := DailyStats(None, None, None, None, 0)

  /** One trade folded into running statistics. */
  function FoldIn(s: DailyStats, price: Price, volume: u64): DailyStats {
    DailyStats(
      if s.open.None? then Some(price) else s.open,
      if s.high.None? || price > s.high.value then Some(price) else s.high,
      if s.low.None? || price < s.low.value then Some(price) else s.low,
      Some(price),
      Wrap(s.totalVolume + volume))
  }

  /** The rebuild over the whole log, cancelled records skipped. */
  function Fold(log: seq<TradeRecord>): DailyStats {
    if log == [] then
      NO_TRADES
    else
      var s := Fold(log[..|log| - 1]);
      var t := log[|log| - 1];
      if t.cancelled then s else FoldIn(s, t.price, t.volume)
  }

  // ----- the declarative reading -----

  predicate Live(log: seq<TradeRecord>, i: int) {
    0 <= i < |log| && !log[i].cancelled
  }

  ghost predicate AnyLive(log: seq<TradeRecord>) {
    exists i :: Live(log, i)
  }

  /** The true sum of the live volumes, unbounded. */
  function LiveVolume(log: seq<TradeRecord>): nat {
    if log == [] then
      0
    else
      LiveVolume(log[..|log| - 1]) + if log[|log| - 1].cancelled then 0 else log[|log| - 1].volume
  }

  ghost predicate IsFirst(log: seq<TradeRecord>, p: Price) {
    exists i :: Live(log, i) && log[i].price == p && forall j :: 0 <= j < i ==> !Live(log, j)
  }

  ghost predicate IsLast(log: seq<TradeRecord>, p: Price) {
    exists i :: Live(log, i) && log[i].price == p && forall j :: i < j ==> !Live(log, j)
  }

  ghost predicate IsMax(log: seq<TradeRecord>, p: Price) {
    && (exists i :: Live(log, i) && log[i].price == p)
    && forall i :: Live(log, i) ==> log[i].price <= p
  }

  ghost predicate IsMin(log: seq<TradeRecord>, p: Price) {
    && (exists i :: Live(log, i) && log[i].price == p)
    && forall i :: Live(log, i) ==> p <= log[i].price
  }

  /** What the statistics of a log are supposed to be, apart from the volume. */
  ghost predicate SummarizesPrices(s: DailyStats, log: seq<TradeRecord>) {
    if AnyLive(log) then
      && s.open.Some? && IsFirst(log, s.open.value)
      && s.high.Some? && IsMax(log, s.high.value)
      && s.low.Some? && IsMin(log, s.low.value)
      && s.close.Some? && IsLast(log, s.close.value)
    else
      s.open.None? && s.high.None? && s.low.None? && s.close.None?
  }

  ghost predicate Summarizes(s: DailyStats, log: seq<TradeRecord>) {
    && SummarizesPrices(s, log)
    && s.totalVolume == Wrap(LiveVolume(log))
  }

  /** The fold computes the declarative statistics. */
  lemma {:induction false} FoldSummarizes(log: seq<TradeRecord>)
    ensures Summarizes(Fold(log), log)
  {
    FoldTotal(log);
    FoldSummarizesPrices(log);
  }

  lemma {:induction false} FoldSummarizesPrices(log: seq<TradeRecord>)
    ensures SummarizesPrices(Fold(log), log)
  {
    if log != [] {
      var n := |log| - 1;
      var front := log[..n];
      FoldSummarizesPrices(front);
      assert forall i :: 0 <= i < n ==> front[i] == log[i];
      assert forall i :: Live(front, i) <==> Live(log, i) && i < n;
      if log[n].cancelled {
        SamePricesShorter(Fold(front), front, log);
      } else {
        assert Live(log, n);
        if AnyLive(front) {
          var i :| Live(front, i) && front[i].price == Fold(front).open.value && forall j :: 0 <= j < i ==> !Live(front, j);
          assert Live(log, i) && log[i].price == Fold(log).open.value;
          assert IsFirst(log, Fold(log).open.value);
          var h :| Live(front, h) && front[h].price == Fold(front).high.value;
          assert Live(log, h) && log[h].price == Fold(front).high.value;
          var l :| Live(front, l) && front[l].price == Fold(front).low.value;
          assert Live(log, l) && log[l].price == Fold(front).low.value;
        }
      }
    }
  }

  lemma {:induction false} FoldTotal(log: seq<TradeRecord>)
    ensures Fold(log).totalVolume == Wrap(LiveVolume(log))
  {
    if log != [] {
      var n := |log| - 1;
      FoldTotal(log[..n]);
      WrapAdd(LiveVolume(log[..n]), log[n].volume);
    }
  }

  /** A trailing record that is not live changes nothing. */
  lemma SamePricesShorter(s: DailyStats, front: seq<TradeRecord>, log: seq<TradeRecord>)
    requires forall i :: Live(front, i) ==> Live(log, i)
    requires forall i :: Live(log, i) ==> Live(front, i) && front[i].price == log[i].price
    requires SummarizesPrices(s, front)
    ensures SummarizesPrices(s, log)
  {
    if AnyLive(front) {
      var i :| Live(front, i) && front[i].price == s.open.value && forall j :: 0 <= j < i ==> !Live(front, j);
      assert Live(log, i) && log[i].price == s.open.value;
      var k :| Live(front, k) && front[k].price == s.close.value && forall j :: k < j ==> !Live(front, j);
      assert Live(log, k) && log[k].price == s.close.value;
      var h :| Live(front, h) && front[h].price == s.high.value;
      assert Live(log, h) && log[h].price == s.high.value;
      var l :| Live(front, l) && front[l].price == s.low.value;
      assert Live(log, l) && log[l].price == s.low.value;
    }
  }

  /** The declarative statistics are unique, so they are exactly the fold. */
  lemma SummaryIsFold(s: DailyStats, log: seq<TradeRecord>)
    ensures Summarizes(s, log) <==> s == Fold(log)
  {
    FoldSummarizes(log);
    var f := Fold(log);
    if Summarizes(s, log) && AnyLive(log) {
      var i :| Live(log, i) && log[i].price == s.open.value && forall j :: 0 <= j < i ==> !Live(log, j);
      var i' :| Live(log, i') && log[i'].price == f.open.value && forall j :: 0 <= j < i' ==> !Live(log, j);
      assert i == i';
      var k :| Live(log, k) && log[k].price == s.close.value && forall j :: k < j ==> !Live(log, j);
      var k' :| Live(log, k') && log[k'].price == f.close.value && forall j :: k' < j ==> !Live(log, j);
      assert k == k';
    }
  }

  /** The day's range contains its open and its close. */
  lemma RangeContainsOpenAndClose(log: seq<TradeRecord>)
    requires AnyLive(log)
    ensures var s := Fold(log);
            && s.open.Some? && s.high.Some? && s.low.Some? && s.close.Some?
            && s.low.value <= s.open.value <= s.high.value
            && s.low.value <= s.close.value <= s.high.value
  {
    FoldSummarizes(log);
  }

  // ----- what a correction does to the fold -----

  predicate SamePrices(a: DailyStats, b: DailyStats) {
    a.open == b.open && a.high == b.high && a.low == b.low && a.close == b.close
  }

  /** Restating a record's volume moves no price; the live volume moves only if the record is live. */
  lemma {:induction false} RestateVolume(log: seq<TradeRecord>, i: nat, v: u64)
    requires i < |log|
    ensures var log' := log[i := log[i].(volume := v)];
            && SamePrices(Fold(log'), Fold(log))
            && LiveVolume(log') == LiveVolume(log) + if log[i].cancelled then 0 else v - log[i].volume
  {
    var n := |log| - 1;
    var log' := log[i := log[i].(volume := v)];
    if i < n {
      RestateVolume(log[..n], i, v);
      assert log'[..n] == log[..n][i := log[..n][i].(volume := v)];
    } else {
      assert log'[..n] == log[..n];
    }
  }

  /** A live record's volume is part of the total. */
  lemma {:induction false} LiveVolumeAtLeast(log: seq<TradeRecord>, i: nat)
    requires Live(log, i)
    ensures log[i].volume <= LiveVolume(log)
  {
    if i < |log| - 1 {
      LiveVolumeAtLeast(log[..|log| - 1], i);
    }
  }

  /** So the statistics of a live record's restated log are patched by the difference alone. */
  lemma CorrectionRefolds(log: seq<TradeRecord>, i: nat, v: u64)
    requires Live(log, i)
    ensures Fold(log[i := log[i].(volume := v)]) ==
            Fold(log).(totalVolume := Wrap(Fold(log).totalVolume - log[i].volume + v))
  {
    var log' := log[i := log[i].(volume := v)];
    RestateVolume(log, i, v);
    FoldTotal(log);
    FoldTotal(log');
    WrapAdd(LiveVolume(log), v - log[i].volume);
  }

  /** Patching is right exactly when the record is live or its volume is not really changed. */
  lemma PatchIsFoldIff(log: seq<TradeRecord>, i: nat, v: u64)
    requires i < |log|
    ensures Fold(log).(totalVolume := Wrap(Fold(log).totalVolume - log[i].volume + v)) ==
            Fold(log[i := log[i].(volume := v)])
            <==> !log[i].cancelled || v == log[i].volume
  {
    if log[i].cancelled {
      RestateVolume(log, i, v);
      FoldTotal(log);
      FoldTotal(log[i := log[i].(volume := v)]);
      WrapEqual(Fold(log).totalVolume - log[i].volume + v, Fold(log).totalVolume);
    } else {
      CorrectionRefolds(log, i, v);
    }
  }

  // ----- the signed delta of a volume correction -----

  /** `static_cast<int64>(new) - static_cast<int64>(old)`, added to the signed total and cast back. */
  function Delta(old_: u64, new_: u64): int {
    AsSigned(new_) - AsSigned(old_)
  }

  function Corrected(total: u64, old_: u64, new_: u64): u64 {
    Wrap(AsSigned(AsSigned(total) + AsSigned(Delta(old_, new_))))
  }

  /** Neither signed operation leaves the 64-bit range (overflow there is undefined in C++). */
  predicate CorrectionDefined(total: u64, old_: u64, new_: u64) {
    FitsSigned(Delta(old_, new_)) && FitsSigned(AsSigned(total) + Delta(old_, new_))
  }

  /** Whatever the words, two's complement gives the total minus the old volume plus the new one. */
  lemma CorrectedIsExact(total: u64, old_: u64, new_: u64)
    ensures Corrected(total, old_, new_) == Wrap(total - old_ + new_)
  {
    var d := Delta(old_, new_);
    var t := AsSigned(total);
    calc {
      Corrected(total, old_, new_);
    ==  { AsSignedWraps(t + AsSigned(d)); }
      Wrap(t + AsSigned(d));
    ==  { AsSignedCongruent(d, t); }
      Wrap(d + t);
    ==  { AsSignedCongruent(total, d); }
      Wrap(d + total);
    ==  { AsSignedCongruent(new_, total - AsSigned(old_)); }
      Wrap(total - AsSigned(old_) + new_);
    ==  { AsSignedCongruentMinus(old_, total + new_); }
      Wrap(total + new_ - old_);
    }
  }

  /** For a total and volumes below 2^63 that contain the corrected record, the signed arithmetic
      is overflow-free exactly when the corrected total also stays below 2^63; it is then exact. */
  lemma CorrectionDefinedIff(total: u64, old_: u64, new_: u64)
    requires old_ <= total < TWO63 && new_ < TWO63
    ensures CorrectionDefined(total, old_, new_) <==> total - old_ + new_ < TWO63
    ensures CorrectionDefined(total, old_, new_) ==>
              0 <= AsSigned(total) + Delta(old_, new_) == Corrected(total, old_, new_) == total - old_ + new_
  {
    var d := new_ - old_;
    assert Delta(old_, new_) == d && AsSigned(total) == total;
    if total + d < TWO63 {
      assert AsSigned(d) == d && AsSigned(total + d) == total + d;
    }
  }

  /** Correcting a live record of a log: while the true volumes fit 63 bits the signed arithmetic
      never overflows, never goes negative, and lands on the true corrected volume; and for a live
      volume and a correction below 2^63 that is exactly when it does not overflow. */
  lemma LiveCorrectionExact(log: seq<TradeRecord>, i: nat, v: u64)
    requires Live(log, i) && LiveVolume(log) < TWO63 && v < TWO63
    ensures var total, old_, log' := Fold(log).totalVolume, log[i].volume, log[i := log[i].(volume := v)];
            && LiveVolume(log') == LiveVolume(log) - old_ + v
            && (CorrectionDefined(total, old_, v) <==> LiveVolume(log') < TWO63)
            && (LiveVolume(log') < TWO63 ==>
                  0 <= AsSigned(total) + Delta(old_, v) == Corrected(total, old_, v) == LiveVolume(log'))
  {
    FoldTotal(log);
    RestateVolume(log, i, v);
    LiveVolumeAtLeast(log, i);
    CorrectionDefinedIff(LiveVolume(log), log[i].volume, v);
  }
}
