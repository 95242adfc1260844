/** Sequence-number accounting of the parser: gaps, duplicates, backwards jumps, messages lost. */
module Sequence {
  import opened Words

  datatype IntegrityMetrics = IntegrityMetrics(
    lastSequenceNumber: u64, gapEvents: u64, messagesLost: u64, duplicates: u64, backwardsJumps: u64)

  const NO_LINES := IntegrityMetrics(0, 0, 0, 0, 0)

  function Incremented(counter: u64): u64 {
    Wrap(counter + 1)
  }

  /** One line's sequence number against the high-water mark, every counter wrapping. */
  function Record(m: IntegrityMetrics, n: u64): IntegrityMetrics {
    var last := m.lastSequenceNumber;
    var counted :=
      if n == last then m.(duplicates := Incremented(m.duplicates))
      else if n < last then m.(backwardsJumps := Incremented(m.backwardsJumps))
      else if n > Wrap(last + 1) then
        m.(gapEvents := Incremented(m.gapEvents), messagesLost := Wrap(m.messagesLost + (n - last - 1)))
      else m;
    if n > last then counted.(lastSequenceNumber := n) else counted
  }

  function Run(ns: seq<u64>): IntegrityMetrics {
    if ns == [] then NO_LINES else Record(Run(ns[..|ns| - 1]), ns[|ns| - 1])
  }

  /** Message type and sequence number of a line that got as far as its header. */
  datatype Header = Header(msgType: nat, sequenceNumber: u64)

  /** All a parser records: the metrics, and how many lines of each type byte it has seen. */
  datatype Recording = Recording(metrics: IntegrityMetrics, typeCounts: seq<u64>)

  function NothingRecorded(): Recording {
    Recording(NO_LINES, seq(256, _ => 0))
  }

  function RecordHeader(r: Recording, h: Header): Recording {
    Recording(
      Record(r.metrics, h.sequenceNumber),
      if h.msgType < |r.typeCounts| then r.typeCounts[h.msgType := Incremented(r.typeCounts[h.msgType])]
      else r.typeCounts)
  }

  function RecordAll(hs: seq<Header>): Recording {
    if hs == [] then NothingRecorded() else RecordHeader(RecordAll(hs[..|hs| - 1]), hs[|hs| - 1])
  }

  function Numbers(hs: seq<Header>): seq<u64> {
    if hs == [] then [] else Numbers(hs[..|hs| - 1]) + [hs[|hs| - 1].sequenceNumber]
  }

  function LinesOfType(hs: seq<Header>, msgType: nat): nat {
    if hs == [] then 0
    else LinesOfType(hs[..|hs| - 1], msgType) + if hs[|hs| - 1].msgType == msgType then 1 else 0
  }

  /** What is recorded of a stream of headers: the metrics of its sequence numbers, and for each type
      byte how many lines had it (as 64-bit counters). */
  lemma {:induction false} RecordingIs(hs: seq<Header>)
    ensures RecordAll(hs).metrics == Run(Numbers(hs))
    ensures |RecordAll(hs).typeCounts| == 256
    ensures forall t :: 0 <= t < 256 ==> RecordAll(hs).typeCounts[t] == Wrap(LinesOfType(hs, t))
  {
    if hs != [] {
      var front := hs[..|hs| - 1];
      RecordingIs(front);
      assert Numbers(hs)[..|Numbers(front)|] == Numbers(front);
      forall t | 0 <= t < 256 ensures RecordAll(hs).typeCounts[t] == Wrap(LinesOfType(hs, t)) {
        WrapAdd(LinesOfType(front, t), 1);
      }
    }
  }

  class IntegrityRecorder {
    var lineData: IntegrityMetrics
    const msgTypeCounts: array<u64>

    ghost predicate Valid()
      reads this
    {
      msgTypeCounts.Length == 256
    }

    ghost function Value(): Recording
      reads this, msgTypeCounts
    {
      Recording(lineData, msgTypeCounts[..])
    }

    constructor ()
      ensures Valid() && Value() == NothingRecorded() && fresh(msgTypeCounts)
    {
      lineData := NO_LINES;
      msgTypeCounts := new u64[256](_ => 0);
    }

    method RecordSequence(msgType: u8, sequenceNumber: u64)
      requires Valid()
      modifies this, msgTypeCounts
      ensures Valid()
      ensures Value() == RecordHeader(old(Value()), Header(msgType, sequenceNumber))
    {
      CountType(msgType);
      Classify(sequenceNumber);
    }

    method CountType(msgType: u8)
      requires Valid()
      modifies msgTypeCounts
      ensures msgTypeCounts[..] ==
              old(msgTypeCounts[..])[msgType := Incremented(old(msgTypeCounts[..])[msgType])]
    {
      msgTypeCounts[msgType] := Incremented(msgTypeCounts[msgType]);
    }

    /** A number against the high-water mark. */
    method Classify(sequenceNumber: u64)
      modifies this`lineData
      ensures lineData == Record(old(lineData), sequenceNumber)
    {
      if sequenceNumber == lineData.lastSequenceNumber {
        lineData := lineData.(duplicates := Incremented(lineData.duplicates));
      } else if sequenceNumber < lineData.lastSequenceNumber {
        lineData := lineData.(backwardsJumps := Incremented(lineData.backwardsJumps));
      } else if sequenceNumber > Wrap(lineData.lastSequenceNumber + 1) {
        lineData := lineData.(gapEvents := Incremented(lineData.gapEvents));
        lineData := lineData.(
          messagesLost := Wrap(lineData.messagesLost + (sequenceNumber - lineData.lastSequenceNumber - 1)));
      }

      if sequenceNumber > lineData.lastSequenceNumber {
        lineData := lineData.(lastSequenceNumber := sequenceNumber);
      }
    }
  }

  // ----- the declarative reading of a stream -----

  /** The greatest number of a stream, 0 for an empty one. */
  function MaxSeen(ns: seq<u64>): u64 {
    if ns == [] then 0
    else
      var m := MaxSeen(ns[..|ns| - 1]);
      if ns[|ns| - 1] > m then ns[|ns| - 1] else m
  }

  lemma {:induction false} MaxSeenIsMax(ns: seq<u64>)
    ensures forall n :: n in ns ==> n <= MaxSeen(ns)
    ensures ns != [] ==> MaxSeen(ns) in ns
  {
    forall n | n in ns ensures n <= MaxSeen(ns) {
      AtMostMax(ns, n);
    }
    if ns != [] {
      MaxIsSeen(ns);
    }
  }

  lemma {:induction false} AtMostMax(ns: seq<u64>, n: u64)
    requires n in ns
    ensures n <= MaxSeen(ns)
  {
    var front, last := ns[..|ns| - 1], ns[|ns| - 1];
    if n != last {
      assert ns == front + [last];
      AtMostMax(front, n);
    }
  }

  lemma {:induction false} MaxIsSeen(ns: seq<u64>)
    requires ns != []
    ensures MaxSeen(ns) in ns
  {
    var front, last := ns[..|ns| - 1], ns[|ns| - 1];
    assert ns == front + [last];
    if front != [] {
      MaxIsSeen(front);
    }
  }

  /** How many lines repeat, fall below, leave a gap above or exceed the maximum before them. */
  function Repeats(ns: seq<u64>): nat {
    if ns == [] then 0
    else Repeats(ns[..|ns| - 1]) + if ns[|ns| - 1] == MaxSeen(ns[..|ns| - 1]) then 1 else 0
  }

  function Drops(ns: seq<u64>): nat {
    if ns == [] then 0
    else Drops(ns[..|ns| - 1]) + if ns[|ns| - 1] < MaxSeen(ns[..|ns| - 1]) then 1 else 0
  }

  function Gaps(ns: seq<u64>): nat {
    if ns == [] then 0
    else Gaps(ns[..|ns| - 1]) + if ns[|ns| - 1] > MaxSeen(ns[..|ns| - 1]) + 1 then 1 else 0
  }

  function Advances(ns: seq<u64>): nat {
    if ns == [] then 0
    else Advances(ns[..|ns| - 1]) + if ns[|ns| - 1] > MaxSeen(ns[..|ns| - 1]) then 1 else 0
  }

  lemma {:induction false} LinesSplit(ns: seq<u64>)
    ensures |ns| == Repeats(ns) + Drops(ns) + Advances(ns)
  {
    if ns != [] {
      LinesSplit(ns[..|ns| - 1]);
    }
  }

  /** On every stream the high-water mark is the maximum seen, and it is made up exactly of the
      advancing lines and the messages lost; so neither `last + 1` nor the sum of the gaps ever
      wraps. */
  lemma {:induction false} LostPlusAdvancesIsLast(ns: seq<u64>)
    ensures Run(ns).lastSequenceNumber == MaxSeen(ns)
    ensures Run(ns).messagesLost + Advances(ns) == MaxSeen(ns)
  {
    if ns != [] {
      LostPlusAdvancesIsLast(ns[..|ns| - 1]);
    }
  }

  /** The event counters count what they say (as 64-bit counters). */
  lemma {:induction false} CountersCount(ns: seq<u64>)
    ensures Run(ns).duplicates == Wrap(Repeats(ns))
    ensures Run(ns).backwardsJumps == Wrap(Drops(ns))
    ensures Run(ns).gapEvents == Wrap(Gaps(ns))
  {
    if ns != [] {
      var front := ns[..|ns| - 1];
      CountersCount(front);
      LostPlusAdvancesIsLast(front);
      WrapAdd(Repeats(front), 1);
      WrapAdd(Drops(front), 1);
      WrapAdd(Gaps(front), 1);
    }
  }

  /** The account in the metrics' own terms, for a stream the counters can count. */
  lemma AccountBalances(ns: seq<u64>)
    requires |ns| < TWO64
    ensures var m := Run(ns);
            m.messagesLost + (|ns| - m.duplicates - m.backwardsJumps) == m.lastSequenceNumber == MaxSeen(ns)
  {
    LostPlusAdvancesIsLast(ns);
    CountersCount(ns);
    LinesSplit(ns);
  }

  // ----- messages lost against numbers never seen -----

  /** The numbers of 1..last that never arrived. */
  ghost function NeverSeen(ns: seq<u64>): set<u64> {
    set n: u64 | 1 <= n < MaxSeen(ns) + 1 && n !in ns
  }

  /** Backwards jumps that fill a hole: the number had been counted lost, and arrives after all. */
  function Recoveries(ns: seq<u64>): nat {
    if ns == [] then
      0
    else
      var front, n := ns[..|ns| - 1], ns[|ns| - 1];
      Recoveries(front) + if 1 <= n < MaxSeen(front) && n !in front then 1 else 0
  }

  predicate InGap(lo: u64, n: u64, hi: u64) {
    lo < n < hi
  }

  /** The numbers strictly between two words. */
  ghost function Between(lo: u64, hi: u64): set<u64> {
    set n: u64 | lo < n < hi && InGap(lo, n, hi)
  }

  lemma {:induction false} BetweenSize(lo: u64, hi: u64)
    requires lo < hi
    ensures |Between(lo, hi)| == hi - lo - 1
    decreases hi
  {
    if lo + 1 == hi {
      assert Between(lo, hi) == {};
    } else {
      BetweenSize(lo, hi - 1);
      assert Between(lo, hi) == Between(lo, hi - 1) + {hi - 1};
    }
  }

  lemma NeverSeenSnoc(front: seq<u64>, n: u64)
    ensures NeverSeen(front + [n]) ==
            if MaxSeen(front) < n then NeverSeen(front) + Between(MaxSeen(front), n)
            else NeverSeen(front) - {n}
  {
    var ns := front + [n];
    assert ns[..|front|] == front;
    MaxSeenIsMax(front);
    assert MaxSeen(ns) == if n > MaxSeen(front) then n else MaxSeen(front);
    forall x: u64
      ensures x in ns <==> x in front || x == n
      ensures InGap(MaxSeen(front), x, n) <==> MaxSeen(front) < x < n
    {
    }
  }

  /** How one more number changes the count of those that never arrived. */
  lemma NeverSeenSize(front: seq<u64>, n: u64)
    ensures |NeverSeen(front + [n])| ==
            if n > MaxSeen(front) then |NeverSeen(front)| + (n - MaxSeen(front) - 1)
            else |NeverSeen(front)| - if 1 <= n < MaxSeen(front) && n !in front then 1 else 0
  {
    NeverSeenSnoc(front, n);
    MaxSeenIsMax(front);
    if n > MaxSeen(front) {
      BetweenSize(MaxSeen(front), n);
      assert NeverSeen(front) !! Between(MaxSeen(front), n);
    }
  }

  /** Exactly: the messages counted lost are those that never arrived plus those recovered. */
  lemma {:induction false} LostIsNeverSeenPlusRecovered(ns: seq<u64>)
    ensures Run(ns).messagesLost == |NeverSeen(ns)| + Recoveries(ns)
  {
    if ns == [] {
      assert NeverSeen(ns) == {};
    } else {
      var front, n := ns[..|ns| - 1], ns[|ns| - 1];
      assert ns == front + [n];
      LostIsNeverSeenPlusRecovered(front);
      LostPlusAdvancesIsLast(front);
      LostPlusAdvancesIsLast(ns);
      NeverSeenSize(front, n);
    }
  }

  /** So `_messagesLost` never undercounts, and is the number of missing messages exactly when no
      backwards jump recovered one - in particular when there are no backwards jumps. */
  lemma LostIsExactIff(ns: seq<u64>)
    ensures |NeverSeen(ns)| <= Run(ns).messagesLost
    ensures |NeverSeen(ns)| == Run(ns).messagesLost <==> Recoveries(ns) == 0
    ensures Drops(ns) == 0 ==> Recoveries(ns) == 0
  {
    LostIsNeverSeenPlusRecovered(ns);
    RecoveriesAreDrops(ns);
  }

  lemma OneMore(ns: seq<u64>, n: u64)
    ensures Run(ns + [n]) == Record(Run(ns), n)
    ensures MaxSeen(ns + [n]) == if n > MaxSeen(ns) then n else MaxSeen(ns)
    ensures Recoveries(ns + [n]) == Recoveries(ns) + if 1 <= n < MaxSeen(ns) && n !in ns then 1 else 0
  {
    assert (ns + [n])[..|ns|] == ns;
  }

  /** The smallest stream that overcounts: 2 is counted lost, and arrives after 3. */
  lemma LateNumberOvercounts()
    ensures var ns := [] + [1] + [3] + [2]; Run(ns).messagesLost == 1 && |NeverSeen(ns)| == 0
  {
    LateNumberRecovers();
    LostIsNeverSeenPlusRecovered([] + [1] + [3] + [2]);
  }

  lemma LateNumberRecovers()
    ensures var ns := [] + [1] + [3] + [2]; Run(ns).messagesLost == 1 && Recoveries(ns) == 1
  {
    var n1: seq<u64> := [] + [1];
    OneMore([], 1);
    assert Run(n1) == IntegrityMetrics(1, 0, 0, 0, 0) && MaxSeen(n1) == 1 && Recoveries(n1) == 0;
    OneMore(n1, 3);
    assert Run(n1 + [3]) == IntegrityMetrics(3, 1, 1, 0, 0) && MaxSeen(n1 + [3]) == 3 && Recoveries(n1 + [3]) == 0;
    OneMore(n1 + [3], 2);
  }

  lemma {:induction false} RecoveriesAreDrops(ns: seq<u64>)
    ensures Recoveries(ns) <= Drops(ns)
  {
    if ns != [] {
      RecoveriesAreDrops(ns[..|ns| - 1]);
    }
  }
}
