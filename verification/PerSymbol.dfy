/** Machines that keep one part per symbol and let each message touch the part of its symbol
    alone: `OrderBook` with its symbol books, `TradeLedger` with its symbol ledgers.

    `next` is the effect of a message on its part, `init` the part a symbol starts with, and
    `flag` says whether a message that finds a given part counts as a failure. */
module PerSymbol {
  import opened MapSum

  datatype Message<+M> = Message(symbol: string, body: M)

  function PartOf<B>(parts: map<string, B>, init: B, symbol: string): B {
    if symbol in parts then parts[symbol] else init
  }

  function Run<B, M>(next: (B, M) -> B, init: B, msgs: seq<Message<M>>): map<string, B> {
    if msgs == [] then
      map[]
    else
      var parts, m := Run(next, init, msgs[..|msgs| - 1]), msgs[|msgs| - 1];
      parts[m.symbol := next(PartOf(parts, init, m.symbol), m.body)]
  }

  /** How many messages of a stream were failures when they arrived. */
  function Tally<B, M>(next: (B, M) -> B, init: B, flag: (B, M) -> bool, msgs: seq<Message<M>>): nat {
    if msgs == [] then
      0
    else
      var front, m := msgs[..|msgs| - 1], msgs[|msgs| - 1];
      Tally(next, init, flag, front)
      + if flag(PartOf(Run(next, init, front), init, m.symbol), m.body) then 1 else 0
  }

  /** The messages for one symbol, in order. */
  function Of<M>(msgs: seq<Message<M>>, symbol: string): seq<M> {
    if msgs == [] then
      []
    else
      var m := msgs[|msgs| - 1];
      Of(msgs[..|msgs| - 1], symbol) + if m.symbol == symbol then [m.body] else []
  }

  /** One part fed with its own messages only. */
  function OwnRun<B, M>(next: (B, M) -> B, init: B, ms: seq<M>): B {
    if ms == [] then init else next(OwnRun(next, init, ms[..|ms| - 1]), ms[|ms| - 1])
  }

  function OwnTally<B, M>(next: (B, M) -> B, init: B, flag: (B, M) -> bool, ms: seq<M>): nat {
    if ms == [] then
      0
    else
      OwnTally(next, init, flag, ms[..|ms| - 1])
      + if flag(OwnRun(next, init, ms[..|ms| - 1]), ms[|ms| - 1]) then 1 else 0
  }

  /** The part of a symbol after any stream is its run over its own messages alone. */
  lemma {:induction false} Projection<B, M>(next: (B, M) -> B, init: B, msgs: seq<Message<M>>, symbol: string)
    ensures symbol in Run(next, init, msgs) <==> Of(msgs, symbol) != []
    ensures PartOf(Run(next, init, msgs), init, symbol) == OwnRun(next, init, Of(msgs, symbol))
  {
    if msgs != [] {
      var front := msgs[..|msgs| - 1];
      Projection(next, init, front, symbol);
      if msgs[|msgs| - 1].symbol == symbol {
        assert Of(msgs, symbol)[..|Of(msgs, symbol)| - 1] == Of(front, symbol);
      } else {
        assert Of(msgs, symbol) == Of(front, symbol);
      }
    }
  }

  function Tallies<B, M>(next: (B, M) -> B, init: B, flag: (B, M) -> bool, msgs: seq<Message<M>>): map<string, nat> {
    map s | s in Run(next, init, msgs) :: OwnTally(next, init, flag, Of(msgs, s))
  }

  lemma OfSnoc<M>(msgs: seq<Message<M>>, symbol: string)
    requires msgs != []
    ensures var front, m := msgs[..|msgs| - 1], msgs[|msgs| - 1];
            Of(msgs, symbol) == if m.symbol == symbol then Of(front, symbol) + [m.body] else Of(front, symbol)
  {
  }

  lemma OwnTallySnoc<B, M>(next: (B, M) -> B, init: B, flag: (B, M) -> bool, ms: seq<M>, m: M)
    ensures OwnTally(next, init, flag, ms + [m]) ==
            OwnTally(next, init, flag, ms) + if flag(OwnRun(next, init, ms), m) then 1 else 0
  {
    assert (ms + [m])[..|ms|] == ms;
  }

  /** A message moves the tally of its own symbol and no other. */
  lemma TalliesSnoc<B, M>(next: (B, M) -> B, init: B, flag: (B, M) -> bool, msgs: seq<Message<M>>)
    requires msgs != []
    ensures var front, m := msgs[..|msgs| - 1], msgs[|msgs| - 1];
            Tallies(next, init, flag, msgs) ==
            Tallies(next, init, flag, front)[m.symbol := OwnTally(next, init, flag, Of(front, m.symbol) + [m.body])]
  {
    forall s {
      OfSnoc(msgs, s);
    }
  }

  /** The failures of a stream are the sum of the failures of its symbols. */
  lemma {:induction false} TallyIsSum<B, M>(next: (B, M) -> B, init: B, flag: (B, M) -> bool, msgs: seq<Message<M>>)
    ensures Tally(next, init, flag, msgs) == Sum(Tallies(next, init, flag, msgs))
  {
    if msgs == [] {
      assert Tallies(next, init, flag, msgs) == map[];
    } else {
      var front, m := msgs[..|msgs| - 1], msgs[|msgs| - 1];
      var own := Of(front, m.symbol);
      TallyIsSum(next, init, flag, front);
      TalliesSnoc(next, init, flag, msgs);
      Projection(next, init, front, m.symbol);
      OwnTallySnoc(next, init, flag, own, m.body);
      SumUpdate(Tallies(next, init, flag, front), m.symbol, OwnTally(next, init, flag, own + [m.body]));
    }
  }

  /** Only the order within each symbol matters: two interleavings of the same per-symbol
      streams leave the same parts and the same number of failures. */
  lemma InterleavingsAgree<B, M>(
    next: (B, M) -> B, init: B, flag: (B, M) -> bool, msgs: seq<Message<M>>, msgs': seq<Message<M>>)
    requires forall s :: Of(msgs, s) == Of(msgs', s)
    ensures Run(next, init, msgs) == Run(next, init, msgs')
    ensures Tally(next, init, flag, msgs) == Tally(next, init, flag, msgs')
  {
    var parts, parts' := Run(next, init, msgs), Run(next, init, msgs');
    forall s
      ensures s in parts <==> s in parts'
      ensures PartOf(parts, init, s) == PartOf(parts', init, s)
    {
      Projection(next, init, msgs, s);
      Projection(next, init, msgs', s);
    }
    forall s | s in parts ensures parts[s] == parts'[s] {
      assert PartOf(parts, init, s) == PartOf(parts', init, s);
    }
    assert parts == parts';
    TallyIsSum(next, init, flag, msgs);
    TallyIsSum(next, init, flag, msgs');
    assert Tallies(next, init, flag, msgs) == Tallies(next, init, flag, msgs');
  }
}
