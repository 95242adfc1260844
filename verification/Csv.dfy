/** `CSVReader`: fields of a line through a lazily extended index of its commas. */
module Csv {
  import opened Words

  predicate CommaFree(s: string) {
    ',' !in s
  }

  /** The position of the first comma at or after `from`: `find(',', from)`. */
  function FindComma(line: string, from: nat): (k: Option<nat>)
    requires from <= |line|
    ensures k.None? ==> forall j :: from <= j < |line| ==> line[j] != ','
    ensures k.Some? ==>
              from <= k.value < |line| && line[k.value] == ',' && forall j :: from <= j < k.value ==> line[j] != ','
    decreases |line| - from
  {
    if from == |line| then None
    else if line[from] == ',' then Some(from)
    else FindComma(line, from + 1)
  }

  /** The fields of a line from position `from` on. */
  function SplitFrom(line: string, from: nat): seq<string>
    requires from <= |line|
    decreases |line| - from
  {
    var k := FindComma(line, from);
    if k.None? then [line[from..]] else [line[from..k.value]] + SplitFrom(line, k.value + 1)
  }

  function Split(line: string): seq<string> {
    SplitFrom(line, 0)
  }

  function Join(fields: seq<string>): string
    requires fields != []
  {
    if |fields| == 1 then fields[0] else fields[0] + "," + Join(fields[1..])
  }

  // ----- splitting and joining -----

  lemma SliceAtComma(line: string, from: nat, k: nat)
    requires from <= k < |line| && line[k] == ','
    ensures line[from..] == line[from..k] + "," + line[k + 1..]
  {
    assert line[from..] == line[from..k] + line[k..];
    assert line[k..] == "," + line[k + 1..];
  }

  lemma {:induction false} JoinSplitFrom(line: string, from: nat)
    requires from <= |line|
    ensures SplitFrom(line, from) != [] && Join(SplitFrom(line, from)) == line[from..]
    ensures forall f :: f in SplitFrom(line, from) ==> CommaFree(f)
    decreases |line| - from
  {
    var k := FindComma(line, from);
    if k.Some? {
      JoinSplitFrom(line, k.value + 1);
      SliceAtComma(line, from, k.value);
      assert SplitFrom(line, from)[1..] == SplitFrom(line, k.value + 1);
    }
  }

  /** Joining the fields gives back the line; none of them holds a comma. */
  lemma JoinSplit(line: string)
    ensures Split(line) != [] && Join(Split(line)) == line
    ensures forall f :: f in Split(line) ==> CommaFree(f)
  {
    JoinSplitFrom(line, 0);
    assert line[0..] == line;
  }

  /** `s` is the rest of `line` from position `d` on. */
  predicate IsRest(line: string, d: nat, s: string) {
    d + |s| == |line| && forall j :: 0 <= j < |s| ==> line[d + j] == s[j]
  }

  lemma {:induction false} FindShift(line: string, d: nat, s: string, from: nat)
    requires IsRest(line, d, s) && from <= |s|
    ensures FindComma(s, from).None? <==> FindComma(line, d + from).None?
    ensures FindComma(s, from).Some? ==> FindComma(line, d + from) == Some(d + FindComma(s, from).value)
    decreases |s| - from
  {
    if from < |s| {
      FindShift(line, d, s, from + 1);
    }
  }

  lemma SliceShift(line: string, d: nat, s: string, a: nat, b: nat)
    requires IsRest(line, d, s) && a <= b <= |s|
    ensures line[d + a..d + b] == s[a..b]
  {
  }

  lemma SplitShiftLast(line: string, d: nat, s: string, from: nat)
    requires IsRest(line, d, s) && from <= |s| && FindComma(s, from).None?
    ensures SplitFrom(line, d + from) == SplitFrom(s, from)
  {
    FindShift(line, d, s, from);
    SliceShift(line, d, s, from, |s|);
    assert s[from..|s|] == s[from..] && line[d + from..d + |s|] == line[d + from..];
  }

  /** Two texts with the same field up to a comma, and the same fields behind it. */
  lemma SplitAlike(a: string, i: nat, j: nat, b: string, k: nat, l: nat)
    requires i <= |a| && FindComma(a, i) == Some(j) && k <= |b| && FindComma(b, k) == Some(l)
    requires a[i..j] == b[k..l] && SplitFrom(a, j + 1) == SplitFrom(b, l + 1)
    ensures SplitFrom(a, i) == SplitFrom(b, k)
  {
  }

  /** What stands in front of the rest does not matter. */
  lemma {:induction false} SplitShift(line: string, d: nat, s: string, from: nat)
    requires IsRest(line, d, s) && from <= |s|
    ensures SplitFrom(line, d + from) == SplitFrom(s, from)
    decreases |s| - from
  {
    var k := FindComma(s, from);
    if k.None? {
      SplitShiftLast(line, d, s, from);
    } else {
      SplitShift(line, d, s, k.value + 1);
      FindShift(line, d, s, from);
      SliceShift(line, d, s, from, k.value);
      SplitAlike(line, d + from, d + k.value, s, from, k.value);
    }
  }

  /** A comma-free text before a comma is the first field. */
  lemma SplitFirst(f: string, rest: string)
    requires CommaFree(f)
    ensures Split(f + "," + rest) == [f] + Split(rest)
  {
    var line := f + "," + rest;
    assert line[|f|] == ',' && forall j :: 0 <= j < |f| ==> line[j] == f[j];
    assert FindComma(line, 0) == Some(|f|);
    assert line[0..|f|] == f;
    SplitShift(line, |f| + 1, rest, 0);
  }

  lemma SplitOnly(f: string)
    requires CommaFree(f)
    ensures Split(f) == [f]
  {
    assert FindComma(f, 0).None?;
    assert f[0..] == f;
  }

  /** Comma-free fields survive being joined and split; so splitting is the only way to read a
      line as comma-free fields. */
  lemma {:induction false} SplitJoin(fields: seq<string>)
    requires fields != [] && forall f :: f in fields ==> CommaFree(f)
    ensures Split(Join(fields)) == fields
  {
    var f := fields[0];
    assert CommaFree(f);
    if |fields| == 1 {
      SplitOnly(f);
      assert fields == [f];
    } else {
      SplitJoin(fields[1..]);
      SplitFirst(f, Join(fields[1..]));
      assert fields == [f] + fields[1..];
    }
  }

  /** More fields behind never change the fields in front, whatever they hold. */
  lemma {:induction false} SplitPrefix(fields: seq<string>, more: seq<string>)
    requires fields != [] && forall f :: f in fields ==> CommaFree(f)
    ensures fields + more != [] && fields <= Split(Join(fields + more))
    decreases fields
  {
    var f := fields[0];
    assert CommaFree(f);
    if more == [] {
      assert fields + more == fields;
      SplitJoin(fields);
    } else {
      assert (fields + more)[1..] == fields[1..] + more;
      SplitFirst(f, Join(fields[1..] + more));
      if |fields| > 1 {
        SplitPrefix(fields[1..], more);
      }
      assert fields == [f] + fields[1..];
    }
  }

  // ----- the comma index -----

  /** The positions of all commas at or after `from`. */
  function CommasFrom(line: string, from: nat): seq<nat>
    requires from <= |line|
    decreases |line| - from
  {
    var k := FindComma(line, from);
    if k.None? then [] else [k.value] + CommasFrom(line, k.value + 1)
  }

  /** Where the search for the comma after the known ones starts. */
  function SearchStart(commas: seq<nat>): nat {
    if commas == [] then 0 else commas[|commas| - 1] + 1
  }

  /** The index holds every comma, each once, in increasing order. */
  lemma {:induction false} CommasAreAll(line: string, from: nat)
    requires from <= |line|
    ensures var cs := CommasFrom(line, from);
            && (forall i, j :: 0 <= i < j < |cs| ==> cs[i] < cs[j])
            && (forall i :: 0 <= i < |cs| ==> from <= cs[i] < |line| && line[cs[i]] == ',')
            && (forall k :: from <= k < |line| && line[k] == ',' ==> k in cs)
    decreases |line| - from
  {
    var k := FindComma(line, from);
    if k.Some? {
      CommasAreAll(line, k.value + 1);
    }
  }

  /** Field `n` reaches from behind the comma before it to the next comma, or to the end. */
  ghost predicate IsField(line: string, from: nat, cs: seq<nat>, n: nat, field: string)
    requires n <= |cs|
  {
    var start := if n == 0 then from else cs[n - 1] + 1;
    var end := if n < |cs| then cs[n] else |line|;
    start <= end <= |line| && field == line[start..end]
  }

  lemma {:induction false} SplitAtCommas(line: string, from: nat, n: nat)
    requires from <= |line|
    ensures var cs, fields := CommasFrom(line, from), SplitFrom(line, from);
            |fields| == |cs| + 1 && (n <= |cs| ==> IsField(line, from, cs, n, fields[n]))
    decreases |line| - from
  {
    var k := FindComma(line, from);
    if k.Some? {
      SplitAtCommas(line, k.value + 1, if n == 0 then 0 else n - 1);
    }
  }

  /** One more search either extends the cache by the next comma or shows that it has them all. */
  lemma CacheGrows(line: string, commas: seq<nat>, k: Option<nat>)
    requires SearchStart(commas) <= |line| && k == FindComma(line, SearchStart(commas))
    requires CommasFrom(line, 0) == commas + CommasFrom(line, SearchStart(commas))
    ensures k.None? ==> commas == CommasFrom(line, 0)
    ensures k.Some? ==> CommasFrom(line, 0) == (commas + [k.value]) + CommasFrom(line, k.value + 1)
  {
    if k.None? {
      assert CommasFrom(line, SearchStart(commas)) == [];
    } else {
      assert CommasFrom(line, SearchStart(commas)) == [k.value] + CommasFrom(line, k.value + 1);
    }
  }

  /** A cache that has got past comma `n`, or holds all commas, answers for field `n`. */
  lemma CacheAnswers(line: string, commas: seq<nat>, n: nat)
    requires commas <= CommasFrom(line, 0)
    requires n < |commas| || commas == CommasFrom(line, 0)
    ensures n <= |commas| <==> n < |Split(line)|
    ensures n <= |commas| ==> IsField(line, 0, commas, n, Split(line)[n])
  {
    SplitAtCommas(line, 0, n);
  }

  class CsvReader {
    const line: string
    var commas: seq<nat>
    var exhausted: bool

    /** The cache is a prefix of all comma positions, and all of them once exhausted. */
    ghost predicate Valid()
      reads this
    {
      && SearchStart(commas) <= |line|
      && CommasFrom(line, 0) == commas + CommasFrom(line, SearchStart(commas))
      && (exhausted ==> commas == CommasFrom(line, 0))
    }

    constructor (line: string)
      ensures Valid() && this.line == line
    {
      this.line := line;
      commas, exhausted := [], false;
    }

    /** Extends the index until it has got past comma `n` or holds all commas. */
    method ExtendIndex(n: nat)
      requires Valid()
      modifies this
      ensures Valid() && old(commas) <= commas
      ensures n < |commas| || exhausted
    {
      while |commas| <= n && !exhausted
        invariant Valid() && old(commas) <= commas
        decreases |line| - SearchStart(commas), !exhausted
      {
        var k := FindComma(line, SearchStart(commas));
        CacheGrows(line, commas, k);
        if k.None? {
          exhausted := true;
          break;
        }
        commas := commas + [k.value];
      }
    }

    /** Field `n` of the full split, or nothing exactly when there are not that many, whatever
        was asked before. */
    method GetField(n: nat) returns (field: Option<string>)
      requires Valid()
      modifies this
      ensures Valid() && old(commas) <= commas
      ensures field == if n < |Split(line)| then Some(Split(line)[n]) else None
    {
      ExtendIndex(n);
      CacheAnswers(line, commas, n);
      var start := if n == 0 then 0 else if n - 1 < |commas| then commas[n - 1] + 1 else |line| + 1;
      if start > |line| {
        return None;
      }
      var end := if n < |commas| then commas[n] else |line|;
      return Some(line[start..end]);
    }
  }
}
