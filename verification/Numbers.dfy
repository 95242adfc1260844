/** Decimal text and timestamps as the wire carries them. */
module Numbers {
  import opened Words

  predicate IsDigit(c: char) {
    '0' <= c <= '9'
  }

  function DigitValue(c: char): nat
    requires IsDigit(c)
  {
    c as int - '0' as int
  }

  function DigitChar(d: nat): (c: char)
    requires d < 10
    ensures IsDigit(c) && DigitValue(c) == d
  {
    ('0' as int + d) as char
  }

  /** How many digits a text starts with. */
  function LeadingDigits(text: string): (k: nat)
    ensures k <= |text|
    ensures forall i :: 0 <= i < k ==> IsDigit(text[i])
    ensures k < |text| ==> !IsDigit(text[k])
  {
    if text == [] || !IsDigit(text[0]) then 0 else 1 + LeadingDigits(text[1..])
  }

  predicate AllDigits(text: string) {
    forall i :: 0 <= i < |text| ==> IsDigit(text[i])
  }

  /** The number a row of digits stands for. */
  function NumberOf(text: string): nat
    requires AllDigits(text)
  {
    if text == [] then 0 else 10 * NumberOf(text[..|text| - 1]) + DigitValue(text[|text| - 1])
  }

  datatype NumberResult = Number(n: nat) | InvalidNumber | OutOfRange | TrailingCharacters

  /** `parse_std_type` for an unsigned type with values below `bound`: no sign, no blanks, leading
      zeros allowed; a number out of range is reported before anything that follows it. */
  function ParseUnsigned(text: string, bound: nat): NumberResult {
    var k := LeadingDigits(text);
    if k == 0 then InvalidNumber
    else if NumberOf(text[..k]) >= bound then OutOfRange
    else if k < |text| then TrailingCharacters
    else Number(NumberOf(text))
  }

  /** The digits of a number, at least `width` of them. */
  function Digits(n: nat, width: nat): string
    decreases n, width
  {
    if n == 0 && width == 0 then [] else Digits(n / 10, if width == 0 then 0 else width - 1) + [DigitChar(n % 10)]
  }

  /** `text` is a row of digits that stands for `n`. */
  predicate Reads(text: string, n: nat) {
    AllDigits(text) && NumberOf(text) == n
  }

  lemma ReadsSnoc(front: string, q: nat, d: nat)
    requires Reads(front, q) && d < 10
    ensures Reads(front + [DigitChar(d)], 10 * q + d)
  {
    NumberSnoc(front, DigitChar(d));
  }

  lemma {:induction false} DigitsSpec(n: nat, width: nat)
    ensures Reads(Digits(n, width), n)
    ensures |Digits(n, width)| >= width && (n > 0 ==> |Digits(n, width)| > 0)
    decreases n, width
  {
    if n != 0 || width != 0 {
      var q, d, w := n / 10, n % 10, if width == 0 then 0 else width - 1;
      var front := Digits(q, w);
      DigitsSpec(q, w);
      ReadsSnoc(front, q, d);
      assert Digits(n, width) == front + [DigitChar(d)] && n == 10 * q + d;
    }
  }

  function Pow10(k: nat): nat {
    if k == 0 then 1 else 10 * Pow10(k - 1)
  }

  /** A number that fits its width takes exactly that many digits. */
  lemma {:induction false} DigitsFit(n: nat, width: nat)
    requires n < Pow10(width)
    ensures |Digits(n, width)| == width
    decreases width
  {
    if width > 0 {
      DigitsFit(n / 10, width - 1);
    }
  }

  lemma AllDigitsLead(text: string)
    requires AllDigits(text)
    ensures LeadingDigits(text) == |text|
  {
  }

  lemma UnsignedInRange(text: string, bound: nat)
    requires ParseUnsigned(text, bound).Number?
    ensures ParseUnsigned(text, bound).n < bound
  {
    assert text[..|text|] == text;
  }

  /** Reading back a printed number. */
  lemma ParsePrinted(n: nat, width: nat, bound: nat)
    requires width > 0
    ensures ParseUnsigned(Digits(n, width), bound) == if n < bound then Number(n) else OutOfRange
  {
    var text := Digits(n, width);
    DigitsSpec(n, width);
    AllDigitsLead(text);
    assert text[..|text|] == text;
  }

  // ----- which texts are numbers -----

  /** A decimal numeral with a value below `bound`. */
  predicate IsNumeral(text: string, bound: nat) {
    text != "" && AllDigits(text) && NumberOf(text) < bound
  }

  /** The number a text starts with. */
  function LeadingNumber(text: string): nat {
    NumberOf(text[..LeadingDigits(text)])
  }

  lemma LeadingDigitsAll(text: string)
    ensures LeadingDigits(text) == |text| <==> AllDigits(text)
    ensures LeadingDigits(text) == 0 <==> text == "" || !IsDigit(text[0])
  {
    if AllDigits(text) {
      AllDigitsLead(text);
    }
  }

  /** Exactly which texts are read, as what, and why the others are not. */
  lemma ParseUnsignedIff(text: string, bound: nat)
    ensures var r := ParseUnsigned(text, bound);
            && (r.Number? <==> IsNumeral(text, bound))
            && (r.Number? ==> r.n == NumberOf(text))
            && (r.InvalidNumber? <==> text == "" || !IsDigit(text[0]))
            && (r.OutOfRange? <==> text != "" && IsDigit(text[0]) && LeadingNumber(text) >= bound)
            && (r.TrailingCharacters? <==>
                  text != "" && IsDigit(text[0]) && LeadingNumber(text) < bound && !AllDigits(text))
  {
    LeadingDigitsAll(text);
    assert text[..|text|] == text;
  }

  lemma NumberSnoc(front: string, c: char)
    requires AllDigits(front) && IsDigit(c)
    ensures AllDigits(front + [c]) && NumberOf(front + [c]) == 10 * NumberOf(front) + DigitValue(c)
  {
    assert (front + [c])[..|front|] == front;
  }

  lemma {:induction false} NumberBelow(text: string)
    requires AllDigits(text)
    ensures NumberOf(text) < Pow10(|text|)
    decreases |text|
  {
    if text != "" {
      NumberBelow(text[..|text| - 1]);
    }
  }

  // ----- timestamps: HH:MM:SS.nnnnnnnnn -----

  /** 3600, 60 and 1 times 10^9 nanoseconds to the hour, minute and second. */
  function NanosOf(h: nat, m: nat, s: nat, n: nat): nat {
    h * 3_600_000_000_000 + m * 60_000_000_000 + s * 1_000_000_000 + n
  }

  /** `parse_source_time`: fixed width, separators in place, all four parts digits.  Minutes and
      seconds are not range-checked. */
  function ParseTime(text: string): Option<nat> {
    if |text| != 18 || text[2] != ':' || text[5] != ':' || text[8] != '.' then
      None
    else
      var hours := ParseUnsigned(text[0..2], TWO64);
      var minutes := ParseUnsigned(text[3..5], TWO64);
      var seconds := ParseUnsigned(text[6..8], TWO64);
      var nanos := ParseUnsigned(text[9..18], TWO64);
      if hours.Number? && minutes.Number? && seconds.Number? && nanos.Number? then
        Some(NanosOf(hours.n, minutes.n, seconds.n, nanos.n))
      else
        None
  }

  /** Times of day that two digits of hours can carry. */
  predicate Printable(t: nat) {
    t < 360_000_000_000_000
  }

  /** The text of four parts. */
  function TimeText(h: nat, m: nat, s: nat, n: nat): string {
    Digits(h, 2) + ":" + Digits(m, 2) + ":" + Digits(s, 2) + "." + Digits(n, 9)
  }

  /** The canonical text of a time; a time of 100 hours or more has none, bare digits stand in. */
  function PrintTime(t: nat): string {
    if Printable(t) then
      TimeText(t / 3_600_000_000_000, t / 60_000_000_000 % 60, t / 1_000_000_000 % 60, t % 1_000_000_000)
    else
      Digits(t, 1)
  }

  lemma TimeParts(t: nat)
    ensures t == NanosOf(t / 3_600_000_000_000, t / 60_000_000_000 % 60, t / 1_000_000_000 % 60, t % 1_000_000_000)
    ensures Printable(t) ==> t / 3_600_000_000_000 < 100
  {
    assert t / 60_000_000_000 == t / 1_000_000_000 / 60;
    assert t / 3_600_000_000_000 == t / 60_000_000_000 / 60;
  }

  lemma Pow10Values()
    ensures Pow10(2) == 100 && Pow10(9) == 1_000_000_000
  {
    assert Pow10(3) == 1000;
    assert Pow10(6) == 1000 * Pow10(3);
    assert Pow10(9) == 1000 * Pow10(6);
  }

  lemma TimeLayout(h: string, m: string, s: string, n: string)
    requires |h| == |m| == |s| == 2 && |n| == 9
    ensures var text := h + ":" + m + ":" + s + "." + n;
            && |text| == 18 && text[2] == ':' && text[5] == ':' && text[8] == '.'
            && text[0..2] == h && text[3..5] == m && text[6..8] == s && text[9..18] == n
  {
  }

  /** A part printed in its column, and read back. */
  lemma Column(n: nat, width: nat)
    requires 0 < width && n < Pow10(width) && n < TWO64
    ensures |Digits(n, width)| == width && ParseUnsigned(Digits(n, width), TWO64) == Number(n)
  {
    DigitsFit(n, width);
    ParsePrinted(n, width, TWO64);
  }

  lemma ParseParts(text: string, h: nat, m: nat, s: nat, n: nat)
    requires |text| == 18 && text[2] == ':' && text[5] == ':' && text[8] == '.'
    requires ParseUnsigned(text[0..2], TWO64) == Number(h) && ParseUnsigned(text[3..5], TWO64) == Number(m)
    requires ParseUnsigned(text[6..8], TWO64) == Number(s) && ParseUnsigned(text[9..18], TWO64) == Number(n)
    ensures ParseTime(text) == Some(NanosOf(h, m, s, n))
  {
  }

  /** Any four parts that fit their columns are read back to their sum. */
  lemma ParseTimeText(h: nat, m: nat, s: nat, n: nat)
    requires h < 100 && m < 100 && s < 100 && n < 1_000_000_000
    ensures ParseTime(TimeText(h, m, s, n)) == Some(NanosOf(h, m, s, n))
  {
    Pow10Values();
    Column(h, 2);
    Column(m, 2);
    Column(s, 2);
    Column(n, 9);
    TimeLayout(Digits(h, 2), Digits(m, 2), Digits(s, 2), Digits(n, 9));
    ParseParts(TimeText(h, m, s, n), h, m, s, n);
  }

  /** Reading back a printed time, exactly for the times that have a text. */
  lemma ParsePrintedTime(t: nat)
    ensures ParseTime(PrintTime(t)) == if Printable(t) then Some(t) else None
  {
    if Printable(t) {
      TimeParts(t);
      ParseTimeText(t / 3_600_000_000_000, t / 60_000_000_000 % 60, t / 1_000_000_000 % 60, t % 1_000_000_000);
    } else {
      DigitsSpec(t, 1);
      assert |Digits(t, 1)| == 18 ==> IsDigit(Digits(t, 1)[2]);
    }
  }

  lemma Quotient(t: nat, q: nat, r: nat, d: nat)
    requires r < d && t == q * d + r
    ensures t / d == q && t % d == r
  {
    var k := q - t / d;
    assert k * d == t % d - r;
    assert k >= 1 ==> k * d >= d;
    assert k <= -1 ==> k * d <= -(d as int);
  }

  /** The parts of a time are the only ones in range that add up to it. */
  lemma PartsOfNanos(h: nat, m: nat, s: nat, n: nat)
    requires m < 60 && s < 60 && n < 1_000_000_000
    ensures var t := NanosOf(h, m, s, n);
            && t / 3_600_000_000_000 == h
            && t / 60_000_000_000 % 60 == m
            && t / 1_000_000_000 % 60 == s
            && t % 1_000_000_000 == n
  {
    var t := NanosOf(h, m, s, n);
    Quotient(t, (h * 60 + m) * 60 + s, n, 1_000_000_000);
    Quotient((h * 60 + m) * 60 + s, h * 60 + m, s, 60);
    Quotient(t, h * 60 + m, s * 1_000_000_000 + n, 60_000_000_000);
    Quotient(h * 60 + m, h, m, 60);
    Quotient(t, h, m * 60_000_000_000 + s * 1_000_000_000 + n, 3_600_000_000_000);
  }

  /** Equal texts in equal columns have equal parts. */
  lemma TimeTextInjective(h: nat, m: nat, s: nat, n: nat, h': nat, m': nat, s': nat, n': nat)
    requires h < 100 && m < 100 && s < 100 && n < 1_000_000_000
    requires h' < 100 && m' < 100 && s' < 100 && n' < 1_000_000_000
    requires TimeText(h, m, s, n) == TimeText(h', m', s', n')
    ensures h == h' && m == m' && s == s' && n == n'
  {
    TimeTextColumns(h, m, s, n);
    TimeTextColumns(h', m', s', n');
  }

  lemma TimeTextColumns(h: nat, m: nat, s: nat, n: nat)
    requires h < 100 && m < 100 && s < 100 && n < 1_000_000_000
    ensures var text := TimeText(h, m, s, n);
            && |text| == 18 && text[2] == ':'
            && ParseUnsigned(text[0..2], TWO64) == Number(h) && ParseUnsigned(text[3..5], TWO64) == Number(m)
            && ParseUnsigned(text[6..8], TWO64) == Number(s) && ParseUnsigned(text[9..18], TWO64) == Number(n)
  {
    Pow10Values();
    Column(h, 2);
    Column(m, 2);
    Column(s, 2);
    Column(n, 9);
    TimeLayout(Digits(h, 2), Digits(m, 2), Digits(s, 2), Digits(n, 9));
  }

  /** Reading is undone by printing exactly for minutes and seconds below 60. */
  lemma PrintParsedIff(h: nat, m: nat, s: nat, n: nat)
    requires h < 100 && m < 100 && s < 100 && n < 1_000_000_000
    ensures PrintTime(NanosOf(h, m, s, n)) == TimeText(h, m, s, n) <==> m < 60 && s < 60
  {
    var t := NanosOf(h, m, s, n);
    TimeParts(t);
    if m < 60 && s < 60 {
      PartsOfNanos(h, m, s, n);
    }
    if !Printable(t) {
      DigitsSpec(t, 1);
      TimeTextColumns(h, m, s, n);
      assert TimeText(h, m, s, n)[2] == ':' && !IsDigit(':');
      assert PrintTime(t) != TimeText(h, m, s, n);
    } else if PrintTime(t) == TimeText(h, m, s, n) {
      TimeTextInjective(
        t / 3_600_000_000_000, t / 60_000_000_000 % 60, t / 1_000_000_000 % 60, t % 1_000_000_000, h, m, s, n);
    }
  }

  /** On canonical texts reading is injective. */
  lemma ReadAlikeIff(h: nat, m: nat, s: nat, n: nat, h': nat, m': nat, s': nat, n': nat)
    requires h < 100 && m < 60 && s < 60 && n < 1_000_000_000
    requires h' < 100 && m' < 60 && s' < 60 && n' < 1_000_000_000
    ensures ParseTime(TimeText(h, m, s, n)) == ParseTime(TimeText(h', m', s', n')) <==>
              h == h' && m == m' && s == s' && n == n'
  {
    ParseTimeText(h, m, s, n);
    ParseTimeText(h', m', s', n');
    PartsOfNanos(h, m, s, n);
    PartsOfNanos(h', m', s', n');
  }

  // ----- which texts are timestamps -----

  predicate IsTimeText(text: string) {
    && |text| == 18
    && text[2] == ':' && text[5] == ':' && text[8] == '.'
    && forall i :: 0 <= i < 18 && i != 2 && i != 5 && i != 8 ==> IsDigit(text[i])
  }

  lemma PartIff(text: string, from: nat, end: nat)
    requires from < end <= |text| && Pow10(end - from) <= TWO64
    ensures ParseUnsigned(text[from..end], TWO64).Number? <==> forall i :: from <= i < end ==> IsDigit(text[i])
    ensures ParseUnsigned(text[from..end], TWO64).Number? ==>
              AllDigits(text[from..end]) && ParseUnsigned(text[from..end], TWO64).n == NumberOf(text[from..end])
  {
    var part := text[from..end];
    ParseUnsignedIff(part, TWO64);
    if AllDigits(part) {
      NumberBelow(part);
      forall i | from <= i < end ensures IsDigit(text[i]) {
        assert part[i - from] == text[i];
      }
    }
  }

  /** Exactly which texts are read as times: two, two, two and nine digits with their separators. */
  lemma ParseTimeIff(text: string)
    ensures ParseTime(text).Some? <==> IsTimeText(text)
    ensures IsTimeText(text) ==>
              && AllDigits(text[0..2]) && AllDigits(text[3..5]) && AllDigits(text[6..8]) && AllDigits(text[9..18])
              && ParseTime(text) == Some(
                   NumberOf(text[0..2]) * 3_600_000_000_000 + NumberOf(text[3..5]) * 60_000_000_000
                   + NumberOf(text[6..8]) * 1_000_000_000 + NumberOf(text[9..18]))
  {
    Pow10Values();
    if |text| == 18 {
      PartIff(text, 0, 2);
      PartIff(text, 3, 5);
      PartIff(text, 6, 8);
      PartIff(text, 9, 18);
    }
  }

  lemma NanosCarryOver(h: nat, m: nat, s: nat, n: nat)
    ensures NanosOf(h, m, 60 + s, n) == NanosOf(h, m + 1, s, n)
  {
  }

  /** Beyond the canonical texts reading is not injective: second 60 + s is the next minute's s. */
  lemma SecondsCarryOver(h: nat, m: nat, s: nat, n: nat)
    requires h < 100 && m < 99 && s < 40 && n < 1_000_000_000
    ensures ParseTime(TimeText(h, m, 60 + s, n)) == ParseTime(TimeText(h, m + 1, s, n))
  {
    NanosCarryOver(h, m, s, n);
    ParseTimeText(h, m, 60 + s, n);
    ParseTimeText(h, m + 1, s, n);
  }
}
