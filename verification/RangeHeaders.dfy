/** Range headers (section 14.1.2 of RFC 9110): printing one, and reading one back the way the
    handlers do. */
module RangeHeaders {
  import opened Options

  /** A JavaScript number as far as ranges need it. */
  datatype Number = NaN | Int(value: int) | Infinite

  datatype Parsed = Absent | RangeError | Interval(first: Number, last: Number)

  // ----- Printing -----

  function Digit(d: nat): char
    requires d < 10
  {
    ['0', '1', '2', '3', '4', '5', '6', '7', '8', '9'][d]
  }

  predicate IsDigit(c: char) {
    '0' <= c <= '9'
  }

  function DigitValue(c: char): nat
    requires IsDigit(c)
  {
    (c - '0') as int
  }

  function Decimal(n: nat): string {
    (if n < 10 then "" else Decimal(n / 10)) + [Digit(n % 10)]
  }

  /** A count of zero is falsy, so it prints the open range. */
  function RangeToString(offset: int, count: Option<int>): Option<string> {
    if offset < 0 then None
    else if count.Some? && count.value < 0 then None
    else if count.Some? && count.value != 0 then
      Some("bytes=" + Decimal(offset) + "-" + Decimal(offset + count.value - 1))
    else Some("bytes=" + Decimal(offset) + "-")
  }

  // ----- Parsing -----

  function Split(s: string, at: char): (parts: seq<string>)
    ensures |parts| >= 1
  {
    if s == "" then [""]
    else
      var rest := Split(s[1..], at);
      if s[0] == at then [""] + rest else [[s[0]] + rest[0]] + rest[1..]
  }

  predicate IsSpace(c: char) {
    c == ' ' || c == '\t' || c == '\n' || c == '\r'
  }

  function LeadingDigits(s: string): string {
    if s != "" && IsDigit(s[0]) then [s[0]] + LeadingDigits(s[1..]) else ""
  }

  function Value(digits: string): nat
    requires forall i :: 0 <= i < |digits| ==> IsDigit(digits[i])
  {
    if digits == "" then 0 else 10 * Value(digits[..|digits| - 1]) + DigitValue(digits[|digits| - 1])
  }

  lemma {:induction false} LeadingDigitsAre(s: string)
    ensures forall i :: 0 <= i < |LeadingDigits(s)| ==> IsDigit(LeadingDigits(s)[i])
    decreases |s|
  {
    if s != "" && IsDigit(s[0]) {
      LeadingDigitsAre(s[1..]);
    }
  }

  /** parseInt: leading space and a sign are skipped, what follows the digits is ignored. */
  function ParseInt(s: string): Number {
    if s != "" && IsSpace(s[0]) then ParseInt(s[1..])
    else if s != "" && s[0] == '+' then Natural(s[1..])
    else if s != "" && s[0] == '-' then
      var n := Natural(s[1..]);
      if n.Int? then Int(-n.value) else n
    else Natural(s)
  }

  function Natural(s: string): Number {
    LeadingDigitsAre(s);
    if LeadingDigits(s) == "" then NaN else Int(Value(LeadingDigits(s)))
  }

  /** An undefined and an empty header read alike; the service's own header wins. */
  function Chosen(range: Option<string>, xMsRange: Option<string>): string {
    if xMsRange.Some? && xMsRange.value != "" then xMsRange.value
    else if range.Some? then range.value
    else ""
  }

  /** Comparisons with NaN are false. */
  predicate Exceeds(a: Number, b: Number) {
    a.Int? && b.Int? && a.value > b.value
  }

  function Deserialize(range: Option<string>, xMsRange: Option<string>): Parsed {
    var header := Chosen(range, xMsRange);
    if header == "" then Absent
    else
      var parts := Split(header, '=');
      if |parts| != 2 then RangeError
      else
        var ends := Split(parts[1], '-');
        if |ends| > 2 then RangeError
        else
          var first := ParseInt(ends[0]);
          var last := if |ends| > 1 && ends[1] != "" then ParseInt(ends[1]) else Infinite;
          if Exceeds(first, last) then RangeError else Interval(first, last)
  }

  /** NaN is not a multiple of 512 either. */
  predicate OnPage(n: Number, shift: nat) {
    n.Int? && (n.value + shift) % 512 == 0
  }

  /** What a request asks for: everything, if there is no header. */
  function Asked(parsed: Parsed): Parsed {
    if parsed.Absent? then Interval(Int(0), Infinite) else parsed
  }

  /** The interval asked for, both ends as they stand in the header. The boundary only decides
      which intervals are refused. */
  function DeserializePage(range: Option<string>, xMsRange: Option<string>, force512boundary: bool): (r: Parsed)
    ensures !r.Absent?
    ensures r.Interval? ==> r == Asked(Deserialize(range, xMsRange))
    ensures r.RangeError? <==>
      var p := Asked(Deserialize(range, xMsRange));
      p.RangeError? || (force512boundary && !(OnPage(p.first, 0) && (p.last == Infinite || OnPage(p.last, 1))))
  {
    var parsed := Deserialize(range, xMsRange);
    if parsed.RangeError? then RangeError
    else
      var first := if parsed.Interval? then parsed.first else Int(0);
      var last := if parsed.Interval? then parsed.last else Infinite;
      if force512boundary && !OnPage(first, 0) then RangeError
      else if force512boundary && last != Infinite && !OnPage(last, 1) then RangeError
      else Interval(first, last)
  }

  // ----- The round trip -----

  predicate AllDigits(s: string) {
    forall i :: 0 <= i < |s| ==> IsDigit(s[i])
  }

  lemma {:induction false} DecimalValue(n: nat)
    ensures AllDigits(Decimal(n)) && Decimal(n) != "" && Value(Decimal(n)) == n
  {
    if n >= 10 {
      DecimalValue(n / 10);
    }
    var s := Decimal(n);
    assert s[..|s| - 1] == if n < 10 then "" else Decimal(n / 10);
  }

  lemma {:induction false} AllLead(s: string)
    requires AllDigits(s)
    ensures LeadingDigits(s) == s
    decreases |s|
  {
    if s != "" {
      AllLead(s[1..]);
    }
  }

  lemma DecimalParses(n: nat)
    ensures ParseInt(Decimal(n)) == Int(n)
  {
    DecimalValue(n);
    AllLead(Decimal(n));
  }

  lemma {:induction false} SplitOne(s: string, at: char)
    requires at !in s
    ensures Split(s, at) == [s]
    decreases |s|
  {
    if s != "" {
      SplitOne(s[1..], at);
      assert [s[0]] + s[1..] == s;
    }
  }

  lemma {:induction false} SplitTwo(a: string, at: char, b: string)
    requires at !in a && at !in b
    ensures Split(a + [at] + b, at) == [a, b]
    decreases |a|
  {
    var s := a + [at] + b;
    if a == "" {
      assert s[1..] == b;
      SplitOne(b, at);
    } else {
      assert s[1..] == a[1..] + [at] + b;
      SplitTwo(a[1..], at, b);
      assert [a[0]] + a[1..] == a;
    }
  }

  lemma HeaderParses(first: string, last: string)
    requires AllDigits(first) && AllDigits(last)
    ensures Split("bytes=" + first + "-" + last, '=') == ["bytes", first + "-" + last]
    ensures Split(first + "-" + last, '-') == [first, last]
  {
    var range := first + "-" + last;
    assert "bytes=" + first + "-" + last == "bytes" + ['='] + range;
    SplitTwo("bytes", '=', range);
    SplitTwo(first, '-', last);
  }

  lemma ReadsBack(first: nat, last: string, other: Option<string>)
    requires AllDigits(last) && (last != "" ==> ParseInt(last).Int? && first <= ParseInt(last).value)
    ensures var header := Some("bytes=" + Decimal(first) + "-" + last);
      var interval := Interval(Int(first), if last == "" then Infinite else ParseInt(last));
      Deserialize(header, None) == interval && Deserialize(header, Some("")) == interval && Deserialize(other, header) == interval
  {
    DecimalValue(first);
    DecimalParses(first);
    HeaderParses(Decimal(first), last);
  }

  /** What is printed is read back, in either header, the service's own one winning: the interval
      [offset, offset + count - 1], or the open one without a count or with count zero. Nothing is
      printed exactly for a negative offset or count. */
  lemma RangeRoundTrip(offset: int, count: Option<int>, other: Option<string>)
    ensures RangeToString(offset, count).None? <==> offset < 0 || (count.Some? && count.value < 0)
    ensures RangeToString(offset, count).Some? ==>
      var text := RangeToString(offset, count);
      var last := if count.Some? && count.value != 0 then Int(offset + count.value - 1) else Infinite;
      Deserialize(text, None) == Interval(Int(offset), last) && Deserialize(other, text) == Interval(Int(offset), last)
  {
    hide Deserialize, Decimal, Value, LeadingDigits, ParseInt;
    if offset >= 0 && (count.Some? ==> count.value >= 0) {
      if count.Some? && count.value != 0 {
        var end := offset + count.value - 1;
        DecimalValue(end);
        DecimalParses(end);
        ReadsBack(offset, Decimal(end), other);
      } else {
        ReadsBack(offset, "", other);
        assert "bytes=" + Decimal(offset) + "-" + "" == "bytes=" + Decimal(offset) + "-";
      }
    }
  }

  /** A part between dashes has no sign, so what parses is not negative. */
  lemma PartIsNatural(s: string)
    requires '-' !in s
    ensures ParseInt(s).Infinite? == false
    ensures ParseInt(s).Int? ==> ParseInt(s).value >= 0
  {
  }

  lemma {:induction false} SplitHasNone(s: string, at: char)
    ensures forall i :: 0 <= i < |Split(s, at)| ==> at !in Split(s, at)[i]
    decreases |s|
  {
    if s != "" {
      SplitHasNone(s[1..], at);
    }
  }

  /** The page parser's interval is in order as well. */
  lemma PageInOrder(range: Option<string>, xMsRange: Option<string>, force512boundary: bool)
    ensures var r := DeserializePage(range, xMsRange, force512boundary);
      r.Interval? ==>
        && !r.first.Infinite?
        && (r.first.Int? ==> r.first.value >= 0)
        && (r.last.Int? ==> r.last.value >= 0)
        && (r.first.Int? && r.last.Int? ==> r.first.value <= r.last.value)
  {
    IntervalInOrder(range, xMsRange);
  }

  /** Every interval read is in order and starts at a number from zero on, or at NaN. */
  lemma IntervalInOrder(range: Option<string>, xMsRange: Option<string>)
    ensures var r := Deserialize(range, xMsRange);
      r.Interval? ==>
        && !r.first.Infinite?
        && (r.first.Int? ==> r.first.value >= 0)
        && (r.last.Int? ==> r.last.value >= 0)
        && (r.first.Int? && r.last.Int? ==> r.first.value <= r.last.value)
  {
    var header := Chosen(range, xMsRange);
    if header != "" && |Split(header, '=')| == 2 {
      var ends := Split(Split(header, '=')[1], '-');
      SplitHasNone(Split(header, '=')[1], '-');
      PartIsNatural(ends[0]);
      if |ends| == 2 {
        PartIsNatural(ends[1]);
      }
    }
  }

  // ----- Every header -----

  function Join(parts: seq<string>, at: char): string {
    if parts == [] then "" else if |parts| == 1 then parts[0] else parts[0] + [at] + Join(parts[1..], at)
  }

  /** There is one part more than there are separators. */
  lemma {:induction false} SplitCounts(s: string, at: char)
    ensures |Split(s, at)| == 1 + multiset(s)[at]
    decreases |s|
  {
    if s != "" {
      SplitCounts(s[1..], at);
      assert [s[0]] + s[1..] == s;
    }
  }

  /** The parts with the separator between them are the text again. */
  lemma {:induction false} SplitJoins(s: string, at: char)
    ensures Join(Split(s, at), at) == s
    decreases |s|
  {
    if s != "" {
      var rest := Split(s[1..], at);
      SplitJoins(s[1..], at);
      assert [s[0]] + s[1..] == s;
      if s[0] == at {
        assert ([""] + rest)[1..] == rest;
      } else {
        assert ([[s[0]] + rest[0]] + rest[1..])[1..] == rest[1..];
      }
    }
  }

  predicate Plain(s: string) {
    '=' !in s && '-' !in s
  }

  /** No header, or only empty ones. */
  lemma AbsentExactly(range: Option<string>, xMsRange: Option<string>)
    ensures Deserialize(range, xMsRange).Absent?
      <==> (range.None? || range.value == "") && (xMsRange.None? || xMsRange.value == "")
  {
  }

  /** A header needs exactly one equals sign, and behind it at most one dash. */
  lemma RejectedShape(header: string, unit: string, ends: string)
    requires header != ""
    ensures multiset(header)['='] != 1 ==> Deserialize(Some(header), None).RangeError?
    ensures header == unit + "=" + ends && multiset(header)['='] == 1 && multiset(ends)['-'] > 1 ==>
      Deserialize(Some(header), None).RangeError?
  {
    SplitCounts(header, '=');
    if header == unit + "=" + ends && multiset(header)['='] == 1 {
      assert multiset(header)['='] == multiset(unit)['='] + 1 + multiset(ends)['='] by {
        assert multiset(header) == multiset(unit) + multiset{'='} + multiset(ends);
      }
      SplitTwo(unit, '=', ends);
      assert unit + ['='] + ends == header;
      SplitCounts(ends, '-');
    }
  }

  /** Every other header: each end is read as a number, an end left out is open, and the interval
      is rejected exactly when its first end exceeds its last. Nothing looks at the unit. */
  lemma AcceptedShape(unit: string, first: string, last: string)
    requires '=' !in unit && Plain(first) && Plain(last)
    ensures Deserialize(Some(unit + "=" + first), None) == Interval(ParseInt(first), Infinite)
    ensures Deserialize(Some(unit + "=" + first + "-" + last), None) ==
      var end := if last == "" then Infinite else ParseInt(last);
      if Exceeds(ParseInt(first), end) then RangeError else Interval(ParseInt(first), end)
  {
    hide ParseInt;
    SplitTwo(unit, '=', first);
    assert unit + ['='] + first == unit + "=" + first;
    SplitOne(first, '-');
    var ends := first + "-" + last;
    SplitTwo(unit, '=', ends);
    assert unit + ['='] + ends == unit + "=" + first + "-" + last;
    SplitTwo(first, '-', last);
    assert first + ['-'] + last == ends;
  }

  function Pow10(n: nat): nat {
    if n == 0 then 1 else 10 * Pow10(n - 1)
  }

  /** Digits count by their place: the leading one for a power of ten. */
  lemma {:induction false} LeadingDigitCounts(c: char, digits: string)
    requires IsDigit(c) && AllDigits(digits)
    ensures AllDigits([c] + digits)
    ensures Value([c] + digits) == (c - '0') as int * Pow10(|digits|) + Value(digits)
  {
    var s := [c] + digits;
    if digits == "" {
      assert s[..0] == "";
    } else {
      var front, d, p := digits[..|digits| - 1], (c - '0') as int, Pow10(|digits| - 1);
      LeadingDigitCounts(c, front);
      assert s[..|s| - 1] == [c] + front;
      assert d * (10 * p) == 10 * (d * p);
    }
  }

  lemma {:induction false} DigitsLead(digits: string, rest: string)
    requires AllDigits(digits) && (rest == "" || !IsDigit(rest[0]))
    ensures LeadingDigits(digits + rest) == digits
    decreases |digits|
  {
    if digits == "" {
      assert digits + rest == rest;
    } else {
      assert (digits + rest)[1..] == digits[1..] + rest;
      DigitsLead(digits[1..], rest);
    }
  }

  predicate AllSpaces(s: string) {
    forall i :: 0 <= i < |s| ==> IsSpace(s[i])
  }

  /** What parseInt reads: spaces, a sign or none, digits, and anything that is no digit. */
  lemma {:induction false} ParseIntReads(spaces: string, sign: string, digits: string, rest: string)
    requires AllSpaces(spaces) && sign in ["", "+", "-"] && AllDigits(digits) && digits != ""
    requires rest == "" || !IsDigit(rest[0])
    ensures var n: int := Value(digits);
      ParseInt(spaces + sign + digits + rest) == Int(if sign == "-" then -n else n)
    decreases |spaces|
  {
    var s := spaces + sign + digits + rest;
    if spaces != "" {
      assert s[1..] == spaces[1..] + sign + digits + rest;
      ParseIntReads(spaces[1..], sign, digits, rest);
    } else {
      DigitsLead(digits, rest);
      assert Natural(digits + rest) == Int(Value(digits));
      assert s == sign + (digits + rest);
      if sign == "" {
        assert s == digits + rest && s[0] == digits[0];
      } else {
        assert s[0] == sign[0] && s[1..] == digits + rest;
      }
    }
  }

  /** Without a digit there, it reads no number. */
  lemma {:induction false} ParseIntReadsNone(spaces: string, sign: string, rest: string)
    requires AllSpaces(spaces) && sign in ["", "+", "-"] && (rest == "" || !IsDigit(rest[0]))
    requires sign == "" && rest != "" ==> !IsSpace(rest[0]) && rest[0] != '+' && rest[0] != '-'
    ensures ParseInt(spaces + sign + rest) == NaN
    decreases |spaces|
  {
    var s := spaces + sign + rest;
    if spaces != "" {
      assert s[1..] == spaces[1..] + sign + rest;
      ParseIntReadsNone(spaces[1..], sign, rest);
    } else {
      DigitsLead("", rest);
      assert "" + rest == rest && s == sign + rest;
      if sign != "" {
        assert s[1..] == rest;
      }
    }
  }

  /** Decimal numbers have no leading zero, so there is one text for each. */
  lemma {:induction false} NoLeadingZero(n: nat)
    requires n > 0
    ensures Decimal(n)[0] != '0'
  {
    if n >= 10 {
      NoLeadingZero(n / 10);
    }
  }

  lemma PageEndsPrint()
    ensures Decimal(0) == "0" && Decimal(511) == "511" && Decimal(512) == "512"
  {
    assert Decimal(5) == "5";
    assert Decimal(51) == "5" + [Digit(1)] == "51";
    assert Decimal(511) == "51" + [Digit(1)] == "511" && Decimal(512) == "51" + [Digit(2)] == "512";
  }

  lemma FirstPagePrints()
    ensures RangeToString(0, Some(512)) == Some("bytes=0-511")
    ensures RangeToString(512, Some(0)) == RangeToString(512, None) == Some("bytes=512-")
  {
    PageEndsPrint();
    hide Decimal;
    assert "bytes=" + "0" + "-" + "511" == "bytes=0-511";
    assert "bytes=" + "512" + "-" == "bytes=512-";
  }
}
