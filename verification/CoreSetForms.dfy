/** What the core-set parser makes of blanks, signs, trailing text and malformed parts. */
module CoreSetForms {
  import opened Wrappers
  import opened CpuPool
  import opened CoreSets

  predicate AllBlank(s: string) {
    forall k | 0 <= k < |s| :: IsSpace(s[k])
  }

  /** The blank ASCII characters; digits, signs and separators are not blank. */
  lemma CommonBlanks()
    ensures forall c: char | c as int < 0x80 ::
              IsSpace(c) <==> c == ' ' || c == '\t' || c == '\n' || c == '\r' || c as int == 0x0b || c as int == 0x0c
    ensures forall c | IsDigit(c) || c == '-' || c == '+' || c == ',' :: !IsSpace(c)
  {
  }

  // ----- blanks around a part -----

  lemma {:induction false} TrimLeftBlanks(a: string, s: string)
    requires AllBlank(a)
    ensures TrimLeft(a + s) == TrimLeft(s)
  {
    if a == [] {
      assert a + s == s;
    } else {
      assert (a + s)[1..] == a[1..] + s;
      TrimLeftBlanks(a[1..], s);
    }
  }

  lemma {:induction false} TrimRightBlanks(s: string, b: string)
    requires AllBlank(b)
    ensures TrimRight(s + b) == TrimRight(s)
  {
    if b == [] {
      assert s + b == s;
    } else {
      assert (s + b)[..|s + b| - 1] == s + b[..|b| - 1];
      TrimRightBlanks(s, b[..|b| - 1]);
    }
  }

  /** Blanks around a text that begins and ends with something else are dropped. */
  lemma TrimsBlanks(a: string, s: string, b: string)
    requires AllBlank(a) && AllBlank(b) && s != [] && !IsSpace(s[0]) && !IsSpace(s[|s| - 1])
    ensures TrimSpace(a + s + b) == s
  {
    assert a + s + b == a + (s + b);
    TrimLeftBlanks(a, s + b);
    assert (s + b)[0] == s[0];
    TrimRightBlanks(s, b);
  }

  // ----- one number -----

  lemma {:induction false} SkipsBlanks(a: string, s: string)
    requires AllBlank(a) && '\n' !in a
    ensures SkipSpace(a + s) == SkipSpace(s)
  {
    if a == [] {
      assert a + s == s;
    } else {
      assert (a + s)[1..] == a[1..] + s;
      SkipsBlanks(a[1..], s);
    }
  }

  /** Blanks before a number are skipped, but not a line end. */
  lemma ScanSkipsBlanks(a: string, s: string)
    requires AllBlank(a) && '\n' !in a
    ensures Scan(a + s) == Scan(s)
    ensures Scan(a + "\n" + s) == None
  {
    SkipsBlanks(a, s);
    assert a + "\n" + s == a + ("\n" + s);
    SkipsBlanks(a, "\n" + s);
    CommonBlanks();
  }

  lemma {:induction false} DigitsThenText(digits: string, text: string)
    requires AllDigits(digits) && (text != [] ==> !IsDigit(text[0]))
    ensures LeadingDigits(digits + text) == digits
  {
    if digits == [] {
      assert digits + text == text;
    } else {
      assert (digits + text)[1..] == digits[1..] + text;
      DigitsThenText(digits[1..], text);
      assert [digits[0]] + digits[1..] == digits;
    }
  }

  /** What follows a number is ignored; a number that does not fit in 64 bits is not read. */
  lemma ScanReadsNumber(digits: string, text: string)
    requires AllDigits(digits) && digits != [] && (text != [] ==> !IsDigit(text[0]))
    ensures Scan(digits + text) == if Number(digits) <= MAX_INT64 then Some(Number(digits)) else None
  {
    var s := digits + text;
    assert s[0] == digits[0] && IsDigit(s[0]) && !IsSpace(s[0]);
    assert SkipSpace(s) == Some(s);
    DigitsThenText(digits, text);
  }

  /** The largest number that is read, and the next one that is not. */
  lemma LargestNumberRead()
    ensures Scan(Decimal(9223372036854775807)) == Some(9223372036854775807)
    ensures Scan(Decimal(9223372036854775808)) == None
  {
    LargestNumberIs(9223372036854775807);
  }

  lemma LargestNumberIs(n: nat)
    requires n == MAX_INT64
    ensures Scan(Decimal(n)) == Some(n) && Scan(Decimal(n + 1)) == None
  {
    ScanDecimal(n);
    ScanDecimal(n + 1);
  }

  lemma SignThenDigits(sign: char, digits: string, text: string)
    requires sign == '+' || sign == '-'
    requires AllDigits(digits) && digits != [] && (text != [] ==> !IsDigit(text[0]))
    ensures var s := [sign] + digits + text;
            SkipSpace(s) == Some(s) && s[0] == sign && LeadingDigits(s[1..]) == digits
  {
    var s := [sign] + digits + text;
    assert s[0] == sign && !IsSpace(sign);
    assert s[1..] == digits + text;
    DigitsThenText(digits, text);
  }

  /** A plus sign changes nothing, a minus sign negates. */
  lemma ScanReadsSign(digits: string, text: string)
    requires AllDigits(digits) && digits != [] && (text != [] ==> !IsDigit(text[0]))
    ensures Scan(['+'] + digits + text) == Scan(digits + text)
    ensures Scan(['-'] + digits + text)
            == if Number(digits) <= MAX_INT64 + 1 then Some(-(Number(digits) as int)) else None
  {
    ScanReadsNumber(digits, text);
    SignThenDigits('+', digits, text);
    SignThenDigits('-', digits, text);
  }

  /** Without a digit, after at most one sign, there is no number. */
  lemma NothingToScan(s: string)
    requires s != [] ==> !IsSpace(s[0]) && !IsDigit(s[0])
    requires s != [] && (s[0] == '+' || s[0] == '-') && |s| > 1 ==> !IsDigit(s[1])
    ensures Scan(s) == None
  {
  }

  // ----- whole parts -----

  /** A number with blanks around it names that core. */
  lemma NumberInBlanks(a: string, n: nat, b: string)
    requires AllBlank(a) && AllBlank(b) && n <= MAX_INT64
    ensures CoreSet(a + Decimal(n) + b) == [n]
  {
    var s := Decimal(n);
    DecimalRoundTrip(n);
    CommonBlanks();
    assert IsDigit(s[0]) && IsDigit(s[|s| - 1]);
    TrimsBlanks(a, s, b);
    assert ',' !in a + s + b && '-' !in s;
    OnePart(a + s + b, s);
    ScanDecimal(n);
  }

  lemma OnePart(s: string, trimmed: string)
    requires ',' !in s && TrimSpace(s) == trimmed
    ensures CoreSet(s) == PartCores(trimmed)
  {
    SplitWithoutSeparator(s, ',');
    assert [s][..0] == [];
    assert ConcatMap(TrimmedCores, []) == [];
  }

  /** A range may have blanks around it and around its dash; it names the cores from the lower to the higher
      end, none when the ends are the wrong way round. */
  lemma RangeInBlanks(a: string, lo: nat, b: string, c: string, hi: nat, d: string)
    requires AllBlank(a) && AllBlank(b) && AllBlank(c) && AllBlank(d) && '\n' !in c
    requires lo <= MAX_INT64 && hi <= MAX_INT64
    ensures CoreSet(a + (Decimal(lo) + b + "-" + (c + Decimal(hi))) + d) == Ascending(lo, hi)
    ensures lo > hi ==> CoreSet(a + (Decimal(lo) + b + "-" + (c + Decimal(hi))) + d) == []
  {
    var left, right := Decimal(lo) + b, c + Decimal(hi);
    EndsOfRange(lo, b, c, hi);
    RangeText(left, right);
    TrimsBlanks(a, left + "-" + right, d);
    CommonBlanks();
    assert ',' !in a + (left + "-" + right) + d;
    OnePart(a + (left + "-" + right) + d, left + "-" + right);
    SpanCores(lo, hi, left, right);
  }

  lemma EndsOfRange(lo: nat, b: string, c: string, hi: nat)
    requires AllBlank(b) && AllBlank(c) && '\n' !in c && lo <= MAX_INT64 && hi <= MAX_INT64
    ensures ScanOrZero(Decimal(lo) + b) == lo && ScanOrZero(c + Decimal(hi)) == hi
    ensures var left, right := Decimal(lo) + b, c + Decimal(hi);
            && '-' !in left && '-' !in right && ',' !in left && ',' !in right
            && left != [] && IsDigit(left[0]) && right != [] && IsDigit(right[|right| - 1])
  {
    CommonBlanks();
    DecimalRoundTrip(lo);
    DecimalRoundTrip(hi);
    ScanReadsNumber(Decimal(lo), b);
    ScanSkipsBlanks(c, Decimal(hi));
    ScanDecimal(hi);
    assert IsDigit(Decimal(lo)[0]) && IsDigit(Decimal(hi)[|Decimal(hi)| - 1]);
  }

  lemma RangeText(left: string, right: string)
    requires '-' !in left && '-' !in right && left != [] && right != []
    requires IsDigit(left[0]) && IsDigit(right[|right| - 1])
    ensures var s := left + "-" + right;
            && Split(s, '-') == [left, right] && '-' in s && s != []
            && !IsSpace(s[0]) && !IsSpace(s[|s| - 1])
  {
    CommonBlanks();
    SplitConcat(left, right, '-');
    SplitWithoutSeparator(left, '-');
    SplitWithoutSeparator(right, '-');
    var s := left + "-" + right;
    assert s[|left|] == '-' && s[0] == left[0] && s[|s| - 1] == right[|right| - 1];
  }

  /** A part with more than one dash names nothing. */
  lemma TwoDashesNameNothing(a: string, b: string, c: string)
    ensures PartCores(a + "-" + b + "-" + c) == []
  {
    var s := a + "-" + b + "-" + c;
    assert s == a + ['-'] + (b + ['-'] + c);
    SplitConcat(a, b + ['-'] + c, '-');
    SplitConcat(b, c, '-');
    assert |Split(a, '-')| > 0 && |Split(b, '-')| > 0 && |Split(c, '-')| > 0;
    assert s[|a|] == '-';
  }

  /** A decimal has no leading zero. */
  lemma {:induction false} NoLeadingZero(n: nat)
    ensures Decimal(n) != [] && (n > 0 ==> Decimal(n)[0] != '0') && (n == 0 ==> Decimal(n) == "0")
  {
    if n >= 10 {
      NoLeadingZero(n / 10);
      assert Decimal(n)[0] == Decimal(n / 10)[0];
    } else {
      assert Decimal(n) == ['0' + (n % 10) as char];
    }
  }

  /** Numbers are read in base ten. */
  lemma ReadInBaseTen(digits: string, last: char)
    requires AllDigits(digits) && IsDigit(last)
    ensures Number("") == 0 && AllDigits(digits + [last])
    ensures Number(digits + [last]) == 10 * Number(digits) + (last as int - '0' as int)
  {
    assert (digits + [last])[..|digits|] == digits;
  }

  /** A number is printed as its digits alone, without a leading zero, a negative one after a minus sign. */
  lemma PrintedPlainly(n: nat)
    ensures AllDigits(FormatInt(n)) && Number(FormatInt(n)) == n
    ensures FormatInt(n) != "" && (n > 0 ==> FormatInt(n)[0] != '0') && FormatInt(0) == "0"
    ensures n > 0 ==> FormatInt(0 - n as int) == "-" + FormatInt(n)
  {
    DecimalRoundTrip(n);
    NoLeadingZero(n);
    NoLeadingZero(0);
  }
}
