/** Core-set strings such as "2-3" or "0,2,4": the parser and what it reads back. */
module CoreSets {
  import opened Wrappers
  import opened CpuPool

  // ----- the string library the parser uses -----

  /** Splits at every separator; the result always has one more part than there are separators. */
  function Split(s: string, sep: char): (parts: seq<string>)
    ensures |parts| > 0
  {
    if s == [] then [[]]
    else
      var rest := Split(s[1..], sep);
      if s[0] == sep then [[]] + rest else [[s[0]] + rest[0]] + rest[1..]
  }

  /** Unicode white space. */
  predicate IsSpace(c: char) {
    var n := c as int;
    || 0x09 <= n <= 0x0d || n == 0x20 || n == 0x85 || n == 0xa0 || n == 0x1680
    || 0x2000 <= n <= 0x200a || n == 0x2028 || n == 0x2029 || n == 0x202f || n == 0x205f || n == 0x3000
  }

  function TrimLeft(s: string): string {
    if s != [] && IsSpace(s[0]) then TrimLeft(s[1..]) else s
  }

  function TrimRight(s: string): string {
    if s != [] && IsSpace(s[|s| - 1]) then TrimRight(s[..|s| - 1]) else s
  }

  function TrimSpace(s: string): string {
    TrimRight(TrimLeft(s))
  }

  predicate IsDigit(c: char) {
    '0' <= c <= '9'
  }

  predicate AllDigits(s: string) {
    forall k | 0 <= k < |s| :: IsDigit(s[k])
  }

  function LeadingDigits(s: string): (digits: string)
    ensures AllDigits(digits)
  {
    if s != [] && IsDigit(s[0]) then [s[0]] + LeadingDigits(s[1..]) else []
  }

  function Number(digits: string): nat
    requires AllDigits(digits)
  {
    if digits == [] then 0
    else 10 * Number(digits[..|digits| - 1]) + (digits[|digits| - 1] as int - '0' as int)
  }

  /** The rest after leading white space; a line break there is an error. */
  function SkipSpace(s: string): Option<string> {
    if s == [] || !IsSpace(s[0]) then Some(s)
    else if s[0] == '\n' then None
    else SkipSpace(s[1..])
  }

  /** Scans one decimal number with an optional sign; what follows the number is ignored.
      Fails without digits or when the number does not fit in 64 bits. */
  function Scan(s: string): Option<CoreId> {
    match SkipSpace(s)
    case None => None
    case Some(rest) =>
      var signed := rest != [] && (rest[0] == '+' || rest[0] == '-');
      var digits := LeadingDigits(if signed then rest[1..] else rest);
      if digits == [] then None
      else
        var value: int := if rest[0] == '-' then -(Number(digits) as int) else Number(digits);
        if -MAX_INT64 - 1 <= value <= MAX_INT64 then Some(value) else None
  }

  /** A failed scan leaves the variable at its initial 0. */
  function ScanOrZero(s: string): CoreId {
    match Scan(s)
    case Some(n) => n
    case None => 0
  }

  // ----- the parser -----

  /** The numbers from `lo` up to `hi`, none when `lo` is above `hi`. */
  function Ascending(lo: int, hi: int): (cores: seq<CoreId>)
    requires -MAX_INT64 - 1 <= lo && hi <= MAX_INT64
    ensures |cores| == if lo <= hi then hi - lo + 1 else 0
    ensures forall k | 0 <= k < |cores| :: cores[k] == lo + k
    decreases hi - lo
  {
    if lo > hi then [] else Ascending(lo, hi - 1) + [hi]
  }

  function PartCores(part: string): seq<CoreId> {
    if '-' in part then
      var ends := Split(part, '-');
      if |ends| == 2 then Ascending(ScanOrZero(ends[0]), ScanOrZero(ends[1])) else []
    else
      match Scan(part)
      case Some(n) => [n]
      case None => []
  }

  function TrimmedCores(part: string): seq<CoreId> {
    PartCores(TrimSpace(part))
  }

  function ConcatMap(f: string -> seq<CoreId>, parts: seq<string>): seq<CoreId> {
    if parts == [] then [] else ConcatMap(f, parts[..|parts| - 1]) + f(parts[|parts| - 1])
  }

  /** The cores a core-set string names, in order. */
  function CoreSet(s: string): seq<CoreId> {
    ConcatMap(TrimmedCores, Split(s, ','))
  }

  method ParsePart(part: string) returns (cores: seq<CoreId>)
    ensures cores == PartCores(part)
  {
    cores := [];
    if '-' in part {
      var rangeParts := Split(part, '-');
      if |rangeParts| == 2 {
        var start := ScanOrZero(rangeParts[0]);
        var end := ScanOrZero(rangeParts[1]);
        var i: int := start;
        while i <= end
          invariant start <= i && i - 1 <= (if start <= end then end else start - 1)
          invariant cores == if i == start then [] else Ascending(start, i - 1)
        {
          cores := cores + [i];
          i := i + 1;
        }
      }
    } else {
      var n := Scan(part);
      if n.Some? {
        cores := cores + [n.value];
      }
    }
  }

  method ParseCoreSet(coreStr: string) returns (cores: seq<CoreId>)
    ensures cores == CoreSet(coreStr)
  {
    cores := [];
    var parts := Split(coreStr, ',');
    for p := 0 to |parts|
      invariant cores == ConcatMap(TrimmedCores, parts[..p])
    {
      assert parts[..p + 1][..p] == parts[..p];
      var named := ParsePart(TrimSpace(parts[p]));
      cores := cores + named;
    }
    assert parts[..|parts|] == parts;
  }

  // ----- parsing distributes over the comma -----

  lemma {:induction false} SplitConcat(s: string, t: string, sep: char)
    ensures Split(s + [sep] + t, sep) == Split(s, sep) + Split(t, sep)
  {
    if s == [] {
      assert (s + [sep] + t)[1..] == t;
    } else {
      assert (s + [sep] + t)[1..] == s[1..] + [sep] + t;
      SplitConcat(s[1..], t, sep);
    }
  }

  lemma {:induction false} SplitWithoutSeparator(s: string, sep: char)
    requires sep !in s
    ensures Split(s, sep) == [s]
  {
    if s != [] {
      assert s[0] != sep && sep !in s[1..];
      SplitWithoutSeparator(s[1..], sep);
      assert [s[0]] + s[1..] == s;
    }
  }

  lemma {:induction false} ConcatMapConcat(f: string -> seq<CoreId>, a: seq<string>, b: seq<string>)
    ensures ConcatMap(f, a + b) == ConcatMap(f, a) + ConcatMap(f, b)
  {
    if b == [] {
      assert a + b == a;
    } else {
      assert (a + b)[..|a + b| - 1] == a + b[..|b| - 1];
      ConcatMapConcat(f, a, b[..|b| - 1]);
    }
  }

  /** For all strings, whether or not they are well formed. */
  lemma CoreSetConcat(s: string, t: string)
    ensures CoreSet(s + "," + t) == CoreSet(s) + CoreSet(t)
  {
    SplitConcat(s, t, ',');
    ConcatMapConcat(TrimmedCores, Split(s, ','), Split(t, ','));
  }

  // ----- printing and reading back -----

  function Decimal(n: nat): string {
    (if n < 10 then [] else Decimal(n / 10)) + ['0' + (n % 10) as char]
  }

  /** A number as "%d" prints it. */
  function FormatInt(n: int): string {
    if n < 0 then "-" + Decimal(-n) else Decimal(n)
  }

  lemma {:induction false} DecimalRoundTrip(n: nat)
    ensures Decimal(n) != [] && AllDigits(Decimal(n)) && Number(Decimal(n)) == n
  {
    var last: char := '0' + (n % 10) as char;
    assert last as int - '0' as int == n % 10;
    if n >= 10 {
      DecimalRoundTrip(n / 10);
      assert Decimal(n)[..|Decimal(n)| - 1] == Decimal(n / 10);
    } else {
      assert Decimal(n) == [last];
      assert Number([]) == 0;
    }
  }

  lemma {:induction false} LeadingDigitsOfDigits(s: string)
    requires AllDigits(s)
    ensures LeadingDigits(s) == s
  {
    if s != [] {
      LeadingDigitsOfDigits(s[1..]);
      assert [s[0]] + s[1..] == s;
    }
  }

  lemma ScanDecimal(n: nat)
    ensures Scan(Decimal(n)) == if n <= MAX_INT64 then Some(n) else None
  {
    DecimalRoundTrip(n);
    LeadingDigitsOfDigits(Decimal(n));
    assert IsDigit(Decimal(n)[0]);
  }

  lemma TrimNothing(s: string)
    requires s != [] && !IsSpace(s[0]) && !IsSpace(s[|s| - 1])
    ensures TrimSpace(s) == s
  {
  }

  datatype CoreItem = Single(core: nat) | Span(lo: nat, hi: nat)

  /** What the documented format can name: single cores and ascending ranges of them. */
  predicate ValidItem(item: CoreItem) {
    match item
    case Single(n) => n <= MAX_INT64
    case Span(lo, hi) => lo <= hi <= MAX_INT64
  }

  function PrintItem(item: CoreItem): string {
    match item
    case Single(n) => Decimal(n)
    case Span(lo, hi) => Decimal(lo) + "-" + Decimal(hi)
  }

  function PrintItems(items: seq<CoreItem>): string {
    if items == [] then ""
    else if |items| == 1 then PrintItem(items[0])
    else PrintItems(items[..|items| - 1]) + "," + PrintItem(items[|items| - 1])
  }

  /** `n` consecutive numbers from `lo` on. */
  ghost function CountUp(lo: int, n: nat): (numbers: seq<int>)
    ensures |numbers| == n && forall k | 0 <= k < n :: numbers[k] == lo + k
    decreases n
  {
    if n == 0 then [] else [lo] + CountUp(lo + 1, n - 1)
  }

  ghost function NamedBy(item: CoreItem): seq<int> {
    match item
    case Single(n) => [n]
    case Span(lo, hi) => if lo <= hi then CountUp(lo, hi - lo + 1) else []
  }

  /** The cores the items name, in order. */
  ghost function Named(items: seq<CoreItem>): seq<int> {
    if items == [] then [] else Named(items[..|items| - 1]) + NamedBy(items[|items| - 1])
  }

  lemma SpanText(a: string, b: string)
    requires AllDigits(a) && AllDigits(b) && a != [] && b != []
    ensures Split(a + "-" + b, '-') == [a, b]
    ensures ',' !in a + "-" + b && TrimSpace(a + "-" + b) == a + "-" + b && '-' in a + "-" + b
  {
    SplitConcat(a, b, '-');
    SplitWithoutSeparator(a, '-');
    SplitWithoutSeparator(b, '-');
    var s := a + "-" + b;
    assert s[|a|] == '-';
    assert IsDigit(a[0]) && IsDigit(b[|b| - 1]);
    assert s[0] == a[0] && s[|s| - 1] == b[|b| - 1];
    TrimNothing(s);
  }

  lemma CoreSetOfPart(s: string)
    requires ',' !in s && TrimSpace(s) == s
    ensures CoreSet(s) == PartCores(s)
  {
    SplitWithoutSeparator(s, ',');
    assert [s][..0] == [];
    assert ConcatMap(TrimmedCores, []) == [];
  }

  lemma ItemRoundTrip(item: CoreItem)
    requires ValidItem(item)
    ensures CoreSet(PrintItem(item)) == NamedBy(item)
  {
    match item
    case Single(n) => SingleRoundTrip(n);
    case Span(lo, hi) =>
      SpanRoundTrip(lo, hi);
      AscendingCounts(lo, hi);
  }

  lemma AscendingCounts(lo: nat, hi: nat)
    requires lo <= hi <= MAX_INT64
    ensures Ascending(lo, hi) == CountUp(lo, hi - lo + 1)
  {
  }

  lemma SingleRoundTrip(n: nat)
    requires n <= MAX_INT64
    ensures CoreSet(Decimal(n)) == [n]
  {
    var s := Decimal(n);
    DecimalRoundTrip(n);
    ScanDecimal(n);
    assert IsDigit(s[0]) && IsDigit(s[|s| - 1]);
    TrimNothing(s);
    assert '-' !in s && ',' !in s;
    CoreSetOfPart(s);
  }

  lemma SpanCores(lo: nat, hi: nat, a: string, b: string)
    requires Split(a + "-" + b, '-') == [a, b] && '-' in a + "-" + b
    requires ScanOrZero(a) == lo && ScanOrZero(b) == hi
    ensures PartCores(a + "-" + b) == Ascending(lo, hi)
  {
  }

  lemma SpanRoundTrip(lo: nat, hi: nat)
    requires lo <= hi <= MAX_INT64
    ensures CoreSet(Decimal(lo) + "-" + Decimal(hi)) == Ascending(lo, hi)
  {
    var a, b := Decimal(lo), Decimal(hi);
    DecimalRoundTrip(lo);
    DecimalRoundTrip(hi);
    ScanDecimal(lo);
    ScanDecimal(hi);
    SpanText(a, b);
    SpanCores(lo, hi, a, b);
    CoreSetOfPart(a + "-" + b);
  }

  /** Printing any list of cores and ascending ranges and parsing the text gives back the cores
      it names, in order. */
  lemma {:induction false} CoreSetRoundTrip(items: seq<CoreItem>)
    requires forall item | item in items :: ValidItem(item)
    ensures CoreSet(PrintItems(items)) == Named(items)
  {
    if items == [] {
      CoreSetOfPart("");
    } else {
      var before, last := items[..|items| - 1], items[|items| - 1];
      ItemRoundTrip(last);
      if |items| == 1 {
        assert Named(before) == [];
      } else {
        CoreSetRoundTrip(before);
        CoreSetConcat(PrintItems(before), PrintItem(last));
      }
    }
  }

  lemma MinusText(digits: string)
    requires AllDigits(digits) && digits != []
    ensures Split("" + "-" + digits, '-') == ["", digits]
    ensures var s := "" + "-" + digits; ',' !in s && TrimSpace(s) == s && '-' in s
  {
    var s := "" + "-" + digits;
    SplitConcat("", digits, '-');
    SplitWithoutSeparator(digits, '-');
    assert s[0] == '-' && s[|s| - 1] == digits[|digits| - 1];
    TrimNothing(s);
  }

  /** A leading minus makes a range whose empty lower end scans as 0. */
  lemma MinusReadsAsRange(digits: string, hi: nat)
    requires AllDigits(digits) && digits != [] && ScanOrZero(digits) == hi
    ensures CoreSet("-" + digits) == Ascending(0, hi)
  {
    MinusText(digits);
    assert Scan("") == None;
    SpanCores(0, hi, "", digits);
    CoreSetOfPart("" + "-" + digits);
    assert "" + "-" + digits == "-" + digits;
  }

  /** The string written to the status of a migrated pod reads back as that one core exactly
      when the core number is not negative: "-1" would read back as the range from 0 to 1. */
  lemma AllocatedCoreReadsBack(core: CoreId)
    ensures CoreSet(FormatInt(core)) == [core] <==> 0 <= core
  {
    if 0 <= core {
      SingleRoundTrip(core);
    } else {
      var n: nat := 0 - core as int;
      DecimalRoundTrip(n);
      ScanDecimal(n);
      MinusReadsAsRange(Decimal(n), ScanOrZero(Decimal(n)));
      assert CoreSet(FormatInt(core))[0] == 0;
    }
  }

  /** What a negative core reads back as instead. */
  lemma NegativeCoreReadsAsRange(core: CoreId)
    requires -MAX_INT64 <= core < 0
    ensures CoreSet(FormatInt(core)) == Ascending(0, -core)
  {
    var n: nat := 0 - core as int;
    DecimalRoundTrip(n);
    ScanDecimal(n);
    MinusReadsAsRange(Decimal(n), n);
  }
}
