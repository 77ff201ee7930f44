/** Printing and parsing option symbols (joker/data/webull_option_symbols.py), e.g. SPY260701C00550000. */
module OptionSymbols {
  import opened Options
  import opened Text

  datatype Date = Date(year: int, month: int, day: int)

  datatype Side = Call | Put

  datatype Contract = Contract(underlying: string, expiration: Date, side: Side, strike: real)

  datatype Error = OnlySpySupported | Unsupported | NoWord | BadNumber | BadDate

  datatype Result<+T> = Ok(value: T) | Err(error: Error)

  // ---------------------------------------------------------------- dates and numbers

  predicate Leap(year: int) {
    year % 4 == 0 && (year % 100 != 0 || year % 400 == 0)
  }

  function DaysIn(year: int, month: int): int {
    if month == 2 then (if Leap(year) then 29 else 28)
    else if month in {4, 6, 9, 11} then 30
    else 31
  }

  predicate ValidDate(d: Date) {
    1 <= d.year <= 9999 && 1 <= d.month <= 12 && 1 <= d.day <= DaysIn(d.year, d.month)
  }

  /** Rounding to the nearest integer, a tie going to the even one. */
  function Round(x: real): int {
    var low := x.Floor;
    var rest := x - low as real;
    if rest < 0.5 || (rest == 0.5 && low % 2 == 0) then low else low + 1
  }

  function DigitChar(d: int): char
    requires 0 <= d < 10
  {
    (d + '0' as int) as char
  }

  predicate IsDigit(c: char) {
    '0' <= c <= '9'
  }

  /** At least `width` digits, more when the number needs them. */
  function Padded(n: nat, width: nat): string
    decreases n, width
  {
    if n < 10 && width <= 1 then [DigitChar(n)]
    else Padded(n / 10, if width > 0 then width - 1 else 0) + [DigitChar(n % 10)]
  }

  /** `format(n, "0<width>d")`: a minus sign takes up one place of the width. */
  function Formatted(n: int, width: nat): string
    requires width > 0
  {
    if n >= 0 then Padded(n, width) else "-" + Padded(-n, width - 1)
  }

  /** Digits, with single underscores allowed between them as Python allows. */
  function Numeral(s: string): Option<nat> {
    if s == "" || !IsDigit(s[|s| - 1]) then None
    else
      var front, d := s[..|s| - 1], s[|s| - 1] as int - '0' as int;
      if front == "" then Some(d)
      else
        var high := if front[|front| - 1] == '_' then Numeral(front[..|front| - 1]) else Numeral(front);
        if high.None? then None else Some(10 * high.value + d)
  }

  /** `int(text)`. */
  function ParsedInt(text: string): Option<int> {
    Signed(Strip(text))
  }

  function Signed(t: string): Option<int> {
    if t == "" then None
    else if t[0] == '-' then (match Numeral(t[1..]) case None => None case Some(n) => Some(-(n as int)))
    else if t[0] == '+' then Numeral(t[1..])
    else Numeral(t)
  }

  // ---------------------------------------------------------------- the two directions

  function SideOf(optionType: string): Side {
    if Lower(optionType) == "call" || Lower(optionType) == "c" then Call else Put
  }

  function BuildSymbol(underlying: string, d: Date, strike: real, optionType: string): Result<string>
    requires ValidDate(d)
  {
    if Upper(underlying) != "SPY" then Err(OnlySpySupported)
    else Ok("SPY" + Stamp(d) + SideMark(SideOf(optionType)) + Formatted(Round(strike * 1000.0), 8))
  }

  function Stamp(d: Date): string
    requires ValidDate(d)
  {
    Padded(d.year % 100, 2) + Padded(d.month, 2) + Padded(d.day, 2)
  }

  function SideMark(side: Side): string {
    if side.Call? then "C" else "P"
  }

  function ParseSymbol(symbol: string): Result<Contract> {
    if !("SPY" <= symbol) then
      if exists i :: 0 <= i < |symbol| && !IsSpace(symbol[i]) then Err(Unsupported) else Err(NoWord)
    else if |symbol| < 15 then Err(Unsupported)
    else
      var year, month, day := ParsedInt(symbol[3..5]), ParsedInt(symbol[5..7]), ParsedInt(symbol[7..9]);
      if year.None? || month.None? || day.None? then Err(BadNumber)
      else
        var d := Date(2000 + year.value, month.value, day.value);
        if !ValidDate(d) then Err(BadDate)
        else
          var strike := ParsedInt(symbol[10..]);
          if strike.None? then Err(BadNumber)
          else Ok(Contract("SPY", d, if UpperChar(symbol[9]) == 'C' then Call else Put, strike.value as real / 1000.0))
  }

  // ---------------------------------------------------------------- what the pieces mean

  const MONTH_LENGTHS := [31, 28, 31, 30, 31, 30, 31, 31, 30, 31, 30, 31]

  /** A date is valid when its year has four digits at most and its month has the day, in leap years one more. */
  lemma DateExactly(d: Date)
    ensures ValidDate(d) <==>
      && 0 < d.year < 10_000 && 0 < d.month < 13
      && 0 < d.day <= MONTH_LENGTHS[d.month - 1] + if d.month == 2 && HasLeapDay(d.year) then 1 else 0
  {
    LeapExactly(d.year);
  }

  predicate HasLeapDay(year: int) {
    year % 4 == 0 && year % 400 !in {100, 200, 300}
  }

  lemma LeapExactly(year: int)
    ensures Leap(year) <==> HasLeapDay(year)
  {
    var rest := year % 400;
    RestOfHundred(year, 4 * (year / 400) + rest / 100, rest % 100);
  }

  lemma RestOfHundred(n: int, quotient: int, rest: int)
    requires n == 100 * quotient + rest && 0 <= rest < 100
    ensures n % 100 == rest
  {
  }

  /** Rounding gives the one integer within a half, or of two the even one. */
  lemma RoundExactly(x: real, n: int)
    ensures Round(x) == n <==> -0.5 <= n as real - x <= 0.5 && (n as real - x in {-0.5, 0.5} ==> n % 2 == 0)
  {
  }

  /** Which symbols are refused, and why: no word at all, another shape, an unreadable number, or no such day. */
  lemma RefusalsExactly(s: string)
    ensures ParseSymbol(s) == Err(NoWord) <==> AllBlank(s)
    ensures ParseSymbol(s) == Err(Unsupported) <==> !AllBlank(s) && !WellShaped(s)
    ensures WellShaped(s) ==>
      var year, month, day, strike :=
        ParsedInt(s[3..5]), ParsedInt(s[5..7]), ParsedInt(s[7..9]), ParsedInt(s[10..]);
      if year.None? || month.None? || day.None? then ParseSymbol(s) == Err(BadNumber)
      else if !ValidDate(Date(2000 + year.value, month.value, day.value)) then ParseSymbol(s) == Err(BadDate)
      else ParseSymbol(s).Ok? <==> strike.Some?
  {
    if "SPY" <= s {
      assert s[0] == 'S' && !IsSpace(s[0]);
    }
  }

  /** Long enough and headed SPY. */
  predicate WellShaped(s: string) {
    |s| > 14 && s[..3] == "SPY"
  }

  // ---------------------------------------------------------------- numbers survive

  predicate Denotes(digits: string, n: nat) {
    digits != "" && (forall c :: c in digits ==> IsDigit(c)) && Numeral(digits) == Some(n)
  }

  lemma OneMoreDigit(high: string, h: nat, d: nat)
    requires Denotes(high, h) && d < 10
    ensures Denotes(high + [DigitChar(d)], 10 * h + d)
  {
    var s := high + [DigitChar(d)];
    assert s[..|s| - 1] == high && s[|s| - 1] == DigitChar(d);
    assert high[|high| - 1] in high;
  }

  lemma {:induction false} PaddedIsANumeral(n: nat, width: nat)
    ensures Denotes(Padded(n, width), n)
    ensures |Padded(n, width)| >= width
    decreases n, width
  {
    if n < 10 && width <= 1 {
    } else {
      var w := if width > 0 then width - 1 else 0;
      PaddedIsANumeral(n / 10, w);
      OneMoreDigit(Padded(n / 10, w), n / 10, n % 10);
      assert 10 * (n / 10) + n % 10 == n;
    }
  }

  lemma TwoDigits(n: nat)
    requires n < 100
    ensures |Padded(n, 2)| == 2
  {
    assert Padded(n, 2) == Padded(n / 10, 1) + [DigitChar(n % 10)];
    assert Padded(n / 10, 1) == [DigitChar(n / 10)];
  }

  lemma DigitsParse(digits: string, n: nat)
    requires Denotes(digits, n)
    ensures ParsedInt(digits) == Some(n)
  {
    assert digits[0] in digits && digits[|digits| - 1] in digits;
    NothingToStrip(digits);
  }

  lemma NegativeDigitsParse(digits: string, n: nat)
    requires Denotes(digits, n)
    ensures ParsedInt("-" + digits) == Some(-(n as int))
  {
    var s := "-" + digits;
    assert s[|s| - 1] == digits[|digits| - 1] && digits[|digits| - 1] in digits;
    NothingToStrip(s);
    assert s[1..] == digits;
  }

  /** Every integer, negative ones included and however many digits it needs, is read back. */
  lemma FormattedParsesBack(n: int, width: nat, text: string)
    requires width > 0 && text == Formatted(n, width)
    ensures ParsedInt(text) == Some(n)
    ensures |text| >= width
  {
    if n >= 0 {
      PaddedIsANumeral(n, width);
      DigitsParse(text, n);
    } else {
      PaddedIsANumeral(-n, width - 1);
      NegativeDigitsParse(text[1..], -n);
      assert text == "-" + text[1..];
    }
  }

  // ---------------------------------------------------------------- the round trip

  /** What a printed symbol can still say about the year. */
  function Century(d: Date): Date {
    d.(year := 2000 + d.year % 100)
  }

  /** Two digits of the year lose no day: the date read back always exists. */
  lemma CenturyIsValid(d: Date)
    requires ValidDate(d)
    ensures ValidDate(Century(d))
    ensures Century(d) == d <==> 2000 <= d.year <= 2099
  {
    if d.month == 2 && d.day == 29 {
      assert d.year % 4 == 0;
      assert (d.year % 100) % 4 == 0;
    }
  }

  lemma AssembledParses(yy: string, mm: string, dd: string, mark: string, digits: string,
                        d: Date, side: Side, n: int, kept: real, s: string)
    requires |yy| == 2 && |mm| == 2 && |dd| == 2 && mark == SideMark(side) && |digits| >= 8
    requires s == "SPY" + (yy + mm + dd) + mark + digits
    requires ParsedInt(yy) == Some(d.year - 2000) && ParsedInt(mm) == Some(d.month) && ParsedInt(dd) == Some(d.day)
    requires ParsedInt(digits) == Some(n) && kept == n as real / 1000.0 && ValidDate(d)
    ensures ParseSymbol(s) == Ok(Contract("SPY", d, side, kept))
  {
    assert "SPY" <= s;
    assert s[3..5] == yy && s[5..7] == mm && s[7..9] == dd;
    assert s[9] == mark[0] && s[10..] == digits;
  }

  /** Parsing what was printed, for every date, side and strike; `kept` is what the symbol keeps of the strike. */
  lemma ParseAfterBuild(underlying: string, d: Date, strike: real, optionType: string, kept: real)
    requires ValidDate(d) && Upper(underlying) == "SPY"
    requires kept == Round(strike * 1000.0) as real / 1000.0
    ensures ParseSymbol(BuildSymbol(underlying, d, strike, optionType).value)
         == Ok(Contract("SPY", Century(d), SideOf(optionType), kept))
  {
    var n, side := Round(strike * 1000.0), SideOf(optionType);
    var yy, mm, dd := Padded(d.year % 100, 2), Padded(d.month, 2), Padded(d.day, 2);
    FormattedParsesBack(n, 8, Formatted(n, 8));
    FormattedParsesBack(d.year % 100, 2, yy);
    FormattedParsesBack(d.month, 2, mm);
    FormattedParsesBack(d.day, 2, dd);
    TwoDigits(d.year % 100);
    TwoDigits(d.month);
    TwoDigits(d.day);
    CenturyIsValid(d);
    AssembledParses(yy, mm, dd, SideMark(side), Formatted(n, 8), Century(d), side, n, kept,
                    BuildSymbol(underlying, d, strike, optionType).value);
  }

  predicate WholeThousandths(strike: real) {
    (strike * 1000.0).Floor as real == strike * 1000.0
  }

  lemma RoundKeepsWholes(x: real)
    ensures Round(x) as real == x <==> x.Floor as real == x
    ensures -0.5 <= Round(x) as real - x <= 0.5
  {
  }

  /**
   The round trip, exactly: the contract comes back unchanged if and only if it
   expires in this century and its strike is a whole number of thousandths.
   */
  lemma {:induction false} RoundTripExactly(underlying: string, d: Date, strike: real, optionType: string)
    requires ValidDate(d) && Upper(underlying) == "SPY"
    ensures ParseSymbol(BuildSymbol(underlying, d, strike, optionType).value)
         == Ok(Contract("SPY", d, SideOf(optionType), strike))
       <==> 2000 <= d.year <= 2099 && WholeThousandths(strike)
  {
    var n := Round(strike * 1000.0) as real;
    ParseAfterBuild(underlying, d, strike, optionType, n / 1000.0);
    CenturyIsValid(d);
    RoundKeepsWholes(strike * 1000.0);
    assert n / 1000.0 == strike <==> n == strike * 1000.0;
  }

  /** Two contracts share a symbol only if they agree in everything the symbol can say. */
  lemma SymbolsIdentifyContracts(a: Date, x: real, s: string, b: Date, y: real, t: string)
    requires ValidDate(a) && ValidDate(b)
    ensures BuildSymbol("SPY", a, x, s) == BuildSymbol("SPY", b, y, t)
       <==> Century(a) == Century(b) && SideOf(s) == SideOf(t) && Round(x * 1000.0) == Round(y * 1000.0)
  {
    var n, m := Round(x * 1000.0) as real, Round(y * 1000.0) as real;
    ParseAfterBuild("SPY", a, x, s, n / 1000.0);
    ParseAfterBuild("SPY", b, y, t, m / 1000.0);
    assert n / 1000.0 == m / 1000.0 ==> n == m;
  }

  // ---------------------------------------------------------------- the fallback candidates

  datatype Candidate = Candidate(contract: Contract, contractId: string)

  /** The k-th candidate: three whole strikes around the price, a call and a put for each. */
  function AtmContract(d: Date, base: int, k: nat): Contract {
    Contract("SPY", Century(d), if k % 2 == 0 then Call else Put, (base + k / 2 - 1) as real)
  }

  predicate Tried(found: seq<Candidate>, d: Date, base: int) {
    forall k :: 0 <= k < |found| ==>
      found[k].contract == AtmContract(d, base, k) && ParseSymbol(found[k].contractId) == Ok(found[k].contract)
  }

  /** Prints one symbol and reads the candidate back from it. */
  method BuildCandidate(underlying: string, d: Date, strike: int, optionType: string)
    returns (candidate: Result<Candidate>)
    requires ValidDate(d)
    ensures candidate.Err? <==> Upper(underlying) != "SPY"
    ensures candidate.Ok? ==>
              candidate.value.contract == Contract("SPY", Century(d), SideOf(optionType), strike as real)
    ensures candidate.Ok? ==> ParseSymbol(candidate.value.contractId) == Ok(candidate.value.contract)
  {
    var symbol := BuildSymbol(underlying, d, strike as real, optionType);
    if symbol.Err? {
      return Err(symbol.error);
    }
    ThousandthsOfWhole(strike);
    ParseAfterBuild(underlying, d, strike as real, optionType, strike as real);
    var contract := ParseSymbol(symbol.value);
    return Ok(Candidate(contract.value, symbol.value));
  }

  /** The six contracts tried when the chain endpoint is not available, each under a symbol of its own. */
  method BuildAtmCandidates(underlying: string, d: Date, price: real) returns (result: Result<seq<Candidate>>)
    requires ValidDate(d)
    ensures result.Err? <==> Upper(underlying) != "SPY"
    ensures result.Ok? ==> |result.value| == 6 && Tried(result.value, d, Round(price))
    ensures result.Ok? ==>
              forall j, k :: 0 <= j < k < 6 ==> result.value[j].contractId != result.value[k].contractId
  {
    var base := Round(price);
    var found: seq<Candidate> := [];
    for i := 0 to 3
      invariant |found| == 2 * i && Tried(found, d, base)
      invariant i > 0 ==> Upper(underlying) == "SPY"
    {
      for j := 0 to 2
        invariant |found| == 2 * i + j && Tried(found, d, base)
        invariant i > 0 || j > 0 ==> Upper(underlying) == "SPY"
      {
        var candidate := BuildCandidate(underlying, d, base + i - 1, if j == 0 then "call" else "put");
        if candidate.Err? {
          return Err(candidate.error);
        }
        NextContract(d, base, i, j);
        TriedSnoc(found, d, base, candidate.value);
        found := found + [candidate.value];
      }
    }
    TriedAreDistinct(found, d, base);
    return Ok(found);
  }

  /** Different contracts cannot be read from one symbol. */
  lemma TriedAreDistinct(found: seq<Candidate>, d: Date, base: int)
    requires Tried(found, d, base)
    ensures forall j, k :: 0 <= j < k < |found| ==> found[j].contractId != found[k].contractId
  {
    forall j, k | 0 <= j < k < |found| ensures found[j].contractId != found[k].contractId {
      assert AtmContract(d, base, j) != AtmContract(d, base, k) by {
        assert j / 2 != k / 2 || j % 2 != k % 2;
      }
      assert found[j].contract != found[k].contract;
    }
  }

  lemma TriedSnoc(found: seq<Candidate>, d: Date, base: int, c: Candidate)
    requires Tried(found, d, base)
    requires c.contract == AtmContract(d, base, |found|) && ParseSymbol(c.contractId) == Ok(c.contract)
    ensures Tried(found + [c], d, base)
  {
  }

  lemma NextContract(d: Date, base: int, i: nat, j: nat)
    requires j < 2
    ensures AtmContract(d, base, 2 * i + j)
         == Contract("SPY", Century(d), SideOf(if j == 0 then "call" else "put"), (base + i - 1) as real)
  {
    assert (2 * i + j) / 2 == i && (2 * i + j) % 2 == j;
    SideOfNames();
  }

  lemma SideOfNames()
    ensures SideOf("call") == Call && SideOf("put") == Put
  {
    assert Lower("call") == "call" && Lower("put") == "put";
    assert Lower("put")[0] == 'p';
  }

  lemma ThousandthsOfWhole(n: int)
    ensures Round(n as real * 1000.0) as real / 1000.0 == n as real
  {
    var x := n as real * 1000.0;
    assert x == (1000 * n) as real;
    assert x.Floor == 1000 * n;
  }
}
