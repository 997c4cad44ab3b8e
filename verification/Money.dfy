/** Two's complement int64 arithmetic, written out explicitly. */
module Int64 {

  const TWO_63: int := 0x8000_0000_0000_0000
  const TWO_64: int := 0x1_0000_0000_0000_0000
  const MIN_INT64: int := -0x8000_0000_0000_0000
  const MAX_INT64: int := 0x7fff_ffff_ffff_ffff

  predicate Fits(x: int) {
    MIN_INT64 <= x <= MAX_INT64
  }

  type Int64 = x: int | -0x8000_0000_0000_0000 <= x <= 0x7fff_ffff_ffff_ffff

  type Uint64 = x: int | 0 <= x < 0x1_0000_0000_0000_0000

  /** The int64 that a mathematical result wraps around to. */
  function Wrap(x: int): (r: Int64)
    ensures Fits(x) ==> r == x
    ensures (x - r) % 0x1_0000_0000_0000_0000 == 0
  {
    (x + 0x8000_0000_0000_0000) % 0x1_0000_0000_0000_0000 - 0x8000_0000_0000_0000
  }

  /** The uint64 that a mathematical result wraps around to. */
  function WrapUnsigned(x: int): (r: Uint64)
    ensures 0 <= x < TWO_64 ==> r == x
    ensures (x - r) % 0x1_0000_0000_0000_0000 == 0
  {
    x % 0x1_0000_0000_0000_0000
  }
}

/** Money as int64 cents: overflow-checked arithmetic and the debit rule. */
module Money {
  import opened Core
  import opened Int64

  datatype AccountKind = Customer | System

  /** Only strictly positive amounts may be moved. */
  function NewTransferAmount(cents: Int64): (r: Result<Int64>)
    ensures r.Ok? <==> cents > 0
    ensures r.Ok? ==> r.value == cents
    ensures r.Err? ==> r.error == InvalidAmount
  {
    if cents <= 0 then Err(InvalidAmount) else Ok(cents)
  }

  /** The wrapping sum is accepted exactly when the mathematical sum fits int64. */
  function Add(m: Int64, other: Int64): (r: Result<Int64>)
    ensures r == if Fits(m + other) then Ok(m + other) else Err(MoneyOverflow)
  {
    var sum := Wrap(m + other);
    if (other > 0 && sum < m) || (other < 0 && sum > m) then Err(MoneyOverflow) else Ok(sum)
  }

  /** Subtraction refuses the subtrahend MinInt64 outright; otherwise it is exact. */
  function Sub(m: Int64, other: Int64): (r: Result<Int64>)
    ensures r == if other != MIN_INT64 && Fits(m - other) then Ok(m - other) else Err(MoneyOverflow)
  {
    if other == MIN_INT64 then Err(MoneyOverflow) else Add(m, Wrap(0 - other))
  }

  /**
   * "Sub fails only on overflow" is false, and this says for which inputs it is true: everywhere
   * except when a negative number has MinInt64 subtracted from it, where the difference fits and is
   * still refused.
   */
  lemma SubIsExactUnlessMinSubtrahend(m: Int64, other: Int64)
    ensures (Sub(m, other).Ok? <==> Fits(m - other)) <==> !(other == MIN_INT64 && m < 0)
    ensures Sub(-1, MIN_INT64) == Err(MoneyOverflow) && Fits(-1 - MIN_INT64)
  {
  }

  /** Whether `amount` may leave an account of this kind holding `balance`. */
  function CanDebit(balance: Int64, amount: Int64, kind: AccountKind): (r: Result<()>)
    ensures r.Ok? <==> kind.System? || (amount != MIN_INT64 && 0 <= balance - amount <= MAX_INT64)
    ensures kind.Customer? && 0 <= balance && 0 < amount ==>
              r == if amount <= balance then Ok(()) else Err(InsufficientFunds)
  {
    if kind.System? then
      Ok(())
    else
      match Sub(balance, amount)
      case Err(e) => Err(e)
      case Ok(remaining) => if remaining < 0 then Err(InsufficientFunds) else Ok(())
  }
}

/** The presentation form of an amount, "-R$ 92233720368547758,08", and its inverse. */
module MoneyText {
  import opened Core
  import opened Int64

  function Digit(d: nat): (c: char)
    requires d < 10
  {
    '0' + d as char
  }

  function DigitValue(c: char): (d: int) {
    c as int - '0' as int
  }

  /** The verb %d on an unsigned value. */
  function Decimal(n: nat): (s: string)
    ensures |s| > 0
  {
    if n < 10 then [Digit(n)] else Decimal(n / 10) + [Digit(n % 10)]
  }

  function String(m: Int64): (s: string) {
    var u := WrapUnsigned(m);
    var abs := if m < 0 then WrapUnsigned(0 - u) else u;
    var cents := abs % 100;
    (if m < 0 then "-" else "") + "R$ " + Decimal(abs / 100) + "," + [Digit(cents / 10), Digit(cents % 10)]
  }

  predicate IsDigit(c: char) {
    '0' <= c <= '9'
  }

  /** Digits only, and no leading zero. */
  predicate Canonical(s: string) {
    s != [] && (forall i :: 0 <= i < |s| ==> IsDigit(s[i])) && (|s| > 1 ==> s[0] != '0')
  }

  function DecimalValue(s: string): (n: int) {
    if s == [] then 0 else DecimalValue(s[..|s| - 1]) * 10 + DigitValue(s[|s| - 1])
  }

  /** Reads the currency, decimal units, a comma and two digits, and nothing else. */
  function ParseMagnitude(body: string): (cents: Option<int>) {
    if |body| < 7 || body[..3] != "R$ " || body[|body| - 3] != ',' then None
    else
      var units, tens, ones := body[3..|body| - 3], body[|body| - 2], body[|body| - 1];
      if !Canonical(units) || !IsDigit(tens) || !IsDigit(ones) then None
      else Some(DecimalValue(units) * 100 + DigitValue(tens) * 10 + DigitValue(ones))
  }

  /** The same after an optional minus sign, which zero does not take. */
  function Parse(s: string): (cents: Option<int>) {
    if |s| > 0 && s[0] == '-' then
      var magnitude := ParseMagnitude(s[1..]);
      if magnitude.None? || magnitude.value == 0 then None else Some(-magnitude.value)
    else ParseMagnitude(s)
  }

  lemma {:induction false} DecimalRoundTrip(n: nat)
    ensures DecimalValue(Decimal(n)) == n
  {
    if n >= 10 {
      DecimalRoundTrip(n / 10);
      var s := Decimal(n);
      assert s[..|s| - 1] == Decimal(n / 10);
    }
  }

  /** Negating in uint64 yields the magnitude of every int64, MinInt64 included. */
  lemma UnsignedNegationIsMagnitude(m: Int64)
    requires m < 0
    ensures WrapUnsigned(0 - WrapUnsigned(m)) == 0 - m
  {
    assert WrapUnsigned(m) == m + TWO_64;
  }

  lemma {:induction false} DecimalIsCanonical(n: nat)
    ensures Canonical(Decimal(n)) && (Decimal(n)[0] == '0' <==> n == 0)
  {
    if n >= 10 {
      DecimalIsCanonical(n / 10);
      assert Decimal(n) == Decimal(n / 10) + [Digit(n % 10)];
    }
  }

  lemma {:induction false} CanonicalIsDecimal(s: string)
    requires Canonical(s)
    ensures DecimalValue(s) >= 0 && Decimal(DecimalValue(s)) == s && (s[0] != '0' ==> DecimalValue(s) > 0)
  {
    var front, last := s[..|s| - 1], s[|s| - 1];
    assert s == front + [last] && Digit(DigitValue(last)) == last;
    if front == [] {
      assert DecimalValue(front) == 0;
    } else {
      CanonicalIsDecimal(front);
    }
  }

  /** The magnitude as printed. */
  function Body(abs: nat): string {
    "R$ " + Decimal(abs / 100) + "," + [Digit(abs % 100 / 10), Digit(abs % 100 % 10)]
  }

  lemma StringIsSignAndBody(m: Int64)
    ensures String(m) == if m < 0 then "-" + Body(0 - m) else Body(m)
  {
    if m < 0 {
      UnsignedNegationIsMagnitude(m);
      assert String(m) == "-" + Body(0 - m);
    } else {
      assert String(m) == Body(m);
    }
  }

  lemma BodyParses(abs: nat)
    ensures ParseMagnitude(Body(abs)) == Some(abs)
  {
    var body, units := Body(abs), Decimal(abs / 100);
    DecimalIsCanonical(abs / 100);
    DecimalRoundTrip(abs / 100);
    assert body[..3] == "R$ " && body[|body| - 3] == ',' && body[3..|body| - 3] == units;
  }

  lemma TwoDigits(abs: nat, u: nat, a: nat, b: nat)
    requires a < 10 && b < 10 && abs == u * 100 + a * 10 + b
    ensures abs / 100 == u && abs % 100 / 10 == a && abs % 100 % 10 == b
  {
    assert abs % 100 == a * 10 + b;
  }

  lemma ParsedIsBody(s: string)
    requires ParseMagnitude(s).Some?
    ensures ParseMagnitude(s).value >= 0 && s == Body(ParseMagnitude(s).value)
  {
    var units, tens, ones := s[3..|s| - 3], s[|s| - 2], s[|s| - 1];
    CanonicalIsDecimal(units);
    var u: nat, a: nat, b: nat := DecimalValue(units), DigitValue(tens), DigitValue(ones);
    TwoDigits(u * 100 + a * 10 + b, u, a, b);
    assert Digit(a) == tens && Digit(b) == ones;
    assert s == s[..3] + units + [s[|s| - 3]] + [tens, ones];
  }

  /** Reading a printed amount gives the amount back, for every int64. */
  lemma StringRoundTrip(m: Int64)
    ensures Parse(String(m)) == Some(m)
  {
    StringIsSignAndBody(m);
    if m < 0 {
      BodyParses(0 - m);
      assert ("-" + Body(0 - m))[1..] == Body(0 - m);
    } else {
      BodyParses(m);
      assert Body(m)[0] == 'R';
    }
  }

  /** And nothing else reads as that amount: the printed form is the only one the decoder accepts for it. */
  lemma OnlyPrintedFormParses(s: string, m: Int64)
    ensures Parse(s) == Some(m) <==> s == String(m)
  {
    StringRoundTrip(m);
    StringIsSignAndBody(m);
    if Parse(s) == Some(m) {
      if s[0] == '-' {
        ParsedIsBody(s[1..]);
        assert s == "-" + s[1..];
      } else {
        ParsedIsBody(s);
      }
    }
  }

  /** Distinct amounts never print alike. */
  lemma StringInjective(a: Int64, b: Int64)
    requires String(a) == String(b)
    ensures a == b
  {
    StringRoundTrip(a);
    StringRoundTrip(b);
  }
}
