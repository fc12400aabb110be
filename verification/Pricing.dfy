/** Pricing of one usage fact in exact integer micros, rounded up. */
module Pricing {
  import opened Sums

  // The exact-integer range of section 6 of RFC 8259.
  const MAXIMUM_EXACT: nat := 9_007_199_254_740_991

  datatype TokenType =
    | InputTokens | OutputTokens | CacheRead | CacheWrite | Reasoning
    | AudioInput | AudioOutput | ImageInput | ImageOutput | UnknownTokens

  datatype BillingUnit = TokenUnit | ImageUnit | SecondUnit | UnknownUnit

  predicate Compatible(t: TokenType, u: BillingUnit) {
    match t
    case AudioInput => u == TokenUnit || u == SecondUnit
    case AudioOutput => u == TokenUnit || u == SecondUnit
    case ImageInput => u == TokenUnit || u == ImageUnit
    case ImageOutput => u == TokenUnit || u == ImageUnit
    case UnknownTokens => false
    case _ => u == TokenUnit
  }

  datatype PriceRate = PriceRate(tokenType: TokenType, unit: BillingUnit, unitQuantity: int, unitPriceMicros: int)
  {
    predicate Valid() {
      && 1 <= unitQuantity <= MAXIMUM_EXACT
      && 0 <= unitPriceMicros <= MAXIMUM_EXACT
      && Compatible(tokenType, unit)
    }
  }

  /** Every known kind of token is billed in tokens, images in images too, audio in
      seconds too; a rate is for such a pair, and in the exact range. */
  lemma RateIsValidIff(rate: PriceRate)
    ensures var PriceRate(t, unit, quantity, price) := rate;
            rate.Valid() <==> && 0 < quantity < 0x20_0000_0000_0000 && 0 <= price < 0x20_0000_0000_0000
                              && match unit
                                 case TokenUnit => !t.UnknownTokens?
                                 case ImageUnit => t.ImageInput? || t.ImageOutput?
                                 case SecondUnit => t.AudioInput? || t.AudioOutput?
                                 case UnknownUnit => false
  {
  }

  datatype Price = Amount(micros: nat) | InvalidPrice | AmountOverflow

  function CalculateAmountMicros(quantity: int, rate: PriceRate): Price {
    if quantity < 1 || quantity > MAXIMUM_EXACT || !rate.Valid() then InvalidPrice
    else if rate.unitPriceMicros == 0 then Amount(0)
    else
      var numerator := quantity * rate.unitPriceMicros;
      var amount, remainder := numerator / rate.unitQuantity, numerator % rate.unitQuantity;
      var rounded := if remainder != 0 then amount + 1 else amount;
      if rounded > MAXIMUM_EXACT then AmountOverflow
      else
        assert rounded >= 0 by { Positive(quantity, rate.unitPriceMicros, rate.unitQuantity); }
        Amount(rounded)
  }

  lemma Positive(q: nat, p: nat, u: nat)
    requires q >= 1 && p >= 1 && u >= 1
    ensures q * p >= 1 && (q * p) / u >= 0
  {
    assert q * p >= p;
  }

  /** The exact price of q units at p micros per u units lies in (a - 1, a]. */
  predicate IsCeiling(a: int, q: int, p: int, u: int) {
    (a - 1) * u < q * p <= a * u
  }

  lemma CeilingIsUnique(a: int, b: int, q: int, p: int, u: int)
    requires 1 <= u && IsCeiling(a, q, p, u) && IsCeiling(b, q, p, u)
    ensures a == b
  {
    Ordered(a - 1, b, u);
    Ordered(b - 1, a, u);
  }

  lemma Ordered(x: int, y: int, u: int)
    requires 1 <= u && x * u < y * u
    ensures x < y
  {
    assert (y - x) * u > 0;
  }

  /** Quotient plus one for a remainder is the ceiling. */
  lemma RoundsUp(n: nat, u: nat)
    requires 1 <= u
    ensures var r := if n % u != 0 then n / u + 1 else n / u;
            r >= 0 && (r - 1) * u < n <= r * u
  {
    assert n == (n / u) * u + n % u;
    assert (n / u + 1) * u == (n / u) * u + u && (n / u - 1) * u == (n / u) * u - u;
  }

  lemma CeilingExists(q: nat, p: nat, u: nat) returns (a: int)
    requires 1 <= u
    ensures IsCeiling(a, q, p, u)
  {
    assert q * p >= 0;
    RoundsUp(q * p, u);
    a := if (q * p) % u != 0 then (q * p) / u + 1 else (q * p) / u;
  }

  /** A charge is the exact ceiling; it is refused as too large exactly when that
      ceiling passes the exact-integer range. */
  lemma ChargeIsCeiling(quantity: int, rate: PriceRate, a: int)
    requires 1 <= quantity <= MAXIMUM_EXACT && rate.Valid()
    requires IsCeiling(a, quantity, rate.unitPriceMicros, rate.unitQuantity)
    ensures a >= 0
    ensures CalculateAmountMicros(quantity, rate) == if a > MAXIMUM_EXACT then AmountOverflow else Amount(a)
  {
    var p, u := rate.unitPriceMicros, rate.unitQuantity;
    if p == 0 {
      assert IsCeiling(0, quantity, p, u);
      CeilingIsUnique(a, 0, quantity, p, u);
    } else {
      Positive(quantity, p, u);
      RoundsUp(quantity * p, u);
      var n := quantity * p;
      CeilingIsUnique(a, if n % u != 0 then n / u + 1 else n / u, quantity, p, u);
    }
  }

  lemma CeilingIsMonotone(a: int, b: int, q: int, r: int, p: int, u: int)
    requires q <= r && 0 <= p && 1 <= u && IsCeiling(a, q, p, u) && IsCeiling(b, r, p, u)
    ensures a <= b
  {
    assert (r - q) * p >= 0;
    Ordered(a - 1, b, u);
  }

  /** A larger quantity never costs less, and never turns a refusal into a charge. */
  lemma PriceIsMonotone(q: int, r: int, rate: PriceRate)
    requires 1 <= q <= r <= MAXIMUM_EXACT && rate.Valid()
    ensures CalculateAmountMicros(r, rate).Amount? ==>
              CalculateAmountMicros(q, rate).Amount?
              && CalculateAmountMicros(q, rate).micros <= CalculateAmountMicros(r, rate).micros
  {
    hide CalculateAmountMicros, IsCeiling;
    var p, u := rate.unitPriceMicros, rate.unitQuantity;
    var a := CeilingExists(q, p, u);
    var b := CeilingExists(r, p, u);
    ChargeIsCeiling(q, rate, a);
    ChargeIsCeiling(r, rate, b);
    CeilingIsMonotone(a, b, q, r, p, u);
  }

  /** A positive rate never silently becomes free. */
  lemma FreeOnlyAtZeroRate(q: int, rate: PriceRate)
    requires 1 <= q <= MAXIMUM_EXACT && rate.Valid()
    ensures CalculateAmountMicros(q, rate) == Amount(0) <==> rate.unitPriceMicros == 0
  {
    var p, u := rate.unitPriceMicros, rate.unitQuantity;
    var a := CeilingExists(q, p, u);
    ChargeIsCeiling(q, rate, a);
    if p > 0 {
      Positive(q, p, u);
      assert a != 0;
    }
  }

  // ---- many facts at one rate -------------------------------------------------

  ghost function Quantity(): int -> int { (q: int) => q }

  ghost function Charged(rate: PriceRate): int -> int {
    (q: int) => if CalculateAmountMicros(q, rate).Amount? then CalculateAmountMicros(q, rate).micros else 0
  }

  ghost predicate AllCharged(facts: seq<int>, rate: PriceRate) {
    forall i :: 0 <= i < |facts| ==> CalculateAmountMicros(facts[i], rate).Amount?
  }

  lemma ChargedIsInRange(q: int, rate: PriceRate)
    requires CalculateAmountMicros(q, rate).Amount?
    ensures 1 <= q <= MAXIMUM_EXACT && rate.Valid()
  {
  }

  lemma AddFact(s: int, t: int, n: nat, q: int, a: int, p: int, u: int)
    requires IsCeiling(a, q, p, u) && s * p <= t * u && (n > 0 ==> t * u < s * p + n * u) && 1 <= u
    requires n == 0 ==> s == 0 == t
    ensures (s + q) * p <= (t + a) * u < (s + q) * p + (n + 1) * u
  {
    assert (s + q) * p == s * p + q * p && (t + a) * u == t * u + a * u;
    assert (a - 1) * u == a * u - u && (n + 1) * u == n * u + u;
  }

  /** The total of n facts is never below the exact price and exceeds it by less
      than n micros. */
  lemma {:induction false} TotalExceedsByLessThanN(facts: seq<int>, rate: PriceRate)
    requires rate.Valid() && AllCharged(facts, rate)
    ensures var exact := SumBy(facts, Quantity()) * rate.unitPriceMicros;
            var total := SumBy(facts, Charged(rate)) * rate.unitQuantity;
            exact <= total && (facts != [] ==> total < exact + |facts| * rate.unitQuantity)
  {
    hide CalculateAmountMicros, IsCeiling;
    if facts != [] {
      var init, q := facts[..|facts| - 1], facts[|facts| - 1];
      var p, u := rate.unitPriceMicros, rate.unitQuantity;
      assert facts == init + [q];
      TotalExceedsByLessThanN(init, rate);
      SumAppend(init, q, Quantity());
      SumAppend(init, q, Charged(rate));
      ChargedIsInRange(q, rate);
      var a := CeilingExists(q, p, u);
      ChargeIsCeiling(q, rate, a);
      AddFact(SumBy(init, Quantity()), SumBy(init, Charged(rate)), |init|, q, a, p, u);
    }
  }

  /** Splitting usage into facts never makes it cheaper. */
  lemma SplittingNeverSaves(facts: seq<int>, rate: PriceRate)
    requires rate.Valid() && facts != [] && AllCharged(facts, rate)
    ensures var merged := CalculateAmountMicros(SumBy(facts, Quantity()), rate);
            merged.Amount? ==> merged.micros <= SumBy(facts, Charged(rate))
  {
    hide CalculateAmountMicros;
    var sum := SumBy(facts, Quantity());
    if CalculateAmountMicros(sum, rate).Amount? {
      var p, u := rate.unitPriceMicros, rate.unitQuantity;
      ChargedIsInRange(sum, rate);
      var a := CeilingExists(sum, p, u);
      ChargeIsCeiling(sum, rate, a);
      TotalExceedsByLessThanN(facts, rate);
      Ordered(a - 1, SumBy(facts, Charged(rate)), u);
    }
  }

  // ---- rates of one version ---------------------------------------------------

  /** Valid rates of distinct token types. */
  ghost predicate ValidRates(rates: seq<PriceRate>) {
    && (forall i :: 0 <= i < |rates| ==> rates[i].Valid())
    && forall i, j :: 0 <= i < j < |rates| ==> rates[i].tokenType != rates[j].tokenType
  }

  method ValidateRates(rates: seq<PriceRate>) returns (valid: bool)
    ensures valid <==> ValidRates(rates)
  {
    var seen: set<TokenType> := {};
    var i := 0;
    while i < |rates|
      invariant 0 <= i <= |rates| && ValidRates(rates[..i])
      invariant forall t :: t in seen <==> exists j :: 0 <= j < i && rates[j].tokenType == t
    {
      if !rates[i].Valid() || rates[i].tokenType in seen { return false; }
      seen := seen + {rates[i].tokenType};
      i := i + 1;
    }
    assert rates[..i] == rates;
    valid := true;
  }

  /** RateAt: the one rate of the token type, if there is one. */
  method FindRate(rates: seq<PriceRate>, t: TokenType) returns (found: bool, rate: PriceRate)
    requires ValidRates(rates)
    ensures found <==> exists i :: 0 <= i < |rates| && rates[i].tokenType == t
    ensures found ==> rate in rates && rate.tokenType == t && forall r :: r in rates && r.tokenType == t ==> r == rate
  {
    var i := 0;
    while i < |rates|
      invariant 0 <= i <= |rates| && forall j :: 0 <= j < i ==> rates[j].tokenType != t
    {
      if rates[i].tokenType == t { return true, rates[i]; }
      i := i + 1;
    }
    found, rate := false, PriceRate(UnknownTokens, UnknownUnit, 1, 0);
  }
}
