/** The backend's coverage estimator (`calculateCoverage`) and the
    `POST /api/calculate-coverage` handler around it. Amounts are exact reals;
    the request's numeric fields are already numbers. */
module Server {
  import opened Wrappers
  import opened JsBuiltins
  import opened Enrichment

  /** One lakh, the rounding unit of coverage amounts. */
  const Lakh: int := 100000

  // ---------------------------------------------------------------------------
  // The estimator
  // ---------------------------------------------------------------------------

  /** The age bracket multiplier: x1.2 above 45, x1.1 above 35 up to 45, none up to 35. */
  function AgeMultiplier(age: int): (m: real)
    ensures m == 1.2 <==> age > 45
    ensures m == 1.1 <==> 35 < age <= 45
    ensures m == 1.0 <==> age <= 35
  {
    if age > 45 then 1.2 else if age > 35 then 1.1 else 1.0
  }

  /** Whether the weather adjustment applies: a payload with a `main` block whose
      temperature is strictly above 40 or strictly below 5. A missing temperature
      compares false both ways. */
  predicate ExtremeWeather(weatherData: Option<WeatherPayload>)
    ensures ExtremeWeather(weatherData) ==>
      weatherData.Some? && weatherData.value.main.Some? && weatherData.value.main.value.temp.Some? &&
      !(5.0 <= weatherData.value.main.value.temp.value <= 40.0)
    ensures (weatherData.Some? && weatherData.value.main.Some? && weatherData.value.main.value.temp.Some? &&
             !(5.0 <= weatherData.value.main.value.temp.value <= 40.0)) ==> ExtremeWeather(weatherData)
  {
    weatherData.Some? && weatherData.value.main.Some? &&
    var temp := weatherData.value.main.value.temp;
    temp.Some? && (temp.value > 40.0 || temp.value < 5.0)
  }

  /** The only way the estimator throws: `bpi.USD` is present but its `rate` is not a
      string, so `rate.replace` raises a TypeError. */
  datatype EstimatorError = RateNotAString

  /** The BTC price read from a rate string: the first ',' is deleted, then the
      result goes through `parseFloat`. */
  function BtcPrice(rate: string): (p: Option<real>)
    ensures ',' !in rate ==> p == ParseFloat(rate)
  {
    ParseFloat(RemoveFirst(rate, ','))
  }

  /** With a comma in the rate, the price is `parseFloat` of the rate with exactly its
      first comma cut out; any later comma stays and ends the parse. */
  lemma BtcPriceCutsFirstComma(rate: string)
    requires ',' in rate
    ensures BtcPrice(rate) == ParseFloat(rate[..IndexOf(rate, ',')] + rate[IndexOf(rate, ',') + 1..])
  {
    RemoveFirstCutsFirstOccurrence(rate, ',');
  }

  /** Whether the market adjustment applies: `bpi.USD` is present and its price is
      strictly above 50000. A price that does not parse (NaN) compares false. */
  function BullMarket(cryptoData: Option<CryptoPayload>): (r: Result<bool, EstimatorError>)
    ensures r.Failure? <==>
      cryptoData.Some? && cryptoData.value.bpi.Some? && cryptoData.value.bpi.value.usd.Some? &&
      cryptoData.value.bpi.value.usd.value.rate.None?
    ensures r == Success(true) <==>
      cryptoData.Some? && cryptoData.value.bpi.Some? && cryptoData.value.bpi.value.usd.Some? &&
      cryptoData.value.bpi.value.usd.value.rate.Some? &&
      var price := BtcPrice(cryptoData.value.bpi.value.usd.value.rate.value);
      price.Some? && price.value > 50000.0
  {
    if cryptoData.Some? && cryptoData.value.bpi.Some? && cryptoData.value.bpi.value.usd.Some? then
      match cryptoData.value.bpi.value.usd.value.rate
      case None => Failure(RateNotAString)
      case Some(rate) =>
        var price := BtcPrice(rate);
        Success(price.Some? && price.value > 50000.0)
    else Success(false)
  }

  /** The amount before rounding, in closed form: twelve incomes scaled by the age
      multiplier, plus two incomes per dependent (not scaled by age), the whole sum
      then scaled by the weather and the market factors. */
  function AdjustedAmount(income: int, age: int, dependents: int, extreme: bool, bull: bool): real {
    (income as real * 12.0 * AgeMultiplier(age) + (dependents * income * 2) as real)
      * (if extreme then 1.05 else 1.0) * (if bull then 1.02 else 1.0)
  }

  /** `Math.round(x / 100000) * 100000`: a multiple of a lakh, at most half a lakh
      from `x`, halves rounded up. */
  function RoundToLakh(x: real): (r: int)
    ensures r % Lakh == 0
    ensures x - 50000.0 < r as real <= x + 50000.0
  {
    MathRound(x / 100000.0) * Lakh
  }

  /** `Math.round(coverage * 0.009)`. */
  function MonthlyPremium(coverage: int): (p: int)
    ensures 1000 * p - 500 <= 9 * coverage < 1000 * p + 500
  {
    var x := coverage as real * 0.009;
    var p := MathRound(x);
    assert (9 * coverage) as real == 1000.0 * x;
    p
  }

  /** On a whole number of lakhs the rounding of the premium is exact: 900 per lakh,
      that is 0.9 % of the coverage. */
  lemma PremiumOfLakhMultiple(coverage: int)
    requires coverage % Lakh == 0
    ensures MonthlyPremium(coverage) == coverage / Lakh * 900
    ensures MonthlyPremium(coverage) * 1000 == coverage * 9
  {
    var k := coverage / Lakh;
    assert coverage == k * Lakh;
    assert coverage as real * 0.009 == (k * 900) as real;
    MathRoundOfInteger(k * 900);
  }

  datatype Quote = Quote(coverage: int, monthlyPremium: int)

  /** The estimator's result in closed form. */
  function QuoteFor(income: int, age: int, dependents: int,
                    weatherData: Option<WeatherPayload>, cryptoData: Option<CryptoPayload>): (r: Result<Quote, EstimatorError>)
    ensures r.Failure? <==> BullMarket(cryptoData).Failure?
    ensures r.Success? ==>
      var amount := AdjustedAmount(income, age, dependents, ExtremeWeather(weatherData), BullMarket(cryptoData).value);
      && r.value.coverage % Lakh == 0
      && amount - 50000.0 < r.value.coverage as real <= amount + 50000.0
      && r.value.monthlyPremium * 1000 == r.value.coverage * 9
  {
    match BullMarket(cryptoData)
    case Failure(e) => Failure(e)
    case Success(bull) =>
      var coverage := RoundToLakh(AdjustedAmount(income, age, dependents, ExtremeWeather(weatherData), bull));
      PremiumOfLakhMultiple(coverage);
      Success(Quote(coverage, MonthlyPremium(coverage)))
  }

  /** The closed form is the unadjusted amount times the two enrichment factors. */
  lemma AdjustedAmountFactors(income: int, age: int, dependents: int, extreme: bool, bull: bool)
    ensures AdjustedAmount(income, age, dependents, extreme, bull) ==
            AdjustedAmount(income, age, dependents, false, false) * (if extreme then 1.05 else 1.0) * (if bull then 1.02 else 1.0)
  {
  }

  /** The estimator's last two steps, once the adjusted amount is known. */
  lemma QuoteOfAmount(income: int, age: int, dependents: int, weatherData: Option<WeatherPayload>,
                      cryptoData: Option<CryptoPayload>, bull: bool, amount: real)
    requires BullMarket(cryptoData) == Success(bull)
    requires amount == AdjustedAmount(income, age, dependents, ExtremeWeather(weatherData), bull)
    ensures var coverage := MathRound(amount / 100000.0) * 100000;
      QuoteFor(income, age, dependents, weatherData, cryptoData) ==
      Success(Quote(coverage, MathRound(coverage as real * 0.009)))
  {
  }

  /** `calculateCoverage`: the running amount is multiplied and added to step by
      step, then rounded to a lakh; the premium is 0.9 % of the rounded coverage. */
  method CalculateCoverage(annualIncome: int, age: int, dependents: int,
                           weatherData: Option<WeatherPayload>, cryptoData: Option<CryptoPayload>)
    returns (r: Result<Quote, EstimatorError>)
    ensures r == QuoteFor(annualIncome, age, dependents, weatherData, cryptoData)
    ensures r.Success? ==> r.value.coverage % Lakh == 0
    ensures r.Success? ==> r.value.monthlyPremium * 1000 == r.value.coverage * 9
  {
    ghost var extreme := ExtremeWeather(weatherData);
    var baseCoverage: real := annualIncome as real * 12.0;
    if age > 45 {
      baseCoverage := baseCoverage * 1.2;
    } else if age > 35 {
      baseCoverage := baseCoverage * 1.1;
    }
    assert baseCoverage == annualIncome as real * 12.0 * AgeMultiplier(age);
    baseCoverage := baseCoverage + (dependents * annualIncome * 2) as real;
    ghost var unadjusted := baseCoverage;
    assert unadjusted == AdjustedAmount(annualIncome, age, dependents, false, false);
    if weatherData.Some? && weatherData.value.main.Some? {
      var temp := weatherData.value.main.value.temp;
      if temp.Some? && (temp.value > 40.0 || temp.value < 5.0) {
        baseCoverage := baseCoverage * 1.05;
      }
    }
    assert baseCoverage == unadjusted * (if extreme then 1.05 else 1.0);
    ghost var bull := false;
    if cryptoData.Some? && cryptoData.value.bpi.Some? && cryptoData.value.bpi.value.usd.Some? {
      var rate := cryptoData.value.bpi.value.usd.value.rate;
      if rate.None? {
        return Failure(RateNotAString);
      }
      var btcPrice := BtcPrice(rate.value);
      if btcPrice.Some? && btcPrice.value > 50000.0 {
        baseCoverage := baseCoverage * 1.02;
        bull := true;
      }
    }
    assert BullMarket(cryptoData) == Success(bull);
    assert baseCoverage == unadjusted * (if extreme then 1.05 else 1.0) * (if bull then 1.02 else 1.0);
    AdjustedAmountFactors(annualIncome, age, dependents, extreme, bull);
    assert baseCoverage == AdjustedAmount(annualIncome, age, dependents, extreme, bull);
    var coverage := MathRound(baseCoverage / 100000.0) * 100000;
    var monthlyPremium := MathRound(coverage as real * 0.009);
    r := Success(Quote(coverage, monthlyPremium));
    QuoteOfAmount(annualIncome, age, dependents, weatherData, cryptoData, bull, baseCoverage);
  }

  // ---------------------------------------------------------------------------
  // Properties of the estimator
  // ---------------------------------------------------------------------------

  /** Every successful quote is a whole number of lakhs with a premium of exactly 0.9 %. */
  lemma QuoteIsWholeLakhs(income: int, age: int, dependents: int,
                          weatherData: Option<WeatherPayload>, cryptoData: Option<CryptoPayload>)
    ensures var r := QuoteFor(income, age, dependents, weatherData, cryptoData);
      r.Success? ==> r.value.coverage % Lakh == 0 && r.value.monthlyPremium * 1000 == r.value.coverage * 9
  {
    var r := QuoteFor(income, age, dependents, weatherData, cryptoData);
    if r.Success? {
      PremiumOfLakhMultiple(r.value.coverage);
    }
  }

  /** On the form's domain (a non-negative income and number of dependents) every
      quote is a non-negative number of lakhs with a non-negative premium. */
  lemma NonNegativeQuote(income: int, age: int, dependents: int,
                         weatherData: Option<WeatherPayload>, cryptoData: Option<CryptoPayload>)
    requires income >= 0 && dependents >= 0
    ensures var r := QuoteFor(income, age, dependents, weatherData, cryptoData);
      r.Success? ==> r.value.coverage >= 0 && r.value.monthlyPremium >= 0
  {
    if BullMarket(cryptoData).Success? {
      var extreme, bull := ExtremeWeather(weatherData), BullMarket(cryptoData).value;
      assert dependents * income * 2 >= 0;
      AdjustedAmountFactors(income, age, dependents, extreme, bull);
      assert AdjustedAmount(income, age, dependents, false, false) >= 0.0;
    }
  }

  /** Nothing stops a negative income: `!-100000` is false, so the request passes
      validation, and the estimator quotes a negative coverage and premium. */
  lemma NegativeIncomeAccepted()
    ensures !RejectsRequest(CoverageRequest(Given("A"), Given(30), Given("Pune"), Given(-100000), Given(0)))
    ensures QuoteFor(-100000, 30, 0, None, None) == Success(Quote(-1200000, -10800))
  {
    assert AdjustedAmount(-100000, 30, 0, false, false) == -1200000.0;
    MathRoundOfInteger(-12);
    PremiumOfLakhMultiple(-1200000);
  }

  /** `Math.round` never decreases when its argument increases. */
  lemma MathRoundMonotone(x: real, y: real)
    requires x <= y
    ensures MathRound(x) <= MathRound(y)
  {
  }

  /** With a non-negative income the amount before rounding grows with the dependents. */
  lemma AdjustedAmountMonotone(income: int, age: int, fewer: int, more: int, extreme: bool, bull: bool)
    requires income >= 0 && fewer <= more
    ensures AdjustedAmount(income, age, fewer, extreme, bull) <= AdjustedAmount(income, age, more, extreme, bull)
  {
    assert fewer * income * 2 <= more * income * 2 by {
      assert (more - fewer) * income >= 0;
    }
    var w: real := if extreme then 1.05 else 1.0;
    var c: real := if bull then 1.02 else 1.0;
    assert w * c > 0.0;
    var aged := income as real * 12.0 * AgeMultiplier(age);
    var lo := aged + (fewer * income * 2) as real;
    var hi := aged + (more * income * 2) as real;
    assert lo <= hi;
    assert lo * (w * c) <= hi * (w * c);
  }

  /** Rounding to a lakh never decreases when its argument increases. */
  lemma RoundToLakhMonotone(x: real, y: real)
    requires x <= y
    ensures RoundToLakh(x) <= RoundToLakh(y)
  {
    MathRoundMonotone(x / 100000.0, y / 100000.0);
  }

  /** With a non-negative income, more dependents never give a smaller coverage or premium. */
  lemma CoverageMonotoneInDependents(income: int, age: int, fewer: int, more: int,
                                     weatherData: Option<WeatherPayload>, cryptoData: Option<CryptoPayload>)
    requires income >= 0 && fewer <= more
    ensures QuoteFor(income, age, fewer, weatherData, cryptoData).Success? ==
            QuoteFor(income, age, more, weatherData, cryptoData).Success?
    ensures QuoteFor(income, age, fewer, weatherData, cryptoData).Success? ==>
      QuoteFor(income, age, fewer, weatherData, cryptoData).value.coverage <=
      QuoteFor(income, age, more, weatherData, cryptoData).value.coverage &&
      QuoteFor(income, age, fewer, weatherData, cryptoData).value.monthlyPremium <=
      QuoteFor(income, age, more, weatherData, cryptoData).value.monthlyPremium
  {
    if BullMarket(cryptoData).Success? {
      var extreme, bull := ExtremeWeather(weatherData), BullMarket(cryptoData).value;
      AdjustedAmountMonotone(income, age, fewer, more, extreme, bull);
      var lo := AdjustedAmount(income, age, fewer, extreme, bull);
      var hi := AdjustedAmount(income, age, more, extreme, bull);
      RoundToLakhMonotone(lo, hi);
      PremiumOfLakhMultiple(RoundToLakh(lo));
      PremiumOfLakhMultiple(RoundToLakh(hi));
    }
  }

  /** The dependents addend is added after the age multiplier: it is the same at
      every age and is not scaled by it. */
  lemma DependentsAddendIgnoresAge(income: int, age: int, dependents: int)
    ensures AdjustedAmount(income, age, dependents, false, false) ==
            AdjustedAmount(income, age, 0, false, false) + (2 * dependents * income) as real
  {
  }

  /** The weather and market factors come last, so they scale the dependents addend
      too, and together they compound to x1.071 rather than adding up to x1.07. */
  lemma EnrichmentFactorsCompound(income: int, age: int, dependents: int)
    ensures AdjustedAmount(income, age, dependents, true, false) ==
            AdjustedAmount(income, age, dependents, false, false) * 1.05
    ensures AdjustedAmount(income, age, dependents, false, true) ==
            AdjustedAmount(income, age, dependents, false, false) * 1.02
    ensures AdjustedAmount(income, age, dependents, true, true) ==
            AdjustedAmount(income, age, dependents, false, false) * 1.071
  {
  }

  /** Age boundaries: 45 is in the x1.1 bracket, 46 in the x1.2 one; 35 gets no
      multiplier and 36 gets x1.1. */
  lemma AgeBoundaries(income: int, dependents: int)
    ensures AgeMultiplier(45) == 1.1 && AgeMultiplier(46) == 1.2
    ensures AgeMultiplier(35) == 1.0 && AgeMultiplier(36) == 1.1
    ensures AdjustedAmount(income, 35, dependents, false, false) ==
            (income * 12 + dependents * income * 2) as real
  {
  }

  /** A weather payload changes the quote only when the temperature is extreme: an
      absent payload, one without `main` or `temp`, or one at exactly 40 or 5 degrees
      gives the same quote as no payload at all; an extreme one scales the amount
      before rounding by 1.05. */
  lemma WeatherThreshold(income: int, age: int, dependents: int,
                         weatherData: Option<WeatherPayload>, cryptoData: Option<CryptoPayload>)
    ensures !ExtremeWeather(weatherData) ==>
      QuoteFor(income, age, dependents, weatherData, cryptoData) == QuoteFor(income, age, dependents, None, cryptoData)
    ensures ExtremeWeather(weatherData) && BullMarket(cryptoData).Success? ==>
      var coverage := RoundToLakh(AdjustedAmount(income, age, dependents, false, BullMarket(cryptoData).value) * 1.05);
      QuoteFor(income, age, dependents, weatherData, cryptoData) == Success(Quote(coverage, MonthlyPremium(coverage)))
  {
    if ExtremeWeather(weatherData) && BullMarket(cryptoData).Success? {
      var bull := BullMarket(cryptoData).value;
      AdjustedAmountFactors(income, age, dependents, true, bull);
      AdjustedAmountFactors(income, age, dependents, false, bull);
    }
  }

  /** Examples at the temperature boundaries. */
  lemma WeatherBoundaries()
    ensures !ExtremeWeather(Some(WeatherPayload(Some(MainBlock(Some(40.0))), None, None)))
    ensures !ExtremeWeather(Some(WeatherPayload(Some(MainBlock(Some(5.0))), None, None)))
    ensures ExtremeWeather(Some(WeatherPayload(Some(MainBlock(Some(41.0))), None, None)))
    ensures ExtremeWeather(Some(WeatherPayload(Some(MainBlock(Some(4.5))), None, None)))
    ensures !ExtremeWeather(Some(WeatherPayload(Some(MainBlock(None)), None, None)))
  {
  }

  /** `BtcPrice` is `parseFloat` of the cleaned rate. */
  lemma BtcPriceOfCleaned(rate: string, cleaned: string)
    requires RemoveFirst(rate, ',') == cleaned
    ensures BtcPrice(rate) == ParseFloat(cleaned)
  {
  }

  /** Removing the comma of "<hi>,<lo>.<frac>" gives "<hi><lo>.<frac>". */
  lemma CleanedGroupedRate(rate: string, hi: string, lo: string, frac: string)
    requires AllDigits(hi)
    requires rate == hi + "," + lo + "." + frac
    ensures RemoveFirst(rate, ',') == (hi + lo) + "." + frac
  {
    var rest := lo + "." + frac;
    assert rate == hi + [','] + rest;
    DigitsHaveNoComma(hi);
    RemoveFirstAfter(rate, hi, ',', rest);
    assert hi + rest == (hi + lo) + "." + frac;
  }

  lemma DigitsHaveNoComma(ds: string)
    requires AllDigits(ds)
    ensures ',' !in ds
  {
    forall i | 0 <= i < |ds| ensures ds[i] != ',' {
      assert IsDigit(ds[i]);
    }
  }

  lemma AllDigitsConcat(a: string, b: string)
    requires AllDigits(a) && AllDigits(b)
    ensures AllDigits(a + b)
  {
    forall i | 0 <= i < |a + b| ensures IsDigit((a + b)[i]) {
      if i < |a| { assert (a + b)[i] == a[i]; } else { assert (a + b)[i] == b[i - |a|]; }
    }
  }

  /** A rate with a single thousands comma, "<hi>,<lo>.<frac>", parses to its full value. */
  lemma BtcPriceOfGroupedRate(rate: string, hi: string, lo: string, frac: string)
    requires hi != [] && AllDigits(hi) && AllDigits(lo) && AllDigits(frac)
    requires rate == hi + "," + lo + "." + frac
    ensures BtcPrice(rate) == Some(NatValue(hi + lo) as real + FracValue(frac))
  {
    CleanedGroupedRate(rate, hi, lo, frac);
    GroupedDigitsParse(hi, lo, frac, (hi + lo) + "." + frac);
    BtcPriceOfCleaned(rate, (hi + lo) + "." + frac);
  }

  /** Once the comma is gone, "<hi><lo>.<frac>" is an ordinary decimal. */
  lemma GroupedDigitsParse(hi: string, lo: string, frac: string, cleaned: string)
    requires hi != [] && AllDigits(hi) && AllDigits(lo) && AllDigits(frac)
    requires cleaned == (hi + lo) + "." + frac
    ensures ParseFloat(cleaned) == Some(NatValue(hi + lo) as real + FracValue(frac))
  {
    var whole := hi + lo;
    assert whole[0] == hi[0];
    AllDigitsConcat(hi, lo);
    ParseFloatOfDecimal(cleaned, whole, frac);
  }

  /** `NatValue` of a digit string in terms of its last digit. */
  lemma NatValueAppend(ds: string, c: char, s: string)
    requires AllDigits(ds) && IsDigit(c) && s == ds + [c]
    ensures NatValue(s) == 10 * NatValue(ds) + DigitValue(c)
  {
    assert s[..|ds|] == ds;
  }

  lemma NatValueOfFiftyThousand()
    ensures NatValue("50000") == 50000
  {
    NatValueAppend("", '5', "5");
    NatValueAppend("5", '0', "50");
    NatValueAppend("50", '0', "500");
    NatValueAppend("500", '0', "5000");
    NatValueAppend("5000", '0', "50000");
  }

  /** A rate of fifty thousand and a fraction, "50,000.<frac>". */
  lemma BtcPriceOfFiftyThousand(rate: string, frac: string)
    requires AllDigits(frac) && rate == "50" + "," + "000" + "." + frac
    ensures BtcPrice(rate) == Some(50000.0 + FracValue(frac))
  {
    NatValueOfFiftyThousand();
    assert "50" + "000" == "50000";
    BtcPriceOfGroupedRate(rate, "50", "000", frac);
  }

  /** Around fifty thousand the market factor applies exactly when a fractional
      digit is not zero: "50,000.000" does not count, "50,000.001" does. */
  lemma FiftyThousandThreshold(rate: string, frac: string)
    requires AllDigits(frac) && rate == "50" + "," + "000" + "." + frac
    ensures BtcPrice(rate).Some?
    ensures BtcPrice(rate).value > 50000.0 <==> exists i :: 0 <= i < |frac| && frac[i] != '0'
  {
    BtcPriceOfFiftyThousand(rate, frac);
    FracValuePositive(frac);
  }

  /** The price threshold is strict: at "50,000.00" there is no market adjustment. */
  lemma BtcAtThreshold(rate: string)
    requires rate == "50,000.00"
    ensures BtcPrice(rate) == Some(50000.0)
    ensures BullMarket(Some(CryptoPayload(Some(PriceIndex(Some(UsdQuote(Some(rate))))), None))) == Success(false)
  {
    var frac := "00";
    assert FracValue(frac) == 0.0;
    BtcPriceOfFiftyThousand(rate, frac);
  }

  /** One hundredth above the threshold, at "50,000.01", the market adjustment applies. */
  lemma BtcAboveThreshold(rate: string)
    requires rate == "50,000.01"
    ensures BtcPrice(rate) == Some(50000.01)
    ensures BullMarket(Some(CryptoPayload(Some(PriceIndex(Some(UsdQuote(Some(rate))))), None))) == Success(true)
  {
    var frac := "01";
    assert FracValue(frac) == 0.01;
    BtcPriceOfFiftyThousand(rate, frac);
  }

  /** Only the first comma is removed: with a seven-digit price "1,000,000.00" the
      parse stops at the second comma and reads 1000, which is below the threshold. */
  lemma SecondCommaStopsTheParse(rate: string)
    requires rate == "1,000,000.00"
    ensures BtcPrice(rate) == Some(1000.0)
  {
    var cleaned := "1000,000.00";
    CleanedMillion(rate, cleaned);
    ThousandParses(cleaned);
    BtcPriceOfCleaned(rate, cleaned);
  }

  /** Removing the first comma of "1,000,000.00" leaves the second one in place. */
  lemma CleanedMillion(rate: string, cleaned: string)
    requires rate == "1,000,000.00" && cleaned == "1000,000.00"
    ensures RemoveFirst(rate, ',') == cleaned
  {
    var pre, rest := "1", "000,000.00";
    MillionSplits(rate, pre, rest);
    RemoveFirstAfter(rate, pre, ',', rest);
    ThousandJoins(pre, rest, cleaned);
  }

  lemma MillionSplits(rate: string, pre: string, rest: string)
    requires rate == "1,000,000.00" && pre == "1" && rest == "000,000.00"
    ensures rate == pre + [','] + rest && ',' !in pre
  {
  }

  lemma ThousandJoins(pre: string, rest: string, cleaned: string)
    requires pre == "1" && rest == "000,000.00" && cleaned == "1000,000.00"
    ensures pre + rest == cleaned
  {
  }

  lemma NatValueOfThousand()
    ensures NatValue("1000") == 1000
  {
    NatValueAppend("", '1', "1");
    NatValueAppend("1", '0', "10");
    NatValueAppend("10", '0', "100");
    NatValueAppend("100", '0', "1000");
  }

  /** "1000,000.00" parses to 1000: `parseFloat` stops at the comma. */
  lemma ThousandParses(cleaned: string)
    requires cleaned == "1000,000.00"
    ensures ParseFloat(cleaned) == Some(1000.0)
  {
    assert cleaned == "1000" + ",000.00";
    NatValueOfThousand();
    ParseFloatOfInteger(cleaned, "1000", ",000.00");
  }

  /** The worked example: an income of 6 lakh at age 30 with two dependents and no
      enrichment data gives 96 lakh of coverage and a premium of 86400. */
  lemma WorkedExample()
    ensures QuoteFor(600000, 30, 2, None, None) == Success(Quote(9600000, 86400))
  {
    assert AdjustedAmount(600000, 30, 2, false, false) == 9600000.0;
    MathRoundOfInteger(96);
    PremiumOfLakhMultiple(9600000);
  }

  // ---------------------------------------------------------------------------
  // The POST /api/calculate-coverage handler
  // ---------------------------------------------------------------------------

  /** A body field: absent (`undefined`) or given. */
  datatype Field<T> = Absent | Given(value: T)

  /** The request body: `name`, `age`, `city`, `annualIncome`, `dependents`. */
  datatype CoverageRequest = CoverageRequest(name: Field<string>, age: Field<int>, city: Field<string>,
                                             annualIncome: Field<int>, dependents: Field<int>)

  /** JavaScript falsiness of a text field: absent or the empty string. */
  predicate FalsyText(f: Field<string>) {
    f.Absent? || f.value == ""
  }

  /** JavaScript falsiness of a number field: absent or zero. */
  predicate FalsyNumber(f: Field<int>) {
    f.Absent? || f.value == 0
  }

  /** The 400 condition: a falsy `name`, `age`, `city` or `annualIncome`, or an
      absent `dependents` (which is compared with `undefined`, so 0 passes). */
  predicate RejectsRequest(req: CoverageRequest)
    ensures !RejectsRequest(req) <==>
      req.name.Given? && req.name.value != "" && req.city.Given? && req.city.value != "" &&
      req.age.Given? && req.age.value != 0 && req.annualIncome.Given? && req.annualIncome.value != 0 &&
      req.dependents.Given?
  {
    FalsyText(req.name) || FalsyNumber(req.age) || FalsyText(req.city) ||
    FalsyNumber(req.annualIncome) || req.dependents.Absent?
  }

  /** `dependents` is only compared with `undefined`: once it is given, its value
      never decides the outcome. */
  lemma DependentsValueIgnored(req: CoverageRequest, d: int)
    ensures RejectsRequest(req.(dependents := Given(d))) == RejectsRequest(req.(dependents := Given(0)))
  {
  }

  /** Zero dependents is accepted; an age or an income of zero is rejected. */
  lemma ValidationOfZeros(name: string, age: int, city: string, annualIncome: int)
    requires name != "" && city != "" && age != 0 && annualIncome != 0
    ensures !RejectsRequest(CoverageRequest(Given(name), Given(age), Given(city), Given(annualIncome), Given(0)))
    ensures RejectsRequest(CoverageRequest(Given(name), Given(0), Given(city), Given(annualIncome), Given(0)))
    ensures RejectsRequest(CoverageRequest(Given(name), Given(age), Given(city), Given(0), Given(0)))
    ensures RejectsRequest(CoverageRequest(Given(name), Given(age), Given(city), Given(annualIncome), Absent))
  {
  }

  /** What the store is asked to save: the request with its computed result and the
      raw payloads. Whether the save succeeds has no bearing on the response. */
  datatype CoverageRecord = CoverageRecord(name: string, age: int, city: string, annualIncome: int, dependents: int,
                                           recommendedCoverage: int, monthlyPremium: int,
                                           weatherData: Option<WeatherPayload>, cryptoData: Option<CryptoPayload>)

  /** The handler's outward actions, in the order it performs them. */
  datatype Effect = WeatherLookup(city: string) | CryptoLookup | SaveRequest(record: CoverageRecord)

  /** `weatherInfo` of the response. */
  datatype WeatherInfo = WeatherInfo(temperature: Option<real>, description: Option<string>, city: Option<string>)

  /** `marketInfo` of the response. */
  datatype MarketInfo = MarketInfo(btcPrice: Option<string>, lastUpdated: Option<string>)

  /** `data` of a successful response. */
  datatype CoverageData = CoverageData(coverage: int, monthlyPremium: int,
                                       weatherInfo: Option<WeatherInfo>, marketInfo: Option<MarketInfo>)

  /** Status 400 with "All fields are required", 200 with the data, or 500 with
      "Internal server error". */
  datatype Response = BadRequest(error: string) | Ok(data: CoverageData) | ServerError(error: string)

  /** The response and the actions taken to produce it. */
  datatype Exchange = Exchange(response: Response, effects: seq<Effect>)

  /** `weatherData.weather?.[0]?.description`. */
  function FirstDescription(conditions: Option<seq<Condition>>): (d: Option<string>)
    ensures d.Some? <==> conditions.Some? && |conditions.value| > 0 && conditions.value[0].description.Some?
    ensures d.Some? ==> d == conditions.value[0].description
  {
    if conditions.Some? && |conditions.value| > 0 then conditions.value[0].description else None
  }

  /** `weatherInfo`: `null` exactly when there is no weather payload. */
  function WeatherInfoOf(weatherData: Option<WeatherPayload>): (info: Option<WeatherInfo>)
    ensures info.None? <==> weatherData.None?
    ensures weatherData.Some? ==>
      && info.value.city == weatherData.value.name
      && info.value.description == FirstDescription(weatherData.value.weather)
      && (info.value.temperature.Some? <==> weatherData.value.main.Some? && weatherData.value.main.value.temp.Some?)
      && (info.value.temperature.Some? ==> info.value.temperature == weatherData.value.main.value.temp)
  {
    match weatherData
    case None => None
    case Some(w) =>
      Some(WeatherInfo(if w.main.Some? then w.main.value.temp else None, FirstDescription(w.weather), w.name))
  }

  /** `marketInfo`: `null` exactly when there is no crypto payload. */
  function MarketInfoOf(cryptoData: Option<CryptoPayload>): (info: Option<MarketInfo>)
    ensures info.None? <==> cryptoData.None?
    ensures cryptoData.Some? ==>
      var c := cryptoData.value;
      && (info.value.btcPrice.Some? <==> c.bpi.Some? && c.bpi.value.usd.Some? && c.bpi.value.usd.value.rate.Some?)
      && (info.value.btcPrice.Some? ==> info.value.btcPrice == c.bpi.value.usd.value.rate)
      && (info.value.lastUpdated.Some? <==> c.time.Some? && c.time.value.updated.Some?)
      && (info.value.lastUpdated.Some? ==> info.value.lastUpdated == c.time.value.updated)
  {
    match cryptoData
    case None => None
    case Some(c) =>
      Some(MarketInfo(if c.bpi.Some? && c.bpi.value.usd.Some? then c.bpi.value.usd.value.rate else None,
                      if c.time.Some? then c.time.value.updated else None))
  }

  /** The POST handler: validate, look up the weather for the city, then the BTC
      price, estimate, ask the store to save the record, respond. The lookups'
      HTTP outcomes are inputs; a failure there only nulls the matching summary. */
  function HandleCalculateCoverage(req: CoverageRequest, weatherReply: HttpReply<WeatherPayload>,
                                   cryptoReply: HttpReply<CryptoPayload>): (x: Exchange)
    ensures x.response.BadRequest? <==> RejectsRequest(req)
    ensures RejectsRequest(req) ==> x.effects == []
    ensures !RejectsRequest(req) ==>
      |x.effects| >= 2 && x.effects[0] == WeatherLookup(req.city.value) && x.effects[1] == CryptoLookup
  {
    if RejectsRequest(req) then Exchange(BadRequest("All fields are required"), [])
    else
      var weatherData := FetchWeatherData(weatherReply);
      var cryptoData := FetchCryptoData(cryptoReply);
      var lookups := [WeatherLookup(req.city.value), CryptoLookup];
      var income, age, dependents := req.annualIncome.value, req.age.value, req.dependents.value;
      match QuoteFor(income, age, dependents, weatherData, cryptoData)
      case Failure(_) => Exchange(ServerError("Internal server error"), lookups)
      case Success(q) =>
        var record := CoverageRecord(req.name.value, age, req.city.value, income, dependents,
                                     q.coverage, q.monthlyPremium, weatherData, cryptoData);
        var data := CoverageData(q.coverage, q.monthlyPremium, WeatherInfoOf(weatherData), MarketInfoOf(cryptoData));
        Exchange(Ok(data), lookups + [SaveRequest(record)])
  }

  /** A 500 happens exactly when a valid request meets a delivered price index whose
      `bpi.USD` has no string `rate`; nothing is saved then. */
  lemma ServerErrorExactly(req: CoverageRequest, weatherReply: HttpReply<WeatherPayload>,
                           cryptoReply: HttpReply<CryptoPayload>)
    ensures var x := HandleCalculateCoverage(req, weatherReply, cryptoReply);
      x.response.ServerError? <==>
        !RejectsRequest(req) && cryptoReply.Delivered? && cryptoReply.body.bpi.Some? &&
        cryptoReply.body.bpi.value.usd.Some? && cryptoReply.body.bpi.value.usd.value.rate.None?
    ensures var x := HandleCalculateCoverage(req, weatherReply, cryptoReply);
      x.response.ServerError? ==> |x.effects| == 2
  {
  }

  /** On success the response carries the estimator's coverage and premium, the saved
      record carries the same figures, and each summary is `null` exactly when its
      lookup failed. */
  lemma SuccessfulResponse(req: CoverageRequest, weatherReply: HttpReply<WeatherPayload>,
                           cryptoReply: HttpReply<CryptoPayload>)
    ensures var x := HandleCalculateCoverage(req, weatherReply, cryptoReply);
      x.response.Ok? ==>
        var q := QuoteFor(req.annualIncome.value, req.age.value, req.dependents.value,
                          FetchWeatherData(weatherReply), FetchCryptoData(cryptoReply));
        && q.Success?
        && x.response.data.coverage == q.value.coverage
        && x.response.data.monthlyPremium == q.value.monthlyPremium
        && x.response.data.coverage % Lakh == 0
        && (x.response.data.weatherInfo.None? <==> weatherReply.Failed?)
        && (x.response.data.marketInfo.None? <==> cryptoReply.Failed?)
        && |x.effects| == 3 && x.effects[2].SaveRequest?
        && x.effects[2].record.recommendedCoverage == x.response.data.coverage
        && x.effects[2].record.monthlyPremium == x.response.data.monthlyPremium
  {
    var x := HandleCalculateCoverage(req, weatherReply, cryptoReply);
    if x.response.Ok? {
      QuoteIsWholeLakhs(req.annualIncome.value, req.age.value, req.dependents.value,
                        FetchWeatherData(weatherReply), FetchCryptoData(cryptoReply));
    }
  }

  /** With both lookups failed a valid request still gets a quote, computed from the
      form fields alone, and both summaries are `null`. */
  lemma LookupsFailed(req: CoverageRequest)
    requires !RejectsRequest(req)
    ensures var x := HandleCalculateCoverage(req, Failed, Failed);
      x.response.Ok? &&
      x.response.data.coverage == RoundToLakh(AdjustedAmount(req.annualIncome.value, req.age.value, req.dependents.value, false, false)) &&
      x.response.data.weatherInfo.None? && x.response.data.marketInfo.None?
  {
  }
}
