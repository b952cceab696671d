/** The front end's form component: its five-field form record, the local copy of
    the estimator (no enrichment data) and the input, submit and reset transitions.
    The two-second delay, the alert box and the rendering are left out. */
module App {
  import opened Wrappers
  import opened JsBuiltins
  import Server

  datatype FieldName = Name | Age | City | AnnualIncome | Dependents

  /** The form record; every field holds the text of its input element. */
  datatype FormData = FormData(name: string, age: string, city: string, annualIncome: string, dependents: string)

  const EmptyForm: FormData := FormData("", "", "", "", "")

  function Get(form: FormData, field: FieldName): string {
    match field
    case Name => form.name
    case Age => form.age
    case City => form.city
    case AnnualIncome => form.annualIncome
    case Dependents => form.dependents
  }

  /** `{ ...prev, [name]: value }`: one field replaced, the others kept. */
  function With(form: FormData, field: FieldName, value: string): (updated: FormData)
    ensures Get(updated, field) == value
    ensures forall other :: other != field ==> Get(updated, other) == Get(form, other)
  {
    match field
    case Name => form.(name := value)
    case Age => form.(age := value)
    case City => form.(city := value)
    case AnnualIncome => form.(annualIncome := value)
    case Dependents => form.(dependents := value)
  }

  /** The submit check `!formData.name || ... || !formData.dependents` fails: a string
      is falsy only when it is empty. */
  predicate Complete(form: FormData)
    ensures Complete(form) <==> "" !in [form.name, form.age, form.city, form.annualIncome, form.dependents]
  {
    form.name != "" && form.age != "" && form.city != "" && form.annualIncome != "" && form.dependents != ""
  }

  /** The form is complete exactly when no field is the empty string. */
  lemma CompleteMeansNoEmptyField(form: FormData)
    ensures Complete(form) <==> forall field :: Get(form, field) != ""
  {
    if !Complete(form) {
      if form.name == "" { assert Get(form, Name) == ""; }
      else if form.age == "" { assert Get(form, Age) == ""; }
      else if form.city == "" { assert Get(form, City) == ""; }
      else if form.annualIncome == "" { assert Get(form, AnnualIncome) == ""; }
      else { assert Get(form, Dependents) == ""; }
    }
  }

  /** The dependents choice "0" is a non-empty string, so it passes the check, and
      it parses to zero dependents: the coverage is a number whenever the income is. */
  lemma ZeroDependentsIsComplete(form: FormData)
    requires form.name != "" && form.age != "" && form.city != "" && form.annualIncome != ""
    requires form.dependents == "0"
    ensures Complete(form)
    ensures ParseInt(form.dependents) == Some(0)
    ensures RecommendationFor(form).coverage.Int? <==> ParseInt(form.annualIncome).Some?
  {
    ParseIntOfDigits(form.dependents);
  }

  /** A number as the component holds it: NaN or an integer. */
  datatype JsNumber = NaN | Int(value: int)

  /** The local calculator in closed form, on the `parseInt` results of the income,
      age and dependents fields (`None` for NaN). NaN income or dependents makes the
      coverage NaN; a NaN age fails both comparisons and gets no multiplier. */
  function LocalCoverage(income: Option<int>, age: Option<int>, dependents: Option<int>): (r: JsNumber)
    ensures r.Int? <==> income.Some? && dependents.Some?
    ensures r.Int? ==> r.value % Server.Lakh == 0
  {
    if income.None? || dependents.None? then NaN
    else
      var amount := income.value as real * 12.0 * LocalAgeFactor(age) + (dependents.value * income.value * 2) as real;
      Int(MathRound(amount / 100000.0) * 100000)
  }

  /** The age multiplier as the component computes it: a NaN age is neither above
      45 nor above 35. */
  function LocalAgeFactor(age: Option<int>): (m: real)
    ensures age.None? ==> m == 1.0
    ensures age.Some? ==> m == Server.AgeMultiplier(age.value)
  {
    if age.Some? && age.value > 45 then 1.2 else if age.Some? && age.value > 35 then 1.1 else 1.0
  }

  /** `Math.round(coverage * 0.009)`; NaN stays NaN. */
  function Premium(coverage: JsNumber): (p: JsNumber)
    ensures p.Int? <==> coverage.Int?
    ensures coverage.Int? ==> p == Int(Server.MonthlyPremium(coverage.value))
  {
    match coverage
    case NaN => NaN
    case Int(c) => Int(MathRound(c as real * 0.009))
  }

  /** The component's `result`: coverage and monthly premium. */
  datatype Recommendation = Recommendation(coverage: JsNumber, monthlyPremium: JsNumber)

  /** The recommendation a submit of `form` produces. */
  function RecommendationFor(form: FormData): (r: Recommendation)
    ensures r.coverage.NaN? <==> ParseInt(form.annualIncome).None? || ParseInt(form.dependents).None?
    ensures r.monthlyPremium.NaN? <==> r.coverage.NaN?
  {
    var coverage := LocalCoverage(ParseInt(form.annualIncome), ParseInt(form.age), ParseInt(form.dependents));
    Recommendation(coverage, Premium(coverage))
  }

  /** The local `calculateCoverage`: parse the three numeric fields, then update the
      running amount step by step and round it to a lakh. */
  method CalculateCoverage(form: FormData) returns (coverage: JsNumber)
    ensures coverage == LocalCoverage(ParseInt(form.annualIncome), ParseInt(form.age), ParseInt(form.dependents))
    ensures coverage.Int? ==> coverage.value % Server.Lakh == 0
  {
    var income := ParseInt(form.annualIncome);
    var age := ParseInt(form.age);
    var dependents := ParseInt(form.dependents);
    if income.None? || dependents.None? {
      // NaN propagates through every remaining step.
      return NaN;
    }
    var baseCoverage: real := income.value as real * 12.0;
    if age.Some? && age.value > 45 {
      baseCoverage := baseCoverage * 1.2;
    } else if age.Some? && age.value > 35 {
      baseCoverage := baseCoverage * 1.1;
    }
    assert baseCoverage == income.value as real * 12.0 * LocalAgeFactor(age);
    baseCoverage := baseCoverage + (dependents.value * income.value * 2) as real;
    coverage := Int(MathRound(baseCoverage / 100000.0) * 100000);
    LocalCoverageOfAmount(income.value, age, dependents.value, baseCoverage);
  }

  lemma LocalCoverageOfAmount(income: int, age: Option<int>, dependents: int, amount: real)
    requires amount == income as real * 12.0 * LocalAgeFactor(age) + (dependents * income * 2) as real
    ensures LocalCoverage(Some(income), age, Some(dependents)) == Int(MathRound(amount / 100000.0) * 100000)
  {
  }

  /** Without enrichment data the local calculator and the backend estimator agree,
      on the coverage and on the premium. */
  lemma AgreesWithServer(income: int, age: int, dependents: int)
    ensures Server.QuoteFor(income, age, dependents, None, None).Success?
    ensures LocalCoverage(Some(income), Some(age), Some(dependents)) ==
            Int(Server.QuoteFor(income, age, dependents, None, None).value.coverage)
    ensures Premium(LocalCoverage(Some(income), Some(age), Some(dependents))) ==
            Int(Server.QuoteFor(income, age, dependents, None, None).value.monthlyPremium)
  {
    var amount := Server.AdjustedAmount(income, age, dependents, false, false);
    assert LocalCoverage(Some(income), Some(age), Some(dependents)) == Int(Server.RoundToLakh(amount));
  }

  /** The premium of a whole number of lakhs is exactly 900 per lakh. */
  lemma LocalPremiumExact(coverage: int)
    requires coverage % Server.Lakh == 0
    ensures Premium(Int(coverage)) == Int(coverage / Server.Lakh * 900)
  {
    Server.PremiumOfLakhMultiple(coverage);
  }

  /** An age field that does not parse behaves like an age of at most 35. */
  lemma UnparsedAgeGetsNoMultiplier(income: Option<int>, dependents: Option<int>)
    ensures LocalCoverage(income, None, dependents) == LocalCoverage(income, Some(35), dependents)
  {
  }

  /** The form component's state: `formData`, `result`, `loading`, `showForm`. */
  class CoverageForm {
    var formData: FormData
    var result: Option<Recommendation>
    var loading: bool
    var showForm: bool

    /** The initial state of the `useState` hooks. */
    constructor ()
      ensures formData == EmptyForm && result == None && !loading && showForm
    {
      formData := EmptyForm;
      result := None;
      loading := false;
      showForm := true;
    }

    /** `handleInputChange`: the named field takes the new value; nothing else changes. */
    method HandleInputChange(field: FieldName, value: string)
      modifies this
      ensures Get(formData, field) == value
      ensures forall other :: other != field ==> Get(formData, other) == Get(old(formData), other)
      ensures result == old(result) && loading == old(loading) && showForm == old(showForm)
    {
      formData := With(formData, field, value);
    }

    /** `handleSubmit`: an incomplete form raises the alert (`alerted`) and changes
        nothing; otherwise the recommendation is computed and stored, the form is
        hidden, and `loading`, set for the duration, ends false. */
    method HandleSubmit() returns (alerted: bool)
      modifies this
      ensures alerted <==> !Complete(old(formData))
      ensures formData == old(formData)
      ensures alerted ==> result == old(result) && loading == old(loading) && showForm == old(showForm)
      ensures !alerted ==> result == Some(RecommendationFor(formData)) && !showForm && !loading
    {
      if !Complete(formData) {
        return true;
      }
      alerted := false;
      loading := true;
      var coverage := CalculateCoverage(formData);
      var monthlyPremium := Premium(coverage);
      result := Some(Recommendation(coverage, monthlyPremium));
      showForm := false;
      loading := false;
    }

    /** `resetForm`: the form is shown again, empty, and the result is cleared. */
    method ResetForm()
      modifies this
      ensures showForm && result == None && formData == EmptyForm
      ensures loading == old(loading)
    {
      showForm := true;
      result := None;
      formData := EmptyForm;
    }
  }

  /** After a successful submit the stored coverage, when it is a number, is a whole
      number of lakhs and its premium is exactly 0.9 % of it. */
  lemma SubmittedRecommendation(form: FormData)
    ensures var r := RecommendationFor(form);
      r.coverage.Int? ==>
        r.coverage.value % Server.Lakh == 0 && r.monthlyPremium == Int(r.coverage.value / Server.Lakh * 900)
  {
    var r := RecommendationFor(form);
    if r.coverage.Int? {
      LocalPremiumExact(r.coverage.value);
    }
  }
}
