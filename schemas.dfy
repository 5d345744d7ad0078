/**
 * The request models and the strict answer schema (app/models/schemas.py):
 * field shapes, the `product_type` normaliser, the `rank >= 1` bound, the
 * extra-keys-forbidden rule, and the cross-field rules of `RagAnswer`.
 */
module Schemas {
  import opened Wrappers
  import opened Strings
  import opened JsonValue

  // ---------------------------------------------------------------------------
  // Request-side models
  // ---------------------------------------------------------------------------

  /** `size` is an optional float; `unit` is required free text. */
  datatype Portion = Portion(size: Option<real>, unit: string)

  datatype Product = Product(name: Option<string>, portion: Portion)

  datatype NutritionFact = NutritionFact(labelText: string, value: string)

  /** The profile with every optional field the profile builders read. */
  datatype UserProfile = UserProfile(
    id: Option<string>,
    email: Option<string>,
    fullName: Option<string>,
    gender: Option<string>,
    height: Option<string>,
    weight: Option<string>,
    birthDate: Option<string>,
    medicalHistory: Option<string>)

  /** The strict request profile of app/models/schemas.py: the medical history only. */
  datatype StrictUserProfile = StrictUserProfile(medicalHistory: Option<string>)

  /** Python truthiness of an optional string: present and not empty. */
  predicate Truthy(s: Option<string>) {
    s.Some? && s.value != ""
  }

  // ---------------------------------------------------------------------------
  // The answer schema
  // ---------------------------------------------------------------------------

  datatype ProductType = Minuman | Makanan | TidakDiketahui

  datatype ProductAssessment = ProductAssessment(
    productType: ProductType,
    isSafe: Option<bool>,
    reasons: seq<string>,
    summary: string)

  /** Five optional per-100 g figures. */
  datatype NutritionSummary = NutritionSummary(
    sugar: Option<real>,
    sodium: Option<real>,
    protein: Option<real>,
    fiber: Option<real>,
    fatSat: Option<real>)

  datatype Recommendation = Recommendation(
    rank: int,
    brand: string,
    category: string,
    reasons: seq<string>,
    nutrition: NutritionSummary)

  datatype RagAnswer = RagAnswer(
    productAssessment: ProductAssessment,
    recommendations: seq<Recommendation>,
    summary: string)

  /** A field-level failure; only the first one found is reported. */
  datatype SchemaError =
    | NotAnObject(model: string)
    | MissingField(model: string, field: string)
    | WrongType(model: string, field: string)
    | ExtraField(model: string)
    | InvalidProductType
    | RankBelowOne

  /** The four `ValueError`s raised by the cross-field validator. */
  datatype LogicError =
    | SummaryMustBeSentinel
    | RanksNotSequential
    | SummaryMustNotBeSentinel
    | DuplicateRecommendation

  datatype ValidationError = Schema(schema: SchemaError) | Logic(logic: LogicError)

  /** The summary that stands for "no suitable alternative". */
  const Sentinel: string := "Tidak ada alternatif yang sesuai."

  const AnswerFields: set<string> := {"product_assessment", "recommendations", "summary"}
  const AssessmentFields: set<string> := {"product_type", "is_safe", "reasons", "summary"}
  const RecommendationFields: set<string> := {"rank", "brand", "category", "reasons", "nutrition"}
  const NutritionFields: set<string> :=
    {"sugar_g_100g", "sodium_mg_100g", "protein_g_100g", "fiber_g_100g", "fat_sat_g_100g"}

  // ---------------------------------------------------------------------------
  // The cross-field rules, stated declaratively
  // ---------------------------------------------------------------------------

  /** Rule 1 and 2: the sentinel summary appears exactly when there is nothing to recommend. */
  predicate SummaryConsistent(a: RagAnswer) {
    (a.recommendations == []) <==> (Strip(a.summary) == Sentinel)
  }

  /** Rule 3: read in order, the ranks are 1, 2, ..., N. */
  predicate RanksSequential(recs: seq<Recommendation>) {
    forall i :: 0 <= i < |recs| ==> recs[i].rank == i + 1
  }

  /** The comparison key of a recommendation: trimmed, lower-cased brand and category. */
  function Key(rec: Recommendation): (string, string) {
    (Lower(Strip(rec.brand)), Lower(Strip(rec.category)))
  }

  /** The keys of the recommendations, in order. */
  function Keys(recs: seq<Recommendation>): (ks: seq<(string, string)>)
    ensures |ks| == |recs|
  {
    if recs == [] then [] else [Key(recs[0])] + Keys(recs[1..])
  }

  lemma {:induction false} KeysAt(recs: seq<Recommendation>, k: nat)
    requires k < |recs|
    ensures Keys(recs)[k] == Key(recs[k])
  {
    if k > 0 {
      KeysAt(recs[1..], k - 1);
    }
  }

  predicate Distinct<K(==)>(ks: seq<K>) {
    forall i, j :: 0 <= i < j < |ks| ==> ks[i] != ks[j]
  }

  /** Rule 4: no two recommendations share a key. */
  predicate DistinctKeys(recs: seq<Recommendation>) {
    Distinct(Keys(recs))
  }

  /** Two different positions of an answer keeping rule 4 never carry the same key. */
  lemma DistinctKeysApart(recs: seq<Recommendation>, i: nat, j: nat)
    requires DistinctKeys(recs) && i < j < |recs|
    ensures Key(recs[i]) != Key(recs[j])
  {
    KeysAt(recs, i);
    KeysAt(recs, j);
  }

  predicate AnswerInvariants(a: RagAnswer) {
    SummaryConsistent(a) && RanksSequential(a.recommendations) && DistinctKeys(a.recommendations)
  }

  // ---------------------------------------------------------------------------
  // The cross-field validator, in the source's check order
  // ---------------------------------------------------------------------------

  function Ranks(recs: seq<Recommendation>): seq<int> {
    seq(|recs|, i requires 0 <= i < |recs| => recs[i].rank)
  }

  function Expected(n: nat): seq<int> {
    seq(n, i requires 0 <= i < n => i + 1)
  }

  lemma RanksMatchExpected(recs: seq<Recommendation>)
    ensures Ranks(recs) == Expected(|recs|) <==> RanksSequential(recs)
  {
    assert forall i :: 0 <= i < |recs| ==> Ranks(recs)[i] == recs[i].rank && Expected(|recs|)[i] == i + 1;
  }

  /**
   * `_validate_logic`: empty list, then the ranks, then the sentinel, then the duplicates.
   * It accepts exactly the answers that keep the four rules, and then returns them unchanged.
   */
  function LogicCheck(a: RagAnswer): (r: Result<RagAnswer, LogicError>)
    ensures r.Ok? <==> AnswerInvariants(a)
    ensures r.Ok? ==> r.value == a
    ensures a.recommendations == [] && r.Err? ==> r.error == SummaryMustBeSentinel
    ensures a.recommendations != [] && !RanksSequential(a.recommendations) ==>
              r == Err(RanksNotSequential)
    ensures (a.recommendations != [] && RanksSequential(a.recommendations)
             && Strip(a.summary) == Sentinel) ==> r == Err(SummaryMustNotBeSentinel)
    ensures (a.recommendations != [] && RanksSequential(a.recommendations)
             && Strip(a.summary) != Sentinel && !DistinctKeys(a.recommendations)) ==>
              r == Err(DuplicateRecommendation)
  {
    var recs := a.recommendations;
    RanksMatchExpected(recs);
    if recs == [] then
      if Strip(a.summary) != Sentinel then Err(SummaryMustBeSentinel) else Ok(a)
    else if Ranks(recs) != Expected(|recs|) then Err(RanksNotSequential)
    else if Strip(a.summary) == Sentinel then Err(SummaryMustNotBeSentinel)
    else if !DistinctKeys(recs) then Err(DuplicateRecommendation)
    else Ok(a)
  }

  /** `_validate_logic` as the source runs it: the `seen` set grows one key per recommendation. */
  method ValidateLogic(a: RagAnswer) returns (r: Result<RagAnswer, LogicError>)
    ensures r == LogicCheck(a)
  {
    var recs := a.recommendations;
    if recs == [] {
      if Strip(a.summary) != Sentinel {
        return Err(SummaryMustBeSentinel);
      }
      return Ok(a);
    }
    var ranks := Ranks(recs);
    var expected := Expected(|recs|);
    if ranks != expected {
      return Err(RanksNotSequential);
    }
    if Strip(a.summary) == Sentinel {
      return Err(SummaryMustNotBeSentinel);
    }
    ghost var keys := Keys(recs);
    var seen: set<(string, string)> := {};
    for i := 0 to |recs|
      invariant seen == set k | 0 <= k < i :: keys[k]
      invariant forall p, q :: 0 <= p < q < i ==> keys[p] != keys[q]
    {
      var key := Key(recs[i]);
      KeysAt(recs, i);
      if key in seen {
        ghost var k :| 0 <= k < i && keys[k] == key;
        assert keys[k] == keys[i];
        return Err(DuplicateRecommendation);
      }
      assert (set k | 0 <= k < i + 1 :: keys[k]) == seen + {keys[i]};
      seen := seen + {key};
    }
    return Ok(a);
  }

  // ---------------------------------------------------------------------------
  // Field-level validation of the raw answer
  // ---------------------------------------------------------------------------

  /** Trim, lower-case, spaces to `_`, then mend the one known misspelling. */
  function NormalText(s: string): string {
    var v := ReplaceChar(Lower(Strip(s)), ' ', '_');
    if v == "tidakdiketahui" then "tidak_diketahui" else v
  }

  /** The `product_type` before-validator: strings are normalised, anything else passes through. */
  function NormalizeProductType(value: Json): (r: Json)
    ensures !value.JString? ==> r == value
    ensures value.JString? ==> r == JString(NormalText(value.s))
  {
    match value
    case JString(s) => JString(NormalText(s))
    case _ => value
  }

  function ProductTypeName(t: ProductType): string {
    match t
    case Minuman => "minuman"
    case Makanan => "makanan"
    case TidakDiketahui => "tidak_diketahui"
  }

  /** The literal check after normalising: one of the three names, anything else is rejected. */
  function ProductTypeOf(value: Json): (r: Result<ProductType, SchemaError>)
    ensures r.Ok? <==> (NormalizeProductType(value).JString?
                        && NormalizeProductType(value).s in {"minuman", "makanan", "tidak_diketahui"})
    ensures r.Ok? ==> NormalizeProductType(value) == JString(ProductTypeName(r.value))
  {
    var n := NormalizeProductType(value);
    match n
    case JString(v) =>
      if v == "minuman" then Ok(Minuman)
      else if v == "makanan" then Ok(Makanan)
      else if v == "tidak_diketahui" then Ok(TidakDiketahui)
      else Err(InvalidProductType)
    case _ => Err(InvalidProductType)
  }

  function RequiredString(o: map<string, Json>, model: string, key: string): Result<string, SchemaError> {
    if key !in o then Err(MissingField(model, key))
    else if o[key].JString? then Ok(o[key].s)
    else Err(WrongType(model, key))
  }

  function StringItems(items: seq<Json>): (r: Option<seq<string>>)
    ensures r.Some? <==> forall k :: 0 <= k < |items| ==> items[k].JString?
    ensures r.Some? ==> |r.value| == |items| && forall k :: 0 <= k < |items| ==> r.value[k] == items[k].s
  {
    if items == [] then Some([])
    else if !items[0].JString? then None
    else
      match StringItems(items[1..])
      case None => None
      case Some(rest) => Some([items[0].s] + rest)
  }

  function RequiredStringList(o: map<string, Json>, model: string, key: string): Result<seq<string>, SchemaError> {
    if key !in o then Err(MissingField(model, key))
    else if !o[key].JArray? then Err(WrongType(model, key))
    else
      match StringItems(o[key].items)
      case None => Err(WrongType(model, key))
      case Some(xs) => Ok(xs)
  }

  /** `Optional[float] = None`: absence and null give None; an integer is widened. */
  function OptionalReal(o: map<string, Json>, model: string, key: string): Result<Option<real>, SchemaError> {
    if key !in o then Ok(None)
    else
      match o[key]
      case JNull => Ok(None)
      case JInt(i) => Ok(Some(i as real))
      case JReal(x) => Ok(Some(x))
      case _ => Err(WrongType(model, key))
  }

  /** `Optional[bool] = None`: absence and null give None. */
  function OptionalBool(o: map<string, Json>, model: string, key: string): Result<Option<bool>, SchemaError> {
    if key !in o then Ok(None)
    else
      match o[key]
      case JNull => Ok(None)
      case JBool(b) => Ok(Some(b))
      case _ => Err(WrongType(model, key))
  }

  /** `rank: int` with `ge=1`; a float with no fractional part is accepted as an int. */
  function RankOf(o: map<string, Json>): (r: Result<int, SchemaError>)
    ensures r.Ok? ==> r.value >= 1
    ensures "rank" !in o ==> r == Err(MissingField("Recommendation", "rank"))
    ensures "rank" in o && o["rank"].JInt? ==>
      (r.Ok? <==> o["rank"].i >= 1) && (r.Ok? ==> r.value == o["rank"].i) && (r.Err? ==> r.error == RankBelowOne)
    ensures "rank" in o && o["rank"].JReal? ==>
      && (r.Ok? <==> o["rank"].r == o["rank"].r.Floor as real && o["rank"].r >= 1.0)
      && (r.Ok? ==> r.value as real == o["rank"].r)
    ensures "rank" in o && !o["rank"].JInt? && !o["rank"].JReal? ==> r == Err(WrongType("Recommendation", "rank"))
  {
    if "rank" !in o then Err(MissingField("Recommendation", "rank"))
    else
      match o["rank"]
      case JInt(i) => if i >= 1 then Ok(i) else Err(RankBelowOne)
      case JReal(x) =>
        if x != x.Floor as real then Err(WrongType("Recommendation", "rank"))
        else if x.Floor >= 1 then Ok(x.Floor) else Err(RankBelowOne)
      case _ => Err(WrongType("Recommendation", "rank"))
  }

  /** An object whose keys are all declared fields (`extra="forbid"`). */
  predicate OnlyFields(j: Json, allowed: set<string>) {
    j.JObject? && j.fields.Keys <= allowed
  }

  predicate StrictRecommendation(j: Json) {
    OnlyFields(j, RecommendationFields) && "nutrition" in j.fields
    && OnlyFields(j.fields["nutrition"], NutritionFields)
  }

  /** Every object of the answer, at every nesting level, carries declared keys only. */
  predicate StrictShape(j: Json) {
    && OnlyFields(j, AnswerFields)
    && "product_assessment" in j.fields
    && OnlyFields(j.fields["product_assessment"], AssessmentFields)
    && "recommendations" in j.fields
    && j.fields["recommendations"].JArray?
    && forall k :: 0 <= k < |j.fields["recommendations"].items| ==>
         StrictRecommendation(j.fields["recommendations"].items[k])
  }

  function ParseNutrition(j: Json): (r: Result<NutritionSummary, SchemaError>)
    ensures r.Ok? ==> OnlyFields(j, NutritionFields)
  {
    if !j.JObject? then Err(NotAnObject("NutritionSummary"))
    else
      var o := j.fields;
      var sugar :- OptionalReal(o, "NutritionSummary", "sugar_g_100g");
      var sodium :- OptionalReal(o, "NutritionSummary", "sodium_mg_100g");
      var protein :- OptionalReal(o, "NutritionSummary", "protein_g_100g");
      var fiber :- OptionalReal(o, "NutritionSummary", "fiber_g_100g");
      var fatSat :- OptionalReal(o, "NutritionSummary", "fat_sat_g_100g");
      if !(o.Keys <= NutritionFields) then Err(ExtraField("NutritionSummary"))
      else Ok(NutritionSummary(sugar, sodium, protein, fiber, fatSat))
  }

  function ParseRecommendation(j: Json): (r: Result<Recommendation, SchemaError>)
    ensures r.Ok? ==> r.value.rank >= 1 && StrictRecommendation(j)
  {
    if !j.JObject? then Err(NotAnObject("Recommendation"))
    else
      var o := j.fields;
      var rank :- RankOf(o);
      var brand :- RequiredString(o, "Recommendation", "brand");
      var category :- RequiredString(o, "Recommendation", "category");
      var reasons :- RequiredStringList(o, "Recommendation", "reasons");
      if "nutrition" !in o then Err(MissingField("Recommendation", "nutrition"))
      else
        var nutrition :- ParseNutrition(o["nutrition"]);
        if !(o.Keys <= RecommendationFields) then Err(ExtraField("Recommendation"))
        else Ok(Recommendation(rank, brand, category, reasons, nutrition))
  }

  /** `List[Recommendation]`: accepted iff every item is, each item giving its own entry. */
  function ParseRecommendations(items: seq<Json>): (r: Result<seq<Recommendation>, SchemaError>)
    ensures r.Ok? <==> forall k :: 0 <= k < |items| ==> ParseRecommendation(items[k]).Ok?
    ensures r.Ok? ==> |r.value| == |items|
    ensures r.Ok? ==> forall k :: 0 <= k < |items| ==> r.value[k] == ParseRecommendation(items[k]).value
  {
    if items == [] then Ok([])
    else
      var head :- ParseRecommendation(items[0]);
      var tail :- ParseRecommendations(items[1..]);
      assert forall k :: 1 <= k < |items| ==> items[k] == items[1..][k - 1];
      Ok([head] + tail)
  }

  function ParseAssessment(j: Json): (r: Result<ProductAssessment, SchemaError>)
    ensures r.Ok? ==> OnlyFields(j, AssessmentFields)
    ensures r.Ok? && "is_safe" !in j.fields ==> r.value.isSafe == None
    ensures r.Ok? ==> "product_type" in j.fields && ProductTypeOf(j.fields["product_type"]) == Ok(r.value.productType)
  {
    if !j.JObject? then Err(NotAnObject("ProductAssessment"))
    else
      var o := j.fields;
      if "product_type" !in o then Err(MissingField("ProductAssessment", "product_type"))
      else
        var productType :- ProductTypeOf(o["product_type"]);
        var isSafe :- OptionalBool(o, "ProductAssessment", "is_safe");
        var reasons :- RequiredStringList(o, "ProductAssessment", "reasons");
        var summary :- RequiredString(o, "ProductAssessment", "summary");
        if !(o.Keys <= AssessmentFields) then Err(ExtraField("ProductAssessment"))
        else Ok(ProductAssessment(productType, isSafe, reasons, summary))
  }

  /** The field-level half of `RagAnswer.model_validate`, before the cross-field validator runs. */
  function ParseRagAnswer(j: Json): (r: Result<RagAnswer, SchemaError>)
    ensures r.Ok? ==> StrictShape(j)
    ensures r.Ok? ==> forall k :: 0 <= k < |r.value.recommendations| ==> r.value.recommendations[k].rank >= 1
  {
    if !j.JObject? then Err(NotAnObject("RagAnswer"))
    else
      var o := j.fields;
      if "product_assessment" !in o then Err(MissingField("RagAnswer", "product_assessment"))
      else
        var assessment :- ParseAssessment(o["product_assessment"]);
        if "recommendations" !in o then Err(MissingField("RagAnswer", "recommendations"))
        else if !o["recommendations"].JArray? then Err(WrongType("RagAnswer", "recommendations"))
        else
          var recs :- ParseRecommendations(o["recommendations"].items);
          var summary :- RequiredString(o, "RagAnswer", "summary");
          if !(o.Keys <= AnswerFields) then Err(ExtraField("RagAnswer"))
          else Ok(RagAnswer(assessment, recs, summary))
  }

  /**
   * `RagAnswer.model_validate`: all or nothing. An accepted answer keeps the four rules,
   * has every rank at least 1 and came from an object with no undeclared key anywhere;
   * an answer whose fields are well formed is accepted exactly when it keeps the rules.
   */
  function Validate(j: Json): (r: Result<RagAnswer, ValidationError>)
    ensures r.Ok? ==> AnswerInvariants(r.value) && StrictShape(j)
    ensures r.Ok? ==> forall k :: 0 <= k < |r.value.recommendations| ==> r.value.recommendations[k].rank >= 1
    ensures ParseRagAnswer(j).Err? ==> r == Err(Schema(ParseRagAnswer(j).error))
    ensures ParseRagAnswer(j).Ok? ==>
              (r.Ok? <==> AnswerInvariants(ParseRagAnswer(j).value))
              && (r.Ok? ==> r.value == ParseRagAnswer(j).value)
  {
    match ParseRagAnswer(j)
    case Err(e) => Err(Schema(e))
    case Ok(a) =>
      match LogicCheck(a)
      case Err(e) => Err(Logic(e))
      case Ok(_) => Ok(a)
  }

  // ---------------------------------------------------------------------------
  // Properties of the normaliser
  // ---------------------------------------------------------------------------

  /** A trimmed text with no space and no upper-case letter is its own normal form. */
  lemma NormalFormFixed(v: string)
    requires Stripped(v)
    requires forall i :: 0 <= i < |v| ==> v[i] != ' ' && !('A' <= v[i] <= 'Z')
    ensures ReplaceChar(Lower(Strip(v)), ' ', '_') == v
  {
    StripOfStripped(v);
    LowerAt(v);
    assert Lower(v) == v;
    ReplaceCharAt(v, ' ', '_');
  }

  /** The normalised text is trimmed and has neither spaces nor upper-case letters. */
  lemma NormalizedTextShape(s: string)
    ensures var v := ReplaceChar(Lower(Strip(s)), ' ', '_');
      Stripped(v) && forall i :: 0 <= i < |v| ==> v[i] != ' ' && !('A' <= v[i] <= 'Z')
  {
    var t := Strip(s);
    StripFacts(s);
    var l := Lower(t);
    LowerAt(t);
    var v := ReplaceChar(l, ' ', '_');
    ReplaceCharAt(l, ' ', '_');
    if v != [] {
      assert v[0] == (if l[0] == ' ' then '_' else l[0]) && l[0] == LowerChar(t[0]);
      assert v[|v| - 1] == (if l[|l| - 1] == ' ' then '_' else l[|l| - 1]);
      assert l[|l| - 1] == LowerChar(t[|t| - 1]);
    }
  }

  /** Normalising twice is normalising once. */
  lemma NormalTextIdempotent(s: string)
    ensures NormalText(NormalText(s)) == NormalText(s)
  {
    var v := ReplaceChar(Lower(Strip(s)), ' ', '_');
    NormalizedTextShape(s);
    if v == "tidakdiketahui" {
      var u := "tidak_diketahui";
      NormalFormFixed(u);
      assert u != "tidakdiketahui" by { assert |u| != 14; }
    } else {
      NormalFormFixed(v);
    }
  }

  /** The `product_type` validator applied to its own output changes nothing. */
  lemma NormalizeProductTypeIdempotent(value: Json)
    ensures NormalizeProductType(NormalizeProductType(value)) == NormalizeProductType(value)
  {
    if value.JString? {
      NormalTextIdempotent(value.s);
    }
  }

  /** A text already in normal form, other than the glued spelling, passes unchanged. */
  lemma NormalTextFixed(v: string)
    requires Stripped(v) && v != "tidakdiketahui"
    requires forall i :: 0 <= i < |v| ==> v[i] != ' ' && !('A' <= v[i] <= 'Z')
    ensures NormalText(v) == v
  {
    NormalFormFixed(v);
  }

  /** A text whose normal form is one of the names is accepted as that product type. */
  lemma ProductTypeOfNormalName(v: string, t: ProductType)
    requires NormalText(v) == ProductTypeName(t)
    ensures ProductTypeOf(JString(v)) == Ok(t)
  {
  }

  /** Each of the three names is accepted as itself. */
  lemma ProductTypeNameAccepted(t: ProductType)
    ensures ProductTypeOf(JString(ProductTypeName(t))) == Ok(t)
  {
    var n := ProductTypeName(t);
    assert n != "tidakdiketahui" by { assert |n| != 14; }
    NormalTextFixed(n);
    ProductTypeOfNormalName(n, t);
  }

  /** Validating an already normalised value gives the same verdict as the first time. */
  lemma ProductTypeOfNormalized(value: Json)
    ensures ProductTypeOf(NormalizeProductType(value)) == ProductTypeOf(value)
  {
    NormalizeProductTypeIdempotent(value);
  }

  /** Upper case is folded. */
  lemma UpperCaseFolded()
    ensures NormalText("MINUMAN") == "minuman"
  {
    StripOfStripped("MINUMAN");
    LowerAt("MINUMAN");
    assert Lower("MINUMAN") == "minuman";
    NormalFormFixed("minuman");
  }

  /** Surrounding whitespace is trimmed. */
  lemma PaddingTrimmed()
    ensures NormalText(" makanan\n") == "makanan"
  {
    assert LStrip(" makanan\n") == LStrip("makanan\n");
    assert "makanan\n"[0] == 'm';
    assert Strip(" makanan\n") == "makanan";
    NormalFormFixed("makanan");
  }

  /** The spelling without the underscore is mended. */
  lemma GluedSpellingMended()
    ensures NormalText("tidakdiketahui") == "tidak_diketahui"
  {
    NormalFormFixed("tidakdiketahui");
  }

  /** Text already in normal form that names no product type stays as it is. */
  lemma UnknownNameKept()
    ensures NormalText("minuman_ringan") == "minuman_ringan"
  {
    NormalFormFixed("minuman_ringan");
    assert "minuman_ringan" != "tidakdiketahui" by { assert "minuman_ringan"[0] != "tidakdiketahui"[0]; }
  }

  /** Upper case does not matter when the names are compared. */
  lemma UpperCaseAccepted()
    ensures ProductTypeOf(JString("MINUMAN")) == Ok(Minuman)
  {
    UpperCaseFolded();
  }

  /** Surrounding whitespace does not matter when the names are compared. */
  lemma PaddedAccepted()
    ensures ProductTypeOf(JString(" makanan\n")) == Ok(Makanan)
  {
    PaddingTrimmed();
  }

  /** The glued spelling is accepted as the third name. */
  lemma GluedSpellingAccepted()
    ensures ProductTypeOf(JString("tidakdiketahui")) == Ok(TidakDiketahui)
  {
    GluedSpellingMended();
  }

  /** Other text, and any value that is not text, is rejected. */
  lemma OtherProductTypesRejected()
    ensures ProductTypeOf(JString("minuman_ringan")) == Err(InvalidProductType)
    ensures ProductTypeOf(JInt(1)) == Err(InvalidProductType)
  {
    UnknownNameKept();
    var v := "minuman_ringan";
    assert v != "minuman" && v != "makanan" && v != "tidak_diketahui" by {
      assert |v| == 14;
    }
  }

  // ---------------------------------------------------------------------------
  // Serialising an answer, and reading it back
  // ---------------------------------------------------------------------------

  function RealToJson(x: Option<real>): Json {
    match x
    case None => JNull
    case Some(v) => JReal(v)
  }

  function BoolToJson(x: Option<bool>): Json {
    match x
    case None => JNull
    case Some(b) => JBool(b)
  }

  function StringsToJson(xs: seq<string>): Json {
    JArray(seq(|xs|, i requires 0 <= i < |xs| => JString(xs[i])))
  }

  /** `model_dump()` of a nutrition summary: every field written, None as null. */
  function NutritionToJson(n: NutritionSummary): Json {
    JObject(map[
      "sugar_g_100g" := RealToJson(n.sugar),
      "sodium_mg_100g" := RealToJson(n.sodium),
      "protein_g_100g" := RealToJson(n.protein),
      "fiber_g_100g" := RealToJson(n.fiber),
      "fat_sat_g_100g" := RealToJson(n.fatSat)])
  }

  function RecommendationToJson(r: Recommendation): Json {
    JObject(map[
      "rank" := JInt(r.rank),
      "brand" := JString(r.brand),
      "category" := JString(r.category),
      "reasons" := StringsToJson(r.reasons),
      "nutrition" := NutritionToJson(r.nutrition)])
  }

  function AssessmentToJson(p: ProductAssessment): Json {
    JObject(map[
      "product_type" := JString(ProductTypeName(p.productType)),
      "is_safe" := BoolToJson(p.isSafe),
      "reasons" := StringsToJson(p.reasons),
      "summary" := JString(p.summary)])
  }

  function RecommendationsToJson(recs: seq<Recommendation>): seq<Json> {
    seq(|recs|, i requires 0 <= i < |recs| => RecommendationToJson(recs[i]))
  }

  /** `model_dump()` of an answer, as the responses carry it. */
  function AnswerToJson(a: RagAnswer): Json {
    JObject(map[
      "product_assessment" := AssessmentToJson(a.productAssessment),
      "recommendations" := JArray(RecommendationsToJson(a.recommendations)),
      "summary" := JString(a.summary)])
  }

  lemma StringItemsOfStrings(xs: seq<string>)
    ensures StringItems(StringsToJson(xs).items) == Some(xs)
  {
    var items := StringsToJson(xs).items;
    assert forall k :: 0 <= k < |items| ==> items[k] == JString(xs[k]);
    var r := StringItems(items);
    assert r.Some? && |r.value| == |xs|;
    assert forall k :: 0 <= k < |xs| ==> r.value[k] == xs[k];
    assert r.value == xs;
  }

  lemma ParseNutritionOfDump(n: NutritionSummary)
    ensures ParseNutrition(NutritionToJson(n)) == Ok(n)
  {
    var o := NutritionToJson(n).fields;
    assert o.Keys == NutritionFields;
  }

  lemma ParseRecommendationOfDump(r: Recommendation)
    requires r.rank >= 1
    ensures ParseRecommendation(RecommendationToJson(r)) == Ok(r)
  {
    var o := RecommendationToJson(r).fields;
    assert o.Keys == RecommendationFields;
    StringItemsOfStrings(r.reasons);
    ParseNutritionOfDump(r.nutrition);
  }

  /** An assessment object whose four fields read as `p`'s, with no other key, reads as `p`. */
  lemma ParseAssessmentOfFields(o: map<string, Json>, p: ProductAssessment)
    requires "product_type" in o && ProductTypeOf(o["product_type"]) == Ok(p.productType)
    requires OptionalBool(o, "ProductAssessment", "is_safe") == Ok(p.isSafe)
    requires RequiredStringList(o, "ProductAssessment", "reasons") == Ok(p.reasons)
    requires RequiredString(o, "ProductAssessment", "summary") == Ok(p.summary)
    requires o.Keys <= AssessmentFields
    ensures ParseAssessment(JObject(o)) == Ok(p)
  {
  }

  lemma DumpedProductType(p: ProductAssessment)
    ensures var o := AssessmentToJson(p).fields;
      "product_type" in o && ProductTypeOf(o["product_type"]) == Ok(p.productType)
  {
    ProductTypeNameAccepted(p.productType);
  }

  lemma DumpedIsSafe(p: ProductAssessment)
    ensures OptionalBool(AssessmentToJson(p).fields, "ProductAssessment", "is_safe") == Ok(p.isSafe)
  {
    var o := AssessmentToJson(p).fields;
    assert "is_safe" in o && o["is_safe"] == BoolToJson(p.isSafe);
    match p.isSafe
    case None =>
    case Some(b) =>
  }

  lemma DumpedReasonsAndSummary(p: ProductAssessment)
    ensures RequiredStringList(AssessmentToJson(p).fields, "ProductAssessment", "reasons") == Ok(p.reasons)
    ensures RequiredString(AssessmentToJson(p).fields, "ProductAssessment", "summary") == Ok(p.summary)
    ensures AssessmentToJson(p).fields.Keys <= AssessmentFields
  {
    var o := AssessmentToJson(p).fields;
    StringItemsOfStrings(p.reasons);
    assert "reasons" in o && o["reasons"] == StringsToJson(p.reasons);
  }

  lemma ParseAssessmentOfDump(p: ProductAssessment)
    ensures ParseAssessment(AssessmentToJson(p)) == Ok(p)
  {
    DumpedProductType(p);
    DumpedIsSafe(p);
    DumpedReasonsAndSummary(p);
    ParseAssessmentOfFields(AssessmentToJson(p).fields, p);
  }

  lemma ParseRecommendationsOfDump(recs: seq<Recommendation>)
    requires forall k :: 0 <= k < |recs| ==> recs[k].rank >= 1
    ensures ParseRecommendations(RecommendationsToJson(recs)) == Ok(recs)
  {
    var items := RecommendationsToJson(recs);
    forall k | 0 <= k < |recs|
      ensures ParseRecommendation(items[k]) == Ok(recs[k])
    {
      ParseRecommendationOfDump(recs[k]);
    }
    var r := ParseRecommendations(items);
    assert r.Ok?;
    assert r.value == recs;
  }

  /** Reading back a dumped answer whose ranks are at least 1 gives the same answer. */
  lemma ParseRagAnswerOfDump(a: RagAnswer)
    requires forall k :: 0 <= k < |a.recommendations| ==> a.recommendations[k].rank >= 1
    ensures ParseRagAnswer(AnswerToJson(a)) == Ok(a)
  {
    var o := AnswerToJson(a).fields;
    ParseAssessmentOfDump(a.productAssessment);
    ParseRecommendationsOfDump(a.recommendations);
    assert "product_assessment" in o && ParseAssessment(o["product_assessment"]) == Ok(a.productAssessment);
    assert "recommendations" in o && o["recommendations"].JArray?;
    assert ParseRecommendations(o["recommendations"].items) == Ok(a.recommendations);
    assert RequiredString(o, "RagAnswer", "summary") == Ok(a.summary);
    assert o.Keys <= AnswerFields;
  }

  /** A dumped answer is accepted again exactly when it keeps the four rules. */
  lemma ValidateOfDump(a: RagAnswer)
    requires forall k :: 0 <= k < |a.recommendations| ==> a.recommendations[k].rank >= 1
    ensures Validate(AnswerToJson(a)).Ok? <==> AnswerInvariants(a)
    ensures Validate(AnswerToJson(a)).Ok? ==> Validate(AnswerToJson(a)).value == a
  {
    ParseRagAnswerOfDump(a);
  }

  // ---------------------------------------------------------------------------
  // Rejections the cross-field rules imply
  // ---------------------------------------------------------------------------

  /** Two recommendations with the same rank are rejected, before the summary is looked at. */
  lemma RepeatedRankRejected(a: RagAnswer, i: nat, j: nat)
    requires i < j < |a.recommendations|
    requires a.recommendations[i].rank == a.recommendations[j].rank
    ensures LogicCheck(a) == Err(RanksNotSequential)
  {
  }

  /** A rank above the number of recommendations (a gap) is rejected. */
  lemma RankBeyondCountRejected(a: RagAnswer, i: nat)
    requires i < |a.recommendations|
    requires a.recommendations[i].rank > |a.recommendations|
    ensures LogicCheck(a) == Err(RanksNotSequential)
  {
  }

  /** Two well-ranked recommendations with the same key are rejected as duplicates. */
  lemma SameKeyRejected(a: RagAnswer, i: nat, j: nat)
    requires RanksSequential(a.recommendations) && Strip(a.summary) != Sentinel
    requires i < j < |a.recommendations|
    requires Key(a.recommendations[i]) == Key(a.recommendations[j])
    ensures LogicCheck(a) == Err(DuplicateRecommendation)
  {
    KeysAt(a.recommendations, i);
    KeysAt(a.recommendations, j);
  }

  /** `is_safe` may be left out; it is then null, and nothing ties that to the reasons. */
  lemma IsSafeOmittedAccepted(summary: string)
    ensures ParseAssessment(JObject(map[
              "product_type" := JString("minuman"),
              "reasons" := JArray([]),
              "summary" := JString(summary)]))
            == Ok(ProductAssessment(Minuman, None, [], summary))
  {
    ProductTypeNameAccepted(Minuman);
    var o := map["product_type" := JString("minuman"), "reasons" := JArray([]), "summary" := JString(summary)];
    assert "is_safe" !in o;
    assert o.Keys <= AssessmentFields;
  }

  /** Keys compare brand and category after trimming and lower-casing. */
  lemma KeyIgnoresCaseAndPadding(n: NutritionSummary)
    ensures Key(Recommendation(1, "Aqua", "air", [], n)) == Key(Recommendation(2, " AQUA", "Air\t", [], n))
  {
    assert Strip(" AQUA") == "AQUA" by {
      assert LStrip(" AQUA") == LStrip("AQUA");
      StripOfStripped("AQUA");
    }
    assert Strip("Air\t") == "Air" by {
      assert RStrip("Air\t") == RStrip("Air");
      StripOfStripped("Air");
    }
    StripOfStripped("Aqua");
    StripOfStripped("air");
    LowerAt("Aqua");
    LowerAt("AQUA");
    LowerAt("air");
    LowerAt("Air");
  }
}
