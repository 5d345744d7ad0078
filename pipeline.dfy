/**
 * The retrieval context formatter, the chain-input resolvers and the answer coercion
 * of the RAG pipeline (app/rag/pipeline.py), with the legacy formatter of app.py as
 * a second wording.
 */
module Pipeline {
  import opened Wrappers
  import opened Strings
  import opened JsonValue
  import opened Schemas
  import opened Nutrition

  // ---------------------------------------------------------------------------
  // Metadata values and their rendering
  // ---------------------------------------------------------------------------

  /**
   * A value in a retrieved document's metadata. `VOther` is any other object: it
   * renders as its `text` and `float()` refuses it.
   */
  datatype Value =
    | VNull
    | VBool(b: bool)
    | VInt(i: int)
    | VNum(x: real)
    | VStr(s: string)
    | VOther(text: string)

  /**
   * How Python turns floats into text and reads decimal text, left abstract:
   * `showFloat` is `str(x)`, `showRounded` is `str(round(x, 2))`, and `parseDecimal`
   * is `float(s)` on text that is not a plain integer.
   */
  datatype FloatText = FloatText(
    showFloat: real -> string,
    showRounded: real -> string,
    parseDecimal: string -> Option<real>)

  /** `str(v)` inside an f-string. */
  function Show(v: Value, ft: FloatText): string {
    match v
    case VNull => "None"
    case VBool(b) => if b then "True" else "False"
    case VInt(i) => IntToString(i)
    case VNum(x) => ft.showFloat(x)
    case VStr(s) => s
    case VOther(t) => t
  }

  /** `m.get(key, default)`. */
  function Get(m: map<string, Value>, key: string, default: Value): Value {
    if key in m then m[key] else default
  }

  /** `float(v)`, or None where Python raises. */
  function ToFloat(v: Value, ft: FloatText): Option<real> {
    match v
    case VNull => None
    case VBool(b) => Some(if b then 1.0 else 0.0)
    case VInt(i) => Some(i as real)
    case VNum(x) => Some(x)
    case VStr(s) =>
      (match ParseInt(s)
       case Some(i) => Some(i as real)
       case None => ft.parseDecimal(s))
    case VOther(_) => None
  }

  /** Python's `round(x)`: the nearest integer, ties to the even one. */
  function RoundHalfEven(x: real): (r: int)
    ensures x - 0.5 <= r as real <= x + 0.5
  {
    var f := x.Floor;
    var d := x - f as real;
    if d < 0.5 then f
    else if d > 0.5 then f + 1
    else if f % 2 == 0 then f
    else f + 1
  }

  function Abs(x: real): real {
    if x < 0.0 then -x else x
  }

  const Tolerance: real := 0.000000001

  /**
   * `fmt(x, unit)`: a value within the tolerance of an integer renders as that integer,
   * another number as its rounding to two places, both followed by the unit; a value
   * `float()` refuses renders as "n/a".
   */
  function Fmt(v: Value, unit: string, ft: FloatText): (r: string)
    ensures ToFloat(v, ft).None? ==> r == "n/a"
    ensures ToFloat(v, ft).Some? ==> |unit| <= |r| && r[|r| - |unit|..] == unit
  {
    match ToFloat(v, ft)
    case None => "n/a"
    case Some(x) =>
      var n := RoundHalfEven(x);
      if Abs(x - n as real) < Tolerance then IntToString(n) + unit
      else ft.showRounded(x) + unit
  }

  /** Within the tolerance of an integer, rounding gives that integer. */
  lemma RoundNearInteger(x: real, i: int)
    requires Abs(x - i as real) < Tolerance
    ensures RoundHalfEven(x) == i
  {
    if x >= i as real {
      assert x.Floor == i;
    } else {
      assert x.Floor == i - 1;
    }
  }

  /** A number within the tolerance of an integer renders as that integer and the unit. */
  lemma FmtNearInteger(v: Value, unit: string, ft: FloatText, i: int)
    requires ToFloat(v, ft).Some? && Abs(ToFloat(v, ft).value - i as real) < Tolerance
    ensures Fmt(v, unit, ft) == IntToString(i) + unit
  {
    RoundNearInteger(ToFloat(v, ft).value, i);
  }

  /** Integers render as their digits and the unit, whether stored as numbers or as text. */
  lemma FmtIntegers(i: int, unit: string, ft: FloatText)
    ensures Fmt(VInt(i), unit, ft) == IntToString(i) + unit
    ensures Fmt(VNum(i as real), unit, ft) == IntToString(i) + unit
    ensures Fmt(VStr(IntToString(i)), unit, ft) == IntToString(i) + unit
  {
    FmtNearInteger(VInt(i), unit, ft, i);
    FmtNearInteger(VNum(i as real), unit, ft, i);
    ParseIntOfIntToString(i);
    FmtNearInteger(VStr(IntToString(i)), unit, ft, i);
  }

  /** A missing value, and anything else `float()` refuses, renders as "n/a" without the unit. */
  lemma FmtRefused(m: map<string, Value>, key: string, v: Value, unit: string, ft: FloatText)
    requires ToFloat(v, ft).None?
    ensures Fmt(v, unit, ft) == "n/a"
    ensures key !in m ==> Fmt(Get(m, key, VNull), unit, ft) == "n/a"
  {
  }

  // ---------------------------------------------------------------------------
  // format_docs
  // ---------------------------------------------------------------------------

  /** A retrieved document: its metadata and its page content. */
  datatype Doc = Doc(metadata: map<string, Value>, pageContent: string)

  /**
   * The two words that differ between the pipeline's formatter ("porsi", "teks") and
   * the legacy one in app.py ("serving", "text").
   */
  datatype DocWording = DocWording(servingWord: string, textWord: string)

  const PipelineDocs := DocWording("porsi", "teks")

  /** One context snippet: the header line with the nutrient values, then the page text. */
  function DocEntry(dw: DocWording, d: Doc, ft: FloatText): (r: string)
    ensures |r| >= 2 && r[..2] == "- "
  {
    "- " + Show(Get(d.metadata, "brand_name", VStr("?")), ft) + " (" + DocDetails(dw, d, ft)
  }

  /** The snippet after the brand: category, serving, nutrients, allergens and page text. */
  function DocDetails(dw: DocWording, d: Doc, ft: FloatText): string {
    var m := d.metadata;
    Show(Get(m, "category", VStr("?")), ft) + ", " + dw.servingWord + " "
    + Show(Get(m, "serving_size_raw", VStr("?")), ft) + ") "
    + Nutrients(m, ft)
    + "Alergen=" + Show(Get(m, "allergens", VNull), ft) + ".\n"
    + "  " + dw.textWord + ": " + d.pageContent
  }

  /** The five per-100 g figures, each through `fmt`. */
  function Nutrients(m: map<string, Value>, ft: FloatText): string {
    "Na=" + Fmt(Get(m, "sodium_mg_100g", VNull), " mg/100g", ft) + ", "
    + "Gula=" + Fmt(Get(m, "sugars_g_100g", VNull), " g/100g", ft) + ", "
    + "Serat=" + Fmt(Get(m, "fiber_g_100g", VNull), " g/100g", ft) + ", "
    + "Protein=" + Fmt(Get(m, "protein_g_100g", VNull), " g/100g", ft) + ", "
    + "Lemak Jenuh=" + Fmt(Get(m, "fat_sat_g_100g", VNull), " g/100g", ft) + "; "
  }

  function DocEntries(dw: DocWording, docs: seq<Doc>, ft: FloatText): (r: seq<string>)
    ensures |r| == |docs|
  {
    Map(d => DocEntry(dw, d, ft), docs)
  }

  /** `format_docs` as a value. */
  function FormattedDocs(dw: DocWording, docs: seq<Doc>, ft: FloatText): string {
    Join(DocEntries(dw, docs, ft), "\n")
  }

  /** `format_docs`: one entry per document appended in order, joined by line breaks. */
  method FormatDocs(dw: DocWording, docs: seq<Doc>, ft: FloatText) returns (text: string)
    ensures text == FormattedDocs(dw, docs, ft)
  {
    var out: seq<string> := [];
    for i := 0 to |docs|
      invariant |out| == i
      invariant forall k :: 0 <= k < i ==> out[k] == DocEntry(dw, docs[k], ft)
    {
      out := out + [DocEntry(dw, docs[i], ft)];
    }
    assert out == DocEntries(dw, docs, ft);
    return Join(out, "\n");
  }

  /**
   * The formatted context of two runs of documents is the context of the first, a
   * line break, and the context of the second: the entries keep the input order.
   */
  lemma FormattedDocsAppend(dw: DocWording, a: seq<Doc>, b: seq<Doc>, ft: FloatText)
    requires a != [] && b != []
    ensures FormattedDocs(dw, a + b, ft) == FormattedDocs(dw, a, ft) + "\n" + FormattedDocs(dw, b, ft)
  {
    MapAppend(d => DocEntry(dw, d, ft), a, b);
    JoinAppend(DocEntries(dw, a, ft), DocEntries(dw, b, ft), "\n");
  }

  /** No documents give the empty context; one document gives exactly its entry. */
  lemma FormattedDocsSmall(dw: DocWording, d: Doc, ft: FloatText)
    ensures FormattedDocs(dw, [], ft) == ""
    ensures FormattedDocs(dw, [d], ft) == DocEntry(dw, d, ft)
  {
    assert DocEntries(dw, [d], ft) == [DocEntry(dw, d, ft)];
  }

  /** A missing brand name renders as "?", and the entry starts with it. */
  lemma MissingBrandShownAsUnknown(dw: DocWording, d: Doc, ft: FloatText)
    requires "brand_name" !in d.metadata
    ensures DocEntry(dw, d, ft)[..5] == "- ? ("
  {
    var rest := DocDetails(dw, d, ft);
    assert DocEntry(dw, d, ft) == "- ? (" + rest;
  }

  /** A missing category or serving size renders as "?" as well. */
  lemma MissingFieldsShownAsUnknown(d: Doc, ft: FloatText)
    requires "category" !in d.metadata && "serving_size_raw" !in d.metadata
    ensures Show(Get(d.metadata, "category", VStr("?")), ft) == "?"
    ensures Show(Get(d.metadata, "serving_size_raw", VStr("?")), ft) == "?"
  {
  }

  // ---------------------------------------------------------------------------
  // Chain inputs and their resolvers
  // ---------------------------------------------------------------------------

  /**
   * The input dictionary of the chain. A `Some` stands for a key that is present (and
   * not None); the first, third, fourth and last fields are the precomputed texts.
   */
  datatype ChainInputs = ChainInputs(
    userProfileText: Option<string>,
    userProfile: Option<UserProfile>,
    userQuery: Option<string>,
    productProfileText: Option<string>,
    product: Option<Product>,
    nutritionFacts: Option<seq<NutritionFact>>,
    searchQuery: Option<string>)

  /** What Python raises: an attribute read on None, or a call missing an argument. */
  datatype PyError = MissingAttribute(attribute: string) | MissingArgument(parameter: string)

  /** `inputs.get("nutritionFacts") or []`. */
  function FactsOf(inputs: ChainInputs): seq<NutritionFact> {
    inputs.nutritionFacts.GetOr([])
  }

  function ResolveUserProfile(inputs: ChainInputs): string {
    match inputs.userProfileText
    case Some(t) => t
    case None => ProfileText(English, inputs.userProfile)
  }

  /**
   * `get_attribute(user, "medical_history")` and `build_user_query` are defined
   * outside the files modelled here, so they are parameters.
   */
  function ResolveUserQuery(
    inputs: ChainInputs,
    medicalHistoryOf: Option<UserProfile> -> Option<string>,
    buildUserQuery: Option<string> -> string): string
  {
    match inputs.userQuery
    case Some(t) => t
    case None => buildUserQuery(medicalHistoryOf(inputs.userProfile))
  }

  /** Without a product, `build_product_profile` reads `.name` of None and raises. */
  function ResolveProductProfile(inputs: ChainInputs, repr: real -> string): (r: Result<string, PyError>)
    ensures r.Err? <==> inputs.productProfileText.None? && inputs.product.None?
    ensures r.Err? ==> r.error == MissingAttribute("name")
  {
    match inputs.productProfileText
    case Some(t) => Ok(t)
    case None =>
      match inputs.product
      case None => Err(MissingAttribute("name"))
      case Some(p) => Ok(ProductProfile(English, p, FactsOf(inputs), repr))
  }

  /**
   * `resolve_search_query` as written: it passes two arguments to the three-parameter
   * `build_search_query`, so the name lands in `query`, the facts in `product_name`,
   * and the call raises for the missing `facts`.
   */
  function ResolveSearchQueryAsWritten(inputs: ChainInputs, nameOf: Option<Product> -> Option<string>): (r: Result<string, PyError>)
    ensures r.Ok? <==> inputs.searchQuery.Some?
    ensures r.Err? ==> r.error == MissingArgument("facts")
  {
    match inputs.searchQuery
    case Some(t) => Ok(t)
    case None => Err(MissingArgument("facts"))
  }

  /** `resolve_search_query` with the evidently intended call: no free-text query, the name and the facts. */
  function ResolveSearchQuery(inputs: ChainInputs, nameOf: Option<Product> -> Option<string>): string {
    match inputs.searchQuery
    case Some(t) => t
    case None => SearchQuery(English, "", nameOf(inputs.product), FactsOf(inputs))
  }

  /** Whenever the chain is invoked without a precomputed search query, the call as written raises. */
  lemma SearchQueryArityFault(inputs: ChainInputs, nameOf: Option<Product> -> Option<string>)
    requires inputs.searchQuery.None?
    ensures ResolveSearchQueryAsWritten(inputs, nameOf) == Err(MissingArgument("facts"))
  {
  }

  /**
   * The corrected resolver never raises; without a precomputed query it yields the
   * name and the non-empty labels joined by " ; ", or the fallback when there are none.
   */
  lemma ResolvedSearchQuery(inputs: ChainInputs, nameOf: Option<Product> -> Option<string>)
    requires inputs.searchQuery.None?
    ensures var name := nameOf(inputs.product);
      var parts := QueryParts("", name, FactsOf(inputs));
      && parts == (if Truthy(name) then [name.value] else []) + NonEmptyLabels(FactsOf(inputs))
      && (parts != [] ==> ResolveSearchQuery(inputs, nameOf) == Join(parts, " ; "))
      && (parts == [] ==> ResolveSearchQuery(inputs, nameOf) == English.queryFallback)
      && (parts == [] <==> !Truthy(name) && forall i :: 0 <= i < |FactsOf(inputs)| ==> FactsOf(inputs)[i].labelText == "")
  {
    QueryFallbackIff("", nameOf(inputs.product), FactsOf(inputs));
  }

  /**
   * A precomputed text is returned verbatim, whatever else the inputs hold: two inputs
   * that agree on the precomputed key resolve alike.
   */
  lemma PrecomputedTextsWin(
    a: ChainInputs, b: ChainInputs, repr: real -> string,
    medicalHistoryOf: Option<UserProfile> -> Option<string>,
    buildUserQuery: Option<string> -> string,
    nameOf: Option<Product> -> Option<string>)
    ensures a.userProfileText.Some? && a.userProfileText == b.userProfileText ==>
      ResolveUserProfile(a) == ResolveUserProfile(b) == a.userProfileText.value
    ensures a.userQuery.Some? && a.userQuery == b.userQuery ==>
      ResolveUserQuery(a, medicalHistoryOf, buildUserQuery) == ResolveUserQuery(b, medicalHistoryOf, buildUserQuery) == a.userQuery.value
    ensures a.productProfileText.Some? && a.productProfileText == b.productProfileText ==>
      ResolveProductProfile(a, repr) == ResolveProductProfile(b, repr) == Ok(a.productProfileText.value)
    ensures a.searchQuery.Some? && a.searchQuery == b.searchQuery ==>
      ResolveSearchQuery(a, nameOf) == ResolveSearchQuery(b, nameOf) == a.searchQuery.value
  {
  }

  /** Without the precomputed keys, the resolvers fall back to the builders. */
  lemma ResolversFallBack(
    inputs: ChainInputs, repr: real -> string,
    medicalHistoryOf: Option<UserProfile> -> Option<string>,
    buildUserQuery: Option<string> -> string)
    ensures inputs.userProfileText.None? ==>
      ResolveUserProfile(inputs) == ProfileText(English, inputs.userProfile)
    ensures inputs.userQuery.None? ==>
      ResolveUserQuery(inputs, medicalHistoryOf, buildUserQuery) == buildUserQuery(medicalHistoryOf(inputs.userProfile))
    ensures inputs.productProfileText.None? ==>
      (ResolveProductProfile(inputs, repr).Err? <==> inputs.product.None?)
    ensures inputs.productProfileText.None? && inputs.product.Some? ==>
      ResolveProductProfile(inputs, repr) == Ok(ProductProfile(English, inputs.product.value, FactsOf(inputs), repr))
  {
  }

  /** Missing facts and an empty fact list are the same to both fact-reading resolvers. */
  lemma MissingFactsAreEmpty(inputs: ChainInputs, repr: real -> string, nameOf: Option<Product> -> Option<string>)
    ensures ResolveProductProfile(inputs.(nutritionFacts := None), repr)
         == ResolveProductProfile(inputs.(nutritionFacts := Some([])), repr)
    ensures ResolveSearchQuery(inputs.(nutritionFacts := None), nameOf)
         == ResolveSearchQuery(inputs.(nutritionFacts := Some([])), nameOf)
  {
  }

  // ---------------------------------------------------------------------------
  // coerce_answer
  // ---------------------------------------------------------------------------

  /** What the structured model call hands back: an answer object, or a raw dictionary. */
  datatype ModelOutput = Parsed(answer: RagAnswer) | Raw(json: Json)

  /** `coerce_answer`: an answer object passes through, anything else is validated. */
  function CoerceAnswer(v: ModelOutput): (r: Result<RagAnswer, ValidationError>)
    ensures v.Parsed? ==> r == Ok(v.answer)
    ensures v.Raw? && r.Ok? ==> AnswerInvariants(r.value)
  {
    match v
    case Parsed(a) => Ok(a)
    case Raw(j) => Validate(j)
  }

  /**
   * Handing over a valid answer as an object or as its dictionary makes no difference;
   * an invalid answer's dictionary is refused.
   */
  lemma CoerceDumpAgrees(a: RagAnswer)
    requires forall k :: 0 <= k < |a.recommendations| ==> a.recommendations[k].rank >= 1
    ensures AnswerInvariants(a) ==> CoerceAnswer(Raw(AnswerToJson(a))) == CoerceAnswer(Parsed(a))
    ensures !AnswerInvariants(a) ==> CoerceAnswer(Raw(AnswerToJson(a))).Err?
  {
    ValidateOfDump(a);
  }
}
