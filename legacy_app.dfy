/**
 * The single-file service of app.py: the Indonesian wording of the prompt builders,
 * its own context formatter wording, the preconditions of the manual search, the
 * chain inputs it assembles, and the handling of the model's JSON text.
 */
module LegacyApp {
  import opened Wrappers
  import opened Strings
  import opened JsonValue
  import opened Schemas
  import opened Nutrition
  import opened Pipeline
  import opened Parsing
  import opened Http

  /** The phrases of app.py's builders. */
  const Indonesian: Wording := Wording(
    "Tidak ada data profil pengguna. Gunakan asumsi umum dan rekomendasi aman.",
    "Profil pengguna minim. Berikan rekomendasi umum yang aman.",
    "Nama: ",
    "Jenis kelamin: ",
    "Tinggi: ",
    "Berat: ",
    "Lahir: ",
    "Riwayat medis penting: ",
    "Produk: ",
    "Sajian: ",
    " (jumlah tidak diisi)",
    "Nutrisi per sajian:",
    "produk makanan kemasan alternatif yang lebih sehat")

  /** app.py's formatter writes "serving" and "text" where the pipeline's writes "porsi" and "teks". */
  const LegacyDocs := DocWording("serving", "text")

  /** The two profile fallbacks of app.py, and when each is used. */
  lemma IndonesianProfileFallbacks(u: UserProfile)
    ensures ProfileText(Indonesian, None) == "Tidak ada data profil pengguna. Gunakan asumsi umum dan rekomendasi aman."
    ensures (forall i :: 0 <= i < ProfileFieldCount ==> !Truthy(FieldValue(u, i))) ==>
      ProfileText(Indonesian, Some(u)) == "Profil pengguna minim. Berikan rekomendasi umum yang aman."
  {
    MinimalProfileIff(Indonesian, u);
  }

  /** A falsy size gives the "amount not filled in" serving line. */
  lemma IndonesianServingMissing(size: Option<real>, unit: string, repr: real -> string)
    requires !SizeTruthy(size)
    ensures ServingLine(Indonesian, Portion(size, unit), repr) == "Sajian: " + unit + " (jumlah tidak diisi)"
  {
  }

  /** With no query, no name and no label, the Indonesian fallback query is used. */
  lemma IndonesianQueryFallback(facts: seq<NutritionFact>)
    requires forall i :: 0 <= i < |facts| ==> facts[i].labelText == ""
    ensures SearchQuery(Indonesian, "", None, facts) == "produk makanan kemasan alternatif yang lebih sehat"
  {
    QueryFallbackIff("", None, facts);
  }

  // ---------------------------------------------------------------------------
  // manual_search
  // ---------------------------------------------------------------------------

  /** The body of a manual search request; the profile is the one with every field. */
  datatype ManualSearchRequest = ManualSearchRequest(
    query: string,
    product: Product,
    nutritionFacts: seq<NutritionFact>,
    userProfile: Option<UserProfile>)

  const QueryOrNameRequired := HttpError(400, "Field 'query' atau product.name wajib diisi.")

  /** The preference text sent with the request: the query, or a sentence naming the product. */
  function UserQuery(q: string, name: Option<string>): string {
    if q != "" then q
    else "Healthier alternatives for " + (if Truthy(name) then name.value else "this product")
  }

  /**
   * The inputs `manual_search` hands the chain, all four texts precomputed, or the 400
   * error raised before the chain is invoked. `repr` is Python's `str()` of a float.
   */
  function ManualSearchInputs(req: ManualSearchRequest, repr: real -> string): (r: Result<ChainInputs, HttpError>)
    ensures r.Err? ==> r.error == QueryOrNameRequired
    ensures r.Ok? <==> Strip(req.query) != "" || Truthy(req.product.name)
    ensures r.Ok? ==>
      var q := Strip(req.query);
      && r.value.userProfileText == Some(ProfileText(Indonesian, req.userProfile))
      && r.value.userQuery == Some(UserQuery(q, req.product.name))
      && r.value.productProfileText == Some(ProductProfile(Indonesian, req.product, req.nutritionFacts, repr))
      && r.value.searchQuery == Some(SearchQuery(Indonesian, q, req.product.name, req.nutritionFacts))
      && r.value.userProfile.None? && r.value.product.None? && r.value.nutritionFacts.None?
  {
    var q := Strip(req.query);
    if q == "" && !Truthy(req.product.name) then Err(QueryOrNameRequired)
    else
      Ok(ChainInputs(
        userProfileText := Some(ProfileText(Indonesian, req.userProfile)),
        userProfile := None,
        userQuery := Some(UserQuery(q, req.product.name)),
        productProfileText := Some(ProductProfile(Indonesian, req.product, req.nutritionFacts, repr)),
        product := None,
        nutritionFacts := None,
        searchQuery := Some(SearchQuery(Indonesian, q, req.product.name, req.nutritionFacts))))
  }

  /** The request is refused exactly when the stripped query is empty and the name is falsy. */
  lemma ManualSearchRejectedIff(req: ManualSearchRequest, repr: real -> string)
    ensures ManualSearchInputs(req, repr).Err? <==> AllSpace(req.query) && !Truthy(req.product.name)
  {
    StripFacts(req.query);
  }

  /**
   * An accepted request never falls back to the generic query: the search query is the
   * stripped query or the name, followed by the other parts after " ; ".
   */
  lemma ManualSearchQueryStartsWithRequest(req: ManualSearchRequest, repr: real -> string)
    requires ManualSearchInputs(req, repr).Ok?
    ensures var c := ManualSearchInputs(req, repr).value;
      var q := Strip(req.query);
      var first := if q != "" then q else req.product.name.value;
      && c.searchQuery == Some(SearchQuery(Indonesian, q, req.product.name, req.nutritionFacts))
      && |first| <= |c.searchQuery.value| && c.searchQuery.value[..|first|] == first
      && c.userQuery == Some(if q != "" then q else "Healthier alternatives for " + first)
  {
    var q := Strip(req.query);
    var parts := QueryParts(q, req.product.name, req.nutritionFacts);
    assert parts != [];
    JoinStartsWithFirst(parts, " ; ");
  }

  // ---------------------------------------------------------------------------
  // The model's JSON text
  // ---------------------------------------------------------------------------

  const SnippetLimit: nat := 200

  /** The 500 detail for text that is not JSON: the decoder's message and the cleaned text's head. */
  function InvalidJsonDetail(cleaned: string, message: string): string {
    "Model did not return valid JSON: " + message + ". Cleaned snippet: " + Take(cleaned, SnippetLimit)
  }

  /** The 500 detail of any other exception inside `manual_search`'s `try`. */
  function RagErrorDetail(message: string): string {
    "RAG error: " + message
  }

  /**
   * What `manual_search` makes of the model's text: the fences are stripped and the rest
   * decoded; `loads` stands for `json.loads`, with the decoder's message on failure.
   * The response's `answer: dict` field accepts only a JSON object; for any other value
   * the validation error, whose text is `invalidAnswer`, becomes the "RAG error" 500.
   */
  function ManualSearchAnswer(raw: string, loads: string -> Result<Json, string>, invalidAnswer: Json -> string):
    (r: Result<map<string, Json>, HttpError>)
    ensures r.Err? ==> r.error.status == 500
    ensures r.Ok? <==> loads(ExtractJson(raw)).Ok? && loads(ExtractJson(raw)).value.JObject?
    ensures r.Ok? ==> loads(ExtractJson(raw)).value == JObject(r.value)
  {
    var cleaned := ExtractJson(raw);
    match loads(cleaned)
    case Err(message) => Err(HttpError(500, InvalidJsonDetail(cleaned, message)))
    case Ok(j) =>
      if j.JObject? then Ok(j.fields) else Err(HttpError(500, RagErrorDetail(invalidAnswer(j))))
  }

  /**
   * Text that decodes to something other than an object (a list, a string, a number,
   * a boolean or null) is refused with the "RAG error" 500, not the invalid-JSON one.
   */
  lemma NonObjectAnswerRefused(raw: string, loads: string -> Result<Json, string>, invalidAnswer: Json -> string)
    requires loads(ExtractJson(raw)).Ok? && !loads(ExtractJson(raw)).value.JObject?
    ensures var r := ManualSearchAnswer(raw, loads, invalidAnswer);
      && r.Err? && r.error.status == 500
      && |"RAG error: "| <= |r.error.detail| && r.error.detail[..|"RAG error: "|] == "RAG error: "
      && r.error.detail == RagErrorDetail(invalidAnswer(loads(ExtractJson(raw)).value))
  {
    var d := RagErrorDetail(invalidAnswer(loads(ExtractJson(raw)).value));
    assert d[..|"RAG error: "|] == "RAG error: ";
  }

  /**
   * A decoding failure reports at most 200 characters of the cleaned text, taken from
   * its start, and the whole of it when it is that short.
   */
  lemma InvalidJsonSnippetBounded(raw: string, loads: string -> Result<Json, string>, invalidAnswer: Json -> string)
    requires loads(ExtractJson(raw)).Err?
    ensures var cleaned := ExtractJson(raw);
      var head := "Model did not return valid JSON: " + loads(cleaned).error + ". Cleaned snippet: ";
      var r := ManualSearchAnswer(raw, loads, invalidAnswer);
      && r.Err? && |head| <= |r.error.detail| && r.error.detail[..|head|] == head
      && |r.error.detail| - |head| <= SnippetLimit
      && r.error.detail[|head|..] <= cleaned
      && (|cleaned| <= SnippetLimit ==> r.error.detail[|head|..] == cleaned)
  {
    var cleaned := ExtractJson(raw);
    var head := "Model did not return valid JSON: " + loads(cleaned).error + ". Cleaned snippet: ";
    assert ManualSearchAnswer(raw, loads, invalidAnswer).error.detail == head + Take(cleaned, SnippetLimit);
  }
}
