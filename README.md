# grains-api, modelled in Dafny

grains-api is a nutrition assistant built on retrieval-augmented generation (RAG). A
request describes a packaged food product: its name, its portion and its nutrition
facts, given by hand or read from a photo by OCR. A user profile may come with it. The
service turns these into prompt texts, passes them to a language model together with
similar products retrieved from a vector store, and accepts the model's answer only if
it passes a strict validator. This project models the service's own logic and proves
properties of it. That logic is:

- **the answer validator** (`Schemas`, schemas.dfy): strict objects that forbid
  undeclared keys, the `product_type` normaliser, the `rank >= 1` bound, and the
  cross-field rules of `_validate_logic`, checked in the source's order. Those rules
  are: the sentinel summary exactly when there are no recommendations, ranks 1..N,
  and no duplicate (brand, category). The raw model output is a JSON value
  (`JsonValue.Json`). `Validate` accepts exactly the well-formed answers that keep the
  rules. The validator's loop over the `seen` set is the method `ValidateLogic`.
- **fence stripping** (`Parsing`, parsing.dfy): `extract_json_from_llm` as a function,
  and as the step-by-step method the source writes. It is proved *not* idempotent.
- **the prompt-text builders** (`Nutrition`, nutrition.dfy): the user-profile block,
  the product block and the search query. Each one is a method that grows a list and
  joins it, and each is proved equal to a specification function whose properties are
  lemmas. The fixed phrases are a `Wording` record. `English` holds the phrases of
  app/services/nutrition.py; `LegacyApp.Indonesian` holds those of app.py.
- **the retrieval pipeline** (`Pipeline`, pipeline.dfy): `fmt`, `format_docs` (a
  method with a loop), the four `resolve_*` input resolvers and `coerce_answer`.
- **the OCR helpers** (`Ocr`, routes_ocr.dfy): the MIME choice and the upload checks,
  the 500-character search query cut from the OCR text, the page concatenation, and
  the chain inputs the OCR route builds.
- **the legacy single-file app** (`LegacyApp`, legacy_app.dfy): its Indonesian wording,
  the `manual_search` precondition and chain inputs, and what it makes of the model's
  text: a bounded snippet when the text is not JSON, and a 500 when it is JSON but not
  an object.

Shared pieces: `Wrappers` holds `Option` and `Result`. `Strings` models Python's
`strip` (with `str.isspace`'s character set), ASCII `lower`, `replace`, `find`, `join`,
`splitlines` (on "\n"), slicing and `str(int)`. `Http` holds the `HTTPException` value.

Inputs the code gets from calls this model cannot see are parameters:

- `str()` of a float (`repr`, `FloatText`);
- `float()` of decimal text;
- `mimetypes.guess_type`;
- `json.loads`;
- `get_attribute` and `build_user_query`. Their definitions are not part of this model.

Behaviour of the code the model keeps, where a reader might expect otherwise:

- Fence stripping is not idempotent (`Parsing.NotIdempotent`). An unfenced reply comes
  back stripped, not unchanged (`Parsing.ExtractJsonTrimmed`).
- The search query lists fact labels only, never their values. Its fallback is
  "healthier packaged food alternatives" (app/services/nutrition.py:54-55).
- The OCR query takes the first six lines of the stripped text, empty lines included,
  not the first six non-empty ones (app/api/routes_ocr.py:45).
- The callers at app/rag/pipeline.py:80 and app/api/routes_manual.py:36-39 pass two
  arguments to `build_search_query`, which has three parameters; see Findings.

## Model

| member | source | states |
|---|---|---|
| Schemas.LogicCheck | app/models/schemas.py:95-126 | accepts exactly the answers keeping the four rules and returns them unchanged; each failure is the one the source checks first (empty list and summary, then ranks, then sentinel, then duplicates) |
| Schemas.ValidateLogic | app/models/schemas.py:117-125 | the loop growing the `seen` set of keys gives the same verdict as the rules |
| Schemas.RanksMatchExpected | app/models/schemas.py:105-107 | `ranks == list(range(1, n + 1))` holds exactly when the i-th rank is i + 1 |
| Schemas.DistinctKeysApart | app/models/schemas.py:117-125 | in an answer keeping the duplicate rule, two positions never share a key |
| Schemas.RepeatedRankRejected | app/models/schemas.py:105-110 | two recommendations with the same rank are rejected with the rank error |
| Schemas.RankBeyondCountRejected | app/models/schemas.py:105-110 | a rank above the count (a gap) is rejected with the rank error |
| Schemas.SameKeyRejected | app/models/schemas.py:117-125 | a well-ranked answer with two equal (brand, category) keys is rejected as a duplicate |
| Schemas.KeyIgnoresCaseAndPadding | app/models/schemas.py:119 | keys compare after `strip().lower()`: "Aqua"/"air" and " AQUA"/"Air\t" collide |
| Schemas.Key | app/models/schemas.py:119 | the duplicate key: brand and category, each stripped and lower-cased; `Schemas.KeyIgnoresCaseAndPadding` and `Schemas.DistinctKeysApart` state its properties |
| Schemas.NormalizeProductType | app/models/schemas.py:52-60 | strings are replaced by their normal form; any other value passes through unchanged |
| Schemas.NormalText | app/models/schemas.py:55-58 | the normal form of a product-type string; `Schemas.NormalizedTextShape`, `Schemas.NormalTextIdempotent` and `Schemas.NormalTextFixed` state its properties |
| Schemas.NormalizedTextShape | app/models/schemas.py:55 | the normalised text is stripped and holds no space and no upper-case letter |
| Schemas.NormalFormFixed | app/models/schemas.py:55 | stripped text without spaces or capitals is unchanged by strip, lower and replace |
| Schemas.NormalTextIdempotent | app/models/schemas.py:55-58 | normalising twice is normalising once |
| Schemas.NormalizeProductTypeIdempotent | app/models/schemas.py:52-60 | the validator applied to its own output changes nothing |
| Schemas.NormalTextFixed | app/models/schemas.py:55-58 | text already in normal form, other than the glued spelling, is its own normal form |
| Schemas.ProductTypeOf | app/models/schemas.py:36-40 | accepted exactly when the normalised value is one of the three names, and then as that name |
| Schemas.ProductTypeOfNormalName | app/models/schemas.py:36-60 | text normalising to a name is accepted as that product type |
| Schemas.ProductTypeNameAccepted | app/models/schemas.py:36 | each of minuman, makanan and tidak_diketahui is accepted as itself |
| Schemas.ProductTypeOfNormalized | app/models/schemas.py:36-60 | validating an already normalised value gives the same verdict |
| Schemas.UpperCaseFolded | app/models/schemas.py:55 | "MINUMAN" normalises to "minuman" |
| Schemas.PaddingTrimmed | app/models/schemas.py:55 | " makanan\n" normalises to "makanan" |
| Schemas.GluedSpellingMended | app/models/schemas.py:56-57 | "tidakdiketahui" becomes "tidak_diketahui" |
| Schemas.UnknownNameKept | app/models/schemas.py:55-58 | "minuman_ringan" is left as it is by the normaliser |
| Schemas.UpperCaseAccepted | app/models/schemas.py:36-60 | "MINUMAN" is accepted as minuman |
| Schemas.PaddedAccepted | app/models/schemas.py:36-60 | " makanan\n" is accepted as makanan |
| Schemas.GluedSpellingAccepted | app/models/schemas.py:36-60 | "tidakdiketahui" is accepted as tidak_diketahui |
| Schemas.OtherProductTypesRejected | app/models/schemas.py:36-60 | "minuman_ringan" and the integer 1 are rejected |
| Schemas.RankOf | app/models/schemas.py:71-72 | a missing rank is a missing-field error; an integer rank is accepted exactly when it is at least 1, as that integer, and refused with the ge=1 error otherwise; a float rank is accepted exactly when it is integral and at least 1, as that number; any other value is a type error |
| Schemas.StringItems | app/models/schemas.py:45-47 | a `List[str]` is accepted exactly when every item is text, item by item |
| Schemas.ParseNutrition | app/models/schemas.py:63-68 | an accepted summary object has declared keys only |
| Schemas.ParseRecommendation | app/models/schemas.py:71-82 | an accepted recommendation has rank at least 1 and no undeclared key at either level |
| Schemas.ParseRecommendations | app/models/schemas.py:87 | the list is accepted exactly when every item is, each giving its own entry in order |
| Schemas.ParseAssessment | app/models/schemas.py:35-60 | declared keys only; an omitted `is_safe` is null; the product type is the validated one |
| Schemas.IsSafeOmittedAccepted | app/models/schemas.py:41-44 | an assessment without `is_safe` and with no reasons is accepted with `is_safe` null |
| Schemas.ParseRagAnswer | app/models/schemas.py:12-13 | an accepted answer came from an object with no undeclared key at any level, and every rank is at least 1 |
| Schemas.Validate | app/models/schemas.py:85-126 | accepted answers keep the four rules; a field error is reported as such; well-formed fields are accepted exactly when the rules hold |
| Schemas.StringItemsOfStrings | app/models/schemas.py:45-47 | a dumped string list reads back as itself |
| Schemas.ParseNutritionOfDump | app/models/schemas.py:63-68 | a dumped nutrition summary reads back as itself |
| Schemas.ParseRecommendationOfDump | app/models/schemas.py:71-82 | a dumped recommendation with rank at least 1 reads back as itself |
| Schemas.ParseAssessmentOfDump | app/models/schemas.py:35-60 | a dumped assessment reads back as itself |
| Schemas.ParseRecommendationsOfDump | app/models/schemas.py:87 | a dumped list of well-ranked recommendations reads back as itself |
| Schemas.ParseRagAnswerOfDump | app/models/schemas.py:85-93 | a dumped answer with ranks at least 1 reads back as itself |
| Schemas.ValidateOfDump | app/models/schemas.py:85-126 | a dumped answer is accepted, as itself, exactly when it keeps the four rules |
| Parsing.AfterFirstLine | app/services/parsing.py:6-8 | with a line break, the result is what follows the first one; without, the whole text |
| Parsing.DropClosingFence | app/services/parsing.py:9-10 | removes one trailing fence when there is one, else nothing |
| Parsing.ExtractJson | app/services/parsing.py:1-13 | the cleaned text of a reply; `Parsing.ExtractJsonTrimmed`, `Parsing.ExtractJsonIsPiece`, `Parsing.FencedAt` and `Parsing.NotIdempotent` state what it does |
| Parsing.ExtractJsonFromLlm | app/services/parsing.py:1-13 | the step-by-step reassignment computes `ExtractJson`; the legacy copy in app.py:272-283 is the same code |
| Parsing.ExtractJsonTrimmed | app/services/parsing.py:3-13 | the result is stripped and no longer than the input; without an opening fence it is `raw.strip()` |
| Parsing.ExtractJsonIsPiece | app/services/parsing.py:3-11 | the result is one contiguous piece of the reply |
| Parsing.FenceLineDropped | app/services/parsing.py:5-8 | everything up to and including the first line break is dropped |
| Parsing.FencedAt | app/services/parsing.py:5-11 | a fenced reply whose first line break is at k yields the stripped rest after k, less one closing fence |
| Parsing.FencedBlock | app/services/parsing.py:5-11 | a fence line, a stripped body and a closing fence yield the body |
| Parsing.FencedJsonExample | app/services/parsing.py:5-11 | "```json\n{\"a\":1}\n```" yields "{\"a\":1}" |
| Parsing.FencedOpenOnly | app/services/parsing.py:5-11 | without a closing fence only the opening line is dropped |
| Parsing.OneClosingFenceOnly | app/services/parsing.py:9-10 | only one closing fence is removed |
| Parsing.DoubleOpeningOnePass | app/services/parsing.py:5-11 | "```\n```\n{}" yields "```\n{}" |
| Parsing.SingleOpeningOnePass | app/services/parsing.py:5-11 | "```\n{}" yields "{}" |
| Parsing.NotIdempotent | app/services/parsing.py:1-13 | stripping twice differs from stripping once on "```\n```\n{}" |
| Nutrition.BuildUserProfileText | app/services/nutrition.py:6-27 | the appending method computes the profile text |
| Nutrition.ProfileText | app/services/nutrition.py:6-27 | the profile block that `Nutrition.BuildUserProfileText` computes; `Nutrition.TruthyFieldLine`, `Nutrition.ProfileLineCount` and `Nutrition.MinimalProfileIff` state its properties |
| Nutrition.TruthyFieldLine | app/services/nutrition.py:10-22 | each truthy field has its labelled line, at the position given by the truthy fields before it |
| Nutrition.PositionIncreasing | app/services/nutrition.py:10-22 | an earlier truthy field's line comes earlier: the fixed field order is kept |
| Nutrition.ProfileLineCount | app/services/nutrition.py:10-22 | there are exactly as many lines as truthy fields |
| Nutrition.MinimalProfileIff | app/services/nutrition.py:24-25 | no lines exactly when all six fields are falsy |
| Nutrition.EnglishFallbacks | app/services/nutrition.py:7-55 | the exact fallback sentences, the "(amount not provided)" serving line and the fallback query |
| Nutrition.StrictProfileTextAsWritten | app/services/nutrition.py:6-11 | the builder as written on the strict profile fails exactly when a profile is present; without one it gives the no-profile sentence |
| Nutrition.StrictProfileFault | app/services/nutrition.py:7-11 | with the strict request profile, every present profile raises on `full_name` |
| Nutrition.WidenedProfile | app/models/schemas.py:31-32 | the strict profile read as the full one keeps its medical history and has the other fields absent |
| Nutrition.StrictProfileCorrected | app/services/nutrition.py:6-27 | on a strict profile the corrected builder writes the medical-history line alone, or the minimal sentence |
| Nutrition.BuildProductProfile | app/services/nutrition.py:30-45 | the method with its loop over the facts computes the product block |
| Nutrition.ServingLine | app/services/nutrition.py:35-38 | the serving line, with the size when it is truthy and the missing-amount phrase otherwise; `Nutrition.ZeroSizeIsMissing` states its zero case |
| Nutrition.ProductProfile | app/services/nutrition.py:30-45 | the product block that `Nutrition.BuildProductProfile` computes; `Nutrition.ProductLineFirst` and `Nutrition.NutritionBlock` state its shape |
| Nutrition.ProductLineFirst | app/services/nutrition.py:31-33 | the product line comes first when the name is truthy; otherwise the serving line does |
| Nutrition.NutritionBlock | app/services/nutrition.py:40-43 | the header appears exactly when there are facts, followed by one "- label: value" line per fact in order |
| Nutrition.ZeroSizeIsMissing | app/services/nutrition.py:35-38 | a zero size gives the same "amount not provided" line as no size |
| Nutrition.BuildSearchQuery | app/services/nutrition.py:48-55 | the method with its loop over the labels computes the search query |
| Nutrition.SearchQuery | app/services/nutrition.py:48-55 | the search query that `Nutrition.BuildSearchQuery` computes; `Nutrition.QueryFallbackIff` and `Nutrition.SearchQueryIgnoresValues` state its properties |
| Nutrition.NonEmptyLabelsAppend | app/services/nutrition.py:54 | the kept labels of two fact runs are the kept labels of each, in order |
| Nutrition.NonEmptyLabelsKept | app/services/nutrition.py:54 | every kept label is non-empty; with no empty label all are kept in order; none kept exactly when all are empty |
| Nutrition.LabelsIgnoreValues | app/services/nutrition.py:54 | facts with the same labels keep the same labels, whatever their values |
| Nutrition.SearchQueryIgnoresValues | app/services/nutrition.py:48-55 | fact values never reach the search query |
| Nutrition.QueryFallbackIff | app/services/nutrition.py:48-55 | there are no parts exactly when the query is empty, the name falsy and every label empty |
| Pipeline.RoundHalfEven | app/rag/pipeline.py:19-20 | `round` gives an integer within one half of its argument |
| Pipeline.RoundNearInteger | app/rag/pipeline.py:19-20 | within the 1e-9 tolerance of an integer, rounding gives that integer |
| Pipeline.Fmt | app/rag/pipeline.py:15-23 | a value `float()` refuses renders as "n/a"; every accepted number ends with the unit |
| Pipeline.FmtNearInteger | app/rag/pipeline.py:15-21 | a number within the tolerance of an integer renders as that integer and the unit |
| Pipeline.FmtIntegers | app/rag/pipeline.py:15-21 | integers render as their digits and the unit, whether stored as int, float or text |
| Pipeline.FmtRefused | app/rag/pipeline.py:22-23 | a value `float()` refuses, a missing one included, renders as "n/a" without the unit |
| Pipeline.FormatDocs | app/rag/pipeline.py:26-42 | the appending loop computes the joined entries, one per document; the legacy formatter in app.py:96-112 is the same loop with the words "serving" and "text" |
| Pipeline.DocEntry | app/rag/pipeline.py:31-41 | every entry starts with "- "; `Pipeline.MissingBrandShownAsUnknown` and `Pipeline.MissingFieldsShownAsUnknown` state its fallbacks |
| Pipeline.FormattedDocs | app/rag/pipeline.py:26-42 | the context that `Pipeline.FormatDocs` computes; `Pipeline.FormattedDocsAppend` and `Pipeline.FormattedDocsSmall` state how it grows |
| Pipeline.FormattedDocsAppend | app/rag/pipeline.py:28-42 | the context of two document runs is the first's, a line break, then the second's |
| Pipeline.FormattedDocsSmall | app/rag/pipeline.py:42 | no documents give ""; one document gives exactly its entry |
| Pipeline.MissingBrandShownAsUnknown | app/rag/pipeline.py:32 | a missing brand name renders as "?" at the head of the entry |
| Pipeline.MissingFieldsShownAsUnknown | app/rag/pipeline.py:33 | a missing category or serving size renders as "?" |
| Pipeline.PrecomputedTextsWin | app/rag/pipeline.py:51-80 | a precomputed key is returned verbatim, whatever else the inputs hold |
| Pipeline.ResolversFallBack | app/rag/pipeline.py:51-71 | without the key each resolver uses its builder; the product resolver fails exactly when there is no product |
| Pipeline.MissingFactsAreEmpty | app/rag/pipeline.py:66-80 | missing facts and an empty list resolve alike |
| Pipeline.ResolveUserProfile | app/rag/pipeline.py:51-55 | the precomputed text, else the builder's; `Pipeline.PrecomputedTextsWin` and `Pipeline.ResolversFallBack` state both cases |
| Pipeline.ResolveUserQuery | app/rag/pipeline.py:58-63 | the precomputed text, else `build_user_query` of the profile's medical history; stated by the same two lemmas |
| Pipeline.ResolveProductProfile | app/rag/pipeline.py:66-71 | fails exactly when there is neither a precomputed text nor a product, and then on the missing `name` attribute |
| Pipeline.ResolveSearchQueryAsWritten | app/rag/pipeline.py:74-80 | succeeds exactly when the query is precomputed; otherwise the call raises for the missing `facts` argument |
| Pipeline.ResolveSearchQuery | app/rag/pipeline.py:74-80 | the corrected resolver; `Pipeline.ResolvedSearchQuery` states what it returns |
| Pipeline.SearchQueryArityFault | app/rag/pipeline.py:74-80 | without a precomputed query the two-argument call raises |
| Pipeline.ResolvedSearchQuery | app/rag/pipeline.py:74-80 | the corrected resolver never raises: the parts are the truthy name, then the non-empty labels; with parts it returns them joined by " ; ", without any it returns the fallback, and there are none exactly when the name is falsy and every label empty |
| Pipeline.CoerceAnswer | app/rag/pipeline.py:45-48 | an answer object passes through unchanged; a raw value is accepted only if it keeps the four rules |
| Pipeline.CoerceDumpAgrees | app/rag/pipeline.py:45-48 | a valid answer coerces alike as an object or as its dictionary; an invalid one's dictionary is refused |
| Ocr.ChooseMime | app/api/routes_ocr.py:24-25 | a non-empty MIME type is always chosen, from the declared type, the guess or "image/jpeg" |
| Ocr.MimePriority | app/api/routes_ocr.py:24-25 | the declared type wins, then the guess, then the default |
| Ocr.CheckUpload | app/api/routes_ocr.py:18-40 | every failure is a 400; an accepted upload has the read bytes, non-empty, and a MIME type |
| Ocr.UploadAcceptedIff | app/api/routes_ocr.py:26-37 | a named file is accepted exactly when it was read and is not empty; empty data gives "File gambar kosong." |
| Ocr.OcrSearchQuery | app/api/routes_ocr.py:43-48 | the query is at most 500 characters |
| Ocr.Snippet | app/api/routes_ocr.py:45 | the first six lines of the stripped text joined by spaces; `Ocr.LaterLinesIgnored` and `Ocr.OcrQueryOneLine` state its properties |
| Ocr.OcrQueryCases | app/api/routes_ocr.py:43-48 | blank text gives the fallback; other text gives a non-empty prefix of the six-line snippet, starting with the text's first character |
| Ocr.OcrQueryOneLine | app/api/routes_ocr.py:45-47 | the query holds no line break |
| Ocr.LaterLinesIgnored | app/api/routes_ocr.py:45 | texts whose first six lines agree give the same query |
| Ocr.ShortLineIsQuery | app/api/routes_ocr.py:45-47 | a stripped single line of at most 500 characters is its own query |
| Ocr.PageTexts | app/api/routes_ocr.py:91-95 | only non-empty page texts are kept |
| Ocr.JoinedMarkdown | app/api/routes_ocr.py:91-96 | the kept page texts joined by blank lines and stripped; `Ocr.OcrMarkdownIff` states when it is accepted |
| Ocr.PageTextsAppend | app/api/routes_ocr.py:91-95 | the kept texts of two page runs are the kept texts of each, in order |
| Ocr.BlankPageSkipped | app/api/routes_ocr.py:91-96 | a page with missing or empty markdown changes nothing wherever it sits |
| Ocr.AllPagesKept | app/api/routes_ocr.py:91-95 | when every page has markdown all of it is kept, in page order |
| Ocr.OcrMarkdown | app/api/routes_ocr.py:85-100 | failures are 500s; accepted markdown is the joined, stripped page text and is not empty |
| Ocr.OcrMarkdownIff | app/api/routes_ocr.py:85-100 | accepted exactly when there are pages and their joined text is not blank, and then stripped; all-blank pages are refused |
| Ocr.OcrChainInputs | app/api/routes_ocr.py:84-119 | the corrected route: the chain inputs exist exactly when the markdown is accepted; the profile text is the corrected builder's, so a present profile does not raise here as it does at line 102 |
| Ocr.OcrChainInputsAsWritten | app/api/routes_ocr.py:84-119 | the route as written: the markdown errors first, then an uncaught missing `full_name` for every present profile; it reaches the chain exactly when the markdown is accepted and no profile was sent, with the corrected route's inputs |
| Ocr.OcrChainInputsShape | app/api/routes_ocr.py:102-119 | the product profile is "Hasil OCR:\n" then the markdown; the query is one line of at most 500 characters; the resolvers return the texts verbatim |
| LegacyApp.IndonesianProfileFallbacks | app.py:153-173 | the exact Indonesian no-profile sentence, and the minimal-profile sentence when all fields are falsy |
| LegacyApp.IndonesianServingMissing | app.py:180-183 | a falsy size gives "Sajian: {unit} (jumlah tidak diisi)" |
| LegacyApp.IndonesianQueryFallback | app.py:193-200 | with no query, name or label the query is "produk makanan kemasan alternatif yang lebih sehat" |
| LegacyApp.ManualSearchInputs | app.py:302-329 | refused, with exactly the 400 "Field 'query' atau product.name wajib diisi.", unless the stripped query is non-empty or the name truthy; an accepted request precomputes the two profile texts, the preference text and the search query, and passes no raw profile, product or facts |
| LegacyApp.UserQuery | app.py:326 | the stripped query, else "Healthier alternatives for" the name or "this product"; `LegacyApp.ManualSearchQueryStartsWithRequest` states it |
| LegacyApp.ManualSearchRejectedIff | app.py:304-309 | refused exactly when the query is blank and the product name falsy |
| LegacyApp.ManualSearchQueryStartsWithRequest | app.py:316-326 | an accepted request's search query is `Nutrition.SearchQuery` of the stripped query, the name and the facts, and starts with the stripped query or the name; the preference text is the query or "Healthier alternatives for {name}" |
| LegacyApp.ManualSearchAnswer | app.py:331-353 | every failure is a 500; the answer is accepted exactly when the cleaned text decodes to a JSON object, the only value `answer: dict` (app.py:146) admits, and is then that object's fields |
| LegacyApp.NonObjectAnswerRefused | app.py:342-353 | text that decodes to a list, string, number, boolean or null is refused with the "RAG error: " 500 carrying the validation message |
| LegacyApp.InvalidJsonDetail | app.py:333-340 | the invalid-JSON detail; `LegacyApp.InvalidJsonSnippetBounded` states its bounds |
| LegacyApp.InvalidJsonSnippetBounded | app.py:333-340 | the failure detail carries at most 200 characters of the cleaned text, from its start, and all of it when it is that short |
| Strings.StripFacts | app/services/parsing.py:3 | `strip()` gives a stripped piece no longer than its input, with whitespace on both sides, empty exactly when the input is all whitespace |
| Strings.FindChar | app/services/parsing.py:6 | `find` gives the first index of the character, or -1 exactly when it is absent |
| Strings.JoinAppend | app/rag/pipeline.py:42 | joining two non-empty lists puts one separator between their joins |
| Strings.Take | app.py:336 | a slice `[:n]` is a prefix of at most n items, the whole list when it is short |
| Strings.ParseIntOfIntToString | app/rag/pipeline.py:18 | `float()` of an integer's text reads back that integer |

## Left out

- The LangChain chain, the retriever and vector store, the Gemini and Mistral clients,
  embeddings and the prompt template: these are remote calls. Their results are
  parameters (the OCR pages, the model's text or object), and their rules for the
  model are not invariants of the code.
- Configuration, database connection and health checks (app/core/), app/main.py,
  app/api/routes_misc.py, app/api/routes_manual.py and the FastAPI handler plumbing:
  this is routing and environment handling. Only the handlers' preconditions and the
  inputs they build are modelled.
- Pipeline.Fmt: the non-integral branch, `round(v, 2)` on binary floats and their
  `str()`, is an abstract function (`FloatText.showRounded`). `float()` of decimal text
  and of "nan"/"inf" is abstract too. Values are exact reals, so float precision and
  integers beyond 2^53 are not modelled.
- Nutrition.ServingLine: the `str()` of the portion size is the parameter `repr`.
  `str(None)` for missing allergens is modelled as "None".
- Ocr.CheckUpload: returns the bytes rather than their base64 text. `mimetypes` is a
  parameter.
- The OCR route's parsing of the `userProfile` form field (`json.loads` and validation)
  and its 400 error are not modelled. The route takes the parsed strict profile.
- Strings.SplitLines: only "\n" breaks lines. The other breaks Python's `splitlines`
  knows ("\r", "\u2028" and others) are not modelled.
- Strings.Lower: lower-cases ASCII letters only.
- Schemas.ParseRagAnswer: reports only the first field error, not Pydantic's full list.
  Pydantic's lax coercions beyond integral floats for `rank` and integers for floats
  are not modelled.
- Pipeline.ChainInputs: a key present with the value None is not distinguished from
  an absent key.
- LegacyApp.ManualSearchAnswer: app.py's `rag_chain` returns the model's raw text. The
  decoded object's fields are not checked against `RagAnswer`, because `answer: dict`
  at app.py:146 asks only for an object. The text of Pydantic's validation error is the
  parameter `invalidAnswer`.
- Ocr.OcrChainInputs: models the route with the corrected profile builder. The route
  as written raises for every present profile; that is `Ocr.OcrChainInputsAsWritten`,
  and the uncaught exception's 500 response is not modelled beyond `Ocr.Raised`.

## Findings

| source | as written | input that shows it | evidently intended | confidence | as-written member | corrected member |
|---|---|---|---|---|---|---|
| app/rag/pipeline.py:80 | `build_search_query(product_name, facts)` passes two arguments to the three-parameter function of app/services/nutrition.py:48, which raises `TypeError` for the missing `facts`. app/api/routes_manual.py:36-39 makes the same call. | chain inputs without "search_query" | the two-parameter query, with no free-text part: the name, then the non-empty labels | high, not executed | Pipeline.SearchQueryArityFault | Pipeline.ResolvedSearchQuery |
| app/services/nutrition.py:11 | the builder reads `full_name`, `gender`, `height`, `weight` and `birth_date`, but the strict `UserProfile` of app/models/schemas.py:31-32 has only `medical_history`. Every present profile raises `AttributeError`, and both routes pass that strict profile. | `UserProfile(medical_history="diabetes")` | missing fields read as absent: only the medical-history line, or the minimal-profile sentence | high, not executed | Nutrition.StrictProfileFault | Nutrition.StrictProfileCorrected |

`Pipeline.SearchQueryArityFault` is about `Pipeline.ResolveSearchQueryAsWritten`, and
`Pipeline.ResolvedSearchQuery` about `Pipeline.ResolveSearchQuery`.
`Nutrition.StrictProfileFault` is about `Nutrition.StrictProfileTextAsWritten`.
`Nutrition.StrictProfileCorrected` is about `Nutrition.ProfileText` on
`Nutrition.WidenedProfile`, which `Ocr.OcrChainInputs` uses. On the OCR route the fault
is `Ocr.OcrChainInputsAsWritten`, which fails for every present profile.
