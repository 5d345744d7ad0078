/**
 * The pure helpers of the OCR route (app/api/routes_ocr.py): the choice of the image
 * MIME type and the upload checks, the search query cut from the OCR text, the
 * concatenation of the page texts, and the chain inputs the route assembles.
 */
module Ocr {
  import opened Wrappers
  import opened Strings
  import opened Schemas
  import opened Nutrition
  import opened Pipeline
  import opened Http

  // ---------------------------------------------------------------------------
  // The upload
  // ---------------------------------------------------------------------------

  const DefaultMime := "image/jpeg"

  /** The declared content type, else the type guessed from the file name, else JPEG. */
  function ChooseMime(contentType: Option<string>, guessed: Option<string>): (r: string)
    ensures r != ""
    ensures r == DefaultMime || (Truthy(contentType) && r == contentType.value) || (Truthy(guessed) && r == guessed.value)
  {
    if Truthy(contentType) then contentType.value
    else if Truthy(guessed) then guessed.value
    else DefaultMime
  }

  /** The guess is consulted only without a declared type, and the default only without both. */
  lemma MimePriority(contentType: Option<string>, guessed: Option<string>, other: Option<string>)
    ensures Truthy(contentType) ==> ChooseMime(contentType, guessed) == ChooseMime(contentType, other) == contentType.value
    ensures !Truthy(contentType) && Truthy(guessed) ==> ChooseMime(contentType, guessed) == guessed.value
    ensures !Truthy(contentType) && !Truthy(guessed) ==> ChooseMime(contentType, guessed) == DefaultMime
  {
  }

  /**
   * An uploaded file: its name, its declared content type, and what reading it gave
   * (its bytes, or the text of the exception the read raised).
   */
  datatype Upload = Upload(filename: Option<string>, contentType: Option<string>, data: Result<seq<bv8>, string>)

  /**
   * `_encode_image_from_upload` up to the encoding: the bytes and the MIME type, or the
   * 400 error for a missing name, a failed read or an empty file, checked in that
   * order. `guess` stands for `mimetypes.guess_type`.
   */
  function CheckUpload(u: Upload, guess: string -> Option<string>): (r: Result<(seq<bv8>, string), HttpError>)
    ensures r.Err? ==> r.error.status == 400
    ensures r.Ok? ==> u.data == Ok(r.value.0) && r.value.0 != [] && r.value.1 != ""
  {
    if !Truthy(u.filename) then Err(HttpError(400, "File gambar tidak ditemukan."))
    else
      var mime := ChooseMime(u.contentType, guess(u.filename.value));
      match u.data
      case Err(e) => Err(HttpError(400, "Gagal membaca gambar: " + e))
      case Ok(d) =>
        if d == [] then Err(HttpError(400, "File gambar kosong.")) else Ok((d, mime))
  }

  /** A named file is accepted exactly when it could be read and is not empty. */
  lemma UploadAcceptedIff(u: Upload, guess: string -> Option<string>)
    requires Truthy(u.filename)
    ensures CheckUpload(u, guess).Ok? <==> u.data.Ok? && u.data.value != []
    ensures u.data == Ok([]) ==> CheckUpload(u, guess) == Err(HttpError(400, "File gambar kosong."))
    ensures CheckUpload(u, guess).Ok? ==>
      CheckUpload(u, guess).value.1 == ChooseMime(u.contentType, guess(u.filename.value))
  {
  }

  // ---------------------------------------------------------------------------
  // The search query cut from the OCR text
  // ---------------------------------------------------------------------------

  const OcrQueryFallback := "alternatif makanan kemasan yang lebih sehat"
  const QueryLimit: nat := 500
  const LineLimit: nat := 6

  /** The first six lines of the stripped text, joined by single spaces. */
  function Snippet(markdown: string): string {
    Join(Take(SplitLines(Strip(markdown)), LineLimit), " ")
  }

  /** The OCR route's `build_search_query`: at most 500 characters of the snippet, else the fallback. */
  function OcrSearchQuery(markdown: string): (r: string)
    ensures |r| <= QueryLimit
  {
    if markdown != "" then
      var snippet := Snippet(markdown);
      if snippet != "" then Take(snippet, QueryLimit) else OcrQueryFallback
    else OcrQueryFallback
  }

  /**
   * Blank text gives the fallback; any other text gives a non-empty prefix of its
   * snippet that starts with the first character of the stripped text.
   */
  lemma OcrQueryCases(markdown: string)
    ensures AllSpace(markdown) ==> OcrSearchQuery(markdown) == OcrQueryFallback
    ensures !AllSpace(markdown) ==>
      var r := OcrSearchQuery(markdown);
      && r == Take(Snippet(markdown), QueryLimit)
      && r != "" && r <= Snippet(markdown)
      && r[0] == Strip(markdown)[0]
  {
    StripFacts(markdown);
    var t := Strip(markdown);
    if !AllSpace(markdown) {
      assert markdown != "";
      assert t[0] != '\n' by { assert !IsSpace(t[0]); }
      SplitLinesFirst(t);
      var lines := Take(SplitLines(t), LineLimit);
      assert lines[0] == SplitLines(t)[0];
      JoinStartsWithFirst(lines, " ");
      assert Snippet(markdown)[0] == t[0];
    }
  }

  /** The query is a single line: no line break survives the cut. */
  lemma OcrQueryOneLine(markdown: string)
    ensures '\n' !in OcrSearchQuery(markdown)
  {
    var lines := SplitLines(Strip(markdown));
    SplitLinesAvoid(Strip(markdown));
    assert forall k :: 0 <= k < |Take(lines, LineLimit)| ==> Take(lines, LineLimit)[k] == lines[k];
    JoinAvoids(Take(lines, LineLimit), " ", '\n');
    var r := OcrSearchQuery(markdown);
    if r != OcrQueryFallback {
      assert r <= Snippet(markdown);
    }
  }

  /** Later lines never contribute: texts whose first six lines agree give the same query. */
  lemma LaterLinesIgnored(a: string, b: string)
    requires Take(SplitLines(Strip(a)), LineLimit) == Take(SplitLines(Strip(b)), LineLimit)
    ensures OcrSearchQuery(a) == OcrSearchQuery(b)
  {
    assert Snippet(a) == Snippet(b);
    if a == "" {
      assert Strip(a) == "";
    }
    if b == "" {
      assert Strip(b) == "";
    }
  }

  /** A short single line is its own query, with the surrounding whitespace stripped. */
  lemma ShortLineIsQuery(markdown: string)
    requires Strip(markdown) != "" && '\n' !in Strip(markdown) && |Strip(markdown)| <= QueryLimit
    ensures OcrSearchQuery(markdown) == Strip(markdown)
  {
    SplitLinesSingle(Strip(markdown));
    assert Snippet(markdown) == Strip(markdown);
  }

  // ---------------------------------------------------------------------------
  // The page texts
  // ---------------------------------------------------------------------------

  /** An OCR page: its markdown, when present. */
  datatype Page = Page(markdown: Option<string>)

  /** The markdown of the pages that have a non-empty one, in page order. */
  function PageTexts(pages: seq<Page>): (r: seq<string>)
    ensures |r| <= |pages|
    ensures forall k :: 0 <= k < |r| ==> r[k] != ""
  {
    if pages == [] then []
    else (if Truthy(pages[0].markdown) then [pages[0].markdown.value] else []) + PageTexts(pages[1..])
  }

  /** The page texts joined by blank lines, then stripped. */
  function JoinedMarkdown(pages: seq<Page>): string {
    Strip(Join(PageTexts(pages), "\n\n"))
  }

  lemma {:induction false} PageTextsAppend(a: seq<Page>, b: seq<Page>)
    ensures PageTexts(a + b) == PageTexts(a) + PageTexts(b)
  {
    if a == [] {
      assert a + b == b;
    } else {
      assert (a + b)[0] == a[0];
      assert (a + b)[1..] == a[1..] + b;
      PageTextsAppend(a[1..], b);
    }
  }

  /** A page without markdown, or with empty markdown, changes nothing wherever it sits. */
  lemma BlankPageSkipped(a: seq<Page>, p: Page, b: seq<Page>)
    requires !Truthy(p.markdown)
    ensures PageTexts(a + [p] + b) == PageTexts(a + b)
    ensures JoinedMarkdown(a + [p] + b) == JoinedMarkdown(a + b)
  {
    PageTextsAppend(a + [p], b);
    PageTextsAppend(a, [p]);
    PageTextsAppend(a, b);
    assert PageTexts([p]) == [];
  }

  /** When every page has markdown, all of it is kept, in page order. */
  lemma {:induction false} AllPagesKept(pages: seq<Page>)
    requires forall k :: 0 <= k < |pages| ==> Truthy(pages[k].markdown)
    ensures PageTexts(pages) == seq(|pages|, k requires 0 <= k < |pages| => pages[k].markdown.GetOr(""))
  {
    if pages != [] {
      AllPagesKept(pages[1..]);
    }
  }

  /**
   * The page markdown handed on: the 500 error for an empty page list or for text that
   * strips to nothing, else the stripped concatenation.
   */
  function OcrMarkdown(pages: seq<Page>): (r: Result<string, HttpError>)
    ensures r.Err? ==> r.error.status == 500
    ensures r.Ok? ==> r.value == JoinedMarkdown(pages) && r.value != ""
  {
    if pages == [] then Err(HttpError(500, "Hasil OCR kosong."))
    else
      var markdown := JoinedMarkdown(pages);
      if markdown == "" then Err(HttpError(500, "Markdown OCR tidak ditemukan.")) else Ok(markdown)
  }

  /**
   * The markdown is accepted exactly when there are pages and their joined text is not
   * all whitespace; what is accepted is stripped; pages that are all blank are refused.
   */
  lemma OcrMarkdownIff(pages: seq<Page>)
    ensures OcrMarkdown(pages).Ok? <==> pages != [] && !AllSpace(Join(PageTexts(pages), "\n\n"))
    ensures OcrMarkdown(pages).Ok? ==> Stripped(OcrMarkdown(pages).value)
    ensures PageTexts(pages) == [] ==> OcrMarkdown(pages).Err?
  {
    StripFacts(Join(PageTexts(pages), "\n\n"));
  }

  // ---------------------------------------------------------------------------
  // The chain inputs of the OCR route
  // ---------------------------------------------------------------------------

  const OcrProfilePrefix := "Hasil OCR:\n"

  /**
   * The inputs the OCR route hands the chain, all four texts precomputed, or the error
   * raised before the chain is invoked. The profile text is the corrected builder's on
   * the strict profile (`OcrChainInputsAsWritten` is the route as written);
   * `buildUserQuery` is defined outside the files modelled here.
   */
  function OcrChainInputs(pages: seq<Page>, user: Option<StrictUserProfile>, buildUserQuery: Option<string> -> string): (r: Result<ChainInputs, HttpError>)
    ensures r.Err? <==> OcrMarkdown(pages).Err?
  {
    match OcrMarkdown(pages)
    case Err(e) => Err(e)
    case Ok(markdown) =>
      var widened := match user case None => None case Some(p) => Some(WidenedProfile(p));
      var medicalHistory := match user case None => None case Some(p) => p.medicalHistory;
      Ok(ChainInputs(
        userProfileText := Some(ProfileText(English, widened)),
        userProfile := None,
        userQuery := Some(buildUserQuery(medicalHistory)),
        productProfileText := Some(OcrProfilePrefix + markdown),
        product := None,
        nutritionFacts := None,
        searchQuery := Some(OcrSearchQuery(markdown))))
  }

  /** How the OCR route can end before the chain: an `HTTPException`, or an exception it does not catch. */
  datatype RouteError = Refused(error: HttpError) | Raised(exception: PyError)

  /**
   * The route as written: after the markdown checks, `build_user_profile_text` at line 102,
   * outside every `try`, gets the strict profile, and a present one raises for its missing
   * `full_name`. Only requests without a profile reach the chain, and they get the same
   * inputs as the corrected route.
   */
  function OcrChainInputsAsWritten(pages: seq<Page>, user: Option<StrictUserProfile>, buildUserQuery: Option<string> -> string):
    (r: Result<ChainInputs, RouteError>)
    ensures r.Ok? <==> OcrMarkdown(pages).Ok? && user.None?
    ensures OcrMarkdown(pages).Err? ==> r == Err(Refused(OcrMarkdown(pages).error))
    ensures OcrMarkdown(pages).Ok? && user.Some? ==> r == Err(Raised(MissingAttribute("full_name")))
    ensures r.Ok? ==> r.value == OcrChainInputs(pages, user, buildUserQuery).value
  {
    match OcrMarkdown(pages)
    case Err(e) => Err(Refused(e))
    case Ok(markdown) =>
      match StrictProfileTextAsWritten(English, user)
      case Err(attribute) => Err(Raised(MissingAttribute(attribute)))
      case Ok(profileText) =>
        Ok(ChainInputs(
          userProfileText := Some(profileText),
          userProfile := None,
          userQuery := Some(buildUserQuery(None)),
          productProfileText := Some(OcrProfilePrefix + markdown),
          product := None,
          nutritionFacts := None,
          searchQuery := Some(OcrSearchQuery(markdown))))
  }

  /**
   * What the chain gets from the OCR route: the product profile is "Hasil OCR:" and a
   * line break followed by the markdown, the search query is at most 500 characters of
   * one line, and every resolver returns these texts verbatim, so the search-query
   * resolver's faulty fallback is never reached from this route.
   */
  lemma OcrChainInputsShape(
    pages: seq<Page>, user: Option<StrictUserProfile>, buildUserQuery: Option<string> -> string,
    repr: real -> string, nameOf: Option<Product> -> Option<string>)
    requires OcrMarkdown(pages).Ok?
    ensures var c := OcrChainInputs(pages, user, buildUserQuery).value;
      var markdown := OcrMarkdown(pages).value;
      && ResolveProductProfile(c, repr) == Ok(OcrProfilePrefix + markdown)
      && (OcrProfilePrefix + markdown)[|OcrProfilePrefix|..] == markdown
      && ResolveSearchQueryAsWritten(c, nameOf) == Ok(OcrSearchQuery(markdown))
      && |ResolveSearchQuery(c, nameOf)| <= QueryLimit
      && '\n' !in ResolveSearchQuery(c, nameOf)
  {
    OcrQueryOneLine(OcrMarkdown(pages).value);
  }
}
