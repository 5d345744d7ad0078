/**
 * The prompt-text builders (app/services/nutrition.py; the Indonesian copies in
 * app.py differ only in their wording). Each builder grows a list of lines or
 * parts and joins it; the wording of labels and fallbacks is a parameter.
 */
module Nutrition {
  import opened Wrappers
  import opened Strings
  import opened Schemas

  /** The fixed phrases a builder writes; the two copies of the builders differ only here. */
  datatype Wording = Wording(
    noProfile: string,
    minimalProfile: string,
    nameLabel: string,
    genderLabel: string,
    heightLabel: string,
    weightLabel: string,
    birthDateLabel: string,
    medicalHistoryLabel: string,
    productLabel: string,
    servingLabel: string,
    amountMissing: string,
    nutritionHeader: string,
    queryFallback: string)

  /** The phrases of app/services/nutrition.py. */
  const English: Wording := Wording(
    "No user profile data available. Use general assumptions and provide safe recommendations.",
    "User profile is minimal. Provide general, safe recommendations.",
    "Name: ",
    "Gender: ",
    "Height: ",
    "Weight: ",
    "Birth date: ",
    "Medical history: ",
    "Product: ",
    "Serving size: ",
    " (amount not provided)",
    "Nutrition per serving:",
    "healthier packaged food alternatives")

  // ---------------------------------------------------------------------------
  // The user profile block
  // ---------------------------------------------------------------------------

  /** The six profile fields the builder reads, in the order it writes them. */
  const ProfileFieldCount: nat := 6

  function FieldValue(u: UserProfile, i: nat): Option<string>
    requires i < ProfileFieldCount
  {
    if i == 0 then u.fullName
    else if i == 1 then u.gender
    else if i == 2 then u.height
    else if i == 3 then u.weight
    else if i == 4 then u.birthDate
    else u.medicalHistory
  }

  /** The line for field `i` holding `v`; height and weight carry their units. */
  function FieldLine(w: Wording, i: nat, v: string): string
    requires i < ProfileFieldCount
  {
    if i == 0 then w.nameLabel + v
    else if i == 1 then w.genderLabel + v
    else if i == 2 then w.heightLabel + v + " cm"
    else if i == 3 then w.weightLabel + v + " kg"
    else if i == 4 then w.birthDateLabel + v
    else w.medicalHistoryLabel + v
  }

  /** The line of field `i`: present exactly when the field is truthy. */
  function Line(w: Wording, u: UserProfile, i: nat): seq<string>
    requires i < ProfileFieldCount
  {
    if Truthy(FieldValue(u, i)) then [FieldLine(w, i, FieldValue(u, i).value)] else []
  }

  /** The profile lines, field by field in the builder's order. */
  function ProfileLines(w: Wording, u: UserProfile): seq<string> {
    Line(w, u, 0) + Line(w, u, 1) + Line(w, u, 2) + Line(w, u, 3) + Line(w, u, 4) + Line(w, u, 5)
  }

  /** `build_user_profile_text` as a value. */
  function ProfileText(w: Wording, user: Option<UserProfile>): string {
    match user
    case None => w.noProfile
    case Some(u) =>
      if ProfileLines(w, u) == [] then w.minimalProfile else Join(ProfileLines(w, u), "\n")
  }

  /** How many of the fields before field `i` are truthy: the position of field `i`'s line. */
  function Position(u: UserProfile, i: nat): nat
    requires i <= ProfileFieldCount
  {
    if i == 0 then 0 else Position(u, i - 1) + (if Truthy(FieldValue(u, i - 1)) then 1 else 0)
  }

  /** The positions, written out field by field. */
  lemma PositionsUnfolded(w: Wording, u: UserProfile)
    ensures forall j :: 0 <= j < ProfileFieldCount ==> |Line(w, u, j)| == if Truthy(FieldValue(u, j)) then 1 else 0
    ensures Position(u, 1) == |Line(w, u, 0)|
    ensures Position(u, 2) == |Line(w, u, 0) + Line(w, u, 1)|
    ensures Position(u, 3) == |Line(w, u, 0) + Line(w, u, 1) + Line(w, u, 2)|
    ensures Position(u, 4) == |Line(w, u, 0) + Line(w, u, 1) + Line(w, u, 2) + Line(w, u, 3)|
    ensures Position(u, 5) == |Line(w, u, 0) + Line(w, u, 1) + Line(w, u, 2) + Line(w, u, 3) + Line(w, u, 4)|
    ensures Position(u, 6) == |ProfileLines(w, u)|
  {
    assert Position(u, 1) == Position(u, 0) + |Line(w, u, 0)|;
    assert Position(u, 2) == Position(u, 1) + |Line(w, u, 1)|;
    assert Position(u, 3) == Position(u, 2) + |Line(w, u, 2)|;
    assert Position(u, 4) == Position(u, 3) + |Line(w, u, 3)|;
    assert Position(u, 5) == Position(u, 4) + |Line(w, u, 4)|;
    assert Position(u, 6) == Position(u, 5) + |Line(w, u, 5)|;
  }

  /**
   * A truthy field has its line, at the position given by the truthy fields before it;
   * so the lines keep the fixed field order.
   */
  lemma TruthyFieldLine(w: Wording, u: UserProfile, i: nat)
    requires i < ProfileFieldCount && Truthy(FieldValue(u, i))
    ensures Position(u, i) < |ProfileLines(w, u)|
    ensures ProfileLines(w, u)[Position(u, i)] == FieldLine(w, i, FieldValue(u, i).value)
  {
    PositionsUnfolded(w, u);
    var l0, l1, l2, l3, l4, l5 := Line(w, u, 0), Line(w, u, 1), Line(w, u, 2), Line(w, u, 3), Line(w, u, 4), Line(w, u, 5);
    var l := ProfileLines(w, u);
    if i == 0 {
      assert l == l0 + (l1 + l2 + l3 + l4 + l5);
    } else if i == 1 {
      assert l == (l0 + l1) + (l2 + l3 + l4 + l5);
      assert (l0 + l1)[Position(u, 1)] == l1[0];
    } else if i == 2 {
      assert l == (l0 + l1 + l2) + (l3 + l4 + l5);
      assert (l0 + l1 + l2)[Position(u, 2)] == l2[0];
    } else if i == 3 {
      assert l == (l0 + l1 + l2 + l3) + (l4 + l5);
      assert (l0 + l1 + l2 + l3)[Position(u, 3)] == l3[0];
    } else if i == 4 {
      assert l == (l0 + l1 + l2 + l3 + l4) + l5;
      assert (l0 + l1 + l2 + l3 + l4)[Position(u, 4)] == l4[0];
    } else {
      assert l[Position(u, 5)] == l5[0];
    }
  }

  /** Field lines never overtake each other: an earlier truthy field sits earlier. */
  lemma {:induction false} PositionIncreasing(u: UserProfile, i: nat, j: nat)
    requires i < j <= ProfileFieldCount && Truthy(FieldValue(u, i))
    ensures Position(u, i) < Position(u, j)
    decreases j
  {
    if j > i + 1 {
      PositionIncreasing(u, i, j - 1);
    }
  }

  /** Exactly one line per truthy field. */
  lemma ProfileLineCount(w: Wording, u: UserProfile)
    ensures |ProfileLines(w, u)| == Position(u, ProfileFieldCount)
  {
    PositionsUnfolded(w, u);
  }

  /** The minimal-profile sentence is used exactly when every field is falsy. */
  lemma MinimalProfileIff(w: Wording, u: UserProfile)
    ensures ProfileLines(w, u) == [] <==> forall j :: 0 <= j < ProfileFieldCount ==> !Truthy(FieldValue(u, j))
  {
    if ProfileLines(w, u) == [] {
      forall j | 0 <= j < ProfileFieldCount
        ensures !Truthy(FieldValue(u, j))
      {
        if Truthy(FieldValue(u, j)) {
          TruthyFieldLine(w, u, j);
        }
      }
    }
  }

  /** `build_user_profile_text`, appending one line per truthy field as the source does. */
  method BuildUserProfileText(w: Wording, user: Option<UserProfile>) returns (text: string)
    ensures text == ProfileText(w, user)
  {
    if user.None? {
      return w.noProfile;
    }
    var u := user.value;
    var lines: seq<string> := [];
    if Truthy(u.fullName) {
      lines := lines + [w.nameLabel + u.fullName.value];
    }
    assert lines == Line(w, u, 0);
    if Truthy(u.gender) {
      lines := lines + [w.genderLabel + u.gender.value];
    }
    assert lines == Line(w, u, 0) + Line(w, u, 1);
    if Truthy(u.height) {
      lines := lines + [w.heightLabel + u.height.value + " cm"];
    }
    assert lines == Line(w, u, 0) + Line(w, u, 1) + Line(w, u, 2);
    if Truthy(u.weight) {
      lines := lines + [w.weightLabel + u.weight.value + " kg"];
    }
    assert lines == Line(w, u, 0) + Line(w, u, 1) + Line(w, u, 2) + Line(w, u, 3);
    if Truthy(u.birthDate) {
      lines := lines + [w.birthDateLabel + u.birthDate.value];
    }
    assert lines == Line(w, u, 0) + Line(w, u, 1) + Line(w, u, 2) + Line(w, u, 3) + Line(w, u, 4);
    if Truthy(u.medicalHistory) {
      lines := lines + [w.medicalHistoryLabel + u.medicalHistory.value];
    }
    assert lines == ProfileLines(w, u);
    if lines == [] {
      return w.minimalProfile;
    }
    return Join(lines, "\n");
  }

  /**
   * `build_user_profile_text` as written, given the strict request profile: a present
   * profile is truthy, and reading its missing `full_name` attribute raises. The
   * error names the attribute.
   */
  function StrictProfileTextAsWritten(w: Wording, user: Option<StrictUserProfile>): (r: Result<string, string>)
    ensures r.Err? <==> user.Some?
    ensures r.Ok? ==> r.value == w.noProfile
  {
    match user
    case None => Ok(w.noProfile)
    case Some(_) => Err("full_name")
  }

  /** Every request that carries a profile fails in the builder as written. */
  lemma StrictProfileFault(w: Wording, p: StrictUserProfile)
    ensures StrictProfileTextAsWritten(w, Some(p)) == Err("full_name")
    ensures StrictProfileTextAsWritten(w, None) == Ok(w.noProfile)
  {
  }

  /** The strict profile read as the full one, with the fields it lacks absent. */
  function WidenedProfile(p: StrictUserProfile): (u: UserProfile)
    ensures u.medicalHistory == p.medicalHistory
    ensures forall i :: 0 <= i < ProfileFieldCount - 1 ==> FieldValue(u, i) == None
  {
    UserProfile(None, None, None, None, None, None, None, p.medicalHistory)
  }

  /**
   * The corrected builder on a strict profile: the medical-history line alone when it
   * is truthy, and the minimal-profile sentence otherwise.
   */
  lemma StrictProfileCorrected(w: Wording, p: StrictUserProfile)
    ensures ProfileText(w, Some(WidenedProfile(p))) ==
      if Truthy(p.medicalHistory) then w.medicalHistoryLabel + p.medicalHistory.value else w.minimalProfile
  {
    var u := WidenedProfile(p);
    assert Line(w, u, 0) == [] && Line(w, u, 1) == [] && Line(w, u, 2) == [];
    assert Line(w, u, 3) == [] && Line(w, u, 4) == [];
    assert ProfileLines(w, u) == Line(w, u, 5);
  }

  // ---------------------------------------------------------------------------
  // The product block
  // ---------------------------------------------------------------------------

  /** Python truthiness of an optional float: present and not zero. */
  predicate SizeTruthy(size: Option<real>) {
    size.Some? && size.value != 0.0
  }

  /**
   * The serving line. `repr` stands for Python's `str()` of a float, which the model
   * leaves abstract.
   */
  function ServingLine(w: Wording, portion: Portion, repr: real -> string): string {
    if SizeTruthy(portion.size) then w.servingLabel + repr(portion.size.value) + " " + portion.unit
    else w.servingLabel + portion.unit + w.amountMissing
  }

  function FactLine(f: NutritionFact): string {
    "- " + f.labelText + ": " + f.value
  }

  function FactLines(facts: seq<NutritionFact>): (r: seq<string>)
    ensures |r| == |facts|
  {
    seq(|facts|, i requires 0 <= i < |facts| => FactLine(facts[i]))
  }

  /** The lines before the facts: the product name if truthy, then the serving line. */
  function HeadLines(w: Wording, product: Product, repr: real -> string): seq<string> {
    (if Truthy(product.name) then [w.productLabel + product.name.value] else [])
    + [ServingLine(w, product.portion, repr)]
  }

  function ProductLines(w: Wording, product: Product, facts: seq<NutritionFact>, repr: real -> string): seq<string> {
    HeadLines(w, product, repr) + (if facts != [] then [w.nutritionHeader] + FactLines(facts) else [])
  }

  /** `build_product_profile` as a value. */
  function ProductProfile(w: Wording, product: Product, facts: seq<NutritionFact>, repr: real -> string): string {
    Join(ProductLines(w, product, facts, repr), "\n")
  }

  /** `build_product_profile`: the fact lines are appended one by one, in input order. */
  method BuildProductProfile(w: Wording, product: Product, facts: seq<NutritionFact>, repr: real -> string)
    returns (text: string)
    ensures text == ProductProfile(w, product, facts, repr)
  {
    var lines: seq<string> := [];
    if Truthy(product.name) {
      lines := lines + [w.productLabel + product.name.value];
    }
    if SizeTruthy(product.portion.size) {
      lines := lines + [w.servingLabel + repr(product.portion.size.value) + " " + product.portion.unit];
    } else {
      lines := lines + [w.servingLabel + product.portion.unit + w.amountMissing];
    }
    assert lines == HeadLines(w, product, repr);
    if facts != [] {
      lines := lines + [w.nutritionHeader];
      ghost var head := lines;
      for i := 0 to |facts|
        invariant lines == head + FactLines(facts[..i])
      {
        assert FactLines(facts[..i + 1]) == FactLines(facts[..i]) + [FactLine(facts[i])];
        lines := lines + [FactLine(facts[i])];
      }
      assert facts[..|facts|] == facts;
      assert lines == ProductLines(w, product, facts, repr);
    } else {
      assert lines == ProductLines(w, product, facts, repr);
    }
    return Join(lines, "\n");
  }

  /** The product line comes first when the name is truthy; otherwise the serving line does. */
  lemma ProductLineFirst(w: Wording, product: Product, facts: seq<NutritionFact>, repr: real -> string)
    ensures var lines := ProductLines(w, product, facts, repr);
      |lines| >= 1
      && (Truthy(product.name) ==> lines[0] == w.productLabel + product.name.value)
      && (!Truthy(product.name) ==> lines[0] == ServingLine(w, product.portion, repr))
  {
  }

  /**
   * The nutrition header appears exactly when there are facts, right after the head
   * lines, followed by one line per fact in input order, and nothing after them.
   */
  lemma NutritionBlock(w: Wording, product: Product, facts: seq<NutritionFact>, repr: real -> string)
    ensures var lines := ProductLines(w, product, facts, repr);
      var k := |HeadLines(w, product, repr)|;
      && k == (if Truthy(product.name) then 2 else 1)
      && (facts == [] ==> |lines| == k)
      && (facts != [] ==>
            |lines| == k + 1 + |facts| && lines[k] == w.nutritionHeader
            && forall i :: 0 <= i < |facts| ==> lines[k + 1 + i] == FactLine(facts[i]))
  {
    var lines := ProductLines(w, product, facts, repr);
    var head := HeadLines(w, product, repr);
    if facts != [] {
      assert lines == head + ([w.nutritionHeader] + FactLines(facts));
      assert forall i :: 0 <= i < |facts| ==> lines[|head| + 1 + i] == FactLines(facts)[i];
    }
  }

  /** A zero size is falsy: it gives the same serving line as no size at all. */
  lemma ZeroSizeIsMissing(w: Wording, unit: string, repr: real -> string)
    ensures ServingLine(w, Portion(Some(0.0), unit), repr) == ServingLine(w, Portion(None, unit), repr)
    ensures ServingLine(w, Portion(None, unit), repr) == w.servingLabel + unit + w.amountMissing
  {
  }

  // ---------------------------------------------------------------------------
  // The search query
  // ---------------------------------------------------------------------------

  /** The labels that are not empty, in input order. */
  function NonEmptyLabels(facts: seq<NutritionFact>): seq<string> {
    if facts == [] then []
    else (if facts[0].labelText != "" then [facts[0].labelText] else []) + NonEmptyLabels(facts[1..])
  }

  function QueryParts(query: string, name: Option<string>, facts: seq<NutritionFact>): seq<string> {
    (if query != "" then [query] else []) + (if Truthy(name) then [name.value] else []) + NonEmptyLabels(facts)
  }

  /** `build_search_query` as a value. */
  function SearchQuery(w: Wording, query: string, name: Option<string>, facts: seq<NutritionFact>): string {
    var parts := QueryParts(query, name, facts);
    if parts != [] then Join(parts, " ; ") else w.queryFallback
  }

  lemma {:induction false} NonEmptyLabelsAppend(a: seq<NutritionFact>, b: seq<NutritionFact>)
    ensures NonEmptyLabels(a + b) == NonEmptyLabels(a) + NonEmptyLabels(b)
  {
    if a == [] {
      assert a + b == b;
    } else {
      assert (a + b)[0] == a[0];
      assert (a + b)[1..] == a[1..] + b;
      NonEmptyLabelsAppend(a[1..], b);
    }
  }

  /** `build_search_query`: the part list grows by the query, the name, then each non-empty label. */
  method BuildSearchQuery(w: Wording, query: string, name: Option<string>, facts: seq<NutritionFact>)
    returns (q: string)
    ensures q == SearchQuery(w, query, name, facts)
  {
    var parts: seq<string> := [];
    if query != "" {
      parts := parts + [query];
    }
    if Truthy(name) {
      parts := parts + [name.value];
    }
    ghost var head := parts;
    for i := 0 to |facts|
      invariant parts == head + NonEmptyLabels(facts[..i])
    {
      NonEmptyLabelsAppend(facts[..i], [facts[i]]);
      assert facts[..i + 1] == facts[..i] + [facts[i]];
      if facts[i].labelText != "" {
        parts := parts + [facts[i].labelText];
      }
    }
    assert facts[..|facts|] == facts;
    assert parts == QueryParts(query, name, facts);
    if parts != [] {
      return Join(parts, " ; ");
    }
    return w.queryFallback;
  }

  /** Every kept label is non-empty, and when no label is empty all of them are kept, in order. */
  lemma {:induction false} NonEmptyLabelsKept(facts: seq<NutritionFact>)
    ensures forall k :: 0 <= k < |NonEmptyLabels(facts)| ==> NonEmptyLabels(facts)[k] != ""
    ensures (forall i :: 0 <= i < |facts| ==> facts[i].labelText != "") ==>
      NonEmptyLabels(facts) == seq(|facts|, i requires 0 <= i < |facts| => facts[i].labelText)
    ensures NonEmptyLabels(facts) == [] <==> forall i :: 0 <= i < |facts| ==> facts[i].labelText == ""
  {
    if facts != [] {
      NonEmptyLabelsKept(facts[1..]);
      assert forall i :: 1 <= i < |facts| ==> facts[i] == facts[1..][i - 1];
    }
  }

  /** Two fact lists with the same labels give the same labels, whatever their values. */
  lemma {:induction false} LabelsIgnoreValues(a: seq<NutritionFact>, b: seq<NutritionFact>)
    requires |a| == |b| && forall i :: 0 <= i < |a| ==> a[i].labelText == b[i].labelText
    ensures NonEmptyLabels(a) == NonEmptyLabels(b)
  {
    if a == [] {
      assert b == [];
    } else {
      assert a[0].labelText == b[0].labelText;
      assert forall i :: 0 <= i < |a[1..]| ==> a[1..][i].labelText == b[1..][i].labelText;
      LabelsIgnoreValues(a[1..], b[1..]);
      var head := if a[0].labelText != "" then [a[0].labelText] else [];
      assert NonEmptyLabels(a) == head + NonEmptyLabels(a[1..]);
      assert NonEmptyLabels(b) == head + NonEmptyLabels(b[1..]);
    }
  }

  /** Fact values never reach the search query: only the labels do. */
  lemma SearchQueryIgnoresValues(w: Wording, query: string, name: Option<string>, a: seq<NutritionFact>, b: seq<NutritionFact>)
    requires |a| == |b| && forall i :: 0 <= i < |a| ==> a[i].labelText == b[i].labelText
    ensures SearchQuery(w, query, name, a) == SearchQuery(w, query, name, b)
  {
    LabelsIgnoreValues(a, b);
  }

  /** The fallback query is used exactly when there is no query, no truthy name and no label. */
  lemma QueryFallbackIff(query: string, name: Option<string>, facts: seq<NutritionFact>)
    ensures QueryParts(query, name, facts) == [] <==>
      (query == "" && !Truthy(name) && forall i :: 0 <= i < |facts| ==> facts[i].labelText == "")
  {
    NonEmptyLabelsKept(facts);
  }

  /** The fixed sentences of app/services/nutrition.py, and when each is written. */
  lemma EnglishFallbacks(u: UserProfile, unit: string, repr: real -> string, facts: seq<NutritionFact>)
    ensures ProfileText(English, None) ==
      "No user profile data available. Use general assumptions and provide safe recommendations."
    ensures (forall i :: 0 <= i < ProfileFieldCount ==> !Truthy(FieldValue(u, i))) ==>
      ProfileText(English, Some(u)) == "User profile is minimal. Provide general, safe recommendations."
    ensures ServingLine(English, Portion(None, unit), repr) == "Serving size: " + unit + " (amount not provided)"
    ensures (forall i :: 0 <= i < |facts| ==> facts[i].labelText == "") ==>
      SearchQuery(English, "", None, facts) == "healthier packaged food alternatives"
  {
    MinimalProfileIff(English, u);
    QueryFallbackIff("", None, facts);
  }
}
