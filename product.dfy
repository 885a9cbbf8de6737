/**
 * `fetch_product_data`: the upstream lookup's outcome is turned into a
 * product record. Missing fields get their defaults, grades are upper-cased,
 * and a missing grade is filled in from the AI scores.
 */
module Product {
  import opened Wrappers
  import opened JsonValue
  import opened PyStr
  import opened AiAnalysis

  /** What the HTTP request to the product database ends in. */
  datatype Upstream =
    | Timeout            // requests raised Timeout
    | NetworkError       // any other RequestException, an HTTP error status included
    | OtherError         // any other exception while fetching or decoding
    | Reply(data: Json)  // the decoded response body

  const TimeoutMessage: string := "Request timed out. Please try again."
  const NetworkMessage: string := "Network error: Unable to fetch product data"
  const UnexpectedMessage: string := "An unexpected error occurred"
  const NotFoundMessage: string := "Product not found in database"

  /** The six nutrient values per 100 g, each the upstream value or 'N/A'. */
  datatype Nutriments = Nutriments(energy: Json, fat: Json, carbohydrates: Json,
                                   proteins: Json, salt: Json, fiber: Json)

  /**
   * A grade in the record: one given by the database (only the grade key),
   * or one filled in by the AI step (`<grade>_summary` set and `<grade>_ai` True).
   */
  datatype Grade =
    | Given(grade: string)
    | Filled(grade: string, summary: Json)

  /** The `success: True` dict, one field per key. */
  datatype ProductRecord = ProductRecord(
    barcode: string,
    name: Json, brand: Json, image: Json,
    nutriscore: Grade, ecoscore: Grade,
    categories: Json, ingredients: Json, labels: Json, allergens: Json,
    nutriments: Nutriments)
  {
    function GradeOf(s: Score): Grade {
      match s
      case NutriScore => nutriscore
      case EcoScore => ecoscore
    }

    function WithGrade(s: Score, g: Grade): ProductRecord {
      match s
      case NutriScore => this.(nutriscore := g)
      case EcoScore => this.(ecoscore := g)
    }
  }

  /** What `fetch_product_data` returns: the `success: False` dict with its error, or a record. */
  datatype ProductData = Failed(error: string) | Found(record: ProductRecord)

  /** The upstream key a grade is read from. */
  function GradeSource(s: Score): string {
    match s
    case NutriScore => "nutriscore_grade"
    case EcoScore => "ecoscore_grade"
  }

  /** Python's `x != 1` is false for 1, 1.0 and True alike. */
  predicate IsOne(v: Json) {
    v == JNum(1.0) || v == JBool(true)
  }

  /** The product dict can be normalised without raising: grades are strings and nutriments a dict, when present. */
  predicate Normalisable(product: map<string, Json>) {
    && StringOrAbsent(product, GradeSource(NutriScore))
    && StringOrAbsent(product, GradeSource(EcoScore))
    && ObjectOrAbsent(product, "nutriments")
  }

  /** The upstream grade, '' when absent. */
  function UpstreamGrade(product: map<string, Json>, s: Score): string
    requires Normalisable(product)
  {
    Get(product, GradeSource(s), JStr("")).s
  }

  /** The upstream nutriments dict, empty when absent. */
  function UpstreamNutrients(product: map<string, Json>): map<string, Json>
    requires Normalisable(product)
  {
    Get(product, "nutriments", JObj(map[])).fields
  }

  /** `v` is what `d.get(key, default)` gives: the upstream value when present, else the default. */
  predicate CopiedOrDefault(v: Json, d: map<string, Json>, key: string, default: Json) {
    (key in d ==> v == d[key]) && (key !in d ==> v == default)
  }

  /** The nutriments dict built from the upstream one. */
  function NutrimentsOf(nutrients: map<string, Json>): (n: Nutriments)
    ensures CopiedOrDefault(n.energy, nutrients, "energy-kcal_100g", JStr("N/A"))
    ensures CopiedOrDefault(n.fat, nutrients, "fat_100g", JStr("N/A"))
    ensures CopiedOrDefault(n.carbohydrates, nutrients, "carbohydrates_100g", JStr("N/A"))
    ensures CopiedOrDefault(n.proteins, nutrients, "proteins_100g", JStr("N/A"))
    ensures CopiedOrDefault(n.salt, nutrients, "salt_100g", JStr("N/A"))
    ensures CopiedOrDefault(n.fiber, nutrients, "fiber_100g", JStr("N/A"))
  {
    Nutriments(
      Get(nutrients, "energy-kcal_100g", JStr("N/A")),
      Get(nutrients, "fat_100g", JStr("N/A")),
      Get(nutrients, "carbohydrates_100g", JStr("N/A")),
      Get(nutrients, "proteins_100g", JStr("N/A")),
      Get(nutrients, "salt_100g", JStr("N/A")),
      Get(nutrients, "fiber_100g", JStr("N/A")))
  }

  /** The record built from a product before any AI step. */
  function Normalised(barcode: string, product: map<string, Json>): (r: ProductRecord)
    requires Normalisable(product)
    ensures r.barcode == barcode
    ensures CopiedOrDefault(r.name, product, "product_name", JStr("Unknown Product"))
    ensures CopiedOrDefault(r.brand, product, "brands", JStr("Unknown Brand"))
    ensures CopiedOrDefault(r.image, product, "image_url", JStr(""))
    ensures CopiedOrDefault(r.categories, product, "categories", JStr(""))
    ensures CopiedOrDefault(r.ingredients, product, "ingredients_text", JStr("Not available"))
    ensures CopiedOrDefault(r.labels, product, "labels", JStr(""))
    ensures CopiedOrDefault(r.allergens, product, "allergens", JStr("None specified"))
    ensures forall s: Score :: r.GradeOf(s) == Given(Upper(UpstreamGrade(product, s)))
    ensures r.nutriments == NutrimentsOf(UpstreamNutrients(product))
  {
    ProductRecord(
      barcode,
      Get(product, "product_name", JStr("Unknown Product")),
      Get(product, "brands", JStr("Unknown Brand")),
      Get(product, "image_url", JStr("")),
      Given(Upper(Get(product, "nutriscore_grade", JStr("")).s)),
      Given(Upper(Get(product, "ecoscore_grade", JStr("")).s)),
      Get(product, "categories", JStr("")),
      Get(product, "ingredients_text", JStr("Not available")),
      Get(product, "labels", JStr("")),
      Get(product, "allergens", JStr("None specified")),
      NutrimentsOf(UpstreamNutrients(product)))
  }

  /** With an empty product dict every field takes its default and both grades are empty. */
  lemma EmptyProductDefaults(barcode: string)
    ensures Normalised(barcode, map[]) == ProductRecord(
      barcode, JStr("Unknown Product"), JStr("Unknown Brand"), JStr(""), Given(""), Given(""),
      JStr(""), JStr("Not available"), JStr(""), JStr("None specified"),
      Nutriments(JStr("N/A"), JStr("N/A"), JStr("N/A"), JStr("N/A"), JStr("N/A"), JStr("N/A")))
  {
    assert Upper("") == "";
  }

  // ---------------------------------------------------------------------
  // Filling missing grades

  /** `not product_info[key]`: the grade is the empty string. */
  predicate Missing(r: ProductRecord, s: Score) {
    r.GradeOf(s).grade == []
  }

  /** The AI step runs when either grade is missing. */
  predicate NeedsAi(r: ProductRecord) {
    Missing(r, NutriScore) || Missing(r, EcoScore)
  }

  /** A normalised grade is missing exactly when the upstream grade is absent or empty. */
  lemma MissingIffNoUpstreamGrade(barcode: string, product: map<string, Json>, s: Score)
    requires Normalisable(product)
    ensures Missing(Normalised(barcode, product), s) <==> UpstreamGrade(product, s) == []
  {
    assert |Upper(UpstreamGrade(product, s))| == |UpstreamGrade(product, s)|;
  }

  /** The AI scores carry both grades as strings and both summaries. */
  predicate Shaped(ai: map<string, Json>) {
    ScoreKeys <= ai.Keys && ai["nutriscore"].JStr? && ai["ecoscore"].JStr?
  }

  /** The grade `s` as the AI step fills it in: the AI grade and summary. */
  function AiGrade(ai: map<string, Json>, s: Score): Grade
    requires Shaped(ai)
  {
    Filled(ai[s.Key()].s, ai[s.SummaryKey()])
  }

  /** One merge step: a missing grade is replaced by the AI's; a present one is left as it is. */
  function FillGrade(r: ProductRecord, s: Score, ai: map<string, Json>): (m: ProductRecord)
    requires Shaped(ai)
    ensures m.GradeOf(s) == if Missing(r, s) then AiGrade(ai, s) else r.GradeOf(s)
    ensures forall t: Score :: t != s ==> m.GradeOf(t) == r.GradeOf(t)
    ensures m.(nutriscore := r.nutriscore, ecoscore := r.ecoscore) == r
  {
    if r.GradeOf(s).grade == [] then r.WithGrade(s, AiGrade(ai, s)) else r
  }

  /** Both merge steps, Nutri-Score first. */
  function Merged(r: ProductRecord, ai: map<string, Json>): ProductRecord
    requires Shaped(ai)
  {
    FillGrade(FillGrade(r, NutriScore, ai), EcoScore, ai)
  }

  /** Each grade of the merge is the record's when present and the AI's when missing; nothing else changes. */
  lemma MergedGrades(r: ProductRecord, ai: map<string, Json>, s: Score)
    requires Shaped(ai)
    ensures !Missing(r, s) ==> Merged(r, ai).GradeOf(s) == r.GradeOf(s)
    ensures Missing(r, s) ==> Merged(r, ai).GradeOf(s) == AiGrade(ai, s)
    ensures Merged(r, ai).(nutriscore := r.nutriscore, ecoscore := r.ecoscore) == r
  {
  }

  /** A record that needs no AI step comes out of the merge unchanged, whatever the AI said. */
  lemma MergeIgnoresAiWhenGraded(r: ProductRecord, ai: map<string, Json>)
    requires Shaped(ai) && !NeedsAi(r)
    ensures Merged(r, ai) == r
  {
  }

  // ---------------------------------------------------------------------
  // The whole lookup

  /** The upstream outcome before the AI step: an error, or the normalised record. */
  function Catalogued(barcode: string, upstream: Upstream): ProductData {
    match upstream
    case Timeout => Failed(TimeoutMessage)
    case NetworkError => Failed(NetworkMessage)
    case OtherError => Failed(UnexpectedMessage)
    case Reply(data) =>
      if !data.JObj? then Failed(UnexpectedMessage)            // `data.get` on a non-dict raises
      else if !IsOne(Get(data.fields, "status", JNull)) then Failed(NotFoundMessage)
      else
        var product := Get(data.fields, "product", JObj(map[]));
        if !product.JObj? || !Normalisable(product.fields) then Failed(UnexpectedMessage)
        else Found(Normalised(barcode, product.fields))
  }

  /** What `fetch_product_data` returns. */
  function FetchResult(barcode: string, upstream: Upstream, groq: GroqOutcome, loads: string -> Option<Json>): ProductData {
    match Catalogued(barcode, upstream)
    case Failed(e) => Failed(e)
    case Found(r) => Found(Merged(r, AiScores(groq, loads)))
  }

  /**
   * `fetch_product_data`, step by step: the failure returns, then the record
   * built and updated in place for each missing grade. `askedAi` says whether
   * `generate_ai_scores` was called.
   */
  method FetchProductData(barcode: string, upstream: Upstream, groq: GroqOutcome, loads: string -> Option<Json>)
    returns (productData: ProductData, askedAi: bool)
    ensures productData == FetchResult(barcode, upstream, groq, loads)
    ensures askedAi <==> Catalogued(barcode, upstream).Found? && NeedsAi(Catalogued(barcode, upstream).record)
  {
    askedAi := false;
    if upstream.Timeout? {
      return Failed(TimeoutMessage), askedAi;
    } else if upstream.NetworkError? {
      return Failed(NetworkMessage), askedAi;
    } else if upstream.OtherError? {
      return Failed(UnexpectedMessage), askedAi;
    }
    var data := upstream.data;
    if !data.JObj? {
      return Failed(UnexpectedMessage), askedAi;
    }
    if !IsOne(Get(data.fields, "status", JNull)) {
      return Failed(NotFoundMessage), askedAi;
    }
    var product := Get(data.fields, "product", JObj(map[]));
    if !product.JObj? || !Normalisable(product.fields) {
      return Failed(UnexpectedMessage), askedAi;
    }
    var productInfo := Normalised(barcode, product.fields);
    if productInfo.nutriscore.grade == [] || productInfo.ecoscore.grade == [] {
      ghost var catalogued := productInfo;
      var aiScores := GenerateAiScores(groq, loads);
      askedAi := true;
      if productInfo.nutriscore.grade == [] {
        productInfo := productInfo.(nutriscore := Filled(aiScores["nutriscore"].s, aiScores["nutriscore_summary"]));
      }
      assert productInfo == FillGrade(catalogued, NutriScore, aiScores);
      if productInfo.ecoscore.grade == [] {
        productInfo := productInfo.(ecoscore := Filled(aiScores["ecoscore"].s, aiScores["ecoscore_summary"]));
      }
      assert productInfo == Merged(catalogued, aiScores);
    }
    productData := Found(productInfo);
  }

  /** Timeouts, network errors and other exceptions each give their own `success: False` message. */
  lemma TransportFailures(barcode: string, groq: GroqOutcome, loads: string -> Option<Json>)
    ensures FetchResult(barcode, Timeout, groq, loads) == Failed(TimeoutMessage)
    ensures FetchResult(barcode, NetworkError, groq, loads) == Failed(NetworkMessage)
    ensures FetchResult(barcode, OtherError, groq, loads) == Failed(UnexpectedMessage)
  {
  }

  /** A reply whose status is not 1 means the product is not in the database. */
  lemma StatusNotOneIsNotFound(barcode: string, fields: map<string, Json>, groq: GroqOutcome, loads: string -> Option<Json>)
    requires !IsOne(Get(fields, "status", JNull))
    ensures FetchResult(barcode, Reply(JObj(fields)), groq, loads) == Failed(NotFoundMessage)
  {
  }

  /** The lookup succeeds exactly for a dict reply with status 1 whose product can be normalised. */
  lemma FoundIff(barcode: string, upstream: Upstream, groq: GroqOutcome, loads: string -> Option<Json>)
    ensures FetchResult(barcode, upstream, groq, loads).Found? <==>
      && upstream.Reply? && upstream.data.JObj?
      && IsOne(Get(upstream.data.fields, "status", JNull))
      && Get(upstream.data.fields, "product", JObj(map[])).JObj?
      && Normalisable(Get(upstream.data.fields, "product", JObj(map[])).fields)
  {
  }

  /** A grade the database gives is kept as given, upper-cased; no summary or AI mark is added for it. */
  lemma UpstreamGradeKept(barcode: string, upstream: Upstream, groq: GroqOutcome, loads: string -> Option<Json>, s: Score)
    requires Catalogued(barcode, upstream).Found? && !Missing(Catalogued(barcode, upstream).record, s)
    ensures FetchResult(barcode, upstream, groq, loads).record.GradeOf(s) == Catalogued(barcode, upstream).record.GradeOf(s)
    ensures FetchResult(barcode, upstream, groq, loads).record.GradeOf(s).Given?
  {
    MergedGrades(Catalogued(barcode, upstream).record, AiScores(groq, loads), s);
  }

  /** A missing grade is the AI grade, with the AI summary, marked as AI-generated. */
  lemma MissingGradeFilled(barcode: string, upstream: Upstream, groq: GroqOutcome, loads: string -> Option<Json>, s: Score)
    requires Catalogued(barcode, upstream).Found? && Missing(Catalogued(barcode, upstream).record, s)
    ensures var ai := AiScores(groq, loads);
      FetchResult(barcode, upstream, groq, loads).record.GradeOf(s) == Filled(ai[s.Key()].s, ai[s.SummaryKey()])
  {
    MergedGrades(Catalogued(barcode, upstream).record, AiScores(groq, loads), s);
  }

  /** Every field but the grades is the normalised record's. */
  lemma OnlyGradesMerged(barcode: string, upstream: Upstream, groq: GroqOutcome, loads: string -> Option<Json>)
    requires Catalogued(barcode, upstream).Found?
    ensures var r, m := Catalogued(barcode, upstream).record, FetchResult(barcode, upstream, groq, loads).record;
      m.(nutriscore := r.nutriscore, ecoscore := r.ecoscore) == r
  {
    MergedGrades(Catalogued(barcode, upstream).record, AiScores(groq, loads), NutriScore);
  }

  /** Both grades of a found product are upper-case, whether given or filled in. */
  lemma GradesUpperCase(barcode: string, upstream: Upstream, groq: GroqOutcome, loads: string -> Option<Json>, s: Score)
    requires FetchResult(barcode, upstream, groq, loads).Found?
    ensures NoLowerAscii(FetchResult(barcode, upstream, groq, loads).record.GradeOf(s).grade)
  {
    var r := Catalogued(barcode, upstream).record;
    var product := Get(upstream.data.fields, "product", JObj(map[])).fields;
    UpperIsUpper(UpstreamGrade(product, s));
    MergedGrades(r, AiScores(groq, loads), s);
  }

  /** When the database gives both grades, the AI outcome makes no difference. */
  lemma AiIrrelevantWhenGraded(barcode: string, upstream: Upstream,
                               groq: GroqOutcome, loads: string -> Option<Json>,
                               groq': GroqOutcome, loads': string -> Option<Json>)
    requires Catalogued(barcode, upstream).Found? && !NeedsAi(Catalogued(barcode, upstream).record)
    ensures FetchResult(barcode, upstream, groq, loads) == FetchResult(barcode, upstream, groq', loads')
  {
    MergeIgnoresAiWhenGraded(Catalogued(barcode, upstream).record, AiScores(groq, loads));
    MergeIgnoresAiWhenGraded(Catalogued(barcode, upstream).record, AiScores(groq', loads'));
  }

  /** A found record is for the barcode that was looked up. */
  lemma FoundKeepsBarcode(barcode: string, upstream: Upstream, groq: GroqOutcome, loads: string -> Option<Json>)
    requires FetchResult(barcode, upstream, groq, loads).Found?
    ensures FetchResult(barcode, upstream, groq, loads).record.barcode == barcode
  {
    MergedGrades(Catalogued(barcode, upstream).record, AiScores(groq, loads), NutriScore);
  }
}
