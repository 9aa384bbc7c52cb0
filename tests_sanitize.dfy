/**
 * The test sanitiser of the test-record routes: the shipped rubric tables,
 * `sanitizeSingleTest`, which turns one untrusted body item into a stored
 * test item, a refusal or nothing, and `sanitizeTests`, which does so for an
 * array and stops at the first item that is not clean.
 */
module TestsSanitize {
  import opened Wrappers
  import opened JsString
  import opened JsValues
  import opened AthleteTestsModel
  import opened BatchScan

  // ---------------------------------------------------------------- item fields

  /**
   * The properties of a body item that the sanitiser reads. Reading a property
   * of anything but an object gives `undefined`, so `rawTest || {}` and a
   * non-object item both yield `Missing` everywhere.
   */
  datatype ItemFields = ItemFields(
    testNumber: Scalar,
    sequenceLabel: Scalar,
    nameOfTest: Scalar,
    qualityTested: Scalar,
    ageCategory: Scalar,
    ratingScale: Scalar)

  function FieldsOf(rawTest: Raw): ItemFields {
    ItemFields(
      Prop(rawTest, "testNumber"),
      Prop(rawTest, "sequenceLabel"),
      Prop(rawTest, "nameOfTest"),
      Prop(rawTest, "qualityTested"),
      Prop(rawTest, "ageCategory"),
      Prop(rawTest, "ratingScale"))
  }

  // ---------------------------------------------------------------- rubric tables

  /** One rubric entry as written in the handler's tables. */
  datatype RubricItem = RubricItem(
    testNumber: int,
    sequenceLabel: string,
    nameOfTest: string,
    qualityTested: string,
    ageCategory: Option<string>,
    ratingScale: Scalar)

  /** The rubric entry as the plain object the sanitiser receives. */
  function RubricRaw(item: RubricItem): Raw {
    var base := map[
      "testNumber" := Num(item.testNumber as real),
      "sequenceLabel" := Str(item.sequenceLabel),
      "nameOfTest" := Str(item.nameOfTest),
      "qualityTested" := Str(item.qualityTested),
      "ratingScale" := item.ratingScale];
    Obj(if item.ageCategory.Some? then base["ageCategory" := Str(item.ageCategory.value)] else base)
  }

  /** The properties that entry shows the sanitiser. */
  lemma RubricFields(item: RubricItem)
    ensures FieldsOf(RubricRaw(item)) == ItemFields(
      Num(item.testNumber as real), Str(item.sequenceLabel), Str(item.nameOfTest), Str(item.qualityTested),
      if item.ageCategory.Some? then Str(item.ageCategory.value) else Missing,
      item.ratingScale)
  {
  }

  /** A rubric table as a JavaScript array of plain objects. */
  function RubricArray(items: seq<RubricItem>): (r: Raw)
  {
    Arr(seq(|items|, i requires 0 <= i < |items| => RubricRaw(items[i])))
  }

  /** The eight-test rubric; every entry carries an explicit `ratingScale: null`. */
  const DefaultTests: seq<RubricItem> := [
    RubricItem(1, "Test 1", "Sit and Reach", "Flexibility", None, Null),
    RubricItem(2, "Test 2", "Standing Vertical Jump", "Lower Body Explosive Strength", None, Null),
    RubricItem(3, "Test 3", "Standing Broad Jump", "Lower Body Explosive Strength", None, Null),
    RubricItem(4, "Test 4", "Medicine Ball Throw", "Upper Body Strength", None, Null),
    RubricItem(5, "Test 5", "30mts Standing Start", "Speed", None, Null),
    RubricItem(6, "Test 6", "4 x 10 mts Shuttle Run", "Agility", None, Null),
    RubricItem(7, "Test 7", "Sit Ups", "Core Strength", None, Null),
    RubricItem(8, "Test 8", "800m Run (U-12), 1.6km Run (12+)", "Endurance", Some("U-12 / 12+"), Null)
  ]

  /** A position in the eight-test rubric. */
  type RubricIndex = i: nat | i < 8

  /**
   * The category table, in the key order `Object.keys` reports; each category
   * lists the rubric entries it uploads, by their position in the rubric.
   */
  const CategoryTests: seq<(string, seq<RubricIndex>)> := [
    ("flexibility", [0]),
    ("lowerbodyexplosive", [1, 2]),
    ("upperbodystrength", [3]),
    ("speed", [4]),
    ("agility", [5]),
    ("corestrength", [6]),
    ("endurance", [7])
  ]

  /** The rubric entries at the given positions. */
  function RubricAt(positions: seq<RubricIndex>): (items: seq<RubricItem>)
  {
    seq(|positions|, k requires 0 <= k < |positions| => DefaultTests[positions[k]])
  }

  /** Alternative spellings accepted for a category (one of them maps a typo to the real key). */
  const CategoryAlias: map<string, string> := map[
    "flexiblity" := "flexibility",
    "lowerbodyexplosive" := "lowerbodyexplosive",
    "upperbodyexplosive" := "upperbodystrength",
    "upperbody" := "upperbodystrength",
    "core" := "corestrength"
  ]

  /** `Object.keys(table)`. */
  function CategoryKeys<V>(table: seq<(string, V)>): (keys: seq<string>)
  {
    seq(|table|, i requires 0 <= i < |table| => table[i].0)
  }

  /** `table[key]`: the entry under `key`, if the table has one. */
  function LookupCategory<V>(table: seq<(string, V)>, key: string): (r: Option<V>)
    ensures r.Some? <==> key in CategoryKeys(table)
    ensures r.Some? ==> (key, r.value) in table
  {
    if table == [] then None
    else if table[0].0 == key then
      assert CategoryKeys(table)[0] == key;
      Some(table[0].1)
    else
      assert CategoryKeys(table) == [table[0].0] + CategoryKeys(table[1..]);
      var r := LookupCategory(table[1..], key);
      assert r.Some? ==> (key, r.value) in table[1..];
      r
  }

  // ---------------------------------------------------------------- sanitizeSingleTest

  const RatingScaleError := "ratingScale must be a number between 1 and 10"

  /** `null`, `{ error }` or the cleaned item. */
  type Sanitized = Outcome<TestEntry>

  /** `withinBounds(Number(v))`: a finite number in [1, 10]. */
  predicate WithinBounds(n: Option<real>) {
    n.Some? && InRatingRange(n.value)
  }

  /** `String(v || '').trim()`, how the sanitiser reads a text field. */
  function TrimmedText(v: Scalar): string {
    Trim(Text(Or(v, Str(""))))
  }

  /** The label an item without one gets: `Test ${idx + 1}`. */
  function DefaultLabel(idx: int): (text: string)
    ensures text != [] && Trimmed(text)
  {
    var digits := IntText(idx + 1);
    var text := "Test " + digits;
    assert text[|text| - 1] == digits[|digits| - 1];
    text
  }

  /** Every string of the item is its own trim. */
  predicate Tidy(t: TestEntry) {
    && Trimmed(t.sequenceLabel)
    && Trimmed(t.nameOfTest)
    && Trimmed(t.qualityTested)
    && (t.ageCategory.Some? ==> Trimmed(t.ageCategory.value))
  }

  /** `test.ratingScale !== undefined` and not `withinBounds(Number(test.ratingScale))`. */
  predicate RefusesRating(f: ItemFields) {
    f.ratingScale != Missing && !WithinBounds(FiniteNumber(f.ratingScale))
  }

  /** The stored rating: absent when the item has none, else its finite value. */
  function RatingOf(f: ItemFields): (r: Option<real>)
    requires !RefusesRating(f)
    ensures r.Some? <==> f.ratingScale != Missing
    ensures r.Some? ==> InRatingRange(r.value) && FiniteNumber(f.ratingScale) == r
  {
    if f.ratingScale == Missing then None else FiniteNumber(f.ratingScale)
  }

  /** `Number(test.testNumber)` when finite, else `idx + 1`. */
  function TestNumberOf(f: ItemFields, idx: int): (n: real)
  {
    match FiniteNumber(f.testNumber)
    case Some(n) => n
    case None => (idx + 1) as real
  }

  /** The trimmed label, or `Test ${idx + 1}` when it is blank. */
  function LabelOf(f: ItemFields, idx: int): (text: string)
    ensures text != "" && Trimmed(text)
    ensures TrimmedText(f.sequenceLabel) != "" ==> text == TrimmedText(f.sequenceLabel)
    ensures TrimmedText(f.sequenceLabel) == "" ==> text == DefaultLabel(idx)
  {
    var given := TrimmedText(f.sequenceLabel);
    if given != "" then given else DefaultLabel(idx)
  }

  /** `test.ageCategory ? String(test.ageCategory).trim() : undefined`. */
  function AgeCategoryOf(f: ItemFields): (a: Option<string>)
    ensures a.Some? <==> Truthy(f.ageCategory)
    ensures a.Some? ==> a.value == Trim(Text(f.ageCategory)) && Trimmed(a.value)
  {
    if Truthy(f.ageCategory) then Some(Trim(Text(f.ageCategory))) else None
  }

  /**
   * `sanitizeSingleTest(rawTest, idx)`, with `testDate` the time `now`: the
   * trimmed name decides first (blank gives `null`), then a present rating
   * outside [1, 10] (explicit `null` included) gives the refusal; otherwise
   * every field of the cleaned item is read with its default.
   */
  function SanitizeSingleTest(rawTest: Raw, idx: int, now: int): (r: Sanitized)
    ensures r.Invalid? <==> TrimmedText(FieldsOf(rawTest).nameOfTest) == ""
    ensures r.Rejected? <==> TrimmedText(FieldsOf(rawTest).nameOfTest) != "" && RefusesRating(FieldsOf(rawTest))
    ensures r.Rejected? ==> r.error == RatingScaleError
    ensures r.Clean? ==>
      && r.entry.nameOfTest == TrimmedText(FieldsOf(rawTest).nameOfTest)
      && r.entry.sequenceLabel == LabelOf(FieldsOf(rawTest), idx)
      && r.entry.testNumber == TestNumberOf(FieldsOf(rawTest), idx)
      && r.entry.qualityTested == TrimmedText(FieldsOf(rawTest).qualityTested)
      && r.entry.ageCategory == AgeCategoryOf(FieldsOf(rawTest))
      && r.entry.ratingScale == RatingOf(FieldsOf(rawTest))
      && r.entry.testDate == now
    ensures r.Clean? ==> ValidEntry(r.entry) && Tidy(r.entry)
  {
    var f := FieldsOf(rawTest);
    var name := TrimmedText(f.nameOfTest);
    if name == "" then Invalid
    else if RefusesRating(f) then Rejected(RatingScaleError)
    else
      Clean(TestEntry(
        TestNumberOf(f, idx),
        LabelOf(f, idx),
        name,
        TrimmedText(f.qualityTested),
        AgeCategoryOf(f),
        RatingOf(f),
        now))
  }

  /** An item with a name and an explicit `null` rating is refused: `Number(null)` is 0. */
  lemma NullRatingRejected(rawTest: Raw, idx: int, now: int)
    requires TrimmedText(FieldsOf(rawTest).nameOfTest) != "" && FieldsOf(rawTest).ratingScale == Null
    ensures SanitizeSingleTest(rawTest, idx, now) == Rejected(RatingScaleError)
  {
    NullIsZero();
  }

  /** An item without a `ratingScale` key is stored unscored, never refused for its rating. */
  lemma AbsentRatingUnscored(rawTest: Raw, idx: int, now: int)
    requires TrimmedText(FieldsOf(rawTest).nameOfTest) != "" && FieldsOf(rawTest).ratingScale == Missing
    ensures SanitizeSingleTest(rawTest, idx, now).Clean?
    ensures SanitizeSingleTest(rawTest, idx, now).entry.ratingScale.None?
  {
  }

  /** A name that starts with a non-space character is not blank. */
  lemma NotBlank(s: string)
    requires s != [] && !IsSpace(s[0])
    ensures TrimmedText(Str(s)) != ""
  {
    TrimEmptyIff(s);
  }

  /** Every shipped rubric entry is refused, whatever index it is sanitised with. */
  lemma DefaultTestsRejected(i: nat, idx: int, now: int)
    requires i < |DefaultTests|
    ensures SanitizeSingleTest(RubricRaw(DefaultTests[i]), idx, now) == Rejected(RatingScaleError)
  {
    var item := DefaultTests[i];
    assert item.nameOfTest[0] in "SM348";
    assert item.ratingScale == Null;
    NotBlank(item.nameOfTest);
    RubricFields(item);
    NullRatingRejected(RubricRaw(item), idx, now);
  }

  // ---------------------------------------------------------------- sanitizeTests

  type TestsBatch = BatchResult<TestEntry>

  /** `sanitizeSingleTest` with the upload's time fixed: item `k` is sanitised with index `k`. */
  function Sanitizer(now: int): (Raw, nat) -> Sanitized {
    (rawTest: Raw, k: nat) => SanitizeSingleTest(rawTest, k, now)
  }

  /** `sanitizeTests(rawTests)`: anything but an array gives `null`. */
  function SanitizedTests(rawTests: Raw, now: int): TestsBatch {
    if rawTests.Arr? then Scan(rawTests.items, Sanitizer(now)) else NotCleaned
  }

  /** The handler's `sanitizeTests`: the array check, then the all-or-nothing loop. */
  method SanitizeTests(rawTests: Raw, now: int) returns (r: TestsBatch)
    ensures r == SanitizedTests(rawTests, now)
  {
    if !rawTests.Arr? {
      return NotCleaned;
    }
    r := ScanItems(rawTests.items, Sanitizer(now));
  }

  /**
   * A batch is cleaned exactly when it is an array whose items are all clean;
   * it then holds each item's cleaned form, in input order.
   */
  lemma BatchCleanedIff(rawTests: Raw, now: int)
    ensures SanitizedTests(rawTests, now).Cleaned? <==>
      rawTests.Arr? && forall k :: 0 <= k < |rawTests.items| ==> Sanitizer(now)(rawTests.items[k], k).Clean?
    ensures SanitizedTests(rawTests, now).Cleaned? ==>
      && |SanitizedTests(rawTests, now).tests| == |rawTests.items|
      && forall k :: 0 <= k < |rawTests.items| ==>
           SanitizedTests(rawTests, now).tests[k] == Sanitizer(now)(rawTests.items[k], k).entry
  {
    if rawTests.Arr? {
      ScanCleanedIff(rawTests.items, Sanitizer(now));
    }
  }

  /** The default rubric, uploaded as a batch, is refused on its first entry. */
  lemma DefaultBatchRejected(now: int)
    ensures SanitizedTests(RubricArray(DefaultTests), now) == BatchRejected(RatingScaleError)
  {
    var items := RubricArray(DefaultTests).items;
    DefaultTestsRejected(0, 0, now);
    assert Sanitizer(now)(items[0], 0) == Rejected(RatingScaleError);
    ScanFailsAtFirst(items, Sanitizer(now), 0);
  }
}
