/**
 * The `AthleteTests` collection: one record per athlete holding a sequence of
 * test items. The unique `userId` is the key of the collection's map, and a
 * record created without tests gets the default empty sequence.
 */
module AthleteTestsModel {
  import opened Wrappers
  import opened UserModel

  /** One test item. `testDate` is a time in milliseconds. */
  datatype TestEntry = TestEntry(
    testNumber: real,
    sequenceLabel: string,
    nameOfTest: string,
    qualityTested: string,
    ageCategory: Option<string>,
    ratingScale: Option<real>,
    testDate: int)

  /** The item as handed to the schema; every path may be absent. */
  datatype TestInput = TestInput(
    testNumber: Option<real>,
    sequenceLabel: Option<string>,
    nameOfTest: Option<string>,
    qualityTested: Option<string>,
    ageCategory: Option<string>,
    ratingScale: Option<real>,
    testDate: Option<int>)

  predicate InRatingRange(x: real) {
    1.0 <= x <= 10.0
  }

  /** The item schema's validators: required strings are present and non-empty, a set rating lies in [1, 10]. */
  predicate ValidEntry(t: TestEntry) {
    && t.sequenceLabel != ""
    && t.nameOfTest != ""
    && (t.ratingScale.Some? ==> InRatingRange(t.ratingScale.value))
  }

  /** All stored items of a collection satisfy the item schema. */
  ghost predicate AllValid(records: map<UserId, seq<TestEntry>>) {
    forall u :: u in records ==> forall i :: 0 <= i < |records[u]| ==> ValidEntry(records[u][i])
  }

  /** Casting an item: defaults (`qualityTested` to '', `testDate` to now), then the validators. */
  function BuildEntry(input: TestInput, now: int): (r: Option<TestEntry>)
    ensures r.Some? <==>
      && input.testNumber.Some?
      && input.sequenceLabel.Some? && input.sequenceLabel.value != ""
      && input.nameOfTest.Some? && input.nameOfTest.value != ""
      && (input.ratingScale.Some? ==> InRatingRange(input.ratingScale.value))
    ensures r.Some? ==> ValidEntry(r.value)
    ensures r.Some? ==> r.value.qualityTested == (if input.qualityTested.Some? then input.qualityTested.value else "")
    ensures r.Some? ==> r.value.testDate == (if input.testDate.Some? then input.testDate.value else now)
    ensures r.Some? ==> r.value.ageCategory == input.ageCategory && r.value.ratingScale == input.ratingScale
  {
    if input.testNumber.None? then None
    else if input.sequenceLabel.None? || input.sequenceLabel.value == "" then None
    else if input.nameOfTest.None? || input.nameOfTest.value == "" then None
    else if input.ratingScale.Some? && !InRatingRange(input.ratingScale.value) then None
    else Some(TestEntry(
      input.testNumber.value,
      input.sequenceLabel.value,
      input.nameOfTest.value,
      if input.qualityTested.Some? then input.qualityTested.value else "",
      input.ageCategory,
      input.ratingScale,
      if input.testDate.Some? then input.testDate.value else now))
  }

  /** Every path of an item, set. */
  function AsInput(t: TestEntry): TestInput {
    TestInput(Some(t.testNumber), Some(t.sequenceLabel), Some(t.nameOfTest), Some(t.qualityTested),
              t.ageCategory, t.ratingScale, Some(t.testDate))
  }

  /** A valid item passes the schema unchanged (the bulk upsert runs validators). */
  lemma {:induction false} ValidEntryRoundTrip(t: TestEntry, now: int)
    requires ValidEntry(t)
    ensures BuildEntry(AsInput(t), now) == Some(t)
  {
  }
}
