/**
 * The test-record routes over the `AthleteTests` collection: the write-once
 * sorted merge `upsertSingleTest`, the `/upload` handler (one test, or a bulk
 * replace), the `/upload/:category` handler and the `/user/:id` read. The
 * collection is a map from athlete to that athlete's sequence of items; each
 * handler is one atomic step on it.
 */
module TestsRoute {
  import opened Wrappers
  import opened Http
  import opened JsString
  import opened JsValues
  import opened UserModel
  import opened AthleteTestsModel
  import opened StableSort
  import opened BatchScan
  import opened TestsSanitize

  type Records = map<UserId, seq<TestEntry>>

  /** The stored record of an athlete, if any. */
  function Stored(records: Records, userId: UserId): (r: Option<seq<TestEntry>>)
  {
    if userId in records then Some(records[userId]) else None
  }

  // ---------------------------------------------------------------- upsertSingleTest

  /** `(a, b) => (a.testNumber || 0) - (b.testNumber || 0)` as "may stay before"; stored numbers are finite, so `|| 0` changes nothing. */
  const NumberOrder: (TestEntry, TestEntry) -> bool := (a: TestEntry, b: TestEntry) => a.testNumber <= b.testNumber

  lemma NumberOrderTotal()
    ensures TotalPreorder(NumberOrder)
  {
  }

  predicate HasNumber(tests: seq<TestEntry>, n: real) {
    exists i :: 0 <= i < |tests| && tests[i].testNumber == n
  }

  /** No two items share a test number. */
  predicate UniqueNumbers(tests: seq<TestEntry>) {
    forall i, j :: 0 <= i < j < |tests| ==> tests[i].testNumber != tests[j].testNumber
  }

  /** `tests.findIndex((t) => t.testNumber === n)`. */
  function FindNumber(tests: seq<TestEntry>, n: real): (idx: int)
    ensures -1 <= idx < |tests|
    ensures idx == -1 <==> !HasNumber(tests, n)
    ensures idx >= 0 ==> tests[idx].testNumber == n && forall j :: 0 <= j < idx ==> tests[j].testNumber != n
  {
    if tests == [] then -1
    else if tests[0].testNumber == n then 0
    else
      var k := FindNumber(tests[1..], n);
      if k < 0 then
        assert forall j :: 1 <= j < |tests| ==> tests[j] == tests[1..][j - 1];
        -1
      else
        assert tests[k + 1] == tests[1..][k];
        k + 1
  }

  /** The outcome of `upsertSingleTest`: the saved items, or `TEST_EXISTS`. */
  datatype Upsert = Saved(tests: seq<TestEntry>) | TestExists

  /**
   * A new record holds exactly the item; an item whose number is already
   * stored is refused; otherwise the item is pushed and the items are sorted
   * by test number.
   */
  function UpsertedTests(existing: Option<seq<TestEntry>>, t: TestEntry): (r: Upsert)
    ensures existing.None? ==> r == Saved([t])
    ensures r.TestExists? <==> existing.Some? && HasNumber(existing.value, t.testNumber)
    ensures r.Saved? && existing.Some? ==> |r.tests| == |existing.value| + 1
  {
    if existing.None? then Saved([t])
    else if FindNumber(existing.value, t.testNumber) >= 0 then TestExists
    else
      InsertPermutes(Sort(existing.value, NumberOrder), t, NumberOrder);
      SortLength(existing.value);
      assert (existing.value + [t])[..|existing.value|] == existing.value;
      Saved(Sort(existing.value + [t], NumberOrder))
  }

  lemma {:induction false} SortLength(s: seq<TestEntry>)
    ensures |Sort(s, NumberOrder)| == |s|
  {
    if s != [] {
      SortLength(s[..|s| - 1]);
      InsertPermutes(Sort(s[..|s| - 1], NumberOrder), s[|s| - 1], NumberOrder);
    }
  }

  /** Every item of a permutation of `s` is an item of `s`. */
  lemma ItemOfPermutation(s: seq<TestEntry>, p: seq<TestEntry>, i: nat)
    requires multiset(p) == multiset(s) && i < |p|
    ensures exists k :: 0 <= k < |s| && s[k] == p[i]
  {
    assert p[i] in multiset(p);
    assert p[i] in s;
  }

  /**
   * A merge into an existing record yields the old items plus the new one,
   * ordered by test number.
   */
  lemma UpsertSortedPermutation(existing: seq<TestEntry>, t: TestEntry)
    requires !HasNumber(existing, t.testNumber)
    ensures UpsertedTests(Some(existing), t).Saved?
    ensures Sorted(UpsertedTests(Some(existing), t).tests, NumberOrder)
    ensures multiset(UpsertedTests(Some(existing), t).tests) == multiset(existing) + multiset{t}
  {
    NumberOrderTotal();
    SortSortedPermutation(existing + [t], NumberOrder);
  }

  lemma {:induction false} InsertKeepsUnique(t: seq<TestEntry>, x: TestEntry)
    requires UniqueNumbers(t) && !HasNumber(t, x.testNumber)
    ensures UniqueNumbers(Insert(t, x, NumberOrder))
  {
    if t == [] {
    } else if NumberOrder(t[|t| - 1], x) {
      var r := t + [x];
      forall i, j | 0 <= i < j < |r|
        ensures r[i].testNumber != r[j].testNumber
      {
        assert r[i] == t[i];
      }
    } else {
      var init, last := t[..|t| - 1], t[|t| - 1];
      assert !HasNumber(init, x.testNumber) by {
        forall k | 0 <= k < |init|
          ensures init[k].testNumber != x.testNumber
        {
          assert init[k] == t[k];
        }
      }
      InsertKeepsUnique(init, x);
      InsertPermutes(init, x, NumberOrder);
      var u := Insert(init, x, NumberOrder);
      forall i | 0 <= i < |u|
        ensures u[i].testNumber != last.testNumber
      {
        if u[i] != x {
          assert u[i] in multiset(init) by {
            assert u[i] in multiset(u);
          }
          var k :| 0 <= k < |init| && init[k] == u[i];
          assert t[k] == u[i];
        }
      }
      var r := u + [last];
      forall i, j | 0 <= i < j < |r|
        ensures r[i].testNumber != r[j].testNumber
      {
        assert r[i] == u[i];
      }
    }
  }

  lemma {:induction false} SortKeepsUnique(s: seq<TestEntry>)
    requires UniqueNumbers(s)
    ensures UniqueNumbers(Sort(s, NumberOrder))
  {
    if s != [] {
      var init, last := s[..|s| - 1], s[|s| - 1];
      assert UniqueNumbers(init) by {
        forall i, j | 0 <= i < j < |init|
          ensures init[i].testNumber != init[j].testNumber
        {
          assert init[i] == s[i] && init[j] == s[j];
        }
      }
      SortKeepsUnique(init);
      NumberOrderTotal();
      SortSortedPermutation(init, NumberOrder);
      var sorted := Sort(init, NumberOrder);
      assert !HasNumber(sorted, last.testNumber) by {
        forall i | 0 <= i < |sorted|
          ensures sorted[i].testNumber != last.testNumber
        {
          ItemOfPermutation(init, sorted, i);
          var k :| 0 <= k < |init| && init[k] == sorted[i];
          assert s[k] == init[k];
        }
      }
      InsertKeepsUnique(sorted, last);
    }
  }

  /** A merge never introduces a second item with the same test number. */
  lemma UpsertKeepsUnique(existing: Option<seq<TestEntry>>, t: TestEntry)
    requires existing.Some? ==> UniqueNumbers(existing.value)
    requires UpsertedTests(existing, t).Saved?
    ensures UniqueNumbers(UpsertedTests(existing, t).tests)
  {
    if existing.Some? {
      var s := existing.value + [t];
      assert UniqueNumbers(s) by {
        forall i, j | 0 <= i < j < |s|
          ensures s[i].testNumber != s[j].testNumber
        {
          assert s[i] == existing.value[i];
        }
      }
      SortKeepsUnique(s);
    }
  }

  /** A merge of a valid item into valid items stores only valid items. */
  lemma UpsertKeepsValid(existing: Option<seq<TestEntry>>, t: TestEntry)
    requires existing.Some? ==> forall i :: 0 <= i < |existing.value| ==> ValidEntry(existing.value[i])
    requires ValidEntry(t) && UpsertedTests(existing, t).Saved?
    ensures forall i :: 0 <= i < |UpsertedTests(existing, t).tests| ==> ValidEntry(UpsertedTests(existing, t).tests[i])
  {
    if existing.Some? {
      var s := existing.value + [t];
      NumberOrderTotal();
      SortSortedPermutation(s, NumberOrder);
      var r := UpsertedTests(existing, t).tests;
      forall i | 0 <= i < |r|
        ensures ValidEntry(r[i])
      {
        ItemOfPermutation(s, r, i);
      }
    }
  }

  /** A record whose items are already in test-number order gets the new item slotted in between. */
  lemma UpsertIntoSorted(existing: seq<TestEntry>, t: TestEntry)
    requires Sorted(existing, NumberOrder) && !HasNumber(existing, t.testNumber)
    ensures UpsertedTests(Some(existing), t) == Saved(Insert(existing, t, NumberOrder))
  {
    SortOfSorted(existing, NumberOrder);
    assert (existing + [t])[..|existing|] == existing;
  }

  // ---------------------------------------------------------------- handler outcomes

  /** A handler's reply and the collection after it. */
  datatype Step = Step(reply: Reply, records: Records)

  /** The bodies the upload handler reads: `req.body?.tests` and `req.body?.test`. */
  datatype UploadBody = UploadBody(tests: Raw, test: Raw)

  /** Saving one sanitised item for the caller: `null`, the refusal, `TEST_EXISTS`, or the merge. */
  function SingleDecision(records: Records, userId: UserId, single: Sanitized): (s: Step)
    ensures s.reply.status == 200 || s.reply.status == 400
    ensures s.reply.status == 200 <==>
      single.Clean? && !(userId in records && HasNumber(records[userId], single.entry.testNumber))
  {
    match single
    case Invalid => Step(Reply(400, "Invalid test payload"), records)
    case Rejected(e) => Step(Reply(400, e), records)
    case Clean(t) =>
      match UpsertedTests(Stored(records, userId), t)
      case TestExists => Step(Reply(400, "Test already taken"), records)
      case Saved(tests) => Step(Reply(200, "Test saved"), records[userId := tests])
  }

  /** Storing a sanitised batch: `null` or an empty batch is an invalid payload, a refusal is passed on, else the batch replaces the record. */
  function BulkDecision(records: Records, userId: UserId, batch: TestsBatch): (s: Step)
    ensures s.reply.status == 200 || s.reply.status == 400
    ensures s.reply.status == 200 <==> batch.Cleaned? && batch.tests != []
  {
    match batch
    case NotCleaned => Step(Reply(400, "Invalid tests payload"), records)
    case BatchRejected(e) => Step(Reply(400, e), records)
    case Cleaned(tests) =>
      if tests == [] then Step(Reply(400, "Invalid tests payload"), records)
      else Step(Reply(200, "Tests uploaded"), records[userId := tests])
  }

  /** `testsInput || DEFAULT_TESTS`. */
  function BulkInput(body: UploadBody): Raw {
    if RawTruthy(body.tests) then body.tests else RubricArray(DefaultTests)
  }

  /**
   * `/upload`: a truthy `test` is sanitised with index 0 and merged; otherwise
   * `tests || DEFAULT_TESTS` is sanitised as a batch and, when it yields at
   * least one item, replaces the caller's whole sequence.
   */
  function UploadOutcome(records: Records, userId: UserId, body: UploadBody, now: int): Step {
    if RawTruthy(body.test) then SingleDecision(records, userId, SanitizeSingleTest(body.test, 0, now))
    else BulkDecision(records, userId, SanitizedTests(BulkInput(body), now))
  }

  /** `(req.params.category || '').toLowerCase()`, then the alias table. */
  function ResolveCategory(param: string): string {
    var raw := ToLower(param);
    if raw in CategoryAlias then CategoryAlias[raw] else raw
  }

  /** The index a category entry is sanitised with: `categoryTests[i].testNumber || i + 1`. */
  function CategoryIndex(item: RubricItem, i: nat): (idx: int)
    ensures idx != 0
  {
    if item.testNumber != 0 then item.testNumber else i + 1
  }

  /** The per-entry sanitiser of the category loop. */
  function CategoryStep(now: int): (RubricItem, nat) -> Sanitized {
    (item: RubricItem, i: nat) => SanitizeSingleTest(RubricRaw(item), CategoryIndex(item, i), now)
  }

  /**
   * The category loop from entry `i` on: a nameless entry is skipped, a
   * refusal or an existing test number ends it with 400 (earlier entries stay
   * saved), a clean entry is merged.
   */
  function CategoryFrom(records: Records, userId: UserId, items: seq<RubricItem>,
                        f: (RubricItem, nat) -> Sanitized, i: nat): (s: Step)
    requires i <= |items|
    ensures s.reply.status == 200 || s.reply.status == 400
    ensures s.reply.status == 200 ==> forall k :: i <= k < |items| ==> !f(items[k], k).Rejected?
    decreases |items| - i
  {
    if i == |items| then Step(Reply(200, "Test category saved"), records)
    else
      match f(items[i], i)
      case Invalid => CategoryFrom(records, userId, items, f, i + 1)
      case Rejected(e) => Step(Reply(400, e), records)
      case Clean(t) =>
        match UpsertedTests(Stored(records, userId), t)
        case TestExists => Step(Reply(400, "Test already taken"), records)
        case Saved(tests) => CategoryFrom(records[userId := tests], userId, items, f, i + 1)
  }

  /** `/upload/:category`: resolve the name, 404 when the table has no such key, else run the loop. */
  function CategoryOutcome(records: Records, userId: UserId, param: string, now: int): (s: Step)
    ensures s.reply.status == 404 <==> LookupCategory(CategoryTests, ResolveCategory(param)).None?
    ensures s.reply.status == 404 ==> s.records == records
  {
    match LookupCategory(CategoryTests, ResolveCategory(param))
    case None => Step(Reply(404, "Unknown test category"), records)
    case Some(positions) => CategoryFrom(records, userId, RubricAt(positions), CategoryStep(now), 0)
  }

  // ---------------------------------------------------------------- the store

  class TestStore {
    var records: Records

    constructor()
      ensures records == map[]
    {
      records := map[];
    }

    /** `upsertSingleTest(userId, testData)`. */
    method UpsertSingleTest(userId: UserId, testData: TestEntry) returns (r: Upsert)
      modifies this
      ensures r == UpsertedTests(Stored(old(records), userId), testData)
      ensures records == if r.Saved? then old(records)[userId := r.tests] else old(records)
    {
      if userId !in records {
        records := records[userId := [testData]];
        return Saved([testData]);
      }
      var tests := records[userId];
      var idx := FindNumber(tests, testData.testNumber);
      if idx >= 0 {
        return TestExists;
      }
      tests := Sort(tests + [testData], NumberOrder);
      records := records[userId := tests];
      return Saved(tests);
    }

    /** The single-test branch of `/upload`, given the sanitised item. */
    method SaveSingle(userId: UserId, single: Sanitized) returns (reply: Reply)
      modifies this
      ensures Step(reply, records) == SingleDecision(old(records), userId, single)
    {
      if single.Invalid? {
        return Reply(400, "Invalid test payload");
      }
      if single.Rejected? {
        return Reply(400, single.error);
      }
      var saved := UpsertSingleTest(userId, single.entry);
      if saved.TestExists? {
        return Reply(400, "Test already taken");
      }
      return Reply(200, "Test saved");
    }

    /** The bulk branch of `/upload`, given the sanitised batch: a whole-value replace. */
    method SaveBulk(userId: UserId, batch: TestsBatch) returns (reply: Reply)
      modifies this
      ensures Step(reply, records) == BulkDecision(old(records), userId, batch)
    {
      if batch.NotCleaned? || (batch.Cleaned? && batch.tests == []) {
        return Reply(400, "Invalid tests payload");
      }
      if batch.BatchRejected? {
        return Reply(400, batch.error);
      }
      records := records[userId := batch.tests];
      return Reply(200, "Tests uploaded");
    }

    /** `POST /upload`; on success `tests` is the caller's stored sequence, as the reply carries it. */
    method Upload(userId: UserId, body: UploadBody, now: int) returns (reply: Reply, tests: seq<TestEntry>)
      modifies this
      ensures Step(reply, records) == UploadOutcome(old(records), userId, body, now)
      ensures reply.status == 200 ==> userId in records && tests == records[userId]
    {
      if RawTruthy(body.test) {
        var single := SanitizeSingleTest(body.test, 0, now);
        DecisionsWriteOnlyOnSuccess(records, userId, single, NotCleaned);
        reply := SaveSingle(userId, single);
      } else {
        var batch := SanitizeTests(BulkInput(body), now);
        DecisionsWriteOnlyOnSuccess(records, userId, Invalid, batch);
        reply := SaveBulk(userId, batch);
      }
      tests := if reply.status == 200 then records[userId] else [];
    }

    /** The category loop over `items`, one merge per clean entry. */
    method UploadItems(userId: UserId, items: seq<RubricItem>, f: (RubricItem, nat) -> Sanitized) returns (reply: Reply)
      modifies this
      ensures Step(reply, records) == CategoryFrom(old(records), userId, items, f, 0)
      ensures reply.status == 200 || reply.status == 400
    {
      var i := 0;
      while i < |items|
        invariant 0 <= i <= |items|
        invariant CategoryFrom(records, userId, items, f, i) == CategoryFrom(old(records), userId, items, f, 0)
      {
        var sanitized := f(items[i], i);
        if sanitized.Invalid? {
          i := i + 1;
          continue;
        }
        if sanitized.Rejected? {
          return Reply(400, sanitized.error);
        }
        var saved := UpsertSingleTest(userId, sanitized.entry);
        if saved.TestExists? {
          return Reply(400, "Test already taken");
        }
        i := i + 1;
      }
      return Reply(200, "Test category saved");
    }

    /**
     * `POST /upload/:category`; `category` is the resolved name the reply
     * carries, `allowed` the table's keys a 404 lists.
     */
    method UploadCategory(userId: UserId, param: string, now: int)
      returns (reply: Reply, category: string, allowed: seq<string>)
      modifies this
      ensures Step(reply, records) == CategoryOutcome(old(records), userId, param, now)
      ensures category == ResolveCategory(param)
      ensures reply.status == 404 ==> allowed == CategoryKeys(CategoryTests)
    {
      category := ResolveCategory(param);
      allowed := [];
      var positions := LookupCategory(CategoryTests, category);
      if positions.None? {
        allowed := CategoryKeys(CategoryTests);
        return Reply(404, "Unknown test category"), category, allowed;
      }
      reply := UploadItems(userId, RubricAt(positions.value), CategoryStep(now));
    }

    /**
     * `GET /user/:id`: the stored items, or none when the athlete has no
     * record; a collection that holds only schema-valid items, as every upload
     * keeps it, hands out only schema-valid items.
     */
    method FetchUserTests(userId: UserId) returns (tests: seq<TestEntry>)
      ensures userId in records ==> tests == records[userId]
      ensures userId !in records ==> tests == []
      ensures AllValid(records) ==> forall i :: 0 <= i < |tests| ==> ValidEntry(tests[i])
    {
      if userId in records {
        return records[userId];
      }
      return [];
    }
  }

  // ---------------------------------------------------------------- handler properties

  /** A single `test` takes priority: the `tests` field is then never read. */
  lemma SingleTakesPriority(records: Records, userId: UserId, body: UploadBody, other: Raw, now: int)
    requires RawTruthy(body.test)
    ensures UploadOutcome(records, userId, body, now) == UploadOutcome(records, userId, UploadBody(other, body.test), now)
  {
  }

  /** A refused single item or batch leaves the collection as it was; a stored one writes the caller's record only. */
  lemma DecisionsWriteOnlyOnSuccess(records: Records, userId: UserId, single: Sanitized, batch: TestsBatch)
    ensures IsError(SingleDecision(records, userId, single).reply) ==> SingleDecision(records, userId, single).records == records
    ensures IsError(BulkDecision(records, userId, batch).reply) ==> BulkDecision(records, userId, batch).records == records
    ensures !IsError(SingleDecision(records, userId, single).reply) ==>
      && userId in SingleDecision(records, userId, single).records
      && SingleDecision(records, userId, single).records == records[userId := SingleDecision(records, userId, single).records[userId]]
    ensures !IsError(BulkDecision(records, userId, batch).reply) ==>
      BulkDecision(records, userId, batch).records == records[userId := batch.tests]
  {
  }

  /** Every refused upload leaves the collection as it was; an accepted one writes only the caller's record. */
  lemma UploadErrorNoWrite(records: Records, userId: UserId, body: UploadBody, now: int)
    ensures IsError(UploadOutcome(records, userId, body, now).reply) ==> UploadOutcome(records, userId, body, now).records == records
    ensures !IsError(UploadOutcome(records, userId, body, now).reply) ==>
      && userId in UploadOutcome(records, userId, body, now).records
      && UploadOutcome(records, userId, body, now).records == records[userId := UploadOutcome(records, userId, body, now).records[userId]]
  {
    if RawTruthy(body.test) {
      DecisionsWriteOnlyOnSuccess(records, userId, SanitizeSingleTest(body.test, 0, now), NotCleaned);
    } else {
      DecisionsWriteOnlyOnSuccess(records, userId, Invalid, SanitizedTests(BulkInput(body), now));
    }
  }

  /**
   * Bulk upload replaces: a cleaned, non-empty batch becomes the caller's
   * whole sequence, whatever was stored before; nothing is merged, deduplicated
   * or sorted. `BatchCleanedIff` says which items the batch holds.
   */
  lemma BulkReplaces(records: Records, userId: UserId, body: UploadBody, now: int)
    requires !RawTruthy(body.test) && RawTruthy(body.tests)
    requires SanitizedTests(body.tests, now).Cleaned? && SanitizedTests(body.tests, now).tests != []
    ensures UploadOutcome(records, userId, body, now) ==
      Step(Reply(200, "Tests uploaded"), records[userId := SanitizedTests(body.tests, now).tests])
  {
  }

  /** An empty array, a non-array or a nameless item in the batch is refused as an invalid payload. */
  lemma BulkInvalidPayload(records: Records, userId: UserId, body: UploadBody, now: int)
    requires !RawTruthy(body.test) && RawTruthy(body.tests)
    requires !body.tests.Arr? || body.tests.items == [] ||
             exists k :: 0 <= k < |body.tests.items| && Sanitizer(now)(body.tests.items[k], k).Invalid? &&
                         forall j :: 0 <= j < k ==> Sanitizer(now)(body.tests.items[j], j).Clean?
    ensures UploadOutcome(records, userId, body, now) == Step(Reply(400, "Invalid tests payload"), records)
  {
    if body.tests.Arr? && body.tests.items != [] {
      var k :| 0 <= k < |body.tests.items| && Sanitizer(now)(body.tests.items[k], k).Invalid? &&
               forall j :: 0 <= j < k ==> Sanitizer(now)(body.tests.items[j], j).Clean?;
      ScanFailsAtFirst(body.tests.items, Sanitizer(now), k);
    }
  }

  /** Omitting both fields uploads the shipped rubric, which is refused for its ratings; nothing is written. */
  lemma DefaultUploadRejected(records: Records, userId: UserId, body: UploadBody, now: int)
    requires !RawTruthy(body.test) && !RawTruthy(body.tests)
    ensures UploadOutcome(records, userId, body, now) == Step(Reply(400, RatingScaleError), records)
  {
    DefaultBatchRejected(now);
  }

  /** Storing a clean item or a cleaned batch keeps every stored item schema-valid. */
  lemma DecisionsKeepValid(records: Records, userId: UserId, single: Sanitized, batch: TestsBatch)
    requires AllValid(records)
    requires single.Clean? ==> ValidEntry(single.entry)
    requires batch.Cleaned? ==> forall k :: 0 <= k < |batch.tests| ==> ValidEntry(batch.tests[k])
    ensures AllValid(SingleDecision(records, userId, single).records)
    ensures AllValid(BulkDecision(records, userId, batch).records)
  {
    if single.Clean? && UpsertedTests(Stored(records, userId), single.entry).Saved? {
      UpsertKeepsValid(Stored(records, userId), single.entry);
    }
  }

  /** Uploads keep every stored item schema-valid. */
  lemma UploadKeepsValid(records: Records, userId: UserId, body: UploadBody, now: int)
    requires AllValid(records)
    ensures AllValid(UploadOutcome(records, userId, body, now).records)
  {
    if RawTruthy(body.test) {
      DecisionsKeepValid(records, userId, SanitizeSingleTest(body.test, 0, now), NotCleaned);
    } else {
      var input := BulkInput(body);
      var r := SanitizedTests(input, now);
      if r.Cleaned? {
        BatchCleanedIff(input, now);
        forall k | 0 <= k < |r.tests|
          ensures ValidEntry(r.tests[k])
        {
          assert Sanitizer(now)(input.items[k], k).Clean?;
        }
      }
      DecisionsKeepValid(records, userId, Invalid, r);
    }
  }

  /** The keys a 404 lists, in declaration order. */
  lemma AllowedKeys()
    ensures CategoryKeys(CategoryTests) == ["flexibility", "lowerbodyexplosive", "upperbodystrength",
                                            "speed", "agility", "corestrength", "endurance"]
  {
  }

  /** Mixed-case names resolve: "LowerBodyExplosive" gives tests 2 and 3. */
  lemma LowerBodyCategory()
    ensures LookupCategory(CategoryTests, ResolveCategory("LowerBodyExplosive")) == Some([1, 2])
  {
    assert ToLower("LowerBodyExplosive") == "lowerbodyexplosive";
  }

  /** Aliases resolve: "Core" gives the sit-ups. */
  lemma CoreAlias()
    ensures LookupCategory(CategoryTests, ResolveCategory("Core")) == Some([6])
  {
    assert ToLower("Core") == "core";
  }

  /** The category loop only ever writes the caller's record. */
  lemma {:induction false} CategoryFromKeepsOthers(records: Records, userId: UserId, items: seq<RubricItem>,
                                                   f: (RubricItem, nat) -> Sanitized, i: nat, other: UserId)
    requires i <= |items| && other != userId
    ensures other in CategoryFrom(records, userId, items, f, i).records <==> other in records
    ensures other in records ==> CategoryFrom(records, userId, items, f, i).records[other] == records[other]
    decreases |items| - i
  {
    if i < |items| {
      match f(items[i], i)
      case Invalid => CategoryFromKeepsOthers(records, userId, items, f, i + 1, other);
      case Rejected(e) =>
      case Clean(t) =>
        match UpsertedTests(Stored(records, userId), t)
        case TestExists =>
        case Saved(tests) => CategoryFromKeepsOthers(records[userId := tests], userId, items, f, i + 1, other);
    }
  }

  /** Every category starts with a rubric entry, refused for its null rating. */
  lemma CategoryHeadRejected(key: string, positions: seq<RubricIndex>, now: int)
    requires (key, positions) in CategoryTests
    ensures positions != [] && CategoryStep(now)(RubricAt(positions)[0], 0) == Rejected(RatingScaleError)
  {
    var item := DefaultTests[positions[0]];
    DefaultTestsRejected(positions[0], CategoryIndex(item, 0), now);
  }

  /**
   * With the shipped tables every category upload fails: an unknown name with
   * 404, a known one with the ratingScale refusal at its first entry. Either
   * way nothing is written, so the partial-commit path is never taken.
   */
  lemma EveryCategoryUploadRefused(records: Records, userId: UserId, param: string, now: int)
    ensures CategoryOutcome(records, userId, param, now).records == records
    ensures LookupCategory(CategoryTests, ResolveCategory(param)).None? ==>
      CategoryOutcome(records, userId, param, now).reply == Reply(404, "Unknown test category")
    ensures LookupCategory(CategoryTests, ResolveCategory(param)).Some? ==>
      CategoryOutcome(records, userId, param, now).reply == Reply(400, RatingScaleError)
  {
    var found := LookupCategory(CategoryTests, ResolveCategory(param));
    if found.Some? {
      CategoryHeadRejected(ResolveCategory(param), found.value, now);
    }
  }
}
