/**
 * The all-or-nothing batch loop of the test routes: each item of an array is
 * turned into an outcome by a per-item sanitiser, the loop returns at the
 * first item that yields nothing or a refusal, and otherwise collects the
 * cleaned items in input order. The per-item sanitiser is a parameter, so
 * these facts hold whatever it does.
 */
module BatchScan {

  /** The per-item outcome: no item (`null`), a refusal (`{ error }`), or the cleaned item. */
  datatype Outcome<T> = Invalid | Rejected(error: string) | Clean(entry: T)

  /** The batch outcome: `null`, the first refusal, or the cleaned items. */
  datatype BatchResult<T> = NotCleaned | BatchRejected(error: string) | Cleaned(tests: seq<T>)

  /** Cleaned items in front of a batch result; a failure stays a failure. */
  function Prepend<T>(ts: seq<T>, r: BatchResult<T>): BatchResult<T> {
    if r.Cleaned? then Cleaned(ts + r.tests) else r
  }

  /** The batch from position `i` on; item `k` is sanitised with index `k`. */
  function ScanFrom<A, T>(xs: seq<A>, f: (A, nat) -> Outcome<T>, i: nat): BatchResult<T>
    requires i <= |xs|
    decreases |xs| - i
  {
    if i == |xs| then Cleaned([])
    else
      match f(xs[i], i)
      case Invalid => NotCleaned
      case Rejected(e) => BatchRejected(e)
      case Clean(t) => Prepend([t], ScanFrom(xs, f, i + 1))
  }

  function Scan<A, T>(xs: seq<A>, f: (A, nat) -> Outcome<T>): BatchResult<T> {
    ScanFrom(xs, f, 0)
  }

  lemma PrependNothing<T>(r: BatchResult<T>)
    ensures Prepend([], r) == r
  {
    if r.Cleaned? {
      assert [] + r.tests == r.tests;
    }
  }

  lemma PrependStep<T>(ts: seq<T>, t: T, r: BatchResult<T>)
    ensures Prepend(ts, Prepend([t], r)) == Prepend(ts + [t], r)
  {
    if r.Cleaned? {
      assert ts + ([t] + r.tests) == (ts + [t]) + r.tests;
    }
  }

  /** One step of the loop: a failure ends the batch, a clean item moves to the cleaned part. */
  lemma ScanStep<A, T>(xs: seq<A>, f: (A, nat) -> Outcome<T>, i: nat, cleaned: seq<T>)
    requires i < |xs| && Scan(xs, f) == Prepend(cleaned, ScanFrom(xs, f, i))
    ensures f(xs[i], i).Invalid? ==> Scan(xs, f) == NotCleaned
    ensures f(xs[i], i).Rejected? ==> Scan(xs, f) == BatchRejected(f(xs[i], i).error)
    ensures f(xs[i], i).Clean? ==> Scan(xs, f) == Prepend(cleaned + [f(xs[i], i).entry], ScanFrom(xs, f, i + 1))
  {
    if f(xs[i], i).Clean? {
      PrependStep(cleaned, f(xs[i], i).entry, ScanFrom(xs, f, i + 1));
    }
  }

  /**
   * `for (i = 0; i < rawTests.length; i++)`: sanitise item `i` with index `i`,
   * return `null` or the refusal at the first item that is not clean, else
   * push the cleaned item.
   */
  method ScanItems<A, T>(xs: seq<A>, f: (A, nat) -> Outcome<T>) returns (r: BatchResult<T>)
    ensures r == Scan(xs, f)
  {
    var cleaned: seq<T> := [];
    var i := 0;
    PrependNothing(Scan(xs, f));
    while i < |xs|
      invariant 0 <= i <= |xs|
      invariant Scan(xs, f) == Prepend(cleaned, ScanFrom(xs, f, i))
    {
      var entry := f(xs[i], i);
      ScanStep(xs, f, i, cleaned);
      if entry.Invalid? {
        return NotCleaned;
      }
      if entry.Rejected? {
        return BatchRejected(entry.error);
      }
      cleaned := cleaned + [entry.entry];
      i := i + 1;
    }
    assert cleaned + [] == cleaned;
    return Cleaned(cleaned);
  }

  /** When every item from `i` on is clean, the batch is their entries, in order. */
  lemma {:induction false} AllCleanFrom<A, T>(xs: seq<A>, f: (A, nat) -> Outcome<T>, i: nat)
    requires i <= |xs|
    requires forall k :: i <= k < |xs| ==> f(xs[k], k).Clean?
    ensures ScanFrom(xs, f, i).Cleaned?
    ensures |ScanFrom(xs, f, i).tests| == |xs| - i
    ensures forall k :: i <= k < |xs| ==> ScanFrom(xs, f, i).tests[k - i] == f(xs[k], k).entry
    decreases |xs| - i
  {
    if i < |xs| {
      AllCleanFrom(xs, f, i + 1);
    }
  }

  /** The first item that is not clean decides: `null` for no item, else its refusal. */
  lemma {:induction false} FirstUncleanFrom<A, T>(xs: seq<A>, f: (A, nat) -> Outcome<T>, i: nat, k: nat)
    requires i <= k < |xs|
    requires forall j :: i <= j < k ==> f(xs[j], j).Clean?
    requires !f(xs[k], k).Clean?
    ensures ScanFrom(xs, f, i) == if f(xs[k], k).Rejected? then BatchRejected(f(xs[k], k).error) else NotCleaned
    decreases k - i
  {
    if i < k {
      FirstUncleanFrom(xs, f, i + 1, k);
    }
  }

  /** The earliest item at or before `j` that is not clean. */
  lemma {:induction false} FirstUnclean<A, T>(xs: seq<A>, f: (A, nat) -> Outcome<T>, j: nat) returns (k: nat)
    requires j < |xs| && !f(xs[j], j).Clean?
    ensures k <= j && !f(xs[k], k).Clean?
    ensures forall m :: 0 <= m < k ==> f(xs[m], m).Clean?
    decreases j
  {
    if forall m :: 0 <= m < j ==> f(xs[m], m).Clean? {
      k := j;
    } else {
      var m :| 0 <= m < j && !f(xs[m], m).Clean?;
      k := FirstUnclean(xs, f, m);
    }
  }

  /**
   * All or nothing: the batch is cleaned exactly when every item is clean,
   * and then it holds one cleaned item per input item, in input order.
   */
  lemma ScanCleanedIff<A, T>(xs: seq<A>, f: (A, nat) -> Outcome<T>)
    ensures Scan(xs, f).Cleaned? <==> forall k :: 0 <= k < |xs| ==> f(xs[k], k).Clean?
    ensures Scan(xs, f).Cleaned? ==>
      |Scan(xs, f).tests| == |xs| && forall k :: 0 <= k < |xs| ==> Scan(xs, f).tests[k] == f(xs[k], k).entry
  {
    if forall k :: 0 <= k < |xs| ==> f(xs[k], k).Clean? {
      AllCleanFrom(xs, f, 0);
      var tests := Scan(xs, f).tests;
      forall k | 0 <= k < |xs|
        ensures tests[k] == f(xs[k], k).entry
      {
        assert tests[k - 0] == f(xs[k], k).entry;
      }
    } else {
      var j :| 0 <= j < |xs| && !f(xs[j], j).Clean?;
      var k := FirstUnclean(xs, f, j);
      FirstUncleanFrom(xs, f, 0, k);
    }
  }

  /** A batch that is not cleaned fails at its first unclean item: `null` for no item, else that refusal. */
  lemma ScanFailsAtFirst<A, T>(xs: seq<A>, f: (A, nat) -> Outcome<T>, k: nat)
    requires k < |xs|
    requires forall j :: 0 <= j < k ==> f(xs[j], j).Clean?
    requires !f(xs[k], k).Clean?
    ensures Scan(xs, f) == if f(xs[k], k).Rejected? then BatchRejected(f(xs[k], k).error) else NotCleaned
  {
    FirstUncleanFrom(xs, f, 0, k);
  }
}
