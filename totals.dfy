/** Adding up the durations of a playlist's items, where fetching one item can
    fail without stopping the others, and the outcome of a whole run. */
module Totals {
  import opened Wrappers
  import opened Pagination

  /** The details response for one item: its HTTP status and the `duration`
      strings of the items in its body (none when the body has no `items`). */
  datatype Details = Details(status: int, durations: seq<string>)

  /** The duration text `fetchVideoDuration` / `fetch_video_duration` goes on
      to parse; None where it throws: a non-200 status or no item found. */
  function DurationText(d: Details): (r: Option<string>)
    ensures r.Some? <==> d.status == 200 && |d.durations| > 0
    ensures r.Some? ==> r.value == d.durations[0]
  {
    if d.status != 200 then None
    else if |d.durations| == 0 then None
    else Some(d.durations[0])
  }

  /** `fetchVideoDuration` / `fetch_video_duration`: a response without a
      duration text throws; otherwise its text, read by the program's own
      parser, which throws (None) where its numbers do not fit. */
  function FetchDuration(d: Details, parse: string -> Option<nat>): (r: Option<nat>)
    ensures DurationText(d).None? ==> r.None?
    ensures DurationText(d).Some? ==> r == parse(d.durations[0])
  {
    match DurationText(d)
    case None => None
    case Some(text) => parse(text)
  }

  /** Each item's fetch outcome, in list order. */
  function Outcomes(videoIds: seq<string>, lookup: string -> Details, parse: string -> Option<nat>): (r: seq<Option<nat>>)
    ensures |r| == |videoIds|
    ensures forall k :: 0 <= k < |r| ==> r[k] == FetchDuration(lookup(videoIds[k]), parse)
  {
    seq(|videoIds|, k requires 0 <= k < |videoIds| => FetchDuration(lookup(videoIds[k]), parse))
  }

  /** The sum of the durations that were fetched; a failure adds nothing. */
  function SumSucceeded(outcomes: seq<Option<nat>>): nat
    decreases |outcomes|
  {
    if outcomes == [] then 0
    else
      var last := outcomes[|outcomes| - 1];
      SumSucceeded(outcomes[..|outcomes| - 1]) + (if last.Some? then last.value else 0)
  }

  /** The ids whose fetch failed, in list order: the error lines printed. */
  function FailedIds(ids: seq<string>, outcomes: seq<Option<nat>>): (r: seq<string>)
    requires |ids| == |outcomes|
    ensures |r| <= |ids|
    decreases |ids|
  {
    if ids == [] then []
    else
      var n := |ids| - 1;
      FailedIds(ids[..n], outcomes[..n]) + (if outcomes[n].None? then [ids[n]] else [])
  }

  /** The total of a concatenation is the sum of the totals. */
  lemma {:induction false} SumAppend(a: seq<Option<nat>>, b: seq<Option<nat>>)
    ensures SumSucceeded(a + b) == SumSucceeded(a) + SumSucceeded(b)
    decreases |b|
  {
    if b != [] {
      assert (a + b)[..|a + b| - 1] == a + b[..|b| - 1];
      SumAppend(a, b[..|b| - 1]);
    } else {
      assert a + b == a;
    }
  }

  /** A failed item in any position contributes nothing, and the items after
      it are still counted. */
  lemma SumSkipsFailure(a: seq<Option<nat>>, b: seq<Option<nat>>)
    ensures SumSucceeded(a + [None] + b) == SumSucceeded(a + b)
  {
    SumAppend(a + [None], b);
    SumAppend(a, [None]);
    SumAppend(a, b);
    var none: seq<Option<nat>> := [None];
    assert none[..0] == [];
  }

  /** Every fetched duration is part of the total. */
  lemma {:induction false} SumCountsEachSuccess(outcomes: seq<Option<nat>>, k: nat)
    requires k < |outcomes| && outcomes[k].Some?
    ensures outcomes[k].value <= SumSucceeded(outcomes)
    decreases |outcomes|
  {
    if k < |outcomes| - 1 {
      SumCountsEachSuccess(outcomes[..|outcomes| - 1], k);
    }
  }

  /** `id` is the id of an item whose fetch failed. */
  ghost predicate IsFailedId(ids: seq<string>, outcomes: seq<Option<nat>>, id: string)
    requires |ids| == |outcomes|
  {
    exists k :: 0 <= k < |ids| && outcomes[k].None? && ids[k] == id
  }

  /** Exactly the failed items are reported, each by its id. */
  lemma {:induction false} FailedIdsAreFailures(ids: seq<string>, outcomes: seq<Option<nat>>)
    requires |ids| == |outcomes|
    ensures forall j :: 0 <= j < |FailedIds(ids, outcomes)| ==> IsFailedId(ids, outcomes, FailedIds(ids, outcomes)[j])
    ensures forall k :: 0 <= k < |ids| && outcomes[k].None? ==> ids[k] in FailedIds(ids, outcomes)
    decreases |ids|
  {
    if ids != [] {
      var n := |ids| - 1;
      var r := FailedIds(ids, outcomes);
      var r' := FailedIds(ids[..n], outcomes[..n]);
      assert r == r' + (if outcomes[n].None? then [ids[n]] else []);
      FailedIdsAreFailures(ids[..n], outcomes[..n]);
      forall j | 0 <= j < |r|
        ensures IsFailedId(ids, outcomes, r[j])
      {
        if j < |r'| {
          assert IsFailedId(ids[..n], outcomes[..n], r'[j]);
          var k :| 0 <= k < n && outcomes[..n][k].None? && ids[..n][k] == r'[j];
          assert outcomes[k].None? && ids[k] == r[j];
        } else {
          assert outcomes[n].None? && ids[n] == r[j];
        }
      }
      forall k | 0 <= k < |ids| && outcomes[k].None?
        ensures ids[k] in r
      {
        if k < n {
          assert ids[..n][k] == ids[k] && outcomes[..n][k] == outcomes[k];
        }
      }
    } else {
      assert FailedIds(ids, outcomes) == [];
    }
  }

  /** The running total as the programs keep it: a fetched duration is added
      unless the sum would pass `limit` (the largest total the duration type
      holds), in which case the addition throws, the item is reported as
      failed and the total stays as it was. */
  function Total(outcomes: seq<Option<nat>>, limit: nat): (t: nat)
    ensures t <= limit && t <= SumSucceeded(outcomes)
    decreases |outcomes|
  {
    if outcomes == [] then 0
    else
      var n := |outcomes| - 1;
      var before := Total(outcomes[..n], limit);
      if outcomes[n].Some? && before + outcomes[n].value <= limit then before + outcomes[n].value else before
  }

  /** The ids reported as failed when the total is kept under `limit`: those
      whose fetch failed and those whose addition would have overflowed. */
  function Skipped(ids: seq<string>, outcomes: seq<Option<nat>>, limit: nat): (r: seq<string>)
    requires |ids| == |outcomes|
    ensures |r| <= |ids|
    decreases |ids|
  {
    if ids == [] then []
    else
      var n := |ids| - 1;
      var before := Total(outcomes[..n], limit);
      Skipped(ids[..n], outcomes[..n], limit) +
        (if outcomes[n].None? || before + outcomes[n].value > limit then [ids[n]] else [])
  }

  /** As long as the plain sum stays within the limit nothing overflows: the
      running total is the sum of the fetched durations and exactly the failed
      fetches are reported. */
  lemma {:induction false} WithinLimit(ids: seq<string>, outcomes: seq<Option<nat>>, limit: nat)
    requires |ids| == |outcomes| && SumSucceeded(outcomes) <= limit
    ensures Total(outcomes, limit) == SumSucceeded(outcomes)
    ensures Skipped(ids, outcomes, limit) == FailedIds(ids, outcomes)
    decreases |ids|
  {
    if ids != [] {
      var n := |ids| - 1;
      WithinLimit(ids[..n], outcomes[..n], limit);
    }
  }

  /** What a run reports: an invalid URL, a failed listing, or the total with
      the ids whose duration could not be fetched. */
  datatype Report = InvalidUrl | ListingFailed(error: ListError) | Counted(total: nat, failed: seq<string>)
}
