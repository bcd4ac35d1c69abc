/**
 * `save_to_airtable`: every job becomes one record of eight named fields,
 * and the records are posted in consecutive batches of ten. A batch whose
 * reply is not 200 is logged and the loop goes on; an exception from the
 * HTTP call ends the whole save. After a successful batch that is not the
 * last one the loop pauses.
 */
module Airtable {
  import opened Wrappers
  import opened Jobs

  /** A JSON field value as the store receives it. */
  datatype FieldValue = Text(s: string) | Number(n: int) | Date(day: int) | Null

  type Record = map<string, FieldValue>

  /** `posted_time`: a datetime attribute as given, or the `"%Y-%m-%d"` rendering of a day. */
  function PostedValue(p: Posted): FieldValue {
    match p
    case Stamp(t) => Text(t)
    case OnDay(d) => Date(d)
  }

  /** `job_link`: a Bayt title anchor without `href` gives JSON `null`. */
  function LinkValue(l: Option<string>): FieldValue {
    match l
    case None => Null
    case Some(s) => Text(s)
  }

  /** The `fields` of one job's record; `scrapedAt` is the clock's `"%Y-%m-%d %H:%M:%S"` reading when the record is built. */
  function JobRecord(j: Job, scrapedAt: string): Record {
    map[
      "Company Name" := Text(j.companyName),
      "Platform" := Text(PlatformName(j.platform)),
      "Job Title" := Text(j.jobTitle),
      "Job Type" := Text(JobTypeName(j.jobType)),
      "Job Link" := LinkValue(j.jobLink),
      "Posted Time" := PostedValue(j.postedTime),
      "Location" := Text(j.location),
      "Scraped At" := Text(scrapedAt)
    ]
  }

  /** The seven job fields a record carries; salary, career level and description are not among them. */
  predicate SameStoredFields(a: Job, b: Job) {
    a.companyName == b.companyName && a.platform == b.platform && a.jobTitle == b.jobTitle
    && a.jobType == b.jobType && a.jobLink == b.jobLink && a.postedTime == b.postedTime
    && a.location == b.location
  }

  /**
   * Two jobs give the same record exactly when they agree on the seven
   * stored fields: the attributes the Bayt pass attaches never reach the store.
   */
  lemma RecordDeterminesStoredFields(a: Job, b: Job, scrapedAt: string)
    ensures JobRecord(a, scrapedAt) == JobRecord(b, scrapedAt) <==> SameStoredFields(a, b)
  {
    var ra, rb := JobRecord(a, scrapedAt), JobRecord(b, scrapedAt);
    if ra == rb {
      assert ra["Company Name"] == rb["Company Name"] && ra["Job Title"] == rb["Job Title"];
      assert ra["Location"] == rb["Location"];
      assert ra["Platform"] == rb["Platform"];
      PlatformNames(a.platform, b.platform);
      assert ra["Job Type"] == rb["Job Type"];
      assert JobTypeName(a.jobType)[0] == JobTypeName(b.jobType)[0];
      assert ra["Job Link"] == rb["Job Link"];
      assert ra["Posted Time"] == rb["Posted Time"];
    }
  }

  /** The loop that turns each job into its record, in order; the clock is read once per record. */
  method BuildRecords(jobs: seq<Job>, clock: nat -> string) returns (records: seq<Record>)
    ensures |records| == |jobs|
    ensures forall i :: 0 <= i < |jobs| ==> records[i] == JobRecord(jobs[i], clock(i))
  {
    records := [];
    var i := 0;
    while i < |jobs|
      invariant 0 <= i <= |jobs|
      invariant |records| == i
      invariant forall k :: 0 <= k < i ==> records[k] == JobRecord(jobs[k], clock(k))
    {
      records := records + [JobRecord(jobs[i], clock(i))];
      i := i + 1;
    }
  }

  // ---------------------------------------------------------------- batches

  const BatchSize: nat := 10

  function Min(a: int, b: int): int {
    if a <= b then a else b
  }

  /** `len(range(0, n, 10))`: how many batches `n` records make. */
  function BatchCount(n: nat): nat {
    (n + BatchSize - 1) / BatchSize
  }

  /** Batch `k`: `records[10k:10k + 10]`. */
  function BatchAt<T>(xs: seq<T>, k: nat): seq<T>
    requires k < BatchCount(|xs|)
  {
    xs[BatchSize * k .. Min(BatchSize * k + BatchSize, |xs|)]
  }

  function Flatten<T>(bs: seq<seq<T>>): seq<T>
    decreases |bs|
  {
    if bs == [] then [] else bs[0] + Flatten(bs[1..])
  }

  /** An independent statement of the batching: cut ten off the front until nothing is left. */
  function Chunks<T>(xs: seq<T>): (bs: seq<seq<T>>)
    ensures Flatten(bs) == xs
    ensures forall k :: 0 <= k < |bs| ==> 1 <= |bs[k]| <= BatchSize
    decreases |xs|
  {
    if xs == [] then []
    else if |xs| <= BatchSize then
      assert Flatten([xs]) == xs + Flatten([xs][1..]);
      [xs]
    else
      var rest := Chunks(xs[BatchSize..]);
      var bs := [xs[..BatchSize]] + rest;
      assert bs[1..] == rest;
      assert xs[..BatchSize] + xs[BatchSize..] == xs;
      bs
  }

  /** Batch `k` of the records is batch `k - 1` of the records after the first ten. */
  lemma BatchAtDrop<T>(xs: seq<T>, k: nat)
    requires |xs| > BatchSize && 1 <= k < BatchCount(|xs|)
    ensures BatchAt(xs[BatchSize..], k - 1) == BatchAt(xs, k)
  {
    var tail := xs[BatchSize..];
    var lo, hi := BatchSize * (k - 1), Min(BatchSize * (k - 1) + BatchSize, |tail|);
    assert hi + BatchSize == Min(BatchSize * k + BatchSize, |xs|);
    assert tail[lo..hi] == xs[BatchSize + lo..BatchSize + hi];
  }

  /** The stepped slices are exactly those chunks: `ceil(n/10)` batches, batch `k` holding records `10k` to `10k + 9`. */
  lemma {:induction false} BatchesAreChunks<T>(xs: seq<T>)
    ensures |Chunks(xs)| == BatchCount(|xs|)
    ensures forall k :: 0 <= k < BatchCount(|xs|) ==> Chunks(xs)[k] == BatchAt(xs, k)
    decreases |xs|
  {
    if |xs| > BatchSize {
      var tail := xs[BatchSize..];
      BatchesAreChunks(tail);
      assert BatchCount(|xs|) == BatchCount(|tail|) + 1;
      forall k | 1 <= k < BatchCount(|xs|)
        ensures Chunks(xs)[k] == BatchAt(xs, k)
      {
        assert Chunks(xs)[k] == Chunks(tail)[k - 1];
        BatchAtDrop(xs, k);
      }
    } else if xs != [] {
      assert BatchCount(|xs|) == 1;
      assert BatchAt(xs, 0) == xs;
    }
  }

  // ---------------------------------------------------------------- the save loop

  /** The reply to the `k`-th batch post: a status code, or an exception from `requests.post`. */
  datatype Reply = Answered(status: int) | Raised

  /**
   * What the loop has done so far: the batches posted, in order, the batch
   * indices after which it slept, `total_saved`, and whether an exception
   * ended the save.
   */
  datatype SaveState = SaveState(posts: seq<seq<Record>>, sleptAfter: seq<nat>, totalSaved: nat, aborted: bool)

  /** The state after the first `k` iterations of the batch loop. */
  function SaveUpTo(records: seq<Record>, replies: nat -> Reply, k: nat): SaveState
    requires k <= BatchCount(|records|)
    decreases k
  {
    if k == 0 then SaveState([], [], 0, false)
    else
      var st := SaveUpTo(records, replies, k - 1);
      if st.aborted then st
      else
        var batch := BatchAt(records, k - 1);
        match replies(k - 1)
        case Raised => st.(posts := st.posts + [batch], aborted := true)
        case Answered(status) =>
          if status == 200 then
            var slept := if BatchSize * (k - 1) + BatchSize < |records| then st.sleptAfter + [k - 1] else st.sleptAfter;
            SaveState(st.posts + [batch], slept, st.totalSaved + |batch|, false)
          else st.(posts := st.posts + [batch])
  }

  /** The whole save. */
  function SaveRecords(records: seq<Record>, replies: nat -> Reply): SaveState {
    SaveUpTo(records, replies, BatchCount(|records|))
  }

  /** `save_to_airtable`: build the records, then post them batch by batch. */
  method SaveToAirtable(jobs: seq<Job>, clock: nat -> string, replies: nat -> Reply) returns (records: seq<Record>, st: SaveState)
    ensures |records| == |jobs| && forall i :: 0 <= i < |jobs| ==> records[i] == JobRecord(jobs[i], clock(i))
    ensures st == SaveRecords(records, replies)
  {
    records := BuildRecords(jobs, clock);
    st := SaveState([], [], 0, false);
    var i := 0;
    var k := 0;
    while i < |records|
      invariant k <= BatchCount(|records|)
      invariant i == BatchSize * k
      invariant k < BatchCount(|records|) <==> i < |records|
      invariant st == SaveUpTo(records, replies, k) && !st.aborted
    {
      var batch := records[i .. Min(i + BatchSize, |records|)];
      var reply := replies(k);
      if reply.Raised? {
        st := st.(posts := st.posts + [batch], aborted := true);
        AbortedStays(records, replies, k + 1);
        return;
      }
      if reply.status == 200 {
        st := st.(posts := st.posts + [batch], totalSaved := st.totalSaved + |batch|);
        if i + BatchSize < |records| {
          st := st.(sleptAfter := st.sleptAfter + [k]);
        }
      } else {
        st := st.(posts := st.posts + [batch]);
      }
      i := i + BatchSize;
      k := k + 1;
    }
  }

  /** Once an exception ends the save, nothing more happens. */
  lemma {:induction false} AbortedStays(records: seq<Record>, replies: nat -> Reply, k: nat)
    requires k <= BatchCount(|records|)
    requires SaveUpTo(records, replies, k).aborted
    ensures SaveRecords(records, replies) == SaveUpTo(records, replies, k)
    decreases BatchCount(|records|) - k
  {
    var n := BatchCount(|records|);
    if k < n {
      assert SaveUpTo(records, replies, k + 1) == SaveUpTo(records, replies, k);
      AbortedStays(records, replies, k + 1);
    }
  }

  /** No exception among the first `k` posts. */
  predicate NoneRaised(replies: nat -> Reply, k: nat) {
    forall j :: 0 <= j < k ==> replies(j).Answered?
  }

  /** `total_saved` as the sum of the sizes of the batches answered 200 among the first `k`. */
  function SavedSize(records: seq<Record>, replies: nat -> Reply, k: nat): nat
    requires k <= BatchCount(|records|)
    decreases k
  {
    if k == 0 then 0
    else SavedSize(records, replies, k - 1) + (if replies(k - 1) == Answered(200) then |BatchAt(records, k - 1)| else 0)
  }

  /** The batch indices, below `k`, after which the loop pauses: successes that are not the last batch. */
  function SleepIndices(records: seq<Record>, replies: nat -> Reply, k: nat): seq<nat>
    decreases k
  {
    if k == 0 then []
    else
      SleepIndices(records, replies, k - 1)
      + (if replies(k - 1) == Answered(200) && k < BatchCount(|records|) then [k - 1] else [])
  }

  /**
   * Without an exception, the first `k` iterations post the first `k`
   * batches in order whatever their statuses (a failed batch does not stop
   * the loop), `total_saved` sums the sizes of the batches answered 200, and
   * the loop pauses exactly after the successful batches that are not last.
   */
  lemma {:induction false} SaveWithoutException(records: seq<Record>, replies: nat -> Reply, k: nat)
    requires k <= BatchCount(|records|) && NoneRaised(replies, k)
    ensures var st := SaveUpTo(records, replies, k);
            && !st.aborted
            && |st.posts| == k
            && (forall j :: 0 <= j < k ==> st.posts[j] == BatchAt(records, j))
            && st.totalSaved == SavedSize(records, replies, k)
            && st.sleptAfter == SleepIndices(records, replies, k)
    decreases k
  {
    if k > 0 {
      SaveWithoutException(records, replies, k - 1);
      SaveStepAnswered(records, replies, k);
    }
  }

  /** One iteration that gets an answer, whatever its status: one more post, and the counters move only on 200. */
  lemma SaveStepAnswered(records: seq<Record>, replies: nat -> Reply, k: nat)
    requires 0 < k <= BatchCount(|records|)
    requires !SaveUpTo(records, replies, k - 1).aborted && replies(k - 1).Answered?
    ensures var st, st' := SaveUpTo(records, replies, k - 1), SaveUpTo(records, replies, k);
            var ok := replies(k - 1) == Answered(200);
            && !st'.aborted
            && st'.posts == st.posts + [BatchAt(records, k - 1)]
            && st'.totalSaved == st.totalSaved + (if ok then |BatchAt(records, k - 1)| else 0)
            && st'.sleptAfter == st.sleptAfter + (if ok && k < BatchCount(|records|) then [k - 1] else [])
  {
    assert BatchSize * (k - 1) + BatchSize < |records| <==> k < BatchCount(|records|);
  }

  /** An exception at batch `r` ends the save after posting batches `0..r`; nothing is saved after it. */
  lemma SaveStopsAtException(records: seq<Record>, replies: nat -> Reply, r: nat)
    requires r < BatchCount(|records|) && NoneRaised(replies, r) && replies(r) == Raised
    ensures var st := SaveRecords(records, replies);
            && st.aborted
            && |st.posts| == r + 1
            && (forall j :: 0 <= j <= r ==> st.posts[j] == BatchAt(records, j))
            && st.totalSaved == SavedSize(records, replies, r)
  {
    SaveWithoutException(records, replies, r);
    AbortedStays(records, replies, r + 1);
  }

  /** The sizes of the first `k` batches add up to their records, so at most all records are saved. */
  lemma {:induction false} SavedAtMost(records: seq<Record>, replies: nat -> Reply, k: nat)
    requires k <= BatchCount(|records|)
    ensures SavedSize(records, replies, k) <= Min(BatchSize * k, |records|)
    decreases k
  {
    if k > 0 {
      SavedAtMost(records, replies, k - 1);
    }
  }

  /** With every batch answered 200 all records are saved, in ceil(n/10) posts. */
  lemma {:induction false} AllSaved(records: seq<Record>, replies: nat -> Reply, k: nat)
    requires k <= BatchCount(|records|)
    requires forall j :: 0 <= j < k ==> replies(j) == Answered(200)
    ensures SavedSize(records, replies, k) == Min(BatchSize * k, |records|)
    decreases k
  {
    if k > 0 {
      AllSaved(records, replies, k - 1);
    }
  }

  /** Twelve records: two posts of ten and two; a rejected first batch still lets the second be saved, and only the second counts. */
  lemma TwelveRecords(records: seq<Record>, replies: nat -> Reply)
    requires |records| == 12
    requires replies(0) == Answered(422) && replies(1) == Answered(200)
    ensures var st := SaveRecords(records, replies);
            && st.posts == [records[..10], records[10..]]
            && st.totalSaved == 2
            && st.sleptAfter == []
            && !st.aborted
  {
    assert BatchCount(12) == 2;
    assert NoneRaised(replies, 2);
    SaveWithoutException(records, replies, 2);
    assert BatchAt(records, 0) == records[..10];
    assert BatchAt(records, 1) == records[10..];
  }
}
