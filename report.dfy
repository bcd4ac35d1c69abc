/**
 * The run accounting of `run_scraper` and the run-log record that
 * `log_script_run` posts to the script-runs table.
 */
module Report {
  import opened Wrappers
  import opened Jobs
  import opened Airtable

  /** The six counts a run reports. */
  datatype RunCounts = RunCounts(total: nat, linkedIn: nat, indeed: nat, bayt: nat, remote: nat, hybrid: nat)

  /** How many of `jobs` satisfy `p`: `len([j for j in jobs if p(j)])`. */
  function Count(jobs: seq<Job>, p: Job -> bool): nat
    decreases |jobs|
  {
    if jobs == [] then 0
    else Count(jobs[..|jobs| - 1], p) + (if p(jobs[|jobs| - 1]) then 1 else 0)
  }

  /** Counting a comprehension over a concatenation adds the two counts. */
  lemma {:induction false} CountAppend(xs: seq<Job>, ys: seq<Job>, p: Job -> bool)
    ensures Count(xs + ys, p) == Count(xs, p) + Count(ys, p)
    decreases |ys|
  {
    if ys == [] {
      assert xs + ys == xs;
    } else {
      var init := ys[..|ys| - 1];
      CountAppend(xs, init, p);
      assert (xs + ys)[..|xs + ys| - 1] == xs + init;
    }
  }

  /** A count is at most the length, and it is the length exactly when every job qualifies. */
  lemma {:induction false} CountBounds(jobs: seq<Job>, p: Job -> bool)
    ensures Count(jobs, p) <= |jobs|
    ensures Count(jobs, p) == |jobs| <==> forall i :: 0 <= i < |jobs| ==> p(jobs[i])
    decreases |jobs|
  {
    if jobs != [] {
      var init := jobs[..|jobs| - 1];
      CountBounds(init, p);
      assert forall i :: 0 <= i < |init| ==> init[i] == jobs[i];
    }
  }

  /** Counts of two predicates that never hold together add up to the count of their disjunction. */
  lemma {:induction false} CountDisjoint(jobs: seq<Job>, p: Job -> bool, q: Job -> bool)
    requires forall j :: !(p(j) && q(j))
    ensures Count(jobs, p) + Count(jobs, q) == Count(jobs, (j: Job) => p(j) || q(j))
    decreases |jobs|
  {
    if jobs != [] {
      CountDisjoint(jobs[..|jobs| - 1], p, q);
    }
  }

  function OnPlatform(p: Platform): Job -> bool {
    (j: Job) => j.platform == p
  }

  function OfType(t: JobType): Job -> bool {
    (j: Job) => j.jobType == t
  }

  /** The counts `run_scraper` computes from the jobs of the run. */
  function Summarize(jobs: seq<Job>): RunCounts {
    RunCounts(|jobs|, Count(jobs, OnPlatform(LinkedIn)), Count(jobs, OnPlatform(Indeed)),
      Count(jobs, OnPlatform(Bayt)), Count(jobs, OfType(Remote)), Count(jobs, OfType(Hybrid)))
  }

  /** Every job is on exactly one platform, and a job is at most one of remote and hybrid. */
  lemma {:induction false} SummaryPartitions(jobs: seq<Job>)
    ensures var c := Summarize(jobs);
            && c.linkedIn + c.indeed + c.bayt == c.total
            && c.remote + c.hybrid <= c.total
    decreases |jobs|
  {
    if jobs != [] {
      SummaryPartitions(jobs[..|jobs| - 1]);
    }
  }

  /** The summary of the two passes' jobs is the sum of their summaries, field by field. */
  lemma SummaryAppend(xs: seq<Job>, ys: seq<Job>)
    ensures var a, b, c := Summarize(xs), Summarize(ys), Summarize(xs + ys);
            && c.total == a.total + b.total
            && c.linkedIn == a.linkedIn + b.linkedIn && c.indeed == a.indeed + b.indeed && c.bayt == a.bayt + b.bayt
            && c.remote == a.remote + b.remote && c.hybrid == a.hybrid + b.hybrid
  {
    CountAppend(xs, ys, OnPlatform(LinkedIn));
    CountAppend(xs, ys, OnPlatform(Indeed));
    CountAppend(xs, ys, OnPlatform(Bayt));
    CountAppend(xs, ys, OfType(Remote));
    CountAppend(xs, ys, OfType(Hybrid));
  }

  /** The failure path reports zeros. */
  const FailedCounts: RunCounts := RunCounts(0, 0, 0, 0, 0, 0)

  /** No jobs, nothing to count: a successful empty run reports what a failed one does. */
  lemma EmptyRunCountsZero()
    ensures Summarize([]) == FailedCounts
  {
  }

  datatype Status = Success | Failed

  function StatusName(s: Status): string {
    match s
    case Success => "Success"
    case Failed => "Failed"
  }

  /** The `fields` of the run-log record, keyed by the table's field IDs; the duration field is not modelled. */
  function RunFields(runDay: int, c: RunCounts, status: Status): Record {
    map[
      "fldqwll19wwdBpG3M" := Date(runDay),
      "fld75Ml6lRzi83Iod" := Number(c.total),
      "fldx5CO059lbEnKIf" := Number(c.linkedIn),
      "fld7YAtf2jthC36fY" := Number(c.indeed),
      "fldogbkGvR3MEFNgC" := Number(c.bayt),
      "fldTnA12tUjiIUPdn" := Number(c.remote),
      "fldN1l14XK5oY6Go9" := Number(c.hybrid),
      "fldmNEzhSN25NkC1O" := Text(StatusName(status))
    ]
  }

  /** The record carries the counts and the status it was given, and they can be read back from it. */
  lemma RunFieldsReadBack(runDay: int, c: RunCounts, status: Status, c': RunCounts, status': Status)
    ensures RunFields(runDay, c, status) == RunFields(runDay, c', status') <==> c == c' && status == status'
  {
    if RunFields(runDay, c, status) == RunFields(runDay, c', status') {
      var r, r' := RunFields(runDay, c, status), RunFields(runDay, c', status');
      assert r["fld75Ml6lRzi83Iod"] == r'["fld75Ml6lRzi83Iod"] && r["fldx5CO059lbEnKIf"] == r'["fldx5CO059lbEnKIf"];
      assert r["fld7YAtf2jthC36fY"] == r'["fld7YAtf2jthC36fY"] && r["fldogbkGvR3MEFNgC"] == r'["fldogbkGvR3MEFNgC"];
      assert r["fldTnA12tUjiIUPdn"] == r'["fldTnA12tUjiIUPdn"] && r["fldN1l14XK5oY6Go9"] == r'["fldN1l14XK5oY6Go9"];
      assert r["fldmNEzhSN25NkC1O"] == r'["fldmNEzhSN25NkC1O"];
      assert StatusName(status)[0] == StatusName(status')[0];
    }
  }

  const ApiRoot: string := "https://api.airtable.com/v0/"

  /** `None` formats as the text "None" in the f-string. */
  function TableIdText(tableId: Option<string>): string {
    match tableId
    case None => "None"
    case Some(t) => t
  }

  /** `script_runs_url`. */
  function RunsUrl(baseId: string, tableId: Option<string>): string {
    ApiRoot + baseId + "/" + TableIdText(tableId)
  }

  /** The parsed `config.json`, as far as the run log reads it: section name to key to value. */
  type Config = map<string, map<string, string>>

  /** A post that was made: the URL and the record's fields. */
  datatype LogPost = LogPost(url: string, fields: Record)

  /** What `log_script_run` does: the post it makes, if any, and the value it returns. */
  datatype LogResult = LogResult(post: Option<LogPost>, logged: bool)

  /** `config['airtable']['base_id']`, `None` where that lookup raises `KeyError`. */
  function ConfigBaseId(config: Config): (id: Option<string>)
    ensures id.Some? <==> "airtable" in config && "base_id" in config["airtable"]
    ensures id.Some? ==> id.value == config["airtable"]["base_id"]
  {
    if "airtable" in config && "base_id" in config["airtable"] then Some(config["airtable"]["base_id"]) else None
  }

  /**
   * `log_script_run` as written: the base id is read from
   * `config['airtable']['base_id']`; a missing section or key raises
   * `KeyError`, which the handler turns into `False` before any post.
   */
  function LogRunAsWritten(config: Config, tableId: Option<string>, runDay: int, c: RunCounts, status: Status, reply: Reply): (res: LogResult)
    ensures res.logged ==> res.post.Some?
    ensures res.post.Some? <==> "airtable" in config && "base_id" in config["airtable"]
  {
    match ConfigBaseId(config)
    case Some(baseId) => LogRun(baseId, tableId, runDay, c, status, reply)
    case None => LogResult(None, false)
  }

  /** When the config's base id is the scraper's own, the code as written does what was intended. */
  lemma AsWrittenAgrees(config: Config, baseId: string, tableId: Option<string>, runDay: int, c: RunCounts, status: Status, reply: Reply)
    requires ConfigBaseId(config) == Some(baseId)
    ensures LogRunAsWritten(config, tableId, runDay, c, status, reply) == LogRun(baseId, tableId, runDay, c, status, reply)
  {
  }

  /**
   * `log_script_run` reading the scraper's own `base_id` (the environment
   * variable, else the config value), as the jobs table's URL does: one post
   * to the runs table, `True` exactly on status 200.
   */
  function LogRun(baseId: string, tableId: Option<string>, runDay: int, c: RunCounts, status: Status, reply: Reply): (res: LogResult)
    ensures res.post == Some(LogPost(RunsUrl(baseId, tableId), RunFields(runDay, c, status)))
    ensures res.logged <==> reply == Answered(200)
  {
    LogResult(Some(LogPost(RunsUrl(baseId, tableId), RunFields(runDay, c, status))), reply == Answered(200))
  }

  /**
   * With the credentials in the environment and no config file (`load_config`
   * then returns `{}`), the code as written never logs the run, even though
   * the store answers 200; reading the scraper's base id logs it.
   */
  lemma NoConfigNoRunLog(baseId: string, tableId: Option<string>, runDay: int, c: RunCounts, status: Status)
    ensures LogRunAsWritten(map[], tableId, runDay, c, status, Answered(200)) == LogResult(None, false)
    ensures LogRun(baseId, tableId, runDay, c, status, Answered(200)).logged
  {
  }

  /** A config whose base id differs from the environment's sends the run log to another base than the jobs. */
  lemma ConfigBaseIdDiverges(envBaseId: string, configBaseId: string, tableId: Option<string>, runDay: int, c: RunCounts, status: Status, reply: Reply)
    requires envBaseId != configBaseId
    ensures var config := map["airtable" := map["base_id" := configBaseId]];
            LogRunAsWritten(config, tableId, runDay, c, status, reply).post.value.url
              != LogRun(envBaseId, tableId, runDay, c, status, reply).post.value.url
  {
    RunsUrlDeterminesBase(configBaseId, envBaseId, tableId);
  }

  /** Two base ids give the same runs URL only when they are equal. */
  lemma RunsUrlDeterminesBase(a: string, b: string, tableId: Option<string>)
    ensures RunsUrl(a, tableId) == RunsUrl(b, tableId) ==> a == b
  {
    var t := "/" + TableIdText(tableId);
    var u, v := RunsUrl(a, tableId), RunsUrl(b, tableId);
    assert u == ApiRoot + (a + t) && v == ApiRoot + (b + t);
    assert u[|ApiRoot|..] == a + t && v[|ApiRoot|..] == b + t;
    assert (a + t)[..|a|] == a && (b + t)[..|b|] == b;
  }
}
