/**
 * The `JobScraper` object: its `seen_jobs` set, which only the Bayt pass
 * reads and grows, and `run_scraper`, which runs both passes, saves what
 * they found and logs the run.
 */
module Scraper {
  import opened Wrappers
  import opened Chain
  import opened Dom
  import opened Jobs
  import opened Classify
  import Bayt
  import LinkedIn
  import opened Airtable
  import opened Report

  class JobScraper {
    /** `hashlib.md5(...).hexdigest()`, uninterpreted. */
    const md5: string -> string
    /** `self.base_id`: the environment variable, else the config value. */
    const baseId: string
    /** The parsed `config.json` (`{}` when the file is missing). */
    const config: Config
    /** `self.script_runs_table_id`, possibly unset. */
    const scriptRunsTableId: Option<string>
    /** `self.seen_jobs`: the hashes of the Bayt postings admitted so far. */
    var seenJobs: set<string>

    /** `__init__`, once the credentials are resolved: nothing has been seen yet. */
    constructor(md5: string -> string, baseId: string, config: Config, scriptRunsTableId: Option<string>)
      ensures this.md5 == md5 && this.baseId == baseId && this.config == config
      ensures this.scriptRunsTableId == scriptRunsTableId
      ensures seenJobs == {}
    {
      this.md5 := md5;
      this.baseId := baseId;
      this.config := config;
      this.scriptRunsTableId := scriptRunsTableId;
      seenJobs := {};
    }

    /**
     * The dedup step for one Bayt job: append it and record its hash iff the
     * hash is not yet in `seen_jobs`; one more step of `Dedup` over `done`.
     */
    method AdmitJob(job: Job, ghost seen0: set<string>, ghost done: seq<Job>, jobs0: seq<Job>) returns (jobs: seq<Job>)
      modifies this
      requires jobs0 == Dedup(md5, seen0, done).0 && seenJobs == Dedup(md5, seen0, done).1
      ensures jobs == Dedup(md5, seen0, done + [job]).0 && seenJobs == Dedup(md5, seen0, done + [job]).1
      ensures jobs == if GetHash(md5, job) in old(seenJobs) then jobs0 else jobs0 + [job]
      ensures GetHash(md5, job) in seenJobs && old(seenJobs) <= seenJobs
    {
      DedupSnoc(md5, seen0, done, job);
      var h := GetHash(md5, job);
      jobs := jobs0;
      if h !in seenJobs {
        jobs := jobs + [job];
        seenJobs := seenJobs + {h};
      } else {
        assert seenJobs + {h} == seenJobs;
      }
    }

    /**
     * The card loop of one Bayt role: each accepted card becomes a job, which
     * is appended and its hash recorded iff the hash is not yet in
     * `seen_jobs`. `before` are the candidates of the earlier roles, whose
     * dedup produced `jobs0` and the current `seen_jobs` from `seen0`.
     */
    method AdmitCards(cards: seq<Card>, runDay: int, ghost f: Card -> Option<Job>,
                      ghost seen0: set<string>, ghost before: seq<Job>, jobs0: seq<Job>) returns (jobs: seq<Job>)
      modifies this
      requires forall c {:trigger Bayt.BaytCardJob(c, runDay)} :: f(c) == Bayt.BaytCardJob(c, runDay)
      requires jobs0 == Dedup(md5, seen0, before).0 && seenJobs == Dedup(md5, seen0, before).1
      ensures jobs == Dedup(md5, seen0, before + Collect(cards, f)).0
      ensures seenJobs == Dedup(md5, seen0, before + Collect(cards, f)).1
    {
      jobs := jobs0;
      var i := 0;
      ghost var collected := [];
      assert Collect(cards[..0], f) == [] && before + [] == before;
      while i < |cards|
        invariant 0 <= i <= |cards|
        invariant collected == Collect(cards[..i], f)
        invariant jobs == Dedup(md5, seen0, before + collected).0
        invariant seenJobs == Dedup(md5, seen0, before + collected).1
      {
        ghost var step;
        jobs, step := AdmitCard(cards[i], runDay, f, seen0, before + collected, jobs);
        CollectPrefix(cards, i, f);
        AppendAssociative(before, collected, step);
        collected := collected + step;
        i := i + 1;
      }
      assert cards[..|cards|] == cards;
    }

    /** One card's `try` body: extract, filter, then the dedup step; `step` is what the card adds to the candidates. */
    method AdmitCard(card: Card, runDay: int, ghost f: Card -> Option<Job>, ghost seen0: set<string>,
                     ghost done: seq<Job>, jobs0: seq<Job>) returns (jobs: seq<Job>, ghost step: seq<Job>)
      modifies this
      requires forall c {:trigger Bayt.BaytCardJob(c, runDay)} :: f(c) == Bayt.BaytCardJob(c, runDay)
      requires jobs0 == Dedup(md5, seen0, done).0 && seenJobs == Dedup(md5, seen0, done).1
      ensures step == match f(card) case Some(y) => [y] case None => []
      ensures jobs == Dedup(md5, seen0, done + step).0 && seenJobs == Dedup(md5, seen0, done + step).1
    {
      var r := ProcessCardAs(card, runDay, f);
      if r.Some? {
        jobs := AdmitJob(r.value, seen0, done, jobs0);
        step := [r.value];
      } else {
        jobs, step := jobs0, [];
        assert done + step == done;
      }
    }

    /**
     * The role loop of `scrape_bayt` over the page each role's search URL
     * gives: a failed navigation or an empty card list skips the role.
     */
    method ScrapeBaytPages(pages: seq<Page>, runDay: int, ghost f: Card -> Option<Job>) returns (jobs: seq<Job>)
      modifies this
      requires forall c {:trigger Bayt.BaytCardJob(c, runDay)} :: f(c) == Bayt.BaytCardJob(c, runDay)
      ensures jobs == Dedup(md5, old(seenJobs), Bayt.Candidates(pages, f)).0
      ensures seenJobs == Dedup(md5, old(seenJobs), Bayt.Candidates(pages, f)).1
    {
      ghost var seen0 := seenJobs;
      jobs := [];
      var r := 0;
      ghost var done := [];
      assert pages[..0] == [];
      while r < |pages|
        invariant 0 <= r <= |pages|
        invariant done == Bayt.Candidates(pages[..r], f)
        invariant jobs == Dedup(md5, seen0, done).0 && seenJobs == Dedup(md5, seen0, done).1
      {
        Bayt.CandidatesSnoc(pages, r, f);
        jobs := ScrapeRole(pages[r], runDay, f, seen0, done, jobs);
        done := done + Collect(Bayt.PageCards(pages[r]), f);
        r := r + 1;
      }
      assert pages[..|pages|] == pages;
    }

    /** One role of `scrape_bayt`: a failed navigation or an empty card list adds nothing. */
    method ScrapeRole(page: Page, runDay: int, ghost f: Card -> Option<Job>,
                      ghost seen0: set<string>, ghost before: seq<Job>, jobs0: seq<Job>) returns (jobs: seq<Job>)
      modifies this
      requires forall c {:trigger Bayt.BaytCardJob(c, runDay)} :: f(c) == Bayt.BaytCardJob(c, runDay)
      requires jobs0 == Dedup(md5, seen0, before).0 && seenJobs == Dedup(md5, seen0, before).1
      ensures jobs == Dedup(md5, seen0, before + Collect(Bayt.PageCards(page), f)).0
      ensures seenJobs == Dedup(md5, seen0, before + Collect(Bayt.PageCards(page), f)).1
    {
      var cards := Bayt.PageCards(page);
      if cards == [] {
        assert before + Collect(cards, f) == before;
        return jobs0;
      }
      jobs := AdmitCards(cards, runDay, f, seen0, before, jobs0);
    }

    /**
     * `scrape_bayt`: the dedup of the pass's candidates against `seen_jobs`.
     * The jobs it returns have pairwise-distinct hashes, none seen before,
     * and `seen_jobs` grows by exactly their hashes.
     */
    method ScrapeBayt(pages: seq<Page>, runDay: int) returns (jobs: seq<Job>)
      modifies this
      ensures jobs == Dedup(md5, old(seenJobs), Bayt.BaytCandidates(pages, runDay)).0
      ensures seenJobs == Dedup(md5, old(seenJobs), Bayt.BaytCandidates(pages, runDay)).1
      ensures forall i :: 0 <= i < |jobs| ==> GetHash(md5, jobs[i]) !in old(seenJobs)
      ensures forall i, k :: 0 <= i < k < |jobs| ==> GetHash(md5, jobs[i]) != GetHash(md5, jobs[k])
      ensures seenJobs == old(seenJobs) + Hashes(md5, jobs)
    {
      jobs := ScrapeBaytPages(pages, runDay, Bayt.JobOfCard(runDay));
      DedupFresh(md5, old(seenJobs), Bayt.BaytCandidates(pages, runDay));
      DedupSeen(md5, old(seenJobs), Bayt.BaytCandidates(pages, runDay));
    }

    /**
     * `run_scraper`. When the browser does not start, the run logs zero counts
     * with status "Failed" and returns nothing. Otherwise the LinkedIn jobs and
     * then the Bayt jobs, with no dedup across the two, are saved when there
     * are any, counted, and logged with status "Success". `pages` hold what
     * each role's search URL gives, in `target_roles` order. The log goes
     * through `log_script_run` as written, so it reads the config's base id;
     * when that is the scraper's own base id it is the intended `LogRun`.
     */
    method RunScraper(driverStarts: bool, linkedInPages: seq<Page>, baytPages: seq<Page>, runDay: int,
                      clock: nat -> string, saveReplies: nat -> Reply, logReply: Reply)
      returns (jobs: seq<Job>, records: seq<Record>, saved: Option<SaveState>, log: LogResult)
      modifies this
      requires |linkedInPages| == |TargetRoles| && |baytPages| == |TargetRoles|
      ensures !driverStarts ==>
        && jobs == [] && saved == None && seenJobs == old(seenJobs)
        && log == LogRunAsWritten(config, scriptRunsTableId, runDay, FailedCounts, Failed, logReply)
      ensures driverStarts ==>
        && jobs == LinkedIn.LinkedInRun(linkedInPages, runDay) + Dedup(md5, old(seenJobs), Bayt.BaytCandidates(baytPages, runDay)).0
        && seenJobs == Dedup(md5, old(seenJobs), Bayt.BaytCandidates(baytPages, runDay)).1
        && (saved.Some? <==> jobs != [])
        && (saved.Some? ==> saved.value == SaveRecords(records, saveReplies))
        && log == LogRunAsWritten(config, scriptRunsTableId, runDay, Summarize(jobs), Success, logReply)
      ensures |records| == |jobs| && forall i :: 0 <= i < |jobs| ==> records[i] == JobRecord(jobs[i], clock(i))
      ensures ConfigBaseId(config) == Some(baseId) ==>
        log == LogRun(baseId, scriptRunsTableId, runDay, if driverStarts then Summarize(jobs) else FailedCounts,
                      if driverStarts then Success else Failed, logReply)
    {
      if !driverStarts {
        jobs, records, saved := [], [], None;
        log := LogRunAsWritten(config, scriptRunsTableId, runDay, FailedCounts, Failed, logReply);
        return;
      }
      var linkedInJobs := LinkedIn.ScrapeLinkedIn(linkedInPages, runDay);
      var baytJobs := ScrapeBayt(baytPages, runDay);
      jobs := linkedInJobs + baytJobs;
      if jobs != [] {
        var st;
        records, st := SaveToAirtable(jobs, clock, saveReplies);
        saved := Some(st);
      } else {
        records, saved := [], None;
      }
      log := LogRunAsWritten(config, scriptRunsTableId, runDay, Summarize(jobs), Success, logReply);
    }
  }

  /** The per-card extraction, seen through `f`, so that the card loop does not unfold it. */
  method ProcessCardAs(card: Card, runDay: int, ghost f: Card -> Option<Job>) returns (r: Option<Job>)
    requires forall c {:trigger Bayt.BaytCardJob(c, runDay)} :: f(c) == Bayt.BaytCardJob(c, runDay)
    ensures r == f(card)
  {
    r := Bayt.ProcessBaytCard(card, runDay);
  }

  /** The counts a successful run logs: each pass's jobs under its own platform, with the partition facts. */
  lemma RunCountsByPass(linkedInJobs: seq<Job>, baytJobs: seq<Job>)
    requires forall i :: 0 <= i < |linkedInJobs| ==> linkedInJobs[i].platform == LinkedIn
    requires forall i :: 0 <= i < |baytJobs| ==> baytJobs[i].platform == Bayt
    ensures var c := Summarize(linkedInJobs + baytJobs);
            && c.total == |linkedInJobs| + |baytJobs|
            && c.linkedIn == |linkedInJobs| && c.bayt == |baytJobs| && c.indeed == 0
            && c.remote + c.hybrid <= c.total
  {
    SummaryAppend(linkedInJobs, baytJobs);
    SummaryPartitions(linkedInJobs + baytJobs);
    CountBounds(linkedInJobs, OnPlatform(LinkedIn));
    CountBounds(baytJobs, OnPlatform(Bayt));
    SummaryPartitions(linkedInJobs);
    SummaryPartitions(baytJobs);
  }

  /** The Bayt jobs of a run are relevant, non-denylisted postings tagged "Bayt" with a company name. */
  lemma BaytRunJobs(md5: string -> string, seen: set<string>, pages: seq<Page>, runDay: int)
    ensures var kept := Dedup(md5, seen, Bayt.BaytCandidates(pages, runDay)).0;
            forall i :: 0 <= i < |kept| ==>
              && kept[i].platform == Jobs.Bayt && IsRelevantRole(kept[i].jobTitle)
              && !CompanyFiltered(kept[i].companyName) && kept[i].companyName != ""
  {
    DedupKeepsCandidates(md5, seen, Bayt.BaytCandidates(pages, runDay));
    Bayt.CandidatesAreRelevant(pages, runDay);
  }

  /**
   * The counts a successful run logs: the LinkedIn count is the LinkedIn
   * pass's length, the Bayt count the Bayt pass's, Indeed's is zero, and
   * the remote and hybrid counts together do not exceed the total.
   */
  lemma SuccessfulRunCounts(md5: string -> string, seen: set<string>, linkedInPages: seq<Page>, baytPages: seq<Page>, runDay: int)
    ensures var li := LinkedIn.LinkedInRun(linkedInPages, runDay);
            var ba := Dedup(md5, seen, Bayt.BaytCandidates(baytPages, runDay)).0;
            var c := Summarize(li + ba);
            && c.total == |li| + |ba|
            && c.linkedIn == |li| && c.bayt == |ba| && c.indeed == 0
            && c.remote + c.hybrid <= c.total
  {
    var li := LinkedIn.LinkedInRun(linkedInPages, runDay);
    var ba := Dedup(md5, seen, Bayt.BaytCandidates(baytPages, runDay)).0;
    assert forall i :: 0 <= i < |li| ==> li[i].platform == LinkedIn by {
      LinkedIn.LinkedInRunJobs(linkedInPages, runDay);
      assert forall i :: 0 <= i < |li| ==> li[i] in li;
    }
    BaytRunPlatform(md5, seen, baytPages, runDay);
    RunCountsByPass(li, ba);
  }

  /**
   * When every navigation of both passes fails the run finds nothing and the
   * counts are the failure path's zeros, yet `RunScraper` still logs it with
   * status "Success": only a browser that does not start logs "Failed".
   */
  lemma AllNavigationFailed(md5: string -> string, seen: set<string>, linkedInPages: seq<Page>, baytPages: seq<Page>, runDay: int)
    requires forall i :: 0 <= i < |linkedInPages| ==> linkedInPages[i].NavFailed?
    requires forall i :: 0 <= i < |baytPages| ==> baytPages[i].NavFailed?
    ensures var jobs := LinkedIn.LinkedInRun(linkedInPages, runDay) + Dedup(md5, seen, Bayt.BaytCandidates(baytPages, runDay)).0;
            jobs == [] && Summarize(jobs) == FailedCounts
  {
    LinkedIn.FailureAt(linkedInPages, 0);
    assert linkedInPages[..0] == [];
    Bayt.AllRolesFailed(baytPages, Bayt.JobOfCard(runDay));
    EmptyRunCountsZero();
  }

  /** The platform part of `BaytRunJobs`, on its own. */
  lemma BaytRunPlatform(md5: string -> string, seen: set<string>, pages: seq<Page>, runDay: int)
    ensures forall i :: 0 <= i < |Dedup(md5, seen, Bayt.BaytCandidates(pages, runDay)).0| ==>
              Dedup(md5, seen, Bayt.BaytCandidates(pages, runDay)).0[i].platform == Jobs.Bayt
  {
    BaytRunJobs(md5, seen, pages, runDay);
  }
}
