/**
 * The `Job` record, its identity hash (`Job.get_hash`) and the hash-set
 * deduplication the Bayt pass applies with `seen_jobs`.
 */
module Jobs {
  import opened Wrappers
  import opened Text

  /** The `platform` tags the scraper writes. */
  datatype Platform = LinkedIn | Indeed | Bayt

  function PlatformName(p: Platform): string {
    match p
    case LinkedIn => "LinkedIn"
    case Indeed => "Indeed"
    case Bayt => "Bayt"
  }

  /** The three values `determine_job_type` returns. */
  datatype JobType = Remote | Hybrid | Offline

  function JobTypeName(t: JobType): string {
    match t
    case Remote => "Remote"
    case Hybrid => "Hybrid"
    case Offline => "Offline"
  }

  /**
   * A posting date: the card's own `datetime` attribute, or the run's
   * `"%Y-%m-%d"` rendering of a day number (the run date, or a day before it).
   */
  datatype Posted = Stamp(text: string) | OnDay(day: int)

  /**
   * The `Job` dataclass; `salaryInfo`, `careerLevel` and `description` are the
   * attributes the Bayt pass attaches only when they are non-empty.
   * `jobLink` is `None` when the Bayt title anchor has no `href`.
   */
  datatype Job = Job(
    companyName: string,
    platform: Platform,
    jobTitle: string,
    jobType: JobType,
    jobLink: Option<string>,
    postedTime: Posted,
    location: string,
    descriptionSnippet: string,
    salaryInfo: Option<string>,
    careerLevel: Option<string>,
    description: Option<string>)

  /** The string `get_hash` feeds to md5: `f"{company_name}_{job_title}_{platform}"`. */
  function HashKey(j: Job): string {
    j.companyName + "_" + j.jobTitle + "_" + PlatformName(j.platform)
  }

  /** `Job.get_hash`; `md5` stands for `hashlib.md5(...).hexdigest()`, left uninterpreted. */
  function GetHash(md5: string -> string, j: Job): string {
    md5(HashKey(j))
  }

  /** The hash sees only company, title and platform: link, location and date do not matter. */
  lemma HashIgnoresOtherFields(md5: string -> string, a: Job, b: Job)
    requires a.companyName == b.companyName && a.jobTitle == b.jobTitle && a.platform == b.platform
    ensures GetHash(md5, a) == GetHash(md5, b)
  {
  }

  /** A platform name holds no underscore, and its length tells the platform. */
  lemma PlatformNames(p: Platform, q: Platform)
    ensures '_' !in PlatformName(p)
    ensures |PlatformName(p)| == |PlatformName(q)| ==> p == q
  {
  }

  /**
   * The key fixes the triple when the company names hold no underscore:
   * the company is what precedes the first `_`, the platform what follows the last.
   */
  lemma KeyDeterminesTriple(a: Job, b: Job)
    requires '_' !in a.companyName && '_' !in b.companyName
    requires HashKey(a) == HashKey(b)
    ensures a.companyName == b.companyName && a.jobTitle == b.jobTitle && a.platform == b.platform
  {
    var pa, pb := PlatformName(a.platform), PlatformName(b.platform);
    PlatformNames(a.platform, b.platform);
    PlatformNames(b.platform, a.platform);
    var ra, rb := a.jobTitle + "_" + pa, b.jobTitle + "_" + pb;
    assert HashKey(a) == a.companyName + "_" + ra;
    assert HashKey(b) == b.companyName + "_" + rb;
    FirstUnderscore(a.companyName, ra, b.companyName, rb);
    LastUnderscore(a.jobTitle, pa, b.jobTitle, pb);
  }

  /** `c + "_" + r` splits at its first underscore when `c` has none. */
  lemma FirstUnderscore(c1: string, r1: string, c2: string, r2: string)
    requires '_' !in c1 && '_' !in c2
    requires c1 + "_" + r1 == c2 + "_" + r2
    ensures c1 == c2 && r1 == r2
  {
    var s := c1 + "_" + r1;
    UnderscoreAfter(c1, r1);
    UnderscoreAfter(c2, r2);
    assert |c1| == |c2|;
    assert c1 == s[..|c1|] == c2;
    assert r1 == s[|c1| + 1..] == r2;
  }

  /** `t + "_" + p` splits at its last underscore when `p` has none. */
  lemma LastUnderscore(t1: string, p1: string, t2: string, p2: string)
    requires '_' !in p1 && '_' !in p2
    requires t1 + "_" + p1 == t2 + "_" + p2
    ensures t1 == t2 && p1 == p2
  {
    var s := t1 + "_" + p1;
    UnderscoreBefore(t1, p1);
    UnderscoreBefore(t2, p2);
    assert |p1| == |p2|;
    assert p1 == s[|s| - |p1|..] == p2;
    assert t1 == s[..|t1|] == t2;
  }

  /** In `c + "_" + r` with no underscore in `c`, the first underscore sits at `|c|`. */
  lemma UnderscoreAfter(c: string, r: string)
    requires '_' !in c
    ensures (c + "_" + r)[|c|] == '_'
    ensures forall i :: 0 <= i < |c| ==> (c + "_" + r)[i] != '_'
  {
    assert forall i :: 0 <= i < |c| ==> (c + "_" + r)[i] == c[i];
  }

  /** In `t + "_" + p` with no underscore in `p`, the last underscore sits `|p|` from the end. */
  lemma UnderscoreBefore(t: string, p: string)
    requires '_' !in p
    ensures (t + "_" + p)[|t|] == '_'
    ensures forall i :: |t| < i < |t| + 1 + |p| ==> (t + "_" + p)[i] != '_'
  {
    assert forall i :: |t| < i < |t| + 1 + |p| ==> (t + "_" + p)[i] == p[i - |t| - 1];
  }

  /** Without that condition two different postings can share a key, and so a hash. */
  lemma UnderscoreCollision(md5: string -> string, j: Job)
    ensures var a := j.(companyName := "Acme_Labs", jobTitle := "Designer");
            var b := j.(companyName := "Acme", jobTitle := "Labs_Designer");
            a.companyName != b.companyName && GetHash(md5, a) == GetHash(md5, b)
  {
    var a := j.(companyName := "Acme_Labs", jobTitle := "Designer");
    var b := j.(companyName := "Acme", jobTitle := "Labs_Designer");
    assert HashKey(a) == HashKey(b);
  }

  /** The hashes of a list of postings. */
  function Hashes(md5: string -> string, jobs: seq<Job>): (hs: set<string>)
    ensures forall i :: 0 <= i < |jobs| ==> GetHash(md5, jobs[i]) in hs
    ensures forall h :: h in hs ==> exists i :: 0 <= i < |jobs| && GetHash(md5, jobs[i]) == h
    decreases |jobs|
  {
    if jobs == [] then {}
    else
      var init := jobs[..|jobs| - 1];
      assert forall i :: 0 <= i < |init| ==> init[i] == jobs[i];
      Hashes(md5, init) + {GetHash(md5, jobs[|jobs| - 1])}
  }

  /**
   * One step of the Bayt dedup: the job is kept iff its hash is not yet in
   * `seen`, and then its hash is recorded.
   */
  function Admit(md5: string -> string, seen: set<string>, j: Job): (bool, set<string>) {
    var h := GetHash(md5, j);
    if h !in seen then (true, seen + {h}) else (false, seen)
  }

  /** Admitting the same posting twice: novel the first time, a duplicate the second. */
  lemma AdmitTwice(md5: string -> string, seen: set<string>, j: Job)
    requires GetHash(md5, j) !in seen
    ensures Admit(md5, seen, j).0
    ensures !Admit(md5, Admit(md5, seen, j).1, j).0
    ensures Admit(md5, Admit(md5, seen, j).1, j).1 == Admit(md5, seen, j).1
  {
  }

  /** The Bayt dedup over a run of candidates in order: the kept postings and the new seen-set. */
  function Dedup(md5: string -> string, seen: set<string>, jobs: seq<Job>): (seq<Job>, set<string>)
    decreases |jobs|
  {
    if jobs == [] then ([], seen)
    else
      var prev := Dedup(md5, seen, jobs[..|jobs| - 1]);
      var last := jobs[|jobs| - 1];
      var (novel, seen') := Admit(md5, prev.1, last);
      (if novel then prev.0 + [last] else prev.0, seen')
  }

  /**
   * Dedup is a left fold: one more candidate is appended iff its hash is not
   * yet seen, and its hash is seen afterwards either way.
   */
  lemma DedupSnoc(md5: string -> string, seen: set<string>, jobs: seq<Job>, j: Job)
    ensures var prev := Dedup(md5, seen, jobs);
            Dedup(md5, seen, jobs + [j]).0 == if GetHash(md5, j) !in prev.1 then prev.0 + [j] else prev.0
    ensures Dedup(md5, seen, jobs + [j]).1 == Dedup(md5, seen, jobs).1 + {GetHash(md5, j)}
  {
    assert (jobs + [j])[..|jobs|] == jobs;
  }

  /** The seen-set only grows, and by exactly the hashes of the postings kept. */
  lemma {:induction false} DedupSeen(md5: string -> string, seen: set<string>, jobs: seq<Job>)
    ensures seen <= Dedup(md5, seen, jobs).1
    ensures Dedup(md5, seen, jobs).1 == seen + Hashes(md5, Dedup(md5, seen, jobs).0)
    decreases |jobs|
  {
    if jobs != [] {
      var init, last := jobs[..|jobs| - 1], jobs[|jobs| - 1];
      DedupSeen(md5, seen, init);
      var prev := Dedup(md5, seen, init);
      var r := prev.0 + [last];
      assert r[..|r| - 1] == prev.0;
    }
  }

  /** The postings kept have pairwise-distinct hashes, none of which was seen before. */
  lemma {:induction false} DedupFresh(md5: string -> string, seen: set<string>, jobs: seq<Job>)
    ensures var kept := Dedup(md5, seen, jobs).0;
            && (forall i :: 0 <= i < |kept| ==> GetHash(md5, kept[i]) !in seen)
            && (forall i, k :: 0 <= i < k < |kept| ==> GetHash(md5, kept[i]) != GetHash(md5, kept[k]))
    decreases |jobs|
  {
    if jobs != [] {
      var init, last := jobs[..|jobs| - 1], jobs[|jobs| - 1];
      DedupFresh(md5, seen, init);
      DedupSeen(md5, seen, init);
    }
  }

  /** Every candidate's hash ends up in the seen-set, kept or not. */
  lemma {:induction false} DedupCovers(md5: string -> string, seen: set<string>, jobs: seq<Job>)
    ensures forall i :: 0 <= i < |jobs| ==> GetHash(md5, jobs[i]) in Dedup(md5, seen, jobs).1
    decreases |jobs|
  {
    if jobs != [] {
      var init := jobs[..|jobs| - 1];
      DedupCovers(md5, seen, init);
      assert forall i :: 0 <= i < |init| ==> init[i] == jobs[i];
    }
  }

  /** Dedup only drops candidates: every posting it keeps is one of them. */
  lemma {:induction false} DedupKeepsCandidates(md5: string -> string, seen: set<string>, jobs: seq<Job>)
    ensures forall i :: 0 <= i < |Dedup(md5, seen, jobs).0| ==> Dedup(md5, seen, jobs).0[i] in jobs
    decreases |jobs|
  {
    if jobs != [] {
      var init := jobs[..|jobs| - 1];
      DedupKeepsCandidates(md5, seen, init);
      assert forall j :: j in init ==> j in jobs;
    }
  }

  /** Admitting `n` postings with distinct, unseen hashes keeps all `n`. */
  lemma {:induction false} AdmitDistinct(md5: string -> string, seen: set<string>, jobs: seq<Job>)
    requires forall i :: 0 <= i < |jobs| ==> GetHash(md5, jobs[i]) !in seen
    requires forall i, k :: 0 <= i < k < |jobs| ==> GetHash(md5, jobs[i]) != GetHash(md5, jobs[k])
    ensures Dedup(md5, seen, jobs).0 == jobs
    decreases |jobs|
  {
    if jobs != [] {
      var init := jobs[..|jobs| - 1];
      AdmitDistinct(md5, seen, init);
      DedupSeen(md5, seen, init);
      assert init + [jobs[|jobs| - 1]] == jobs;
    }
  }
}
