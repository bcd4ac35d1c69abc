/**
 * The scraper's three text classifiers: the company denylist
 * (`is_company_filtered`), the target-role test (`is_relevant_role`) and the
 * keyword job-type rule (`determine_job_type`).
 */
module Classify {
  import opened Text
  import opened Jobs

  /** One denylist category of `filtered_companies`, in the dict's insertion order. */
  datatype Category = Category(name: string, phrases: seq<string>)

  const FilteredCompanies: seq<Category> := [
    Category("large_companies", [
      "google", "microsoft", "amazon", "apple", "meta", "netflix", "tesla",
      "saudi aramco", "sabic", "stc", "mobily", "zain", "accenture",
      "deloitte", "pwc", "kpmg", "ey", "ibm", "oracle", "sap"]),
    Category("hr_firms", [
      "randstad", "manpower", "adecco", "hays", "robert half",
      "recruitment", "talent", "staffing", "hr solutions", "workforce"]),
    Category("government", [
      "ministry", "government", "municipal", "authority", "commission",
      "council", "public sector", "gov.sa", "moe", "moh", "mci"])
  ]

  /** `target_roles`: the search terms of both passes and the Bayt relevance list. */
  const TargetRoles: seq<string> := [
    "graphic designer", "full stack developer", "ui-ux designer",
    "motion graphic designer", "frontend developer", "backend developer",
    "web developer", "mobile developer", "react developer", "angular developer",
    "مصمم جرافيك"
  ]

  const RemoteKeywords: seq<string> := ["remote", "work from home", "wfh", "telecommute", "distributed"]
  const HybridKeywords: seq<string> := ["hybrid", "flexible", "part remote", "mixed"]

  /** Some denylisted phrase of some category occurs in the lower-cased company name. */
  predicate CompanyFiltered(name: string) {
    exists c, i :: 0 <= c < |FilteredCompanies| && 0 <= i < |FilteredCompanies[c].phrases|
      && Contains(Lower(name), FilteredCompanies[c].phrases[i])
  }

  /**
   * `is_company_filtered`: walk the categories and their phrases in order and
   * answer `true` at the first phrase found in the lower-cased name.
   */
  method IsCompanyFiltered(name: string) returns (filtered: bool)
    ensures filtered <==> CompanyFiltered(name)
  {
    filtered := AnyPhraseIn(Lower(name), FilteredCompanies);
  }

  /** The two nested loops of `is_company_filtered`, over any list of categories. */
  method AnyPhraseIn(lower: string, cats: seq<Category>) returns (found: bool)
    ensures found <==> exists c, i :: 0 <= c < |cats| && 0 <= i < |cats[c].phrases| && Contains(lower, cats[c].phrases[i])
  {
    var c := 0;
    while c < |cats|
      invariant 0 <= c <= |cats|
      invariant forall c', i :: 0 <= c' < c && 0 <= i < |cats[c'].phrases| ==> !Contains(lower, cats[c'].phrases[i])
    {
      var phrases := cats[c].phrases;
      var i := 0;
      while i < |phrases|
        invariant 0 <= i <= |phrases|
        invariant forall i' :: 0 <= i' < i ==> !Contains(lower, phrases[i'])
      {
        if Contains(lower, phrases[i]) {
          return true;
        }
        i := i + 1;
      }
      c := c + 1;
    }
    return false;
  }

  /** `is_relevant_role`: some target role occurs in the lower-cased title. */
  function IsRelevantRole(title: string): (b: bool)
    ensures b <==> exists i :: 0 <= i < |TargetRoles| && Contains(Lower(title), TargetRoles[i])
  {
    ContainsAnySpec(Lower(title), TargetRoles);
    ContainsAny(Lower(title), TargetRoles)
  }

  /**
   * `determine_job_type`: Remote when a remote keyword occurs in the
   * lower-cased text, else Hybrid when a hybrid keyword does, else Offline.
   */
  function DetermineJobType(text: string): (t: JobType)
    ensures t == Remote <==> exists i :: 0 <= i < |RemoteKeywords| && Contains(Lower(text), RemoteKeywords[i])
    ensures t == Hybrid <==>
      (forall i :: 0 <= i < |RemoteKeywords| ==> !Contains(Lower(text), RemoteKeywords[i]))
      && (exists i :: 0 <= i < |HybridKeywords| && Contains(Lower(text), HybridKeywords[i]))
    ensures t == Offline <==>
      (forall i :: 0 <= i < |RemoteKeywords| ==> !Contains(Lower(text), RemoteKeywords[i]))
      && (forall i :: 0 <= i < |HybridKeywords| ==> !Contains(Lower(text), HybridKeywords[i]))
  {
    var lower := Lower(text);
    ContainsAnySpec(lower, RemoteKeywords);
    ContainsAnySpec(lower, HybridKeywords);
    if ContainsAny(lower, RemoteKeywords) then Remote
    else if ContainsAny(lower, HybridKeywords) then Hybrid
    else Offline
  }

  /** The hybrid keyword "part remote" contains a remote keyword, so it always decides Remote. */
  lemma PartRemoteIsRemote(text: string)
    requires Contains(Lower(text), "part remote")
    ensures DetermineJobType(text) == Remote
    ensures DetermineJobType(text) != Hybrid
  {
    ContainsAt("part remote", "remote", 5);
    ContainsTransitive(Lower(text), "part remote", "remote");
    assert Contains(Lower(text), RemoteKeywords[0]);
  }

  /** Matching is on substrings: the two-letter phrase "ey" filters out a company called "Key Tech". */
  lemma KeyTechIsFiltered()
    ensures CompanyFiltered("Key Tech")
  {
    var lower := Lower("Key Tech");
    assert lower == "key tech";
    assert lower[1..3] == "ey";
    ContainsAt(lower, "ey", 1);
    assert FilteredCompanies[0].phrases[16] == "ey";
  }

  /** The classifiers ignore case: a text and its lower-cased form classify alike. */
  lemma IgnoresCase(text: string)
    ensures CompanyFiltered(Lower(text)) <==> CompanyFiltered(text)
    ensures IsRelevantRole(Lower(text)) <==> IsRelevantRole(text)
    ensures DetermineJobType(Lower(text)) == DetermineJobType(text)
  {
    LowerIdempotent(text);
  }
}
