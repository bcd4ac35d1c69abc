# Job scraper decision logic, in Dafny

This project models the decision logic of `JobScraper` in `script.py` of the
job-scrapper repository, and proves properties of it. The scraper searches
LinkedIn and Bayt for a fixed list of target roles in Saudi Arabia. It turns
each listing card into a `Job`, filters out denylisted companies (and, on
Bayt, irrelevant titles), and deduplicates Bayt postings against the
`seen_jobs` hash set. It saves the jobs to an Airtable table in batches of
ten, and logs the run's counts to a second table.

The browser, the network and the clock become inputs:
- a card is a value that maps CSS selectors to elements (text and attributes);
- a search page is either the card lists it shows or a failed navigation;
- each store reply is a status code or a raised exception;
- the run date is its day ordinal (`date.toordinal()`, 1 for 0001-01-01);
- md5 is an uninterpreted function.

Modules, following the source's structure:

- `Wrappers`: `Option`.
- `Text`: the Python string operations the code uses: `strip`, `lower`, `in`, `split`, `join`, `int`, `replace`, and the tag-removing `re.sub`.
- `Chain`: the shared "try candidates in order, `break` at the first success" loop, and the append-on-success loop.
- `Dom`: elements, cards and pages as values.
- `Jobs`: the `Job` record, `get_hash`, and the `seen_jobs` dedup as a fold.
- `Classify`: `is_company_filtered`, `is_relevant_role`, `determine_job_type`.
- `LinkedIn`: card-list selection, the title, company, location, link and date chains, the required-field rejection, and the pass.
- `Bayt`: the search URL, the four nested company strategies, location, salary, description, career level, relative dates, the filters, and the per-role candidates.
- `Airtable`: the job records, the batch loop of `save_to_airtable`, and its sleeps and exception exit.
- `Report`: the run counts, the run-log record, and `log_script_run`.
- `Scraper`: the `JobScraper` class. Its mutable field is `seenJobs`. Its methods are the Bayt dedup loop and `run_scraper`.

The imperative parts of the source are methods with loops. These are the fallback chains, the card and role loops, `is_company_filtered`, the record and batch loops, and the `seen_jobs` updates. Each is proved equal to a specification function, and the properties are proved about those functions. The single-expression parts of the source are functions. These are `get_hash`, `is_relevant_role`, `determine_job_type`, the string splits and the counts.

The model follows the code as written, including these behaviours:
- LinkedIn postings are not deduplicated, neither within the pass nor across platforms. The relevance filter is not applied to LinkedIn postings. The code has these commented out (`LinkedIn.RepeatedCardKept`, `LinkedIn.CardJobSpec`).
- A failed LinkedIn navigation ends the whole LinkedIn pass, not just that role. `driver.get` there sits outside any per-role `try` (`LinkedIn.RunStopsAtFailure`). Bayt skips only the failed role (`Bayt.FailedRoleSkipped`).
- A run in which every navigation fails is logged with status "Success" and zero counts. Only a failure to start the browser logs "Failed" (`Scraper.AllNavigationFailed`, `Scraper.JobScraper.RunScraper`).
- The run log reads the base id from the config file, not the one resolved at start-up (`Scraper.JobScraper.RunScraper`; see Findings).

## Model

| member | source | states |
|---|---|---|
| Text.Strip | script.py:403 | The result starts and ends with a non-space. It is the input itself when the input already does. It is empty exactly when the input is all whitespace. |
| Text.StripIsSlice | script.py:403 | The result is a contiguous slice of the input, and everything cut off on either side is whitespace. With the ends above, this fixes the result. |
| Text.StripOfStripped | script.py:403-411 | Stripping an already stripped value changes nothing. |
| Text.Lower | script.py:252 | Same length as the input; each character lower-cased (ASCII). |
| Text.LowerIdempotent | script.py:252 | Lower-casing twice equals lower-casing once. |
| Text.ContainsPosition | script.py:256 | A substring occurrence has a position where the piece equals the phrase. |
| Text.ContainsTransitive | script.py:256 | A piece of a piece of `s` is a piece of `s`. |
| Text.ContainsAnySpec | script.py:264 | `any(p in s for p in ps)` holds exactly when some `ps[i]` occurs in `s`. |
| Text.Contains | script.py:256 | Python's `p in s` for strings, defined as: `p` is a prefix of `s` or of one of its suffixes. `ContainsPosition` and `ContainsAt` turn that into a position. |
| Text.SplitOn | script.py:696 | The pieces of `s.split(c)` contain no `c`. Joined with `c` they give `s` back. The first piece is what precedes the first `c`. There is a single piece exactly when `c` does not occur. |
| Text.SplitOnSecond | script.py:696-699 | When `c` occurs, there are at least two pieces, and the second runs from the first `c` to the next one. |
| Text.SplitTailJoin | script.py:713-715 | `c.join(s.split(c)[1:])` is everything after the first `c`. |
| Text.Words | script.py:735 | `s.split()` yields non-empty, whitespace-free tokens. The first token of a text that starts with a non-space is its leading run of non-spaces. |
| Text.WordsSingleSpaced | script.py:735-737 | `' '.join(s.split())` is `s` with its ends stripped and every inner run of whitespace made one space (`Squeezed`, defined character by character). So no non-space character is lost, and tokens are split only at whitespace. |
| Text.TokensDeterminedByJoin | script.py:735-737 | Two lists of tokens with the same single-spaced join are equal. With `WordsSingleSpaced`, this makes `s.split()` exactly the maximal runs of non-spaces, in order. |
| Text.WordsOfJoin | script.py:735-737 | `' '.join(ws).split()` gives `ws` back when every `w` is a token. |
| Text.JoinOfWordsStripped | script.py:732-737 | A space-join of tokens is unchanged by `strip()`. |
| Text.ParseIntOfDecimal | script.py:752 | `int(str(n)) == n` for every natural `n`. |
| Text.ParseInt | script.py:752 | `int(token)`: an optional sign followed by at least one ASCII digit gives the signed decimal value, and anything else gives none (the `ValueError`). |
| Text.StripTags | script.py:411 | Tag removal never lengthens the text and only keeps characters of the input. |
| Text.StripTagsLeavesNoTag | script.py:411 | After the substitution no `<[^>]+>` match remains. |
| Text.StripTagsKeepsTagFree | script.py:411 | A text without a tag is returned unchanged. |
| Text.StripTagsIdempotent | script.py:411 | Removing tags twice equals removing them once. |
| Text.ReplaceChar | script.py:330 | With `a` not in `b`, no `a` is left after `s.replace(a, b)`. Each occurrence lengthens the text by one less than the length of `b`. |
| Text.ReplaceByChar | script.py:580 | With a one-character replacement `c`, the result has the input's length, each `a` becomes `c`, and every other character is kept where it was. |
| Text.ReplaceIsJoinOfSplit | script.py:330 | `s.replace(a, b) == b.join(s.split(a))`: the pieces between the occurrences of `a` are kept, in order, and each `a` becomes `b` (`%20` for a space). |
| Text.ReplaceAbsent | script.py:580 | A text without `a` is returned unchanged. |
| Text.ReplaceAppend | script.py:330 | Replacing in a concatenation is replacing in each part. |
| Chain.FirstIndex | script.py:368-374 | The index of the first element that passes: every earlier one fails, and the one at the index passes unless the index is the length. |
| Chain.FirstIndexAppend | script.py:368-374 | Candidates appended after a success do not move the first success. Without a success, the search continues into the appended candidates. |
| Chain.FirstOkSpec | script.py:646-656 | The `for ... break` search returns the element at the first passing index. It returns none exactly when no element passes. Otherwise it returns an element of the list that passes. |
| Chain.FindFirst | script.py:646-656 | The search loop returns what `FirstOk` specifies. |
| Chain.CollectFrom | script.py:384-554 | Every value the append-on-success loop collects is produced by some element of the input. |
| Jobs.HashIgnoresOtherFields | script.py:40-43 | Jobs with equal company, title and platform hash equal, whatever their link, location or date. |
| Jobs.HashKey | script.py:41 | The f-string `company_title_platform`, with the platform's display name. |
| Jobs.GetHash | script.py:40-43 | md5 of that key. |
| Jobs.KeyDeterminesTriple | script.py:42 | When company names contain no `_`, equal hash keys mean equal company, title and platform. |
| Jobs.UnderscoreCollision | script.py:42 | Without that condition, "Acme_Labs"/"Designer" and "Acme"/"Labs_Designer" share the key, and so the hash. |
| Jobs.Hashes | script.py:796-799 | The hash set of a job list holds exactly the hashes of its jobs. |
| Jobs.Admit | script.py:796-802 | One dedup step: keep the job exactly when its hash is not in the seen-set, and add its hash in either case. |
| Jobs.Dedup | script.py:796-802 | The fold of that step over the candidates, from a starting seen-set: the kept jobs and the final set. |
| Jobs.AdmitTwice | script.py:796-802 | Admitting a fresh job twice: kept the first time, dropped as a duplicate the second, and the seen-set unchanged by the second. |
| Jobs.DedupSnoc | script.py:796-802 | One more candidate is appended exactly when its hash is not yet seen, and its hash is seen afterwards either way. |
| Jobs.DedupSeen | script.py:797-799 | `seen_jobs` only grows, and by exactly the hashes of the kept jobs. |
| Jobs.DedupFresh | script.py:796-802 | The kept jobs have pairwise-distinct hashes, none in the seen-set they started from. |
| Jobs.DedupCovers | script.py:796-802 | Every candidate's hash, kept or not, ends up in the seen-set. |
| Jobs.DedupKeepsCandidates | script.py:796-802 | Every kept job is one of the candidates. |
| Jobs.AdmitDistinct | script.py:796-802 | Candidates with distinct, unseen hashes are all kept, in order. |
| Classify.IsCompanyFiltered | script.py:250-259 | The nested loop returns true exactly when some phrase of some denylist category occurs in the lower-cased name. |
| Classify.AnyPhraseIn | script.py:254-259 | The two nested loops with early return answer, for any category list, whether some phrase occurs. |
| Classify.CompanyFiltered | script.py:250-259 | The specification of the denylist test: some phrase of some category occurs in the lower-cased name. |
| Classify.IsRelevantRole | script.py:261-264 | True exactly when some target role occurs in the lower-cased title. |
| Classify.DetermineJobType | script.py:266-278 | Remote exactly when a remote keyword occurs. Hybrid exactly when none does and a hybrid keyword does. Offline exactly when neither does. |
| Classify.PartRemoteIsRemote | script.py:270-276 | Text containing "part remote" is always Remote, never Hybrid. |
| Classify.KeyTechIsFiltered | script.py:75 | Matching is by substring: the phrase "ey" filters out "Key Tech". |
| Classify.IgnoresCase | script.py:252-268 | All three classifiers give the same answer for a text and its lower-cased form. |
| LinkedIn.ExtractText | script.py:400-414 | The selector loop for title, company or location returns what the chain function specifies. |
| LinkedIn.ChainTextIsFirstStop | script.py:400-414 | The chain is decided by its first selector that does not miss: that selector's hit, or an abandoned card if it raised, or `""` when every selector misses. |
| LinkedIn.ChainText | script.py:400-414 | One text chain as a function: the first hit's value, `""` when every selector misses, and an abandoned card when a step raises. |
| LinkedIn.ChainTextStripped | script.py:403-411 | Every value a chain yields is already stripped. |
| LinkedIn.MarkupValueHasNoTag | script.py:407-411 | A value taken from `innerHTML` contains no tag. |
| LinkedIn.FirstHitWins | script.py:400-414 | Once a selector does not miss, later selectors are never consulted. |
| LinkedIn.TagOnlyMarkupStops | script.py:407-412 | Whenever the first selector's element shows no text and its markup is non-blank but made only of tags and whitespace, the chain stops with an empty value instead of trying the next selector. |
| LinkedIn.BoldOnlyMarkup | script.py:411 | `"<b></b>"` is such markup. |
| LinkedIn.ExtractLink | script.py:470-478 | The link loop returns what the link chain specifies. |
| LinkedIn.ChainLink | script.py:464-478 | The link chain from `""`: an accepted `href` ends it, cut at `?`, and any other `href` read replaces the link so far. |
| LinkedIn.AcceptedLink | script.py:470-478 | When some `href` contains `/jobs/view/`, the link is the first such `href` up to its first `?`, so it contains no `?`. |
| LinkedIn.UnacceptedLink | script.py:470-478 | With no accepted `href`, the link is the last `href` read, whatever it is. |
| LinkedIn.UnacceptedHrefIsKept | script.py:464-478 | An `href` without `/jobs/view/` from the catch-all `a` selector is still kept as the job link. |
| LinkedIn.ExtractPosted | script.py:488-498 | The date loop returns what the date chain specifies. |
| LinkedIn.ChainPosted | script.py:480-498 | The date chain: the first non-empty `datetime`, else the run date. |
| LinkedIn.PostedSpec | script.py:488-498 | The job carries a datetime attribute exactly when some selector finds a non-empty one. Then it is that of the first such selector. Otherwise the job carries the run date. |
| LinkedIn.CardJobSpec | script.py:509-540 | A card yields a job exactly when no chain raised, title, company and link are non-empty, and the company is not denylisted. There is no relevance test. The job carries the chains' values, the "LinkedIn" tag, the type of title plus location, and "Saudi Arabia" for an empty location. |
| LinkedIn.CardJob | script.py:384-540 | One card as a function: the four chains, the required-field rejections, the company filter, and the job's fields. |
| LinkedIn.ProcessCard | script.py:392-540 | The per-card body returns what `CardJob` specifies. |
| LinkedIn.FirstNonEmptySpec | script.py:351-377 | The cards are the list of the first selector that finds any. The list is empty exactly when none does. |
| LinkedIn.SelectCards | script.py:351-377 | Primary selector, then the alternatives in order. |
| LinkedIn.ScrapeCards | script.py:384-554 | The card loop appends the job of each accepted card, in card order. |
| LinkedIn.ScrapePage | script.py:351-554 | One loaded role page gives the jobs of its selected cards. |
| LinkedIn.ScrapePages | script.py:328-559 | The role loop gathers the jobs of the pages before the first failed navigation. |
| LinkedIn.ScrapeLinkedIn | script.py:317-568 | `scrape_linkedin` returns `LinkedInRun` of the pages. |
| LinkedIn.LinkedInRun | script.py:317-568 | The pass as a function: jobs of the selected cards of every page before the first failed navigation. |
| LinkedIn.RunStopsAtFailure | script.py:333 | Pages after the first failed navigation contribute nothing. |
| LinkedIn.PagesJobsFrom | script.py:384-554 | Every job of a run of pages is what the per-card function gives for some card. |
| LinkedIn.LinkedInRunJobs | script.py:509-534 | Every LinkedIn job is tagged "LinkedIn", has a non-empty title, company and link, and a non-denylisted company. |
| LinkedIn.RepeatedCardKept | script.py:543-550 | A card listed twice yields its job twice: no dedup on LinkedIn. |
| Bayt.RoleSlug | script.py:580 | The slug has the role's length. At each position a space becomes `-` and any other character is lower-cased, so the slug holds no space. |
| Bayt.SlugOfPlainRole | script.py:580-581 | A lower-case role without spaces appears in the URL unchanged. |
| Bayt.CutQuery | script.py:619-621 | A present `href` stays present and is cut just before its first `?`: the result is a `?`-free prefix of the `href`, and the character after it, if any, is `?`. One without `?` is unchanged. |
| Bayt.TitleLink | script.py:616-624 | A card has a title exactly when it has the `h2 a` element. The title is its stripped text, and the link its cut `href`. |
| Bayt.FindBoldCompany | script.py:645-656 | Strategy 3's loop returns the stripped text of the first bold element that passes. |
| Bayt.FindLineCompany | script.py:663-678 | Strategy 4's loop returns the first line that passes, stripped. The lines it scans are those of the card text after its first line. |
| Bayt.Validated | script.py:683-685 | The company name is never empty: it is the strategy's value or "Unknown Company". |
| Bayt.ExtractCompany | script.py:627-687 | The nested `try` blocks give what `CompanyName` specifies. |
| Bayt.CompanyStrategiesStop | script.py:628-685 | A present but empty company link gives "Unknown Company" whatever else the card shows. So does a bold list with no acceptable text, without the card text being read. |
| Bayt.RawCompany | script.py:627-681 | What the nested strategies leave in `company_name`: the first company link's text, else the wrapper's, else strategy 3's pick when `find_elements` returns, else strategy 4's. |
| Bayt.BoldPickPasses | script.py:646-656 | Strategy 3 picks only a text that passes its test. |
| Bayt.LinePickPasses | script.py:665-678 | Strategy 4 picks only a line that passes its test. |
| Bayt.BoldFallbackCompany | script.py:643-656 | A company found by strategy 3 is never the title, and contains neither "Easy Apply" nor "Saudi nationals". |
| Bayt.LineFallbackCompany | script.py:660-685 | A company found by strategy 4 is never the title, and contains none of "Easy Apply", "Saudi nationals" and "Saudi Arabia". |
| Bayt.LocationSpec | script.py:690-704 | The location is "Saudi Arabia" for a missing element or empty text, the whole text when it has no `·`, and otherwise the stripped pieces before and after the first `·`, joined by ", ". |
| Bayt.LocationOf | script.py:690-704 | The location as a function of the card. |
| Bayt.SalarySuffix | script.py:707-718 | The salary is the stripped text from its first `$` on, and exists only when the text has a `$`. |
| Bayt.DollarTail | script.py:713-715 | `'$' + '$'.join(text.split('$')[1:])` is the text from its first `$` on. |
| Bayt.SalaryOf | script.py:707-718 | The salary as a function of the card. |
| Bayt.DescriptionOf | script.py:721-726 | The description exists exactly when its element does, and is its stripped text. |
| Bayt.CareerDropsIcon | script.py:729-739 | A missing career element gives none. A label of two or more tokens loses exactly its first token: the result's tokens are the label's tokens after the first, single-spaced and stripped. A shorter label is kept stripped. |
| Bayt.CareerOf | script.py:729-739 | The career level as a function of the card. |
| Bayt.Truthy | script.py:789-794 | An extra attribute is attached only when present and non-empty, and then unchanged. |
| Bayt.PostedDay | script.py:742-744 | No date element means the run date. |
| Bayt.PostedRules | script.py:742-759 | Empty text gives the run date. "Yesterday" or a lone "day ago" gives the day before. "days ago" goes back by the integer its first token reads, or not at all when that token is not an integer. Any other text gives the run date. A day outside years 1 to 9999 raises `OverflowError`, which is caught, so the run date is kept. |
| Bayt.DaysAgo | script.py:750-755 | "N days ago" gives the run date minus N when that day lies in years 1 to 9999, and the run date otherwise. |
| Bayt.FarPastKeepsRunDay | script.py:752-755 | On 2024-01-01, "800000 days ago" keeps the run date. |
| Bayt.DaysBefore | script.py:747-758 | `datetime.now() - timedelta(days=n)` when it stays in `datetime`'s range, else the default run date that the `except` leaves. |
| Bayt.PostedFromText | script.py:742-759 | The relative-date rules as a function of the date text. |
| Bayt.BaytCardJobSpec | script.py:761-787 | A card yields a job exactly when it has a title element with a non-empty, relevant title and a company that is not denylisted. The job carries that title, the fallback company (never empty), the "Bayt" tag, the type of title plus description, the relative posting day, and a link without `?`. |
| Bayt.ProcessBaytCard | script.py:612-795 | The per-card body returns what `BaytCardJob` specifies. |
| Bayt.BaytCardJob | script.py:612-795 | One card as a function: extraction, the title, relevance and company filters, and the job's fields. |
| Bayt.CandidatesAppend | script.py:579-816 | The candidates of two runs of pages are the two runs' candidates, concatenated. |
| Bayt.Candidates | script.py:579-816 | The candidates of the role pages in order, before the dedup. A failed navigation or an empty card list gives none for that role. |
| Bayt.FailedRoleSkipped | script.py:811-816 | A failed navigation costs only its own role. |
| Bayt.AllRolesFailed | script.py:811-816 | With every navigation failed there are no candidates. |
| Bayt.CandidatesAreRelevant | script.py:767-787 | Every candidate is tagged "Bayt", has a relevant title, and has a non-empty, non-denylisted company. |
| Airtable.RecordDeterminesStoredFields | script.py:880-891 | Two jobs give the same record exactly when they agree on the seven stored fields. Salary, career level and description never reach the store. |
| Airtable.JobRecord | script.py:880-891 | The eight fields of one job's record. |
| Airtable.BuildRecords | script.py:878-892 | One record per job, in order. |
| Airtable.Chunks | script.py:898-899 | Cutting ten off the front, repeatedly, gives chunks of 1 to 10 records that concatenate back to the records. |
| Airtable.BatchesAreChunks | script.py:898-899 | The stepped slices are exactly those chunks: ceil(n/10) batches, batch k holding records 10k to 10k+9. |
| Airtable.SaveToAirtable | script.py:869-919 | Builds the records and runs the batch loop to the state `SaveRecords` specifies. |
| Airtable.SaveUpTo | script.py:898-919 | The batch loop's state after k batches: posts, `total_saved`, pause points, and whether an exception ended it. |
| Airtable.SaveRecords | script.py:898-919 | The state after all batches. |
| Airtable.AbortedStays | script.py:918-919 | Once an exception ends the save, nothing more happens. |
| Airtable.SaveWithoutException | script.py:898-914 | Without an exception, every batch is posted in order, whatever the statuses, so a failed batch does not stop later ones. `total_saved` is the summed size of the batches answered 200. The loop pauses exactly after the successful batches that are not last. |
| Airtable.SaveStepAnswered | script.py:902-914 | One answered iteration: one more post, and the counters move only on 200. |
| Airtable.SaveStopsAtException | script.py:902-919 | An exception at batch r ends the save after r+1 posts. Only earlier successes count. |
| Airtable.SavedAtMost | script.py:904-906 | `total_saved` is at most the number of records. |
| Airtable.AllSaved | script.py:904-906 | With every batch answered 200, all records are saved. |
| Airtable.TwelveRecords | script.py:898-914 | Twelve records with replies 422 then 200: two posts (ten, then two), two saved, no pause. |
| Report.CountAppend | script.py:962-966 | The count of a comprehension over a concatenation is the sum of the two counts. |
| Report.CountBounds | script.py:962-966 | A count is at most the length, and equals it exactly when every job qualifies. |
| Report.CountDisjoint | script.py:962-963 | Counts of two exclusive conditions add up to the count of their disjunction. |
| Report.SummaryPartitions | script.py:961-966 | The platform counts add up to the total; remote plus hybrid is at most the total. |
| Report.SummaryAppend | script.py:961-966 | The counts of the two passes' jobs together are the field-by-field sums. |
| Report.Summarize | script.py:961-966 | The six counts of the run's jobs. |
| Report.EmptyRunCountsZero | script.py:1001-1010 | A run with no jobs reports the failure path's zeros. |
| Report.RunFieldsReadBack | script.py:839-851 | The run-log record determines the counts and the status it was built from. |
| Report.RunFields | script.py:839-851 | The field-ID record of a run, without the duration. |
| Report.LogRunAsWritten | script.py:828-831 | As written: a post is made exactly when the config has `airtable.base_id`, and it is `LogRun` with that id. |
| Report.ConfigBaseId | script.py:830 | `config['airtable']['base_id']`, absent exactly when the lookup raises `KeyError`. |
| Report.AsWrittenAgrees | script.py:830 | When the config's base id is the scraper's own, the code as written does what was intended. |
| Report.LogRun | script.py:831-863 | One post to the runs URL with the field-ID record; true exactly on status 200. |
| Report.NoConfigNoRunLog | script.py:830 | With no config file, the code as written logs nothing even when the store would answer 200. The corrected call logs. |
| Report.ConfigBaseIdDiverges | script.py:830-831 | A config base id that differs from the environment's sends the run log to another base than the jobs. |
| Report.RunsUrlDeterminesBase | script.py:831 | Different base ids give different runs URLs. |
| Scraper.JobScraper.constructor | script.py:49 | A new scraper has seen nothing. |
| Scraper.JobScraper.AdmitJob | script.py:796-802 | Appends the job and records its hash exactly when the hash was not in `seen_jobs`. The hash is recorded afterwards, and `seen_jobs` only grows. |
| Scraper.JobScraper.AdmitCard | script.py:610-806 | One card: extraction and filters, then the dedup step. |
| Scraper.JobScraper.AdmitCards | script.py:609-806 | The card loop continues the dedup over the role's candidates. |
| Scraper.JobScraper.ScrapeRole | script.py:585-606 | A failed navigation or an empty card list adds nothing. |
| Scraper.JobScraper.ScrapeBaytPages | script.py:579-816 | The role loop dedups the pass's candidates against `seen_jobs`. |
| Scraper.JobScraper.ScrapeBayt | script.py:570-822 | The Bayt jobs have pairwise-distinct hashes, none seen before, and `seen_jobs` grows by exactly their hashes. |
| Scraper.JobScraper.RunScraper | script.py:921-1015 | A browser that does not start gives no jobs and a zero "Failed" log. Otherwise the result is the LinkedIn jobs followed by the deduplicated Bayt jobs, with no dedup across them. They are saved when there are any, and logged with their counts and "Success". Both paths log through `log_script_run` as written, so they post only when the config holds a base id, and then to that base. When it is the scraper's own base id, the log is the intended one. |
| Scraper.RunCountsByPass | script.py:961-966 | Each pass's jobs are counted under its own platform, and Indeed's count is zero. |
| Scraper.BaytRunJobs | script.py:767-802 | The Bayt jobs of a run are relevant, non-denylisted, tagged "Bayt", with a company name. |
| Scraper.BaytRunPlatform | script.py:781 | Every Bayt job of a run is tagged "Bayt". |
| Scraper.SuccessfulRunCounts | script.py:934-966 | The logged LinkedIn count is the LinkedIn pass's length, the Bayt count the Bayt pass's, and the Indeed count zero. Remote plus hybrid is at most the total. |
| Scraper.AllNavigationFailed | script.py:328-333 | When every navigation fails, the run finds nothing and its counts are all zero, even though it is logged as a success. |

## Left out

- Browser start-up, Chrome options and the anti-detection scripts are not modelled. The only trace of them is the `driverStarts` flag of `RunScraper`, which stands for `setup_driver` raising or not.
- Config-file loading, the config template and the credential lookup from environment variables are not modelled. `baseId`, `config` and the runs-table id are given to the constructor, after that resolution.
- HTTP posts, their headers and JSON payloads are not modelled. Each reply is an input: a status code, or an exception.
- Navigation, waits, scrolling and `load_more_linkedin_jobs` are not modelled. Each role's page is an input, as it looks once these have run. A timeout is a failed navigation.
- `time.sleep` and the random delays are not modelled. The save loop records where it pauses (`sleptAfter`); the other delays are not recorded.
- `datetime.now()` is not modelled. The run date is a day ordinal; the time of day is not modelled. Each record's "Scraped At" reading is the `clock` input. `Date(day)` stands for the formatted date string.
- `run_duration` is left out because it is floating point. The run-log record omits its duration field.
- md5 is uninterpreted, so nothing is claimed about hash collisions beyond equal keys.
- Logging, `print` and the summary printout are not modelled.
- `driver.quit` in the `finally` block is not modelled.
- `SearchUrl` of both passes is written out but not connected to the pages, which are inputs.
- Python's `lower()` is modelled for ASCII letters only, so the Arabic target role folds to itself.
- `int()` is modelled for an optional sign and ASCII digits. Underscores and non-ASCII digits are not modelled.
- Other exceptions inside a card's `try` are not modelled. The cases modelled are these. A missing element raises `NoSuchElementException`. A missing `innerHTML` on LinkedIn abandons the card. A raise from Bayt strategy 3's `find_elements` falls through to strategy 4; it is an absent `lists` key. An out-of-range date raises `OverflowError`, which keeps the run date. Python's `None` in other places is modelled through `Option`.
- Bayt's extra attributes (salary, career level, description) are modelled on the job. They are never stored (`Airtable.RecordDeterminesStoredFields`).
- The Indeed pass is commented out in the source. Its count is always zero (`Scraper.RunCountsByPass`).

## Findings

| source | as written | input that shows it | evidently intended | confidence | as-written member | corrected member |
|---|---|---|---|---|---|---|
| script.py:830 | `log_script_run` reads the base id from `self.config['airtable']['base_id']`. When that key is missing, the `KeyError` is caught and the call returns False. | Credentials given only through the environment, with no config file (`load_config` returns `{}`): no run is ever logged, even though the jobs are saved. | Use `self.base_id`, the id resolved in `__init__` and used for the jobs table. | not executed | Report.LogRunAsWritten, Report.NoConfigNoRunLog | Report.LogRun, with Report.AsWrittenAgrees and the last ensures of Scraper.JobScraper.RunScraper |
