# remote-radar, modelled in Dafny

remote-radar collects remote-work job posts from the eleduck forum and keeps them in a SQLite store. A large
language model classifies each post. New matches go out by e-mail, either to one fixed address or to each
subscriber whose tag filter they pass. Posts are fetched on a schedule (a Go duration or a five-field cron
expression), and the jobs are served over a small HTTP API.

This project models the core of that program in Dafny and proves what each part promises:

- **Fetcher.** The crawl over categories and pages, with:
  - the age cutoff and the "stop this category at the first old post" rule;
  - the remote-tag filter;
  - id de-duplication;
  - the URL, id and attribute helpers.
- **Storage.** The store as a class over maps and sequences:
  - job upsert, which counts only ids the store did not have before;
  - raw-job upsert, whose conflicts never overwrite a classification status;
  - filtered, newest-first, paged job listing and counting;
  - listing raw jobs by status;
  - status update, including the not-found error.
- **Processor.**
  - the keyword pre-filter;
  - prompt building, where `{{TEXT}}` and `{{TAGS}}` are replaced in turn;
  - turning a language-model verdict into a job: id fallback, score clamp, canonical tags, skills;
  - the accept/reject/error outcome.
- **Cron.**
  - parsing a field (`*`, `*/n`, plain numbers, comma lists) and a five-field spec;
  - minute matching;
  - the one-year search for the next matching minute.
- **Scheduler.** The scheduler object and one run, which:
  - fetches;
  - stores raw jobs;
  - classifies the pending batch and updates each row's status;
  - upserts accepted jobs;
  - notifies once;
  - skips everything while another run is in progress.
- **Email notifier.** The job listing body, the MIME header lines and the single send.
- **Subscription notifier.**
  - the per-subscriber tag filter, where falsy tag values are ignored;
  - one message per subscriber with matches;
  - stopping at the first failed send;
  - the fallback notifier when there are no subscribers.
- **Subscription service.** Channel and tag tables, then request validation in the source's order: e-mail,
  channel, tags. Tags are stored under their canonical spelling.
- **HTTP API.**
  - the `limit`/`page` parsing, offset, `X-Has-More` and `X-Total` of `/api/jobs`;
  - the status table of `/api/refresh` and `/api/subscriptions`.
- **Server wiring.** `collectTags`, `buildJobQuery`, `selectNotifier` and `runOnceManual`.

Some things become parameters of the model because they are outside the program's own logic:

- network page loads and the decoding of the page's JSON;
- the language model's answer and its decoding;
- time parsing and the clock;
- SMTP delivery;
- the subscription store and its listing;
- the e-mail address syntax check.

Each stateful part is a Dafny `class` (the `Store`, the `Scheduler`) whose methods are proved against
specification functions. The remaining loops are methods with invariants, proved equal to recursive
functions, and the properties are lemmas about those functions.

## Model

| member | source | states |
|---|---|---|
| Strs.TrimSpaceSpec | internal/processor/processor.go:76 | the trimmed string is the input with only white space removed at both ends, and it neither starts nor ends with white space |
| Strs.TrimSpaceIdempotent | internal/subscription/service.go:61 | trimming twice is trimming once |
| Strs.LowerTrimCommute | internal/subscription/service.go:69 | lower-casing and trimming commute, so `ToLower(TrimSpace(x))` is well defined in either order |
| Strs.SplitJoin | cmd/server.go:298 | joining the pieces of a split with the separator gives back the input |
| Strs.SplitPiecesClean | internal/scheduler/cron.go:312 | no piece of a split contains the separator |
| Strs.FieldsOfJoin | internal/scheduler/cron.go:277 | splitting into fields a space-joined list of non-empty space-free words returns the list |
| Strs.ReplaceAllConcat | internal/processor/processor.go:129-130 | replacing all occurrences distributes over concatenation when no occurrence straddles the seam |
| Strs.ReplaceAllAbsent | internal/processor/processor.go:129-130 | replacing a pattern that does not occur changes nothing |
| Strs.LowerContains | internal/processor/processor.go:110-116 | a substring of a text is still a substring after both are lower-cased |
| Strs.LowerCharIdempotent | internal/processor/processor.go:110 | a lower-cased code point stays as it is when lowered again |
| Strs.LowerCharSpace | internal/subscription/service.go:69 | lowering neither makes nor removes white space |
| Strs.LowerBeyondAscii | cmd/server.go:208 | the dotted capital I, the Kelvin sign and Latin-1 accented capitals fold as Go folds them |
| Strs.Wrap64 | internal/api/server.go:76 | 64-bit `int` arithmetic: the value in the int64 range that differs from the true result by a multiple of 2^64, the value itself when it fits |
| Strs.AtoiItoa | internal/api/server.go:63-98 | parsing the decimal rendering of any 64-bit integer gives it back |
| Strs.TrimSuffix | internal/fetcher/fetcher.go:57 | a present suffix is removed once, and an input that does not end with the suffix is returned as it is |
| Fetcher.NewFetcher | internal/fetcher/fetcher.go:45-64 | max pages and max age fall back to 1 and 30 days when not positive, the base URL loses one trailing slash, and the category list is the cleaned configured list (never empty) |
| Fetcher.NormalizeCategoryPaths | internal/fetcher/fetcher.go:222-235 | the loop computes the cleaned path list |
| Fetcher.CleanPathsSound | internal/fetcher/fetcher.go:222-231 | every kept path is a trimmed configured path, and it is non-empty |
| Fetcher.CleanPathsComplete | internal/fetcher/fetcher.go:222-231 | every configured path that is not blank is kept, trimmed |
| Fetcher.CategoryPathsClean | internal/fetcher/fetcher.go:222-235 | the category list is never empty and holds only non-empty trimmed paths, falling back to the defaults |
| Fetcher.Cutoff | internal/fetcher/fetcher.go:68 | the cutoff lies strictly before now |
| Fetcher.PagePathShape | internal/fetcher/fetcher.go:184-203 | page 1 keeps the path unchanged; later pages append `page=N` after `?`, or after `&` when the path already has a query |
| Fetcher.PagePathNumber | internal/fetcher/fetcher.go:190-197 | the page number can be read back from the built path |
| Fetcher.FullUrl | internal/fetcher/fetcher.go:205-213 | an empty link yields the base, an absolute link is kept, and a relative link is appended to the base without its trailing slash |
| Fetcher.FullUrlEndsWithLink | internal/fetcher/fetcher.go:205-213 | the full URL always ends with the link |
| Fetcher.FullUrlIdempotent | internal/fetcher/fetcher.go:205-213 | a full URL is absolute, and completing it again changes nothing |
| Fetcher.PickersFallBack | internal/fetcher/fetcher.go:363-381 | published time, summary and title each take the first non-empty of their fields, in the source's order |
| Fetcher.FirstNonEmpty | internal/fetcher/fetcher.go:363-381 | the result is empty exactly when every candidate is, and otherwise it is the first non-empty candidate |
| Fetcher.HasRemoteTag | internal/fetcher/fetcher.go:341-348 | true exactly when some tag name contains the remote marker |
| Fetcher.ToTagMap | internal/fetcher/fetcher.go:383-389 | the loop builds the tag map |
| Fetcher.TagMapOfSpec | internal/fetcher/fetcher.go:383-389 | the tag map's keys are exactly the tag names, each mapped to true |
| Fetcher.RawAttributesRoundTrip | internal/fetcher/fetcher.go:237-254 | the raw attributes of a post decode back to the same post, and `normalized_title` is the picked summary |
| Fetcher.NormalizeId | internal/fetcher/fetcher.go:350-361 | string ids are kept, a missing id renders as `<nil>`, and booleans render as words |
| Fetcher.PostsOf | internal/fetcher/fetcher.go:324-339 | the posts are the page properties' post list when there is one, else the initial properties' post list, and an error when neither has one |
| Fetcher.Dated | internal/fetcher/fetcher.go:119-127 | a post with no time, an unparsable time or the zero time has no date, and otherwise its date is its parsed publication time |
| Fetcher.Step | internal/fetcher/fetcher.go:118-168 | undated posts are skipped, a post older than the cutoff stops the category, and a post is taken exactly when it is dated, recent, remote-tagged and its id is blank or unseen |
| Fetcher.ScanPosts | internal/fetcher/fetcher.go:118-170 | the post loop of one page collects exactly the jobs and ids of the page scan, and reports a stop exactly when the scan meets a post older than the cutoff |
| Fetcher.Fetch | internal/fetcher/fetcher.go:67-182 | the nested category/page/post loops return the crawl function's result and request exactly its page log |
| Fetcher.FetchJobsOk | internal/fetcher/fetcher.go:67-182 | every fetched job is at or after the cutoff, is remote-tagged, and has an id no other fetched job has |
| Fetcher.CrawlOk | internal/fetcher/fetcher.go:76-178 | the crawl keeps its accumulated jobs recent, remote and unique |
| Fetcher.ScanIgnores | internal/fetcher/fetcher.go:136-147 | a post that would be skipped can be removed from a page without changing the scan |
| Fetcher.UndatedIgnored | internal/fetcher/fetcher.go:119-127 | an undated post never influences the scan |
| Fetcher.ScanStopsAt | internal/fetcher/fetcher.go:129-134 | nothing after the first old post on a page is looked at |
| Fetcher.ScanStopsIff | internal/fetcher/fetcher.go:129-134 | a page stops its category exactly when it holds a dated post older than the cutoff |
| Fetcher.PagesLogShape | internal/fetcher/fetcher.go:76-78 | the pages of a category are requested in order 1, 2, … and never beyond max pages |
| Fetcher.PagesStopAtOldPost | internal/fetcher/fetcher.go:173-175 | a further page is requested only after a page that loaded and held no old post |
| Fetcher.PagesErrorLast | internal/fetcher/fetcher.go:79-114 | a failed page is the last page requested, and its error is the one returned |
| Fetcher.PagesLoaded | internal/fetcher/fetcher.go:79-114 | when the category finishes without error, every requested page loaded |
| Fetcher.CrawlLogGrows | internal/fetcher/fetcher.go:76-178 | the request log only grows |
| Fetcher.CrawlErrors | internal/fetcher/fetcher.go:76-178 | a crawl error is the error of the last page requested; otherwise every page loaded |
| Fetcher.FetchErrors | internal/fetcher/fetcher.go:67-182 | fetch fails exactly when some requested page failed, and it returns the last page's error |
| Storage.FirstNewKeys | internal/storage/store.go:92-113 | the new jobs have keys not yet stored and pairwise distinct, and their keys are exactly the batch's keys minus the stored ones |
| Storage.FirstNewFirst | internal/storage/store.go:92-113 | each new job is the first batch entry with its key |
| Storage.CreatedCount | internal/storage/store.go:92-113 | the created count is the number of distinct batch keys not yet stored |
| Storage.PutJobsKeys | internal/storage/store.go:115-135 | after an upsert the stored ids are the old ids plus the batch's ids |
| Storage.PutJobsLastWins | internal/storage/store.go:115-135 | an id outside the batch keeps its row, and an id in the batch holds the last batch entry with that id |
| Storage.ReUpsertCreatesNothing | internal/storage/store.go:86-141 | upserting the same batch again creates nothing |
| Storage.Defaulted | internal/storage/store.go:151-156 | an empty status becomes `pending`, a non-empty one is kept, and every other field of the row is kept |
| Storage.PutRawsKeepsStatus | internal/storage/store.go:183-186 | re-inserting a known raw job keeps its row id, status, reason and model response |
| Storage.PutRawsKeys | internal/storage/store.go:144-192 | the raw index's keys are the old keys plus the batch's keys |
| Storage.ReUpsertRawCreatesNothing | internal/storage/store.go:144-192 | upserting the same raw batch again creates nothing |
| Storage.PutRawsOk | internal/storage/store.go:144-192 | the raw table keeps its index and row ids consistent |
| Storage.ApplyStatus | internal/storage/store.go:248-267 | an update sets the status (processed when empty) and the reason, replaces the model response only when one is given, and keeps the job's identity and text |
| Storage.RawsWithStatusSound | internal/storage/store.go:227-245 | a listed raw job is a stored row with the asked status |
| Storage.RawsWithStatusAscending | internal/storage/store.go:227-245 | raw jobs are listed in ascending row id, which stands in for creation order (see Left out) |
| Storage.RawsWithStatusComplete | internal/storage/store.go:227-245 | every stored row with the status is listed |
| Storage.MatchesTagsAnd | internal/storage/store.go:298-310 | the tag filter is a conjunction, so a longer tag list narrows the match |
| Storage.MatchesTagsBlank | internal/storage/store.go:298-310 | blank tags filter nothing out, and a job with no tags matches only a list of blank tags |
| Storage.MatchingSound | internal/storage/store.go:195-214 | the filter keeps only stored jobs that match every tag |
| Storage.MatchingComplete | internal/storage/store.go:195-214 | every stored job that matches every tag is kept |
| Storage.SortByTimeSorted | internal/storage/store.go:195-214 | listed jobs are newest first |
| Storage.SortByTime | internal/storage/store.go:195-214 | sorting is a permutation |
| Storage.Page | internal/storage/store.go:195-214 | a page is the slice from `offset` of exactly `limit` items, or of all remaining items when fewer remain; everything from `offset` when there is no limit; empty past the end |
| Storage.PagesTile | internal/storage/store.go:195-214 | two consecutive pages concatenate to one page of their combined size |
| Storage.CountNew | internal/storage/store.go:92-113 | the counting loop returns exactly the new jobs and their number |
| Storage.DefaultStatuses | internal/storage/store.go:151-156 | the loop applies the default status to every row |
| Storage.Store.constructor | internal/storage/store.go:86-141 | a new store is empty and valid |
| Storage.Store.UpsertJobs | internal/storage/store.go:86-141 | returns the jobs not stored before and their count, and the new job table is the old one with the batch upserted (raw table unchanged) |
| Storage.Store.UpsertRawJobs | internal/storage/store.go:144-192 | returns the raw jobs not stored before and their count, and the raw table is the old one with the defaulted batch upserted |
| Storage.Store.WriteRaws | internal/storage/store.go:158-186 | the per-row write loop leaves exactly the upserted raw table |
| Storage.Store.ListJobsSound | internal/storage/store.go:195-214 | listed jobs are stored, match the tags and come newest first |
| Storage.Store.ListJobsAll | internal/storage/store.go:195-224 | a listing without limit is a permutation of all matching jobs, and its length is the count |
| Storage.Store.CountJobsCounts | internal/storage/store.go:217-224 | the count is the number of stored jobs that match the tags |
| Storage.Store.ListJobsPagesTile | internal/storage/store.go:195-214 | listing with limit a and then limit b from the next offset gives the listing with limit a+b, in the model's fixed order for equal publication times (see Left out) |
| Storage.Store.ListRawJobsSpec | internal/storage/store.go:227-245 | listed raw jobs have the status (pending by default), come in ascending id (standing in for creation order), number at most the limit (50 by default), and a short listing holds every such row |
| Storage.Store.UpdateRawJobStatus | internal/storage/store.go:248-267 | a known row gets the status update and nothing else changes; an unknown id is a not-found error and changes nothing |
| Processor.NewProcessor | internal/processor/processor.go:61-72 | the batch size falls back to the default when not positive, and the tag lookup is built from the candidates |
| Processor.TagLookupComplete | internal/processor/processor.go:65-70 | every non-blank candidate is found under its trimmed spelling, lower-cased by the model's case fold (see Strs.Lower under Left out) |
| Processor.TagLookupSound | internal/processor/processor.go:65-70 | every lookup key is some candidate's trimmed spelling, lower-cased by the model's case fold (see Strs.Lower under Left out) |
| Processor.TagLookupValues | internal/processor/processor.go:65-70 | every lookup value is a non-empty trimmed candidate whose lower case by the model's case fold (see Strs.Lower under Left out) is its key |
| Processor.ContainsKeyword | internal/processor/processor.go:106-121 | the loop decides the keyword predicate |
| Processor.BlankKeywordsRejectAll | internal/processor/processor.go:106-121 | with no non-blank keyword every text is rejected |
| Processor.KeywordOccurrencePasses | internal/processor/processor.go:106-121 | a text containing a keyword passes, also when text and keyword differ only in case by the model's case fold (see Strs.Lower under Left out) |
| Processor.PromptWithoutMarks | internal/processor/processor.go:123-134 | a template without marks is sent unchanged, followed by the instructions |
| Processor.PromptFillsTemplate | internal/processor/processor.go:123-134 | the text mark is replaced by the text and the tags mark by the tag list; a tags mark inside the text is replaced too, as the source's second pass does |
| Processor.DefaultPromptFilled | internal/processor/processor.go:199 | the default prompt is the default template filled in that way |
| Processor.DefaultPromptContents | internal/processor/processor.go:123-134 | the default prompt contains the tag list, and it contains the job text when the text has no tags mark |
| Processor.BuildPrompt | internal/processor/processor.go:123-134 | every prompt ends with the fixed JSON instructions |
| Processor.ClampScore | internal/processor/processor.go:189-197 | the score is clamped into 0..5 and kept when already inside |
| Processor.JobId | internal/processor/processor.go:155-157 | the external id is used when present, otherwise `source-<row id>`, whose number reads back |
| Processor.NormalizedOfSpec | internal/processor/processor.go:168-176 | the normalized tags are exactly the canonical spellings of the model's tags whose trimmed lower case by the model's case fold (see Strs.Lower under Left out) the lookup knows, each mapped to true |
| Processor.SkillsOfSound | internal/processor/processor.go:178-184 | every skill is a non-empty trimmed model tag |
| Processor.SkillsOfComplete | internal/processor/processor.go:178-184 | every non-blank model tag is a skill |
| Processor.NormalizeTags | internal/processor/processor.go:168-176 | the loop computes the normalized tag map |
| Processor.CollectSkills | internal/processor/processor.go:178-184 | the loop computes the skills map |
| Processor.BuildJob | internal/processor/processor.go:136-187 | the built job is the specified job |
| Processor.BuiltJobSpec | internal/processor/processor.go:136-187 | the job's id is never empty, its title is trimmed, the summary falls back to the raw summary, the score is within 0..5, and the normalized tags are candidate spellings mapped to true |
| Processor.Process | internal/processor/processor.go:75-104 | processing returns the specified classification and sends the model exactly the specified prompts |
| Processor.KeywordRejection | internal/processor/processor.go:77-79 | the model is consulted exactly when the keyword filter passes; otherwise the job is rejected for missing keywords |
| Processor.ProcessFailures | internal/processor/processor.go:81-92 | processing fails exactly when the keywords pass and the model call or the decoding fails |
| Processor.ProcessResultShape | internal/processor/processor.go:87-103 | accepted results carry a job and no reason, rejected ones a reason, and a trace of prompt and answer exists exactly when the model was asked |
| Processor.AcceptedMeansRemote | internal/processor/processor.go:94-103 | a job is accepted exactly when the model says it is remote, and it is then the job built from the model's verdict |
| Cron.RangeSpec | internal/scheduler/cron.go:319-322 | `*` covers exactly min..max |
| Cron.StepValuesSpec | internal/scheduler/cron.go:323-330 | `*/n` covers exactly the values from min to max that are min plus a multiple of n |
| Cron.AddRange | internal/scheduler/cron.go:320-322 | the loop adds the whole range |
| Cron.AddSteps | internal/scheduler/cron.go:328-330 | the loop adds exactly the step values, in arithmetic without 64-bit wrap-around |
| Cron.AddPart | internal/scheduler/cron.go:313-337 | one comma part adds its values or reports its error |
| Cron.ParseCronField | internal/scheduler/cron.go:306-343 | the field parser returns the field's specified value set or error, with steps taken without 64-bit wrap-around |
| Cron.FieldInRange | internal/scheduler/cron.go:306-343 | a parsed field is non-empty and lies within min..max, with steps taken without 64-bit wrap-around |
| Cron.OnePart | internal/scheduler/cron.go:306-343 | a field of one part has that part's values, or its error |
| Cron.StarField | internal/scheduler/cron.go:319-322 | `*` parses to the whole range |
| Cron.NumberField | internal/scheduler/cron.go:331-336 | a number in range parses to itself |
| Cron.StepField | internal/scheduler/cron.go:323-330 | `*/n` parses to the step values, taken without 64-bit wrap-around |
| Cron.ParseCronSpecRanges | internal/scheduler/cron.go:276-304 | a parsed spec has non-empty minutes 0-59, hours 0-23, days 1-31, months 1-12 and weekdays 0-6, with steps taken without 64-bit wrap-around |
| Cron.FieldCountChecked | internal/scheduler/cron.go:277-280 | a spec with other than five fields is rejected |
| Cron.StarSpec | internal/scheduler/cron.go:276-304 | `* * * * *` parses to the full range of each of the five fields |
| Cron.CivilOf | internal/scheduler/cron.go:345-366 | minute, hour, weekday, month and day of a time are in their ranges; CivilOfInverse and CivilOfUnique state that the reading is the calendar's |
| Cron.EpochIsThursday | internal/scheduler/cron.go:345-366 | the Unix epoch is Thursday 1 January 1970, 00:00 |
| Cron.YearDaySpec | internal/scheduler/cron.go:345-366 | splitting a day number into a year and a day of that year loses no day |
| Cron.CivilOfInverse | internal/scheduler/cron.go:345-366 | every reading is a valid calendar date, its day number, hour and minute give back the minute, and the weekday counts on from Thursday 1970-01-01 |
| Cron.CivilOfUnique | internal/scheduler/cron.go:345-366 | every valid date and time is read back from its minute, so the reading is the calendar's and no other |
| Cron.NextDayWeekday | internal/scheduler/cron.go:345-366 | a day later the weekday advances by one |
| Cron.NextDay | internal/scheduler/cron.go:345-366 | a day later the date is the next day of the month, the first of the next month, or New Year's Day, at the same time of day |
| Cron.CalendarExamples | internal/scheduler/cron.go:345-366 | the minute before the epoch is Wednesday 1969-12-31 23:59, and 29 February 1972 is a Tuesday |
| Cron.EveryMinuteMatches | internal/scheduler/cron.go:345-366 | the all-star spec matches any minute |
| Cron.SearchStart | internal/scheduler/cron.go:368-377 | the search starts at the first whole minute strictly after the given time |
| Cron.Next | internal/scheduler/cron.go:368-377 | the next run is the first matching whole minute after the time within a year, and an error means that no minute in that year matches |
| Cron.StepOverflow | internal/scheduler/cron.go:328-330 | with step 2^63-1 the source's 64-bit loop adds -2^63 and -1, which are outside the field |
| Cron.StepOverflowParse | internal/scheduler/cron.go:324 | that step is a valid integer, so it passes the parse check |
| Cron.StepLargeCorrected | internal/scheduler/cron.go:328-330 | without wrap-around the same step yields only the field minimum |
| Scheduler.ParseSchedule | internal/scheduler/cron.go:253-266 | a schedule is either a positive interval or a valid cron spec (kept trimmed) with interval 0 |
| Scheduler.DurationWins | internal/scheduler/cron.go:253-266 | a value that parses as a positive duration is an interval |
| Scheduler.CronSelected | internal/scheduler/cron.go:253-266 | otherwise a valid cron spec is used |
| Scheduler.DefaultSchedule | internal/scheduler/cron.go:253-266 | anything else falls back to the default interval |
| Scheduler.NewSettings | internal/scheduler/cron.go:61-87 | a timeout that parses to a positive duration is kept and any other is 30 seconds; a positive batch size is kept and any other is 20; the schedule is parsed from the interval |
| Scheduler.UpdateFor | internal/scheduler/cron.go:180-185 | an accepted result marks the row processed with no reason; anything else marks it rejected with the model's reason; the trace is kept as details |
| Scheduler.StepAccepts | internal/scheduler/cron.go:173-189 | one classified row adds its accepted job, if any |
| Scheduler.DrainStops | internal/scheduler/cron.go:173-189 | after an error no further row is processed |
| Scheduler.DrainErrors | internal/scheduler/cron.go:173-189 | the batch loop fails only with a processing or update error |
| Scheduler.DrainKeeps | internal/scheduler/cron.go:173-189 | the batch loop only changes rows of the batch and never adds rows |
| Scheduler.DrainMarks | internal/scheduler/cron.go:173-189 | when the batch succeeds, every pending row gets the status its classification calls for |
| Scheduler.DrainAccepts | internal/scheduler/cron.go:173-189 | the accepted jobs are the batch's accepted jobs, in order |
| Scheduler.CycleOutcome | internal/scheduler/cron.go:137-207 | a fetch failure changes nothing; any failure before notifying creates and sends nothing; at most one notification is sent, holding exactly the new jobs; at most a batch of jobs is created |
| Scheduler.FinishOutcome | internal/scheduler/cron.go:191-206 | the final stage fails only in notifying, and notifies once with the new jobs when there are any |
| Scheduler.CycleMarksPending | internal/scheduler/cron.go:151-189 | after a run without classification errors, every pending row of the batch carries its new status and every other row is as stored |
| Scheduler.NothingAccepted | internal/scheduler/cron.go:191-193 | when nothing is accepted the job table is unchanged and nothing is sent |
| Scheduler.Scheduler.constructor | internal/scheduler/cron.go:61-87 | a new scheduler holds its collaborators and the derived settings, and is not running |
| Scheduler.Scheduler.RunOnce | internal/scheduler/cron.go:133-141 | while another run is in progress it returns 0 and changes nothing; otherwise it runs one cycle as specified and clears the running flag |
| Scheduler.Scheduler.RunCycle | internal/scheduler/cron.go:143-207 | one cycle leaves the store and returns the count, error and notifications the cycle specification gives |
| Scheduler.Scheduler.ClassifyOne | internal/scheduler/cron.go:174-188 | one row is classified and its status written as specified, and the job table is unchanged |
| Scheduler.Scheduler.ClassifyBatch | internal/scheduler/cron.go:173-189 | the loop over the pending batch leaves the raw table, accepted jobs and error of the batch specification |
| Scheduler.ToRaws | internal/scheduler/cron.go:151-163 | fetched jobs are converted to raw jobs one by one |
| Email.NewEmailNotifier | internal/notifier/email.go:63-71 | an empty subject becomes "New remote jobs" and the rest of the configuration is kept; a given sender is used, else the SMTP client |
| Email.BuildBody | internal/notifier/email.go:89-96 | the loop builds the listing body |
| Email.BodyLines | internal/notifier/email.go:89-96 | the body's lines are the header line and one line per job, in order |
| Email.BodyListsJobs | internal/notifier/email.go:89-96 | every job's line appears in the body |
| Email.ListingLines | internal/notifier/email.go:91-95 | the listing's lines are exactly the job lines |
| Email.EmailDataLines | internal/notifier/email.go:98-106 | the message data's lines are the header lines, a blank CR line, then the body's lines |
| Email.HeaderLinesClean | internal/notifier/email.go:98-106 | no header line contains a line feed |
| Email.Notify | internal/notifier/email.go:74-87 | no jobs means no message; otherwise exactly one message with the configured addresses and subject and the listing body, and its send result is returned |
| Dispatch.TruthyString | internal/notifier/subscription.go:108-119 | a string tag value is truthy exactly when it reads `true` ignoring case and surrounding space |
| Dispatch.MatchesMonotone | internal/notifier/subscription.go:90-106 | a job matching a subscription's tags matches any subset of them |
| Dispatch.FalsyTagIgnored | internal/notifier/subscription.go:90-106 | a tag with a falsy value does not restrict the match |
| Dispatch.FalsyTagsOnly | internal/notifier/subscription.go:90-106 | with only falsy tags a job matches exactly when it has normalized tags |
| Dispatch.FilteredSpec | internal/notifier/subscription.go:77-88 | the filter keeps exactly the matching jobs |
| Dispatch.FilteredConcat | internal/notifier/subscription.go:77-88 | filtering distributes over concatenation, so order is kept |
| Dispatch.FilteredAll | internal/notifier/subscription.go:77-88 | a subscription without tags receives every job, in order |
| Dispatch.FilterJobs | internal/notifier/subscription.go:77-88 | the loop computes the filter |
| Dispatch.MessageFor | internal/notifier/subscription.go:56-72 | a subscriber's message goes to that subscriber, from the configured sender, with a non-empty subject and the listing of the matches |
| Dispatch.DueAddressed | internal/notifier/subscription.go:56-72 | every due message goes to a subscriber with matches and lists that subscriber's matches |
| Dispatch.DueComplete | internal/notifier/subscription.go:56-72 | every subscriber with matches is due a message |
| Dispatch.SendAllSpec | internal/notifier/subscription.go:56-74 | with no failure every due message is sent; a failure ends sending after a prefix of the due messages, of which it is the last |
| Dispatch.SendAllStopsAtFailure | internal/notifier/subscription.go:56-74 | every message before the last one sent succeeded, and the error is the last message's failure |
| Dispatch.NotifyShortcuts | internal/notifier/subscription.go:41-54 | no jobs or no subscription source does nothing; no subscribers hands the jobs to the fallback notifier if there is one |
| Dispatch.NotifySubscriber | internal/notifier/subscription.go:57-71 | a subscriber without matches is skipped; otherwise one message is sent and its result returned |
| Dispatch.Notify | internal/notifier/subscription.go:40-75 | the notifier sends, falls back and fails as the specification says |
| Subscriptions.ChannelsOfSpec | internal/subscription/service.go:41-49 | the channel table holds exactly the non-blank configured channels, trimmed and lower-cased by the model's case fold (see Strs.Lower under Left out) |
| Subscriptions.AllowedChannelsSpec | internal/subscription/service.go:41-49 | the allowed channels are never empty and never blank, and they are `email` when no channel is configured |
| Subscriptions.NewService | internal/subscription/service.go:40-57 | the service holds the channel table, the tag lookup of the candidates, the address check and the store |
| Subscriptions.CollectChannels | internal/subscription/service.go:41-49 | the loop builds the channel table |
| Subscriptions.CollectTagLookup | internal/subscription/service.go:50-55 | the loop builds the same tag lookup as the processor's |
| Subscriptions.TagStep | internal/subscription/service.go:78-90 | one tag is accepted exactly when it is blank, the lookup is empty, or the lookup knows it; an unknown tag is an error naming it |
| Subscriptions.AllKnownSpec | internal/subscription/service.go:77-91 | all tags are known exactly when each one is |
| Subscriptions.TagsFromOutcome | internal/subscription/service.go:77-91 | the tag loop succeeds exactly when all tags are known, and otherwise fails on the first unknown tag |
| Subscriptions.TagsFromHas | internal/subscription/service.go:77-91 | every non-blank tag is stored under its canonical spelling |
| Subscriptions.TagsFromOnly | internal/subscription/service.go:77-91 | every stored tag is the canonical spelling of a non-blank request tag |
| Subscriptions.CanonicalIsCandidate | internal/subscription/service.go:84-89 | a known tag's canonical spelling is a trimmed candidate with the same key, lower-cased by the model's case fold (see Strs.Lower under Left out) |
| Subscriptions.ValidateErrors | internal/subscription/service.go:60-91 | a blank e-mail, a bad address, an unsupported channel and the first unknown tag are reported in that order, and a request is valid exactly when none applies |
| Subscriptions.NoCandidatesAcceptsAnyTag | internal/subscription/service.go:84-89 | with no tag candidates no tag is refused |
| Subscriptions.ValidateResult | internal/subscription/service.go:93-100 | a valid request yields the trimmed e-mail, the normalized allowed channel and exactly the canonical tags, each true |
| Subscriptions.CandidateSpellings | internal/subscription/service.go:84-89 | with candidates configured every stored tag is spelled like a candidate |
| Subscriptions.CreateStores | internal/subscription/service.go:60-102 | validation errors are returned unchanged; otherwise the subscription is stored and a store error is returned as such |
| Subscriptions.CanonicalNames | internal/subscription/service.go:77-91 | the tag loop returns the specified canonical names or the first unknown tag |
| Subscriptions.Create | internal/subscription/service.go:60-102 | create returns the specified result, and hands the store the subscription exactly when validation succeeds |
| Api.ParseLimit | internal/api/server.go:61-69 | the limit is 1..100 and 20 when the parameter is not a number |
| Api.ParseLimitItoa | internal/api/server.go:61-69 | a limit 1..100 is kept, a larger one becomes 100, and a non-positive one is the default |
| Api.ParsePage | internal/api/server.go:70-75 | the page is positive and 1 when the parameter is not a number |
| Api.ParsePageItoa | internal/api/server.go:70-75 | a positive page is kept, and a non-positive one is 1 |
| Api.Offset | internal/api/server.go:76 | the offset, computed without 64-bit wrap-around, is never negative and every page after the first starts at least one page in |
| Api.OffsetAdvances | internal/api/server.go:76 | each page starts exactly one limit after the previous one, without 64-bit wrap-around |
| Api.OffsetWrapsToFirstPage | internal/api/server.go:76 | the source's 64-bit offset for page 2^62+1 with limit 20 wraps to 0, the first page's offset |
| Api.OffsetAsWrittenAgrees | internal/api/server.go:76 | for offsets that fit in 64 bits the source's and the corrected offsets agree |
| Api.WindowSpec | internal/api/server.go:76-83 | the store is asked for one row more than the limit, at the page's offset computed without 64-bit wrap-around |
| Api.ListJobs | internal/api/server.go:79-101 | the reply is 200 or 500, for the offset computed without 64-bit wrap-around |
| Api.ListJobsSpec | internal/api/server.go:79-101 | a store error is a 500 with an error body and no headers; otherwise 200 with at most a page of jobs, has-more when the extra row came back, and the total count; the offset is computed without 64-bit wrap-around |
| Api.ListJobsPage | internal/api/server.go:61-101 | on a store that lists correctly the reply is the page's slice of all matching jobs, has-more exactly when jobs remain, and the total; the offset is computed without 64-bit wrap-around |
| Api.ListPageOf | internal/api/server.go:76-101 | the same for a page and limit already parsed, without 64-bit wrap-around |
| Api.ConsecutivePagesTile | internal/api/server.go:76-101 | consecutive pages leave no gap and no overlap, without 64-bit wrap-around |
| Api.Refresh | internal/api/server.go:104-115 | only POST runs a cycle; other methods are 405; success is 200 with the created count, and failure is 500 with the error |
| Api.Subscribe | internal/api/server.go:125-144 | only POST is accepted (405); no service is 503; a malformed payload or a service error is 400; success is 201 |
| Api.SubscribeStatuses | internal/api/server.go:125-144 | the reply is one of 201, 400, 405 and 503, and 201 only when the service was called |
| Server.PiecesSpec | cmd/server.go:296-303 | the pieces of one value are the non-empty trimmed comma-separated parts |
| Server.TagSetSpec | cmd/server.go:291-320 | the tags collected are the pieces of all `tag` and `tags` values |
| Server.TagSetClean | cmd/server.go:296-303 | every collected tag is non-empty, trimmed and free of commas |
| Server.JoinedTagsRoundTrip | cmd/server.go:291-320 | collecting a comma-joined list of clean tags gives back the list's set |
| Server.CollectTags | cmd/server.go:291-320 | the collected list holds exactly the tag set, without duplicates |
| Server.BuildJobQuery | cmd/server.go:279-289 | the query carries the limit and offset and exactly the collected tags, without duplicates, and no tags without a request |
| Server.FilterIgnoresOrder | cmd/server.go:279-289 | the job filter depends only on the set of tags, not on their order |
| Server.SelectNotifier | cmd/server.go:207-222 | a notifier exists exactly when the driver is empty or `email` and host and sender are set, and it is the subscription notifier with that configuration |
| Server.SelectNotifierDrivers | cmd/server.go:207-222 | the driver is compared trimmed and lower-cased by the model's case fold (see Strs.Lower under Left out), and `none`, `off` and `disabled` disable notifications |
| Server.DottedCapitalSelectsEmail | cmd/server.go:207-222 | the driver ` EMAİL ` selects the e-mail notifier, as in Go |
| Server.RunOnceManual | cmd/server.go:170-179 | a build error is reported wrapped and no cycle runs; otherwise the cycle's count and error are returned; cleanup runs exactly when the build provided one |
| Server.RunOnceManualBuildError | cmd/server.go:170-179 | a build error's report does not depend on the cycle and is longer than the build error |

## Left out

- Decoding the page HTML and its embedded JSON is not modelled. The model starts from the decoded structure, and a page load (`Env.load`) returns either decoded posts or an error.
- The network, SMTP and the clock are parameters. So are RFC 3339 time parsing and time-zone conversion; the civil calendar is modelled in UTC.
- Concurrency is not modelled: the tickers, `Start`, `startCron`, `runServer`, shutdown and the per-run timeout context. The running flag is a plain field, so its atomic compare-and-swap is not captured.
- Logging and trace printing are not modelled; they have no effect on results.
- `main`, `loadConfig`, `buildApp`, `resolveDeepseekConfig`, `NewSMTPClient`, `storeAdapter` and `subscriptionAdapter` are not modelled. They are wiring around the modelled parts.
- The HTTP API's static files, `/health`, `/api/meta`, JSON writing and header formatting are not modelled.
- Storage: SQL errors other than not-found are not modelled. Neither are `GetJob`, `CreateSubscription`, `ListSubscriptions` and `Close`.
- Dispatch.Notify: the subscription store is a function parameter, and its failure is an error result.
- Subscriptions.ValidateErrors: the address check of the mail parser is an abstract predicate, and the parser's own error text is not modelled.
- Subscriptions.Create: the tag map is built from the set of canonical names, which gives the same map as the source's map assignments.
- Server.CollectTags: Go map iteration order is unspecified, so only the set of tags and their distinctness are stated, not their order.
- Strs.Lower: follows Go's `unicode.ToLower` on ASCII, Latin-1, Latin Extended-A, the basic Greek and Cyrillic capitals, the full-width Latin capitals and the Ohm, Kelvin and Angstrom signs. Capitals of other blocks (Latin Extended-B and Additional, the rest of Cyrillic, Armenian, Georgian, Cherokee, Deseret, …) are kept as they are, although Go lowers them. So for tags, keywords, channels and drivers written with such capitals, the members below are weaker than the source.
- Processor.TagLookupComplete: keys are lower-cased by Strs.Lower, so the lookup agrees with Go only for candidates whose capitals Strs.Lower covers.
- Processor.TagLookupSound: the same limit as Processor.TagLookupComplete.
- Processor.TagLookupValues: "its lower case" is Strs.Lower, with the same limit.
- Processor.KeywordOccurrencePasses: the case-insensitive pass holds for the capitals Strs.Lower covers; a text and keyword that differ only in other capitals pass in Go and not in the model.
- Processor.NormalizedOfSpec: a model tag is matched through Strs.Lower, so a tag written with other capitals is dropped where Go would canonicalise it.
- Subscriptions.ChannelsOfSpec: channel names are lower-cased by Strs.Lower, with the same limit.
- Subscriptions.CanonicalIsCandidate: the shared key is the Strs.Lower key, with the same limit.
- Server.SelectNotifierDrivers: the driver is lower-cased by Strs.Lower, with the same limit.
- Storage.RawsWithStatusAscending: the source orders raw jobs by `created_at ASC`; the model orders them by row id, which is assigned in creation order. Rows created in one upsert batch can share a `created_at`, and the source leaves their relative order open, where the model fixes it.
- Storage.Store.ListRawJobsSpec: the same stand-in of row id for creation order as Storage.RawsWithStatusAscending.
- Storage.Store.ListJobsPagesTile: the model sorts jobs with equal publication times in row order, a fixed order. The source's `ORDER BY published_at DESC` leaves ties unordered, and two separate `LIMIT` queries need not order them alike. So the source promises the tiling only when publication times are distinct.
- Cron.AddSteps: models the intended step arithmetic, without 64-bit wrap-around. The wrap the source can hit is Cron.StepOverflow.
- Cron.ParseCronField: steps are taken without 64-bit wrap-around, as for Cron.AddSteps.
- Cron.FieldInRange: holds for the field parser without wrap-around. The source as written can add -2^63 and -1 to a field with minimum 1 (Cron.StepOverflow).
- Cron.StepField: steps are taken without 64-bit wrap-around, as for Cron.AddSteps.
- Cron.ParseCronSpecRanges: steps are taken without 64-bit wrap-around, as for Cron.FieldInRange.
- Api.Offset: models the intended `(page - 1) * limit` without 64-bit wrap-around. The source's wrapping offset is Api.OffsetAsWritten, and Api.OffsetWrapsToFirstPage shows where the two differ.
- Api.OffsetAdvances: states the offset without wrap-around, as for Api.Offset.
- Api.WindowSpec: the window starts at the offset without wrap-around, as for Api.Offset.
- Api.ListJobs: uses the offset without wrap-around, as for Api.Offset.
- Api.ListJobsSpec: uses the offset without wrap-around, as for Api.Offset.
- Api.ListJobsPage: uses the offset without wrap-around, as for Api.Offset.
- Api.ListPageOf: uses the offset without wrap-around, as for Api.Offset.
- Api.ConsecutivePagesTile: uses the offset without wrap-around, as for Api.Offset.
- Cron.StepOverflow: the source's wrapping loop is modelled with a fuel bound of a few iterations, enough to show the values it adds.

## Findings

| source | as written | input that shows it | evidently intended | confidence | as-written member | corrected member |
|---|---|---|---|---|---|---|
| internal/scheduler/cron.go:328-330 | the `*/n` loop `i += step` is 64-bit, so a huge step wraps negative: with step 2^63-1 and minimum 1 the loop adds -2^63 and -1, then stops at 2^63-2 (a field with minimum 0 gets no extra value). Day and month never fall below 1, so the extra values never change a match; they only break the promise that a parsed field lies within its range | field `*/9223372036854775807` with min 1 and max 31 | only the values min, min+n, … up to max | not executed | Cron.StepOverflow | Cron.StepLargeCorrected |
| internal/api/server.go:76 | `(page - 1) * limit` is 64-bit and wraps | `page=4611686018427387905` with limit 20 | an offset past the end, so an empty page, not the first page again | not executed | Api.OffsetWrapsToFirstPage | Api.OffsetAdvances |
