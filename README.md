# Job board: search, moderation and posting form

A Dafny model of the logic in a React job-listing site whose pages work over
in-memory mock data:

- **Home page search** (`Listing`, src/pages/Index.tsx). The listed jobs are
  filtered by three tests together. The first is a case-insensitive
  substring search over title, company and every skill. The second is an
  optional exact location. The third is an optional exact employment type.
  The model proves the filter sound and complete and shows that it keeps
  order. It also proves that an empty query shows everything, that the
  filter is idempotent, that the term's case does not matter and that a
  skill match alone is enough.
- **Admin dashboard** (`Admin`, src/pages/Admin.tsx). A `Dashboard` class
  holds the loaded stats, the job list and the search-box text. Its
  approve, reject and delete handlers replace the list. They are specified
  by the functions `WithStatus` (a `map`) and `WithoutJob` (a `filter`),
  and lemmas about those functions cover length, order, the unchanged
  fields, absent ids and idempotence. The model also covers the
  title/company search, the pie-chart values and the five-job recent panel.
- **Posting form** (`PostJob`, src/pages/PostJob.tsx). A `JobForm` class
  holds the eleven fields, the skill list and the skill being typed. Its
  invariant is that skills are distinct, non-empty and have no whitespace
  at either end.
  Adding a skill, removing one, editing a field and submitting are
  methods. Submitting validates four required fields and then resets the
  form.
- Shared helpers. `Seqs` holds `filter` and `map` with the stable-selection
  fact: the result is the input at increasing indices, and those indices
  are exactly the passing ones. `Text` holds `toLowerCase`, `trim` and
  `includes`.

Points to note about the code's behaviour:

- Approve and reject set the status unconditionally. Nothing rejects a
  transition out of `active` or `rejected`. The "pending only" rule exists
  only in which buttons are rendered (src/pages/Admin.tsx:352).
- Submit tests required fields with JavaScript truthiness (`!value`), so a
  field holding only spaces passes. Nothing is trimmed there.
- The dashboard stats are loaded alongside the list and never recomputed
  from it. So the pie values come from the stats, not from counting
  statuses, and no approve/reject changes them.
- Submit creates no record. It assigns no id or status and leaves the text
  in the skill box as it was.

## Model

| member | source | states |
|---|---|---|
| Listing.FilteredJobs | src/pages/Index.tsx:96-104 | every listed job is one of the input jobs and passes the search, the exact location test (when a location is chosen) and the exact type test (when a type is chosen); every input job that passes all three is listed; the result is never longer than the input |
| Listing.FilteredJobsInOrder | src/pages/Index.tsx:96-104 | the result is the input at strictly increasing indices, and those indices are exactly the positions of matching jobs (order and multiplicity kept) |
| Listing.EmptyQueryShowsAll | src/pages/Index.tsx:97-101 | with empty search term, location and type, the result is the whole input in order |
| Listing.FilteredJobsIdempotent | src/pages/Index.tsx:96-104 | filtering the result again with the same query returns it unchanged |
| Listing.SkillMatchSuffices | src/pages/Index.tsx:99 | a job whose skill contains the term (lower-cased) and that passes location and type is listed, whatever its title and company |
| Listing.SearchIgnoresCase | src/pages/Index.tsx:97-99 | two search terms with the same lower-case form give the same result |
| Listing.ReactNotInTitle | src/pages/Index.tsx:97 | for the sample posting "Backend Developer", the title does not contain "react" |
| Listing.ReactNotInCompany | src/pages/Index.tsx:98 | the sample posting's company does not contain "react" either |
| Listing.ReactFoundBySkill | src/pages/Index.tsx:99 | the search "react" still returns the sample posting, through its skill "React" |
| Text.ToLower | src/pages/Index.tsx:97 | `toLowerCase` keeps the length, maps each character by `LowerChar` and leaves no modelled capital |
| Text.ToLowerIdempotent | src/pages/Index.tsx:97 | lower-casing twice equals lower-casing once |
| Text.IncludesIff | src/pages/Index.tsx:97 | `includes(s, t)` holds exactly when `t` occurs as a block of `s` at some index (so the empty term is included everywhere) |
| Text.MissingCharNotIncluded | src/pages/Index.tsx:97 | a string lacking one of the term's characters does not include the term |
| Text.Trim | src/pages/PostJob.tsx:42 | `trim` returns the input with its leading and trailing whitespace removed: a block `s[a..b]` of the input, with only whitespace before `a` and from `b` on, no whitespace at either end of the result, and empty exactly when the input is all whitespace |
| Text.TrimStrips | src/pages/PostJob.tsx:42 | dropping leading and then trailing whitespace keeps exactly the block between the two whitespace runs |
| Text.TrimmedIsFixed | src/pages/PostJob.tsx:42-43 | a string with no whitespace at either end is left as it is by `trim` |
| Text.TrimIdempotent | src/pages/PostJob.tsx:42-43 | trimming twice equals trimming once |
| Seqs.Filter | src/pages/Index.tsx:96 | `filter` keeps only passing elements of the input and keeps every passing one |
| Seqs.FilterSelects | src/pages/Index.tsx:96 | `filter` is a stable selection: the input at increasing indices, exactly the passing ones |
| Seqs.Map | src/pages/Admin.tsx:145 | `map` keeps the length and applies the function at every index |
| Admin.PieData | src/pages/Admin.tsx:138-142 | Active and Pending slices are the stats' values, the three slices sum to `totalJobs`, and Rejected is non-negative exactly when active + pending does not exceed the total |
| Admin.WithStatus | src/pages/Admin.tsx:144-162 | the list keeps its length and order; each job keeps every field but the status; jobs with the id get the new status whatever they had, all others keep theirs |
| Admin.WithStatusAbsent | src/pages/Admin.tsx:145-147 | approving or rejecting an id that is not listed leaves the list unchanged |
| Admin.WithStatusIdempotent | src/pages/Admin.tsx:145-147 | applying the same status change twice is the same as once |
| Admin.WithoutJob | src/pages/Admin.tsx:164-170 | after delete no job has the id, and every job with another id remains |
| Admin.WithoutJobInOrder | src/pages/Admin.tsx:165 | the remaining jobs are the input at increasing indices, exactly the non-matching ones |
| Admin.WithoutJobAbsent | src/pages/Admin.tsx:165 | deleting an id that is not listed leaves the list unchanged |
| Admin.SearchJobs | src/pages/Admin.tsx:172-175 | the listed jobs are exactly the input jobs whose lower-cased title or company contains the lower-cased term (skills are not consulted) |
| Admin.SearchJobsInOrder | src/pages/Admin.tsx:172-175 | the admin search keeps the input order, exactly the matching positions |
| Admin.EmptySearchListsAll | src/pages/Admin.tsx:172-175 | an empty search box lists every job in order |
| Admin.RecentJobs | src/pages/Admin.tsx:282 | the recent panel is a prefix of the list of length min(5, length) |
| Admin.Dashboard.constructor | src/pages/Admin.tsx:125-126 | the dashboard holds the stats and jobs that the mount effect installs, and the search box is empty |
| Admin.Dashboard.Approve | src/pages/Admin.tsx:144-152 | the new list is `WithStatus(old list, id, Active)`; stats and search text are unchanged |
| Admin.Dashboard.Reject | src/pages/Admin.tsx:154-162 | the new list is `WithStatus(old list, id, Rejected)`; stats and search text are unchanged |
| Admin.Dashboard.Delete | src/pages/Admin.tsx:164-170 | the new list is `WithoutJob(old list, id)`; stats and search text are unchanged |
| Admin.Dashboard.SetSearchTerm | src/pages/Admin.tsx:310 | only the search text changes |
| PostJob.FormData.With | src/pages/PostJob.tsx:34-39 | the updated field holds the new value and every other field is unchanged |
| PostJob.BlankForm | src/pages/PostJob.tsx:18-30 | every field of the initial form is empty |
| PostJob.HasRequiredFieldsIff | src/pages/PostJob.tsx:56 | validation passes exactly when none of title, company, location, description is empty |
| PostJob.WhitespaceOnlyAccepted | src/pages/PostJob.tsx:56 | required fields holding a single space pass validation |
| PostJob.BlankFormRejected | src/pages/PostJob.tsx:74-86 | the reset form fails validation |
| PostJob.AddSkillKeepsWellFormed | src/pages/PostJob.tsx:42-43 | appending the trimmed text when the guard holds keeps skills distinct, non-empty and free of whitespace at either end |
| PostJob.WithoutSkill | src/pages/PostJob.tsx:48-50 | the removed skill is gone, every remaining entry was in the list, every other entry remains |
| PostJob.WithoutSkillInOrder | src/pages/PostJob.tsx:49 | the remaining skills keep their relative order |
| PostJob.WithoutSkillKeepsWellFormed | src/pages/PostJob.tsx:49 | removing a skill keeps the list distinct, non-empty and free of whitespace at either end |
| PostJob.AddThenRemoveRestores | src/pages/PostJob.tsx:41-50 | adding a fresh skill and then removing it gives back the previous list |
| PostJob.JobForm.constructor | src/pages/PostJob.tsx:18-32 | the form starts blank, with no skills and an empty skill box |
| PostJob.JobForm.InputChange | src/pages/PostJob.tsx:34-39 | only the named field changes, to the given value; skills and skill box unchanged |
| PostJob.JobForm.SetCurrentSkill | src/pages/PostJob.tsx:205 | only the skill box changes |
| PostJob.JobForm.AddSkill | src/pages/PostJob.tsx:41-46 | when the trimmed text is non-empty and new, it is appended and the box cleared; otherwise skills and box are unchanged; the invariant is kept |
| PostJob.JobForm.RemoveSkill | src/pages/PostJob.tsx:48-50 | the new list is `WithoutSkill(old list, skill)`; the invariant is kept |
| PostJob.JobForm.Submit | src/pages/PostJob.tsx:52-87 | accepted exactly when the required fields are non-empty; on acceptance every field is empty and skills are cleared, otherwise form and skills are unchanged; the skill box is never touched |

## Left out

- Rendering, styling, badges (`getStatusBadge`), icons and the chart widgets are presentation only.
- Toasts, `console.log`, navigation and the two-second redirect after submit are side effects. `Submit`'s `accepted` result stands in for which toast is shown.
- The mock-data loaders in the mount effects and the hard-coded monthly chart data are not modelled. `Dashboard`'s constructor takes the stats and jobs the loader installs.
- Text.ToLower: does not model full Unicode `toLowerCase`. Only ASCII `A`-`Z` and the Latin-1 capitals U+00C0-U+00DE (except U+00D7) are folded, so Vietnamese capitals such as U+0110 are left as they are.
- The whitespace `trim` removes is the fixed list in `IsWhitespace`: the ECMAScript WhiteSpace and LineTerminator code points, with the Unicode space separators of current Unicode versions. Separators added by later versions are not tracked.
- Numbers are unbounded integers, not IEEE doubles. The pie arithmetic and the job counters are exact here.
- `handleInputChange` accepts any string as a field name in the source. The page only passes the eleven form keys, which `Field` enumerates. An unknown key would add a new property, and that is not modelled.
- src/pages/JobDetail.tsx and src/components/Header.tsx are not part of this model: they hold two boolean toggles, a clipboard call and static navigation.
