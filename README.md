# HR dashboard: employee store, pagination, analytics and search filter

A Dafny model of the logic underneath the HR employee-performance dashboard. It does not cover rendering. It models two parts:

- **The employee store** (`lib/data.ts`, module `Data` in `data.dfy`):
  - the fixed ten-department table and the feedback and bio phrase tables;
  - `paginateEmployees`, which cuts a page out of a list and reports the page metadata;
  - `generateAnalyticsData`, which gives one count-and-average entry per department;
  - the module-level `cachedEmployees` array, modelled as the class `EmployeeStore`. Its two methods are `fetchEmployees` and `createEmployee`. `fetchEmployees` returns the cache when it is non-empty. Otherwise, when the read succeeds, it fills the cache from the upstream users; when the read fails, it returns `[]` and leaves the cache empty. Each call is treated as one uninterrupted step. `createEmployee` appends a new record with id `max + 1`.
- **The search-and-filter panel** (`components/search-filter.tsx`, module `SearchFilter` in `search_filter.dfy`):
  - `applyFilters` combines three filters with AND: text search, department selection and rating selection;
  - the selection state is the class `FilterState`, with the toggle, clear and search-term handlers;
  - the department option list, and the "active filters" flag and badge count.

Helper modules:
- `Types` (`types.dfy`) holds the records of `lib/types.ts`.
- `Text` (`text.dfy`) holds ASCII lower-casing and JavaScript's `String.includes`.
- `Seqs` (`seqs.dfy`) holds subsequences, duplicate-freedom and first-occurrence positions.

How the model represents the source:
- The average rating is kept in integer tenths. `RoundedAverageTenths(sum, count) = (20*sum + count) / (2*count)` is `floor(10*sum/count + 1/2)`, which is what `Math.round(avg * 10)` computes.
- The network read and `Math.random` in `fetchEmployees` are parameters:
  - a `FetchResponse` is either `FetchFailed` or the list of upstream users;
  - one `Draws` value per user holds the indices that `Math.floor(Math.random() * n)` produced.
- Each filter stage is a `Stage` value. `Sift(employees, stages)` is the single-pass filter that keeps the employees passing every stage.

Two edge cases follow the code as written:
- `totalPages` is `Math.ceil(length / itemsPerPage)` (`lib/data.ts:91`). That is 0 for an empty list; the code does not raise it to a minimum of 1.
- `createEmployee` does not guard an empty store (`lib/data.ts:100`). `Math.max()` of no ids is `-Infinity`, which has no integer counterpart. The model therefore requires a non-empty store.

## Model

| member | source | states |
|---|---|---|
| `Data.DepartmentsDistinct` | lib/data.ts:3-14 | The department table has ten names, none repeated |
| `Data.CeilDiv` | lib/data.ts:91 | The page count is the least n with length <= n * itemsPerPage (the ceiling; 0 for an empty list) |
| `Data.PaginateEmployees` | lib/data.ts:80-97 | The page has at most itemsPerPage elements. Element i is `employees[(page-1)*k + i]`. The page is empty exactly when the start is past the end. currentPage, totalItems and itemsPerPage are the inputs; totalPages is the ceiling of length/k |
| `Data.DefaultPageSizeExample` | lib/data.ts:80-97 | 20 employees at the default size 9: page 3 is indices 18-19, and totalPages is 3 |
| `Data.PagesUpToPrefix` | lib/data.ts:85-87 | Pages 1..n concatenated are exactly the first min(n*k, length) employees |
| `Data.PagesReconstructList` | lib/data.ts:85-91 | Pages 1..totalPages concatenated give back the input list exactly, in order, with nothing lost or repeated |
| `Data.PageNonEmptyIff` | lib/data.ts:85-91 | A page is non-empty if and only if its number is at most totalPages |
| `Data.DepartmentMembers` | lib/data.ts:137 | The members are exactly the employees whose department equals the name, kept in their original order; `Data.MembersCounts` adds that every copy is kept |
| `Data.MembersCounts` | lib/data.ts:137 | Like `Array.filter`, the member list keeps every copy: an employee of the department occurs in it as often as in the input, any other employee not at all |
| `Data.MembersCount` | lib/data.ts:137 | A department's member count equals the independent per-employee count of employees in that one department |
| `Data.RatingSumReduce` | lib/data.ts:140 | The rating sum folds from the left like `reduce`: adding an employee at the end adds its rating |
| `Data.StatFor` | lib/data.ts:136-148 | A department's entry before filtering carries its own name and the independent count of its employees, and an average of 0 when it has none |
| `Data.RoundedAverageTenths` | lib/data.ts:138-146 | The result is the mean in tenths, rounded to the nearest integer with halves going up |
| `Data.DepartmentStatsOver` | lib/data.ts:135-149 | Every entry has a positive count, is named after a listed department, and carries that department's own count and average |
| `Data.GenerateAnalyticsData` | lib/data.ts:134-152 | Every entry names a department of the table, has a positive count, and that count is the number of employees in the department |
| `Data.StatsPresence` | lib/data.ts:135-149 | A listed department has an entry if and only if it has members |
| `Data.StatsOrder` | lib/data.ts:135-149 | Entry names follow the department list's order and repeat no name when the list has none |
| `Data.StatCountsSum` | lib/data.ts:135-149 | Given distinct department names, the entry counts add up to the number of employees in those departments |
| `Data.AnalyticsSummary` | lib/data.ts:134-152 | generateAnalyticsData follows the table order and repeats no department. Each count is the positive number of exact-name members. The counts sum to the employees whose department is in the table |
| `Data.RatingSumBounds` | lib/data.ts:140 | If every rating lies in [lo, hi], the rating sum lies in [lo*n, hi*n] |
| `Data.RoundedAverageBounds` | lib/data.ts:138-146 | If lo*count <= sum <= hi*count, the rounded average in tenths lies in [10*lo, 10*hi] |
| `Data.StatAverageWithin` | lib/data.ts:137-146 | A department's average in tenths lies between 10 times any lower bound and 10 times any upper bound of its members' ratings, for example their minimum and maximum |
| `Data.MaxId` | lib/data.ts:100 | The maximum id of a non-empty store is one of its ids and at least every id |
| `Data.NewEmployee` | lib/data.ts:102-128 | The new record takes the given id and carries every form field unchanged. Performance is rating 3, 0 projects, no feedback. Address and company name are the fixed placeholders; the image is the avatar URL seeded by first and last name |
| `Data.AppendFreshIdKeepsUnique` | lib/data.ts:100-131 | Appending a record whose id is above every existing id keeps the store's ids distinct |
| `Data.OrDefault` | lib/data.ts:58-59 | `x \|\| fallback`: a present, non-empty company name or title is kept; a missing or empty one becomes the fallback |
| `Data.FromUpstream` | lib/data.ts:48-71 | A generated record has a department from the table, a rating in 1..5, projects in 1..10, and 1-3 feedback entries all taken from the templates. Its bio is one of the bio templates. Id, names, email, age, phone, address and image are copied from the upstream user. Company name and title are the upstream values, or `TechCorp Inc.` / `Employee` when missing or empty |
| `Data.GenerateEmployees` | lib/data.ts:48-71 | One record per upstream user, in order, keeping the upstream id, names, email, age, phone, address and image. Company name and title fall back to `TechCorp Inc.` / `Employee` through `OrDefault`, and every synthesised field is in range |
| `Data.EmployeeStore.constructor` | lib/data.ts:37 | The store starts empty |
| `Data.EmployeeStore.FetchEmployees` | lib/data.ts:39-78 | A non-empty cache is returned unchanged without a read. Otherwise a failed read returns no employees and leaves the cache empty, and a successful one fills the cache with the generated records and returns them |
| `Data.EmployeeStore.CreateEmployee` | lib/data.ts:99-132 | Returns the record built with id max+1, which is above every earlier id. Appends exactly that record at the end, leaves earlier records as they were, and keeps distinct ids distinct |
| `Text.LowerChar` | components/search-filter.tsx:33-36 | Upper-case ASCII letters map to lower case; every other character is kept |
| `Text.ToLower` | components/search-filter.tsx:33-36 | Same length, each character lower-cased, and no upper-case ASCII letter left |
| `Text.ToLowerIdempotent` | components/search-filter.tsx:33-36 | Lower-casing an already lower-cased string changes nothing |
| `Text.Includes` | components/search-filter.tsx:33-36 | An empty term is found in every string, and a found term is no longer than the string |
| `Text.IncludesIff` | components/search-filter.tsx:33-36 | `includes` holds exactly when the term occurs at some position of the string |
| `SearchFilter.Sift` | components/search-filter.tsx:26-48 | The result is an order-preserving subsequence of the input holding exactly the employees that pass every stage; `SearchFilter.SiftCounts` adds that every copy of a passing employee is kept |
| `SearchFilter.SiftCounts` | components/search-filter.tsx:30-48 | Like `Array.filter`, every copy of a passing employee is kept: it occurs in the result as often as in the input, and a failing one not at all |
| `SearchFilter.MatchesSearchOccurs` | components/search-filter.tsx:30-38 | The search matches exactly when the lower-cased term occurs at some position of the lower-cased first name, last name, email or department |
| `SearchFilter.PassesCriteria` | components/search-filter.tsx:30-48 | An employee passes the combined filter if and only if three tests hold: the term is empty or matches, no department is selected or its department is, and no rating is selected or its rating is |
| `SearchFilter.SiftCompose` | components/search-filter.tsx:30-48 | Filtering by one group of stages and then another is the same as filtering once by both |
| `SearchFilter.SiftSameStages` | components/search-filter.tsx:30-48 | Only which stages are applied matters, not their order or repetition |
| `SearchFilter.SiftIdempotent` | components/search-filter.tsx:30-48 | Filtering the output again with the same criteria returns the same output |
| `SearchFilter.SiftInactive` | components/search-filter.tsx:30-46 | A stage that is switched off (empty term or empty selection) leaves the list unchanged |
| `SearchFilter.NoCriteriaKeepsAll` | components/search-filter.tsx:26-28 | With an empty term and empty selections the result is the input list |
| `SearchFilter.StageOrderIrrelevant` | components/search-filter.tsx:30-48 | Running the three stages one after another, in any of the six orders, gives the combined filter |
| `SearchFilter.SearchIgnoresTermCase` | components/search-filter.tsx:33-36 | Whether the search matches does not change if the term is lower-cased first |
| `SearchFilter.EngFindsEngineering` | components/search-filter.tsx:33-36 | The term "eng" (or "ENG") matches every Engineering employee through the department field alone |
| `SearchFilter.Without` | components/search-filter.tsx:62 | Removing a value keeps every other element, in order, and drops all copies of that value |
| `SearchFilter.WithoutCounts` | components/search-filter.tsx:62 | Every copy of the removed value is dropped and every other value keeps its number of copies |
| `SearchFilter.Toggle` | components/search-filter.tsx:60-68 | The toggled value is in the result exactly when it was not in the input; every other value is in the result exactly when it was in the input |
| `SearchFilter.ToggleShape` | components/search-filter.tsx:60-68 | Selecting a new value appends it after the earlier selections (`[...prev, v]`); unselecting one shortens the list and keeps the rest in order |
| `SearchFilter.ToggleKeepsNoDuplicates` | components/search-filter.tsx:60-68 | Toggling never introduces a duplicate into a duplicate-free selection |
| `SearchFilter.ToggleTwiceRestores` | components/search-filter.tsx:60-68 | Toggling an unselected value twice restores the original list exactly |
| `SearchFilter.Distinct` | components/search-filter.tsx:23 | No duplicates, the same values as the input, in order of first appearance |
| `SearchFilter.DepartmentOptions` | components/search-filter.tsx:23 | The options contain each employee department exactly once, in order of first appearance |
| `SearchFilter.FilterState.constructor` | components/search-filter.tsx:19-21 | The search term and both selections start empty |
| `SearchFilter.FilterState.SetSearchTerm` | components/search-filter.tsx:85 | The term is replaced and the selections are unchanged |
| `SearchFilter.FilterState.ToggleDepartment` | components/search-filter.tsx:60-64 | The department selection is toggled, keeps no duplicates if it had none, and the other fields are unchanged |
| `SearchFilter.FilterState.ToggleRating` | components/search-filter.tsx:66-68 | The rating selection is toggled, keeps no duplicates if it had none, and the other fields are unchanged |
| `SearchFilter.FilterState.ClearFilters` | components/search-filter.tsx:53-58 | All three selections are emptied and the full list is handed back, which equals the filter of the cleared state |
| `SearchFilter.FilterState.ApplyFilters` | components/search-filter.tsx:26-51 | The three stages, each skipped when off, give the combined filter: an order-preserving subsequence holding exactly the employees that pass all three tests |
| `SearchFilter.FilterState.HasActiveFilters` | components/search-filter.tsx:75 | When no filter is active, the combined filter hands back every list unchanged |
| `SearchFilter.FilterState.BadgeCount` | components/search-filter.tsx:75-99 | The badge count is zero exactly when no filter is active, and is at least the number of selected departments plus selected ratings |

## Left out

- The network read, JSON parsing and `console.error` in `fetchEmployees` (`lib/data.ts:45-47, 74-75`): every failure is one `FetchFailed` value. The model does not distinguish a fetch error from a malformed body.
- `Math.random` (`lib/data.ts:57-70`): its results are `Draws` index parameters. `ValidDraws` states the ranges `Math.floor(Math.random() * n)` can produce. Uniformity is not modelled.
- `Data.EmployeeStore.FetchEmployees`: the source returns the cache array itself, so later pushes show through earlier results. The model returns a sequence value, so this aliasing is not captured.
- `Data.EmployeeStore.FetchEmployees`: each call is modelled as one uninterrupted step. In the source a call waits on the network twice (`lib/data.ts:45-46`) between the cache check and the fill, so overlapping calls are not captured. Two calls that overlap can both see an empty cache and both fetch; the later fill then replaces the earlier one, and a caller can hold an array that `createEmployee` never pushes into. A call that fails after another has filled the cache returns `[]` while the cache is non-empty, a state the model's contract rules out.
- `Data.EmployeeStore.CreateEmployee`: requires a non-empty store. On an empty store the source makes a record whose id is `-Infinity`, which integers cannot represent.
- `Data.RoundedAverageTenths`: the average is returned in integer tenths (43 for 4.3) instead of the float `Math.round(avg * 10) / 10`. The floating-point operations themselves are not modelled.
- `Data.PaginateEmployees`: requires `page >= 1` and `itemsPerPage >= 1`. A negative `slice` start counts from the end of the list, and a page size of 0 divides by zero. The dashboard never passes either.
- `Text.ToLower` and `Text.Includes`: ASCII case folding only. Unicode `toLowerCase` is not modelled.
- React plumbing: the `useEffect` that re-runs `applyFilters` on every change of the search term or either selection (`components/search-filter.tsx:71-73`) and the `onFilter` callback. The model returns the filtered list instead. Rendering of badges and buttons is also left out.
- The `ratings` option list `[1, 2, 3, 4, 5]` (`components/search-filter.tsx:24`) only feeds rendering.
- The pages and components `app/*.tsx`, `components/employee-card.tsx` and `components/create-employee-modal.tsx`: rendering, timers, charts and `alert` actions. The form's zod validation is also left out.
- The page component prepends a new employee (`app/page.tsx:67`); the store appends. Only the store's behaviour is modelled.
- `lib/auth-context.tsx`: `localStorage` persistence and the hard-coded mock password check.
