# Sales-lead dashboard: stale leads and chart data

This project models the computed views of the sales-lead tracker's dashboard
and proves properties of them:

- **Stale-lead evaluator** (`app/dashboard/page.tsx`). Given the companies
  and the contact-history rows, it lists the companies that have never been
  contacted, or whose newest contact is strictly older than a cutoff. Each
  listed company carries its newest contact. The alert card shows when that
  list is non-empty.
- **Dashboard charts** (`app/dashboard/DashboardCharts.tsx`):
  - contacts per company, reduced to the five most contacted companies;
  - contacts per month name;
  - projects per status.
- **Communication-channel pie** (`components/dashboard/CommunicationChannelChart.tsx`).
  Companies are counted per channel, and an empty channel counts as "未設定"
  (not set). Each key is relabelled against the channel options, the slices
  are sorted by count, largest first, and slice *i* is coloured
  `COLORS[i % 5]`.

Every chart counts rows into a JavaScript object with
`reduce((acc, x) => { acc[k] = (acc[k] || 0) + 1; return acc }, {})` and then
reads the object back with `Object.entries`. Module `Counting` models that
object as a `Counter`. A `Counter` holds the property names in insertion
order and a map from name to count. `Counting.CountKeys` is the reduce loop,
and it is proved equal to the specification function `Tally`. `Tally` is in
turn proved to count each key's occurrences, once per distinct key, with the
counts summing to the input length. Module `ChartData` holds the
`{ name, value }` rows. It models the stable `sort((a, b) => b.value - a.value)`
as a stable descending insertion sort, and `slice(0, n)` as `Top`.

Modelling choices:

- Dates are the integers `getTime()` returns.
- The cutoff ("one month before now") is a parameter.
- The short month name of a contact date is a parameter `monthOf`.
- A nullable value used as an object key becomes the key `"null"`, as in
  JavaScript.

Three facts about the code that are easy to misread, all stated by the model:

- **Cutoff.** The cutoff is one calendar month before the moment the page is
  rendered (`setMonth(getMonth() - 1)` at `page.tsx` lines 17-18), not a
  fixed number of days. The model takes the cutoff as a parameter.
- **Order.** Nothing sorts the list by contact date: the listed companies
  keep the order of the company list, never-contacted ones included
  (`StaleLeads.ListedRows`, `StaleLeads.AllStaleKeepsCompanyOrder`).
- **Ties.** Of several contacts on the newest date, the one attached is the
  first in list order, because `Array.prototype.sort` is stable
  (`StaleLeads.Newest`).

## Model

| member | source | states |
|---|---|---|
| Records.ContactsOf | app/dashboard/page.tsx:22-23 | the filtered contacts are exactly the contacts whose company id equals the company's id; a contact with a null company id belongs to no company |
| StaleLeads.Newest | app/dashboard/page.tsx:24-28 | none exactly for an empty list; otherwise a member of the list with no later-dated contact, and the first such one (stable sort) |
| StaleLeads.LatestContact | app/dashboard/page.tsx:22-28 | undefined when the contact list is absent or has no contact of the company; otherwise a contact of that company dated no earlier than any other of its contacts |
| StaleLeads.KeepStale | app/dashboard/page.tsx:20-32 | keeps exactly the stale companies, as a subsequence of the company list |
| StaleLeads.AttachLatest | app/dashboard/page.tsx:33-45 | one row per kept company, in order, carrying the company with every one of its fields (the whole `Company` value, as `...company` copies it) and the same newest contact the filter used |
| StaleLeads.CompaniesWithoutRecentContact | app/dashboard/page.tsx:20-45 | absent exactly when the company list is absent; never longer than the company list |
| StaleLeads.IsStale | app/dashboard/page.tsx:21-31 | without a contact list every company is stale; with one, a company is stale iff every contact of it is strictly before the cutoff (so one contact exactly at the cutoff keeps it off) |
| StaleLeads.ListedRows | app/dashboard/page.tsx:20-45 | the list holds exactly the stale companies, in input order, each with its newest contact, which is absent or before the cutoff |
| StaleLeads.NeverContactedIsListed | app/dashboard/page.tsx:29-31 | a company no contact refers to is listed, without a latest contact |
| StaleLeads.RecentContactIsNotListed | app/dashboard/page.tsx:29-31 | one contact on or after the cutoff keeps the company off the list |
| StaleLeads.NoContactListFlagsAll | app/dashboard/page.tsx:22-31 | with the contact list absent, every company is listed, in order, without a latest contact |
| StaleLeads.AlertShown | app/dashboard/page.tsx:51-52 | the alert card shows iff the company list exists and some company in it is stale |
| StaleLeads.ListNonEmptyIffSomeStale | app/dashboard/page.tsx:20-45 | the list is present and non-empty iff the company list exists and some company in it is stale |
| StaleLeads.UnrelatedContactsIgnored | app/dashboard/page.tsx:22-23 | contacts that refer to no listed company do not change the result |
| StaleLeads.AllStaleKeepsCompanyOrder | app/dashboard/page.tsx:20-45 | no date sort: when all companies are stale the list is the company list in its own order |
| Counting.Occurrences | app/dashboard/DashboardCharts.tsx:23 | a key's count is positive iff the key occurs, and at most the input length |
| Counting.FirstOccurrences | app/dashboard/DashboardCharts.tsx:59 | the object's keys are distinct and are exactly the keys counted |
| Counting.BumpCounts | app/dashboard/DashboardCharts.tsx:23 | one reduce step adds one to the counted key and leaves every other key's count alone; on a well-formed counter a new key goes to the end of the key order and a seen key keeps its place |
| Counting.Tally | app/dashboard/DashboardCharts.tsx:22-25 | the counting object is well formed, its properties are the distinct keys in first-occurrence order, and each reads as its number of occurrences |
| Counting.CountKeys | app/dashboard/DashboardCharts.tsx:22-25 | the reduce loop leaves exactly the object `Tally` describes |
| Counting.EntriesOfShape | app/dashboard/DashboardCharts.tsx:59 | `Object.entries` gives one entry per property, in property order, each with the count read under it (0 when absent) |
| Counting.TallyEntries | app/dashboard/DashboardCharts.tsx:59-61 | `Object.entries` gives one entry per distinct key with its count (at least one), counts summing to the number of keys counted |
| ChartData.InsertDesc | app/dashboard/DashboardCharts.tsx:32 | inserting into a descending list keeps it descending, adds one row and its value to the sum |
| ChartData.InsertDescAdds | app/dashboard/DashboardCharts.tsx:32 | insertion adds exactly the one row (multiset) |
| ChartData.SortDesc | app/dashboard/DashboardCharts.tsx:32 | the sort result is descending by value and a permutation of its input (same multiset, length and sum) |
| ChartData.SortedRowsComeFromInput | components/dashboard/CommunicationChannelChart.tsx:41 | every sorted row is a row of the input |
| ChartData.Top | app/dashboard/DashboardCharts.tsx:32-33 | the first min(n, length) rows of the sort: descending, drawn from the input, and no row left out is larger than the last kept |
| ChartData.Take | app/dashboard/DashboardCharts.tsx:33 | `slice(0, n)` of a descending list: its first min(n, length) rows, still descending, and no row after them larger than the last kept |
| ChartData.ToData | app/dashboard/DashboardCharts.tsx:59-61 | `{ name, value }` per entry, in order, values summing to the entries' total |
| ChartData.TallyData | app/dashboard/DashboardCharts.tsx:51-61 | the rows of a tally have distinct names, exactly the counted keys, each valued by its occurrences (at least one), summing to the input length |
| DashboardCharts.KeyOf | app/dashboard/DashboardCharts.tsx:23 | a present string is its own key; the key "null" is shared by a null value and the string "null", and by nothing else |
| DashboardCharts.CompanyKeyCount | app/dashboard/DashboardCharts.tsx:23 | the count under a company id other than "null" is the number of that company's contacts |
| DashboardCharts.ContactsByCompany | app/dashboard/DashboardCharts.tsx:22-25 | counts per company id: each non-"null" id reads as its number of contacts; the counts sum to the number of contacts |
| DashboardCharts.CompanyChart | app/dashboard/DashboardCharts.tsx:21-33 | at most five rows (fewer when fewer companies), most contacted first, drawn from the company rows, none left out with more contacts than the last shown |
| DashboardCharts.CompanyRows | app/dashboard/DashboardCharts.tsx:27-31 | one row per company, in order, with its name and the count under its id, 0 when the id was never counted (`|| 0`) |
| DashboardCharts.CompanyRowValues | app/dashboard/DashboardCharts.tsx:27-31 | one row per company with its name and its number of contacts, 0 when it has none |
| DashboardCharts.ContactChart | app/dashboard/DashboardCharts.tsx:50-61 | one row per month name some contact falls in, distinct names, each valued by its contacts (at least one), values summing to the number of contacts |
| DashboardCharts.MonthKeysMembers | app/dashboard/DashboardCharts.tsx:52-54 | the month keys are exactly the month names of the contact dates |
| DashboardCharts.SameMonthOtherYear | app/dashboard/DashboardCharts.tsx:52-55 | the key is the month name alone: moving a contact to a date with the same month name leaves the chart unchanged |
| DashboardCharts.ProjectChart | app/dashboard/DashboardCharts.tsx:78-86 | one row per distinct status ("null" for none), each valued by its projects (at least one), values summing to the number of projects |
| DashboardCharts.StatusKeysMembers | app/dashboard/DashboardCharts.tsx:80 | the status keys are exactly the statuses of the projects |
| CommunicationChannelChart.ChannelKey | components/dashboard/CommunicationChannelChart.tsx:26 | a company is never counted under the empty key |
| CommunicationChannelChart.FindByName | components/dashboard/CommunicationChannelChart.tsx:34 | finds an option with exactly that name, and finds none iff no option has it |
| CommunicationChannelChart.Relabel | components/dashboard/CommunicationChannelChart.tsx:33-34 | the key itself when some option carries exactly that non-empty name; "未設定" when no option does or the key is empty |
| CommunicationChannelChart.RelabelName | components/dashboard/CommunicationChannelChart.tsx:33-34 | a counted key keeps its name iff some option carries it, else becomes "未設定" |
| CommunicationChannelChart.RelabelUnset | components/dashboard/CommunicationChannelChart.tsx:33-34 | the key "未設定" is always labelled "未設定" |
| CommunicationChannelChart.Relabelled | components/dashboard/CommunicationChannelChart.tsx:31-40 | one slice per entry, in order, with the relabelled key and the count; values sum to the entries' total |
| CommunicationChannelChart.ChannelData | components/dashboard/CommunicationChannelChart.tsx:22-42 | empty for an absent company list; otherwise descending, a permutation of the per-channel slices, values summing to the number of companies |
| CommunicationChannelChart.GetChannelData | components/dashboard/CommunicationChannelChart.tsx:22-42 | empty for an absent company list; otherwise descending, every slice at least one, values summing to the number of companies |
| CommunicationChannelChart.SliceTotals | components/dashboard/CommunicationChannelChart.tsx:25-40 | before sorting, every slice holds at least one company and together they hold all |
| CommunicationChannelChart.SlicesPerKey | components/dashboard/CommunicationChannelChart.tsx:25-41 | one slice per distinct channel key, named by its relabelled key and valued by its companies; the chart is a permutation of these |
| CommunicationChannelChart.ChannelKeysNonEmpty | components/dashboard/CommunicationChannelChart.tsx:26 | no company is counted under the empty key |
| CommunicationChannelChart.SliceNames | components/dashboard/CommunicationChannelChart.tsx:31-41 | every slice is named "未設定" or after a channel option |
| CommunicationChannelChart.EmptyChannelIsUnset | components/dashboard/CommunicationChannelChart.tsx:26-27 | a company with an empty channel yields a "未設定" slice counting every such company |
| CommunicationChannelChart.TwoUnsetSlices | components/dashboard/CommunicationChannelChart.tsx:31-40 | relabelling does not merge slices: an empty and an unlisted channel give two "未設定" slices |
| CommunicationChannelChart.ColorIndex | components/dashboard/CommunicationChannelChart.tsx:61 | the colour index is always within the five-colour palette, and is the slice index for the first five slices |
| CommunicationChannelChart.ChannelChart | components/dashboard/CommunicationChannelChart.tsx:50-62 | the two `getChannelData()` calls agree, so there is one cell per slice, cell i coloured `COLORS[i % 5]` |

## Left out

- Reading from the record store (the Supabase queries at `page.tsx` lines 9-15) is left out. The lists are inputs; an absent list (`data` null) is `None`.
- The `companies(name)` join field on contacts and projects is not used by the modelled computations, so it is left out.
- Rendering (the React/recharts markup, links, `toLocaleDateString`, `substring(0, 100)` of the contact content) is left out; only the data handed to the components is modelled.
- Dates are left out as text: `new Date(...)` parsing, time zones and the `getTime()` conversion are taken as already done, and dates are integers.
- The cutoff computation `setMonth(getMonth() - 1)` (including its day-of-month rollover) is left out: the cutoff is a parameter.
- The locale-dependent `toLocaleString("default", { month: "short" })` is left out: the month name is a parameter function of the date.
- Counting objects inherit from `Object.prototype`. Keys such as "constructor" or "toString" read an inherited value before their first count, and "__proto__" is not an own property. This is not modelled: every key starts at 0.
- `Object.entries` order: the model lists every key in first-insertion order. `Counting.Tally` (`keys == FirstOccurrences(ks)`), `Counting.TallyEntries`, `CommunicationChannelChart.SlicesPerKey` and the `data == …` ensures of `DashboardCharts.ContactChart`, `DashboardCharts.ProjectChart` and `CommunicationChannelChart.GetChannelData` all state that order. JavaScript lists integer-like keys (a status "2" or "1", say) first, in ascending numeric order. For such keys these contracts describe the model's order, not the browser's.
- Tie order is the stable order of `Array.prototype.sort`: `ChartData.SortDesc` is a stable insertion sort. `DashboardCharts.CompanyChart` and `CommunicationChannelChart.GetChannelData` equate their results to functions built on it, so those contracts do fix the order of equal rows.
- The pie charts' percentage labels (floating point) and the project pie's `hsl` colours are left out.
- The newsletter and Slack broadcast, forms and the CRUD pages are not part of this model.
- CommunicationChannelChart.ColorIndex: states range and identity on the first five indices rather than the full `i % 5` formula, which is its body.
