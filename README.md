# URL shortener dashboard: a verified model of its client-side logic

The dashboard is a React front end to a remote URL-shortening service. Apart
from network calls, routing and markup, its code does a small amount of list
processing and keeps a few small pieces of state. This project models that
logic in Dafny and proves what the code promises.

- **Links page** (`src/pages/UrlsPage.tsx`, modules `UrlsPage` and `Sorting`):
  - the five conjunctive filters of `applyFiltersAndSort`: search text, every selected tag, expired, private, and an inclusive date range;
  - its stable sort by original URL, creation date or clicks, in either direction;
  - the sort-header toggle `handleSort`;
  - the comma/line-break text of `exportUrls`;
  - `allTags`, and the prepend of a created record.
- **Dashboard** (`src/App.tsx`, module `Dashboard`):
  - the search-and-tag filter `filteredUrls`;
  - the `totalUrls`, `totalClicks` and `activeLinks` counts;
  - the distinct tags;
  - the selected-tag updaters and the prepend of a created record.
- **Tag manager** (`src/pages/TagsPage.tsx`, module `TagsPage`): a class whose state is the tag list and the input text, with the add and delete handlers.
- **Theme** (`src/contexts/ThemeContext.tsx`, module `Theme`): the defaults, the `updateSettings` merge, the `dark` class, and the CSS custom properties derived from the settings.
- **Link table** (`src/components/UrlList.tsx`, module `UrlList`): a class holding the expanded row and the open QR and analytics dialogs, plus the QR-code lookup by id.
- **Profile badge** (`src/components/ProfileDropdown.tsx`, module `ProfileDropdown`): the avatar letter, the display name, and a class for the menu's open flag.

Modules `Seqs` and `Js` define the JavaScript built-ins the code relies on:
`filter`, `includes`, `join`, `split`, `flatMap`, `Array.from(new Set(..))`, `trim`, truthiness and `Number.prototype.toString` on integers written in plain decimal.

What the browser supplies enters the model as parameters:
- `new Date(s)` becomes `parseDate: string -> Option<int>`. `None` is an Invalid Date, and every comparison with it is false.
- `new Date()` becomes an integer `now`.
- `toLowerCase` and `toUpperCase` become functions `string -> string`.
- `a.localeCompare(b) <= 0` becomes a relation `localeLe`.
- date-fns `format` becomes a function `formatTs`.
- The system dark-mode preference becomes a boolean `prefersDark`.

JavaScript truthiness is kept: an optional string is an `Option<string>`, and `Some("")` counts as false.

`Array.prototype.sort` is stable since ECMAScript 2019. The model sorts with an in-place insertion sort on an array (`Sorting.SortInPlace`). The sort is specified by the function `InsertionSort`, which is proved sorted, a permutation of its input, and stable.

## Model

| member | source | states |
|---|---|---|
| UrlsPage.HandleSort | src/pages/UrlsPage.tsx:75-80 | the new key is the clicked one; the direction is descending exactly when the same key was ascending, and ascending otherwise |
| UrlsPage.HandleSortAlternates | src/pages/UrlsPage.tsx:75-80 | repeated clicks on one header alternate the direction, with period two |
| UrlsPage.Kept | src/pages/UrlsPage.tsx:83-118 | the filtered records are exactly the records of `urls` that pass every filter, each as many times as in `urls`, kept in their original order (a subsequence of `urls`) |
| UrlsPage.KeepMeaning | src/pages/UrlsPage.tsx:86-118 | a record passes exactly when each of these holds: no query, or either lower-cased URL contains the lower-cased query; no selection, or its tags hold every selected tag; expired records shown, or no (or empty) expiry, or an expiry later than now; private records shown, or the record is not private; each set date bound, inclusively |
| UrlsPage.InitialViewKeepsAll | src/pages/UrlsPage.tsx:24-31 | with the initial state (empty query, no tags, both toggles on, no dates) the filtered list, before sorting, is every record in its order in `urls` |
| UrlsPage.InitialViewShowsAll | src/pages/UrlsPage.tsx:24-31 | with the initial state the shown list is a permutation of `urls`, sorted by `createdAt` newest first, with records of equal dates in their order in `urls` |
| UrlsPage.HidingExpiredNarrows | src/pages/UrlsPage.tsx:101-105 | hiding expired records gives a filtered list that is a subsequence of the previous one, and a shown list holding each record at most as often |
| UrlsPage.HidingPrivateNarrows | src/pages/UrlsPage.tsx:106-108 | hiding private records gives a filtered list that is a subsequence of the previous one, and a shown list holding each record at most as often |
| UrlsPage.Narrows | src/pages/UrlsPage.tsx:82-118 | when one state's filters let through only records another state's filters let through, its filtered list is a subsequence of the other's, and its shown list holds each record at most as often |
| UrlsPage.SearchingNarrows | src/pages/UrlsPage.tsx:86-91 | typing a query into an empty search box narrows the filtered and the shown list as above |
| UrlsPage.SelectingTagNarrows | src/pages/UrlsPage.tsx:94-98 | selecting one more tag (`[...prev, tag]`, line 199) narrows the filtered and the shown list as above |
| UrlsPage.SettingStartNarrows | src/pages/UrlsPage.tsx:109-113 | setting a start date where none was set narrows the filtered and the shown list as above |
| UrlsPage.SettingEndNarrows | src/pages/UrlsPage.tsx:114-118 | setting an end date where none was set narrows the filtered and the shown list as above |
| UrlsPage.OrderIsTotalPreorder | src/pages/UrlsPage.tsx:121-134 | the record comparator `KeyLe` ("compare(a, b) <= 0") is total and transitive for every key and direction, whenever `localeCompare` is |
| UrlsPage.DescendingReversesAscending | src/pages/UrlsPage.tsx:126-133 | `KeyLe` for a descending sort is `KeyLe` for the ascending sort with its operands swapped, on every key |
| UrlsPage.SortedByClicks | src/pages/UrlsPage.tsx:131-133 | a list sorted by `KeyLe` on clicks, whose comparator is the difference of the counts, has non-decreasing counts ascending and non-increasing counts descending |
| UrlsPage.ApplyFiltersAndSort | src/pages/UrlsPage.tsx:82-137 | the result holds exactly the records passing every filter, with their multiplicities in `urls`; it is sorted by the chosen key and direction; equal keys keep their order in the filtered list; it is the list `View` specifies |
| UrlsPage.ViewIdempotent | src/pages/UrlsPage.tsx:82-137 | recomputing the view from the shown list with the same state gives the shown list back: the filters keep all of it and the sort leaves it in place |
| UrlsPage.FilterStages | src/pages/UrlsPage.tsx:83-118 | running the six stages, each only when its control is set, gives exactly `Kept` |
| UrlsPage.RunStage | src/pages/UrlsPage.tsx:86-118 | one `if (control) filtered = filtered.filter(test)` step: from the records passing the first n stages it leaves those passing the first n+1 |
| UrlsPage.Narrowed | src/pages/UrlsPage.tsx:86-118 | one stage, run or skipped according to its control, turns the records passing the first n stages into those passing the first n+1 |
| Sorting.SortInPlace | src/pages/UrlsPage.tsx:121-134 | the array, sorted in place, equals `InsertionSort` of its old contents |
| Sorting.InsertNext | src/pages/UrlsPage.tsx:121-134 | one insertion step moves `a[i]` into the sorted prefix and leaves the rest of the array as it was |
| Sorting.InsertionSortCorrect | src/pages/UrlsPage.tsx:121-134 | the sort is sorted, a permutation of its input, and stable for every key group |
| Sorting.InsertionSortPermutes | src/pages/UrlsPage.tsx:121-134 | whatever the comparator, the sort returns a permutation of its input |
| Sorting.InsertionSortOfSorted | src/pages/UrlsPage.tsx:121-134 | a list already sorted by the comparator comes back unchanged |
| Sorting.KeyGroupConcat | src/pages/UrlsPage.tsx:121-134 | the records of a key in a concatenation are those of the first part followed by those of the second |
| UrlsPage.HeaderLine | src/pages/UrlsPage.tsx:141 | the header row holds no line break |
| UrlsPage.RowHasNoLineBreak | src/pages/UrlsPage.tsx:142-150 | a record's row holds no line break when none of its texts does |
| UrlsPage.LinesHaveNoLineBreak | src/pages/UrlsPage.tsx:140-150 | no line of the export holds a line break when no text of a record does |
| UrlsPage.ExportLinesRoundTrip | src/pages/UrlsPage.tsx:140-150 | when no record text (URL, formatted date or tag) holds a line break, the export text split on line breaks is the header row followed by one row per shown record, in view order, with no trailing empty line |
| UrlsPage.ExportUrls | src/pages/UrlsPage.tsx:139-150 | the export produces its text exactly when every creation date, and every set expiry date, parses; an Invalid Date makes `format` throw and nothing is produced |
| UrlsPage.CellCommas | src/pages/UrlsPage.tsx:143-148 | a row's cells hold the commas of its URLs, formatted dates and tags plus the k-1 separators inside the tags cell of k tags, and none in the clicks cell; when no record text holds a comma, only those k-1 separators remain |
| UrlsPage.ExportRowWidth | src/pages/UrlsPage.tsx:142-150 | because no cell is quoted, every row splits into six comma-separated fields plus one per comma inside its cells, so a URL such as `https://x.io/?ids=1,2` widens it; when no record text holds a comma, that is 5+k fields for k ≥ 2 tags and 6 otherwise |
| UrlsPage.ExportRowRoundTrip | src/pages/UrlsPage.tsx:142-150 | when no record text holds a comma, a row with at most one tag splits back into its six cells, and the clicks cell parses back to the click count |
| Js.IntToStringRoundTrip | src/pages/UrlsPage.tsx:147 | `clicks.toString()` contains no comma and no line break, and `parseInt` reads it back |
| Js.HasAllTagsMeaning | src/pages/UrlsPage.tsx:94-98 | the tag test is a superset test on the record's tags; a record without tags passes only an empty selection |
| UrlsPage.AllTags | src/pages/UrlsPage.tsx:161 | each tag that any record carries appears exactly once, ordered by first occurrence |
| Seqs.AllTagsOf | src/pages/UrlsPage.tsx:161 | the distinct tags of a list of records hold each tag of any element once, ordered by first occurrence, with a record without tags contributing none |
| Seqs.DistinctFirstOccurrenceOrder | src/pages/UrlsPage.tsx:161 | `Array.from(new Set(s))` lists its elements in the order of their first occurrence in `s` |
| UrlsPage.AddCreated | src/pages/UrlsPage.tsx:68-69 | the created record comes first and the previous list follows unchanged |
| UrlsPage.AddCreatedView | src/pages/UrlsPage.tsx:69 | the new filtered list, before sorting, is the old one with the created record in front exactly when that record passes the filters |
| UrlsPage.AddCreatedShown | src/pages/UrlsPage.tsx:69 | the shown list gains one occurrence of the created record when it passes the filters, and is unchanged when it does not |
| UrlsPage.AddCreatedFirstAmongTies | src/pages/UrlsPage.tsx:69 | a created record that passes the filters is shown ahead of every record whose sort key ties with its own |
| Dashboard.FilteredUrls | src/App.tsx:231-242 | a record is kept exactly when it matches the search and carries every selected tag, as many times as it occurs in `urls`; the result is a subsequence of `urls` |
| Dashboard.FilteredUrlsMeaning | src/App.tsx:232-241 | with a query, a record is kept when either lower-cased URL contains the lower-cased query; with a selection, when its tags are a superset of it; with neither, the list is unchanged |
| Dashboard.ReselectKeepsFilter | src/App.tsx:223-225 | selecting a tag that is already selected does not change the filtered list |
| Dashboard.RemoveWidensFilter | src/App.tsx:227-229 | removing a selected tag keeps every record kept before |
| Dashboard.TotalClicks | src/App.tsx:105-108 | the left fold is the plain sum: 0 for no records, otherwise the first record's `clicks` (0 when it has none) plus the total of the rest |
| Dashboard.TotalClicksAppend | src/App.tsx:105-108 | the click total of a concatenation is the sum of the two totals |
| Dashboard.TotalClicksBounds | src/App.tsx:105-108 | records without `clicks` add 0; with no negative count the total is not negative |
| Dashboard.SampleTotalClicksZero | src/App.tsx:39-90 | the two sample records store `clickCount`, not `clicks`, so their total is 0 |
| Dashboard.ActiveLinks | src/App.tsx:109-111 | `activeLinks` is at most `totalUrls`, and equals it exactly when every record is unexpired |
| Dashboard.ActivePlusExpired | src/App.tsx:109-111 | active records and expired records together number `totalUrls` |
| Dashboard.TopCountriesDescending | src/App.tsx:113-119 | the fixed country counts are positive and descending, so the first one is the largest |
| Dashboard.AllTags | src/App.tsx:122-124 | each tag that any record carries appears exactly once, ordered by first occurrence |
| Dashboard.TagSelect | src/App.tsx:223-225 | the tag is appended after the previous selection, even when it is already present |
| Dashboard.TagRemove | src/App.tsx:227-229 | every occurrence of the tag is removed; every other tag keeps its count and its order |
| Dashboard.SelectThenRemove | src/App.tsx:223-229 | removing a tag just after selecting it equals removing it from the previous selection |
| Dashboard.RemoveIdempotent | src/App.tsx:227-229 | removing a tag twice is removing it once |
| Dashboard.AddCreated | src/App.tsx:210-213 | the created record comes first and the previous list follows unchanged |
| Dashboard.AddCreatedEffects | src/App.tsx:210-213 | a created record adds one to `totalUrls`, its clicks to `totalClicks`, one to `activeLinks` when it is active, and itself at the front of the filtered list when it matches |
| TagsPage.AddedTags | src/pages/TagsPage.tsx:12-26 | a blank input leaves the tags unchanged; otherwise exactly one tag is appended, with id length+1, the trimmed name (non-empty, with no whitespace at either end), urlCount 0 and colour gray, and the earlier tags are unchanged and in order |
| TagsPage.RemovedTags | src/pages/TagsPage.tsx:28-30 | the tags that remain are exactly those with another id, each as many times as before, in order; an absent id changes nothing |
| TagsPage.AddKeepsIdsDistinct | src/pages/TagsPage.tsx:18 | while no id exceeds the list length, adding keeps the ids distinct |
| TagsPage.RemoveKeepsIdsDistinct | src/pages/TagsPage.tsx:28-30 | deleting keeps distinct ids distinct |
| TagsPage.DeleteThenAddDuplicatesId | src/pages/TagsPage.tsx:5-9 | deleting id 2 from the initial tags and then adding a tag gives two tags with id 3 |
| Js.TrimSpec | src/pages/TagsPage.tsx:14 | `trim` gives the slice of the input without whitespace at either end; it is empty exactly when the input is all whitespace |
| Js.TrimIdempotent | src/pages/TagsPage.tsx:19 | trimming the stored name again changes nothing |
| TagsPage.Page.constructor | src/pages/TagsPage.tsx:5-10 | the page starts with Marketing (1, 15, blue), Social Media (2, 23, green), Blog Posts (3, 8, purple) and an empty input |
| TagsPage.Page.SetNewTag | src/pages/TagsPage.tsx:40 | typing sets the input and leaves the tags unchanged |
| TagsPage.Page.HandleAddTag | src/pages/TagsPage.tsx:12-26 | the tags become `AddedTags` of the old tags and input; the input is cleared exactly when a tag was added |
| TagsPage.Page.HandleDeleteTag | src/pages/TagsPage.tsx:28-30 | the tags become `RemovedTags` of the old tags; the input is unchanged |
| Theme.UpdateSettings | src/contexts/ThemeContext.tsx:79-81 | each field given in the partial record is set; every other field is unchanged |
| Theme.UpdateWithNothing | src/contexts/ThemeContext.tsx:79-81 | an empty partial record is the identity |
| Theme.UpdateIdempotent | src/contexts/ThemeContext.tsx:79-81 | applying the same partial record twice is applying it once |
| Theme.UpdateTwice | src/contexts/ThemeContext.tsx:79-81 | two updates in a row equal one update with the later fields winning |
| Theme.UpdateWithEverything | src/contexts/ThemeContext.tsx:79-81 | a partial record with every field replaces the settings outright |
| Theme.UpdatesCommute | src/contexts/ThemeContext.tsx:79-81 | updates touching disjoint fields commute |
| Theme.DarkClass | src/contexts/ThemeContext.tsx:42-47 | the root has the `dark` class exactly under the dark theme, or under the system theme when the system prefers dark |
| Theme.DarkClassFollowsSystemOnlyUnderSystem | src/contexts/ThemeContext.tsx:42-47 | the system preference changes the class only under the system theme |
| Theme.ColorVarsDetermineScheme | src/contexts/ThemeContext.tsx:50-52 | a colour variable's value determines the scheme it was built from |
| Theme.ShadesDiffer | src/contexts/ThemeContext.tsx:50-52 | primary, light and dark use three different shades (600, 500, 700) |
| Theme.FontSizeValue | src/contexts/ThemeContext.tsx:55 | 14px exactly for sm, 18px exactly for lg, 16px exactly for base |
| Theme.TransitionDuration | src/contexts/ThemeContext.tsx:58-62 | 0s exactly when motion is reduced, 200ms otherwise |
| Theme.BorderRadius | src/contexts/ThemeContext.tsx:65 | 0.5rem exactly for rounded corners, 0.25rem otherwise |
| Theme.AppliedStyle | src/contexts/ThemeContext.tsx:50-65 | the effect sets exactly the six custom properties |
| Theme.AppliedStyleDeterminesSettings | src/contexts/ThemeContext.tsx:50-65 | two settings apply the same properties exactly when they agree on scheme, font size, motion and corners |
| Theme.DefaultsApply | src/contexts/ThemeContext.tsx:20-26 | the defaults follow the system theme and apply indigo-600, 16px, 200ms and 0.5rem |
| UrlList.Toggle | src/components/UrlList.tsx:36-38 | the result is empty exactly when the toggled row was the expanded one; otherwise it is that row |
| UrlList.ToggleTwice | src/components/UrlList.tsx:36-38 | from a collapsed table, toggling a row twice collapses it again; an expanded row toggled twice stays expanded |
| UrlList.AtMostOneExpanded | src/components/UrlList.tsx:123 | in a table with distinct ids, at most one row shows its details |
| UrlList.FindById | src/components/UrlList.tsx:174 | `find` returns the first row with the id, and nothing exactly when no row has it |
| UrlList.QrValue | src/components/UrlList.tsx:174 | a non-empty QR value is the short URL of a row with the requested id; with no id the value is empty |
| UrlList.QrValueIsFirstMatch | src/components/UrlList.tsx:174 | the QR value is the short URL of the first row carrying the id |
| UrlList.Selection.constructor | src/components/UrlList.tsx:32-34 | no row is expanded and no dialog is open |
| UrlList.Selection.ToggleExpand | src/components/UrlList.tsx:36-38 | the expanded row becomes `Toggle` of the old one; the dialog slots are unchanged |
| UrlList.Selection.OpenQR | src/components/UrlList.tsx:107 | the QR slot holds the row id; the other slots are unchanged |
| UrlList.Selection.CloseQR | src/components/UrlList.tsx:160-166 | the QR slot is empty and the dialog is hidden; the other slots are unchanged |
| UrlList.Selection.OpenAnalytics | src/components/UrlList.tsx:114 | the analytics slot holds the row id; the other slots are unchanged |
| UrlList.Selection.CloseAnalytics | src/components/UrlList.tsx:185-188 | the analytics slot is empty; the other slots are unchanged |
| ProfileDropdown.AvatarInitial | src/components/ProfileDropdown.tsx:35 | the upper-cased first character of the name when it is non-empty, else of the email; nothing without a user |
| ProfileDropdown.DisplayName | src/components/ProfileDropdown.tsx:39 | the name when it is non-empty; otherwise the prefix of the email up to its first `@` (the whole email when it has no `@`); nothing without a user |
| ProfileDropdown.DisplayNameIsLocalPart | src/components/ProfileDropdown.tsx:39 | without a name, the display name is `email.split('@')[0]`, and the whole email when it has no `@` |
| ProfileDropdown.AvatarIsFirstLetterOfDisplayName | src/components/ProfileDropdown.tsx:35-39 | the avatar shows the upper-cased first character of a non-empty display name |
| ProfileDropdown.Menu.constructor | src/components/ProfileDropdown.tsx:14 | the menu starts closed |
| ProfileDropdown.Menu.Toggle | src/components/ProfileDropdown.tsx:31 | the avatar button flips the open flag |
| ProfileDropdown.Menu.ChooseLink | src/components/ProfileDropdown.tsx:47-66 | choosing Profile, Settings or Help closes the menu |
| ProfileDropdown.Menu.SignOut | src/components/ProfileDropdown.tsx:72-76 | sign out calls `onLogout` once, then closes the menu |

## Left out

- Network and storage: every `fetch` call, token handling and `localStorage` (the saved theme settings included). Only the state updates after a response are modelled.
- UrlsPage.AddCreated: the links page prepends the parsed response body without checking `response.ok`; the dashboard's prepend runs only when `response.ok` holds. The response itself is outside the model, so both are modelled as the prepend alone.
- Browser effects: the export's Blob download and its file-name date; the DOM `classList` and `style` writes of the theme effect (modelled as the values written, `DarkClass` and `AppliedStyle`); the `matchMedia` change listener; the click-outside listener of the profile menu.
- UrlsPage.ApplyFiltersAndSort:
  - reads `new Date()` once per call, where the page creates it once per record;
  - requires `localeCompare` to be a consistent order, because the result of sorting with an inconsistent comparator is implementation-defined;
  - models the engine's stable sort by an insertion sort with the same sorted, permutation and stability guarantees;
  - keeps the click-count sort exact, because integers are unbounded here and JavaScript number precision is not modelled.
- Library behaviour is a parameter, not a definition: date parsing and time zones, `localeCompare`, and case mapping. The date-fns format of a date that parses is the parameter `formatTs`; its throw on an Invalid Date is modelled by `ExportUrls`.
- Dashboard.FilteredUrls: requires every record for which the search reads `shortUrl` to have one, because the source throws a TypeError there (the sample records lack `shortUrl`).
- ProfileDropdown.AvatarInitial: requires a non-empty email when there is no name, because `email[0].toUpperCase()` throws on an empty email.
- ProfileDropdown.AvatarInitial: takes the first character of the name or email as a whole Unicode character, where `name[0]` reads one UTF-16 code unit; for text that starts outside the Basic Multilingual Plane the source shows half a surrogate pair and the model the whole character. Strings here are sequences of characters, not of UTF-16 code units.
- Dashboard.TotalClicks: a `clicks` value that is not a number (a string, say) is not modelled, and the sum is exact at every size, where a JavaScript number is exact only up to 2^53.
- Js.IntToStringRoundTrip: integers print in plain decimal at every size; JavaScript prints a number of magnitude 10^21 or more in exponent form (`"1e+21"`), which `parseInt` reads back as 1, so the round trip holds in the source only below 10^21.
- UrlList.AtMostOneExpanded: rows always carry an id here. A record without `id` (the dashboard's sample records carry `_id` instead) stores `undefined` as the expanded id, and `expandedUrl === url.id` then holds for every id-less row, so all of them expand together; the lemma's distinct-ids requirement excludes that case.
- The `topCountries` bar widths (a floating-point division), recharts and QR rendering, routing, and the purely presentational pages and forms.
- The filter-panel setters of the links page (date inputs and toggles) only store the inputs; the filters' use of those inputs is modelled.
- The analytics dialog receives `urls.find(...)!`, which may be `undefined`; that dialog's contents are not modelled.
- JSON values outside the declared types (a theme setting not among its declared values, a partial record with an explicit `undefined`) are not modelled.
