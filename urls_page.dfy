/**
 * The list view of the links page (src/pages/UrlsPage.tsx): narrowing the
 * link records by search text, selected tags, expiry, visibility and creation
 * date; sorting the result by one key; the sort-header toggle; the text export
 * of the current result; and the distinct-tag list.
 */
module UrlsPage {
  import opened Seqs
  import opened Js
  import opened Sorting

  /** A link record as this page reads it. */
  datatype UrlData = UrlData(
    id: string,
    originalUrl: string,
    shortUrl: string,
    createdAt: string,
    expiresAt: Option<string>,
    isPrivate: bool,
    password: Option<string>,
    tags: Option<seq<string>>,
    clicks: int)

  /** The two date inputs; `""` is an unset bound. */
  datatype DateRange = DateRange(start: string, end: string)

  datatype FilterConfig = FilterConfig(showExpired: bool, showPrivate: bool, dateRange: DateRange)

  /** The three column headers that call `handleSort`. */
  datatype SortKey = OriginalUrl | CreatedAt | Clicks

  datatype Direction = Asc | Desc

  datatype SortConfig = SortConfig(key: SortKey, direction: Direction)

  /**
   * What the browser and its libraries supply: the current time, `new Date(s)`,
   * `toLowerCase`, `a.localeCompare(b) <= 0`, and date-fns
   * `format(new Date(s), 'yyyy-MM-dd HH:mm:ss')`.
   */
  datatype Platform = Platform(
    now: int,
    parseDate: string -> Option<int>,
    toLower: string -> string,
    localeLe: (string, string) -> bool,
    formatTs: string -> string)

  /** The page state a view is computed from. */
  datatype ViewState = ViewState(
    searchQuery: string,
    selectedTags: seq<string>,
    sortConfig: SortConfig,
    filterConfig: FilterConfig)

  const InitialSortConfig := SortConfig(CreatedAt, Desc)

  const InitialFilterConfig := FilterConfig(true, true, DateRange("", ""))

  /** The state when the page mounts: no search, no tag, newest first, every filter off. */
  const InitialView := ViewState("", [], InitialSortConfig, InitialFilterConfig)

  // ---------------------------------------------------------------------------
  // Sort header

  /** Clicking a column header. */
  function HandleSort(prev: SortConfig, key: SortKey): (r: SortConfig)
    ensures r.key == key
    ensures r.direction == Desc <==> prev.key == key && prev.direction == Asc
  {
    SortConfig(key, if prev.key == key && prev.direction == Asc then Desc else Asc)
  }

  /** Once a column is chosen, clicking it again flips the direction back and forth. */
  lemma HandleSortAlternates(prev: SortConfig, key: SortKey)
    ensures HandleSort(HandleSort(prev, key), key).direction != HandleSort(prev, key).direction
    ensures HandleSort(HandleSort(HandleSort(prev, key), key), key) == HandleSort(prev, key)
  {
  }

  // ---------------------------------------------------------------------------
  // Filters

  /** The search test: either URL, lower-cased, contains the lower-cased query. */
  predicate MatchesSearch(u: UrlData, query: string, env: Platform)
  {
    || Includes(env.toLower(u.originalUrl), env.toLower(query))
    || Includes(env.toLower(u.shortUrl), env.toLower(query))
  }

  predicate SearchOk(u: UrlData, v: ViewState, env: Platform)
  {
    v.searchQuery == "" || MatchesSearch(u, v.searchQuery, env)
  }

  predicate TagsOk(u: UrlData, v: ViewState)
  {
    |v.selectedTags| == 0 || HasAllTags(u.tags, v.selectedTags)
  }

  predicate ExpiryOk(u: UrlData, v: ViewState, env: Platform)
  {
    v.filterConfig.showExpired || NotExpired(u.expiresAt, env.now, env.parseDate)
  }

  predicate PrivacyOk(u: UrlData, v: ViewState)
  {
    v.filterConfig.showPrivate || !u.isPrivate
  }

  predicate StartOk(u: UrlData, v: ViewState, env: Platform)
  {
    v.filterConfig.dateRange.start == "" || NotBefore(env.parseDate, u.createdAt, v.filterConfig.dateRange.start)
  }

  predicate EndOk(u: UrlData, v: ViewState, env: Platform)
  {
    v.filterConfig.dateRange.end == "" || NotAfter(env.parseDate, u.createdAt, v.filterConfig.dateRange.end)
  }

  /** The first `n` of the six filter stages, in the order the page applies them. */
  predicate PassesStages(n: nat, u: UrlData, v: ViewState, env: Platform)
  {
    && (n > 0 ==> SearchOk(u, v, env))
    && (n > 1 ==> TagsOk(u, v))
    && (n > 2 ==> ExpiryOk(u, v, env))
    && (n > 3 ==> PrivacyOk(u, v))
    && (n > 4 ==> StartOk(u, v, env))
    && (n > 5 ==> EndOk(u, v, env))
  }

  /** A record stays in the view when it passes every filter. */
  predicate Keep(u: UrlData, v: ViewState, env: Platform)
  {
    PassesStages(6, u, v, env)
  }

  /** The records that stay in the view, in the order of `urls`. */
  function Kept(urls: seq<UrlData>, v: ViewState, env: Platform): (r: seq<UrlData>)
    ensures forall u :: u in r <==> u in urls && Keep(u, v, env)
    ensures forall u :: multiset(r)[u] == if Keep(u, v, env) then multiset(urls)[u] else 0
    ensures IsSubsequence(r, urls)
  {
    SelectIsSubsequence(urls, (u: UrlData) => Keep(u, v, env));
    forall u ensures multiset(Select(urls, (u: UrlData) => Keep(u, v, env)))[u] == if Keep(u, v, env) then multiset(urls)[u] else 0 {
      SelectMultiset(urls, (u: UrlData) => Keep(u, v, env), u);
    }
    SelectMembers(urls, (u: UrlData) => Keep(u, v, env));
    Select(urls, (u: UrlData) => Keep(u, v, env))
  }

  /**
   * What each filter means: an empty query, an empty tag selection, a shown
   * toggle and an unset bound keep everything; otherwise each one is the test
   * the page states.
   */
  lemma KeepMeaning(u: UrlData, v: ViewState, env: Platform)
    ensures Keep(u, v, env) <==>
      && (v.searchQuery != "" ==> MatchesSearch(u, v.searchQuery, env))
      && (v.selectedTags != [] ==> u.tags.Some? && forall t :: t in v.selectedTags ==> t in u.tags.value)
      && (!v.filterConfig.showExpired ==>
            (u.expiresAt.None? || u.expiresAt.value == "" || LaterThan(env.parseDate, u.expiresAt.value, env.now)))
      && (!v.filterConfig.showPrivate ==> !u.isPrivate)
      && (v.filterConfig.dateRange.start != "" ==> NotBefore(env.parseDate, u.createdAt, v.filterConfig.dateRange.start))
      && (v.filterConfig.dateRange.end != "" ==> NotAfter(env.parseDate, u.createdAt, v.filterConfig.dateRange.end))
  {
    HasAllTagsMeaning(u.tags, v.selectedTags);
  }

  /** At mount every record is shown. */
  lemma InitialViewKeepsAll(urls: seq<UrlData>, env: Platform)
    ensures Kept(urls, InitialView, env) == urls
  {
    SelectAll(urls, (u: UrlData) => Keep(u, InitialView, env));
  }

  /**
   * A state whose filters let through no record that another state rejects
   * shows less: its filtered list is a subsequence of the other's, and its
   * shown list holds each record at most as often.
   */
  lemma Narrows(urls: seq<UrlData>, w: ViewState, v: ViewState, env: Platform)
    requires forall u :: Keep(u, w, env) ==> Keep(u, v, env)
    ensures IsSubsequence(Kept(urls, w, env), Kept(urls, v, env))
    ensures multiset(View(urls, w, env)) <= multiset(View(urls, v, env))
  {
    var inW, inV := (u: UrlData) => Keep(u, w, env), (u: UrlData) => Keep(u, v, env);
    SelectSelect(urls, inV, inW, inW);
    SelectIsSubsequence(Kept(urls, v, env), inW);
    InsertionSortPermutes(Kept(urls, w, env), Order(w.sortConfig, env.localeLe));
    InsertionSortPermutes(Kept(urls, v, env), Order(v.sortConfig, env.localeLe));
    forall u ensures multiset(Kept(urls, w, env))[u] <= multiset(Kept(urls, v, env))[u] {
      SelectMultiset(urls, inW, u);
      SelectMultiset(urls, inV, u);
    }
  }

  /** Hiding expired records narrows the view. */
  lemma HidingExpiredNarrows(urls: seq<UrlData>, v: ViewState, env: Platform)
    ensures var w := v.(filterConfig := v.filterConfig.(showExpired := false));
      && IsSubsequence(Kept(urls, w, env), Kept(urls, v, env))
      && multiset(View(urls, w, env)) <= multiset(View(urls, v, env))
  {
    Narrows(urls, v.(filterConfig := v.filterConfig.(showExpired := false)), v, env);
  }

  /** Hiding private records narrows the view. */
  lemma HidingPrivateNarrows(urls: seq<UrlData>, v: ViewState, env: Platform)
    ensures var w := v.(filterConfig := v.filterConfig.(showPrivate := false));
      && IsSubsequence(Kept(urls, w, env), Kept(urls, v, env))
      && multiset(View(urls, w, env)) <= multiset(View(urls, v, env))
  {
    Narrows(urls, v.(filterConfig := v.filterConfig.(showPrivate := false)), v, env);
  }

  /** Typing a query into an empty search box narrows the view. */
  lemma SearchingNarrows(urls: seq<UrlData>, v: ViewState, query: string, env: Platform)
    requires v.searchQuery == ""
    ensures var w := v.(searchQuery := query);
      && IsSubsequence(Kept(urls, w, env), Kept(urls, v, env))
      && multiset(View(urls, w, env)) <= multiset(View(urls, v, env))
  {
    Narrows(urls, v.(searchQuery := query), v, env);
  }

  /** `onTagSelect`: `[...prev, tag]`; one more selected tag narrows the view. */
  lemma SelectingTagNarrows(urls: seq<UrlData>, v: ViewState, tag: string, env: Platform)
    ensures var w := v.(selectedTags := v.selectedTags + [tag]);
      && IsSubsequence(Kept(urls, w, env), Kept(urls, v, env))
      && multiset(View(urls, w, env)) <= multiset(View(urls, v, env))
  {
    var w := v.(selectedTags := v.selectedTags + [tag]);
    forall u | Keep(u, w, env) ensures Keep(u, v, env) {
      assert forall t :: t in v.selectedTags ==> t in w.selectedTags;
    }
    Narrows(urls, w, v, env);
  }

  /** Setting the start date when none was set narrows the view. */
  lemma SettingStartNarrows(urls: seq<UrlData>, v: ViewState, start: string, env: Platform)
    requires v.filterConfig.dateRange.start == ""
    ensures var w := v.(filterConfig := v.filterConfig.(dateRange := v.filterConfig.dateRange.(start := start)));
      && IsSubsequence(Kept(urls, w, env), Kept(urls, v, env))
      && multiset(View(urls, w, env)) <= multiset(View(urls, v, env))
  {
    Narrows(urls, v.(filterConfig := v.filterConfig.(dateRange := v.filterConfig.dateRange.(start := start))), v, env);
  }

  /** Setting the end date when none was set narrows the view. */
  lemma SettingEndNarrows(urls: seq<UrlData>, v: ViewState, end: string, env: Platform)
    requires v.filterConfig.dateRange.end == ""
    ensures var w := v.(filterConfig := v.filterConfig.(dateRange := v.filterConfig.dateRange.(end := end)));
      && IsSubsequence(Kept(urls, w, env), Kept(urls, v, env))
      && multiset(View(urls, w, env)) <= multiset(View(urls, v, env))
  {
    Narrows(urls, v.(filterConfig := v.filterConfig.(dateRange := v.filterConfig.dateRange.(end := end))), v, env);
  }

  // ---------------------------------------------------------------------------
  // Sort order

  /**
   * "The comparator gives `a` before-or-tied `b`": `localeCompare` on the
   * string keys, the difference of the click counts on `clicks`; a descending
   * sort swaps the operands.
   */
  predicate KeyLe(sc: SortConfig, localeLe: (string, string) -> bool, a: UrlData, b: UrlData)
  {
    match sc.key
    case OriginalUrl =>
      if sc.direction == Asc then localeLe(a.originalUrl, b.originalUrl) else localeLe(b.originalUrl, a.originalUrl)
    case CreatedAt =>
      if sc.direction == Asc then localeLe(a.createdAt, b.createdAt) else localeLe(b.createdAt, a.createdAt)
    case Clicks =>
      if sc.direction == Asc then a.clicks - b.clicks <= 0 else b.clicks - a.clicks <= 0
  }

  function Order(sc: SortConfig, localeLe: (string, string) -> bool): (UrlData, UrlData) -> bool
  {
    (a, b) => KeyLe(sc, localeLe, a, b)
  }

  /** A consistent `localeCompare` gives a consistent record comparator, in either direction. */
  lemma OrderIsTotalPreorder(sc: SortConfig, localeLe: (string, string) -> bool)
    requires TotalPreorder(localeLe)
    ensures TotalPreorder(Order(sc, localeLe))
  {
    var le := Order(sc, localeLe);
    forall x, y, z | le(x, y) && le(y, z) ensures le(x, z) {
      match sc.key
      case OriginalUrl =>
      case CreatedAt =>
      case Clicks =>
    }
    forall x, y ensures le(x, y) || le(y, x) {
      match sc.key
      case OriginalUrl =>
      case CreatedAt =>
      case Clicks =>
    }
  }

  /** Descending order is ascending order read backwards. */
  lemma DescendingReversesAscending(key: SortKey, localeLe: (string, string) -> bool, a: UrlData, b: UrlData)
    ensures KeyLe(SortConfig(key, Desc), localeLe, a, b) == KeyLe(SortConfig(key, Asc), localeLe, b, a)
  {
  }

  /** Sorted by clicks means non-decreasing click counts ascending and non-increasing descending. */
  lemma SortedByClicks(s: seq<UrlData>, d: Direction, localeLe: (string, string) -> bool)
    requires Sorted(s, Order(SortConfig(Clicks, d), localeLe))
    ensures forall i, j :: 0 <= i < j < |s| ==> if d == Asc then s[i].clicks <= s[j].clicks else s[i].clicks >= s[j].clicks
  {
    forall i, j | 0 <= i < j < |s|
      ensures if d == Asc then s[i].clicks <= s[j].clicks else s[i].clicks >= s[j].clicks
    {
      assert Order(SortConfig(Clicks, d), localeLe)(s[i], s[j]);
    }
  }

  // ---------------------------------------------------------------------------
  // applyFiltersAndSort

  /**
   * The list the page shows for a state: the records that pass every filter,
   * in the order the stable sort by the chosen key and direction gives them.
   */
  function View(urls: seq<UrlData>, v: ViewState, env: Platform): seq<UrlData>
  {
    InsertionSort(Kept(urls, v, env), Order(v.sortConfig, env.localeLe))
  }

  /**
   * Recomputing the view from the shown list itself gives it back: every
   * shown record passes the filters, and a sorted list stays as it is.
   */
  lemma ViewIdempotent(urls: seq<UrlData>, v: ViewState, env: Platform)
    requires TotalPreorder(env.localeLe)
    ensures Kept(View(urls, v, env), v, env) == View(urls, v, env)
    ensures View(View(urls, v, env), v, env) == View(urls, v, env)
  {
    var le := Order(v.sortConfig, env.localeLe);
    var shown := View(urls, v, env);
    OrderIsTotalPreorder(v.sortConfig, env.localeLe);
    InsertionSortCorrect(Kept(urls, v, env), le);
    forall u | u in shown ensures Keep(u, v, env) {
      assert u in multiset(shown);
      assert u in multiset(Kept(urls, v, env));
    }
    SelectAll(shown, (u: UrlData) => Keep(u, v, env));
    InsertionSortOfSorted(shown, le);
  }

  /**
   * At mount the page shows every record, newest first by `createdAt` as
   * `localeCompare` orders it, records with equal dates in their order in `urls`.
   */
  lemma InitialViewShowsAll(urls: seq<UrlData>, env: Platform)
    requires TotalPreorder(env.localeLe)
    ensures multiset(View(urls, InitialView, env)) == multiset(urls)
    ensures var shown := View(urls, InitialView, env);
      forall i, j :: 0 <= i < j < |shown| ==> env.localeLe(shown[j].createdAt, shown[i].createdAt)
    ensures StableFor(View(urls, InitialView, env), urls, Order(InitialSortConfig, env.localeLe))
  {
    var le := Order(InitialSortConfig, env.localeLe);
    InitialViewKeepsAll(urls, env);
    OrderIsTotalPreorder(InitialSortConfig, env.localeLe);
    InsertionSortCorrect(urls, le);
    var shown := View(urls, InitialView, env);
    forall i, j | 0 <= i < j < |shown| ensures env.localeLe(shown[j].createdAt, shown[i].createdAt) {
      assert le(shown[i], shown[j]);
    }
  }

  /**
   * Recomputes the shown list: a copy of `urls` narrowed stage by stage, then
   * sorted in place. The result holds exactly the records that pass every
   * filter, as many times as `urls` does; it is sorted by the chosen key and
   * direction; records with equal keys keep their order in `urls`; and it is
   * the list `View` specifies.
   */
  method ApplyFiltersAndSort(urls: seq<UrlData>, v: ViewState, env: Platform) returns (filtered: seq<UrlData>)
    requires TotalPreorder(env.localeLe)
    ensures forall u :: u in filtered <==> u in urls && Keep(u, v, env)
    ensures forall u :: multiset(filtered)[u] == if Keep(u, v, env) then multiset(urls)[u] else 0
    ensures Sorted(filtered, Order(v.sortConfig, env.localeLe))
    ensures StableFor(filtered, Kept(urls, v, env), Order(v.sortConfig, env.localeLe))
    ensures filtered == View(urls, v, env)
  {
    var stage := FilterStages(urls, v, env);
    var a := new UrlData[|stage|](i requires 0 <= i < |stage| => stage[i]);
    assert a[..] == stage;
    var le := Order(v.sortConfig, env.localeLe);
    SortInPlace(a, le);
    filtered := a[..];
    OrderIsTotalPreorder(v.sortConfig, env.localeLe);
    InsertionSortCorrect(stage, le);
    forall u ensures multiset(filtered)[u] == if Keep(u, v, env) then multiset(urls)[u] else 0 {
      SelectMultiset(urls, (u: UrlData) => Keep(u, v, env), u);
    }
    forall u ensures u in filtered <==> u in urls && Keep(u, v, env) {
      assert u in filtered <==> u in multiset(filtered);
      assert u in stage <==> u in multiset(stage);
    }
  }

  /** The filtering half of `ApplyFiltersAndSort`: the page's six stages, each run only when its control is set. */
  method FilterStages(urls: seq<UrlData>, v: ViewState, env: Platform) returns (stage: seq<UrlData>)
    ensures stage == Kept(urls, v, env)
  {
    stage := urls;
    SelectAll(urls, (u: UrlData) => PassesStages(0, u, v, env));
    stage := RunStage(urls, stage, 0, v, env);  // search text
    stage := RunStage(urls, stage, 1, v, env);  // selected tags
    stage := RunStage(urls, stage, 2, v, env);  // expired
    stage := RunStage(urls, stage, 3, v, env);  // private
    stage := RunStage(urls, stage, 4, v, env);  // start date
    stage := RunStage(urls, stage, 5, v, env);  // end date
    SelectSame(urls, (u: UrlData) => PassesStages(6, u, v, env), (u: UrlData) => Keep(u, v, env));
    KeptIsFilter(urls, v, env);
  }

  /** Filter stage `n`: `if (control) filtered = filtered.filter(test)`. */
  method RunStage(urls: seq<UrlData>, prev: seq<UrlData>, n: nat, v: ViewState, env: Platform) returns (next: seq<UrlData>)
    requires n < 6
    requires prev == Select(urls, (u: UrlData) => PassesStages(n, u, v, env))
    ensures next == Select(urls, (u: UrlData) => PassesStages(n + 1, u, v, env))
  {
    var test := (u: UrlData) => StageTest(n, u, v, env);
    next := prev;
    if StageActive(n, v) {
      next := Select(prev, test);
    }
    Narrowed(urls, prev, next, n, test, v, env);
  }

  lemma KeptIsFilter(urls: seq<UrlData>, v: ViewState, env: Platform)
    ensures Kept(urls, v, env) == Select(urls, (u: UrlData) => Keep(u, v, env))
  {
  }

  /** Whether the page runs filter stage `n`, and the test that stage applies. */
  predicate StageActive(n: nat, v: ViewState)
  {
    match n
    case 0 => v.searchQuery != ""
    case 1 => |v.selectedTags| > 0
    case 2 => !v.filterConfig.showExpired
    case 3 => !v.filterConfig.showPrivate
    case 4 => v.filterConfig.dateRange.start != ""
    case _ => v.filterConfig.dateRange.end != ""
  }

  predicate StageTest(n: nat, u: UrlData, v: ViewState, env: Platform)
  {
    match n
    case 0 => MatchesSearch(u, v.searchQuery, env)
    case 1 => HasAllTags(u.tags, v.selectedTags)
    case 2 => NotExpired(u.expiresAt, env.now, env.parseDate)
    case 3 => !u.isPrivate
    case 4 => NotBefore(env.parseDate, u.createdAt, v.filterConfig.dateRange.start)
    case _ => NotAfter(env.parseDate, u.createdAt, v.filterConfig.dateRange.end)
  }

  /**
   * One filter stage of `FilterStages`: if `prev` holds the records passing
   * the first `n` stages, then running stage `n` when it is active, and
   * skipping it otherwise, leaves the records passing the first `n + 1`.
   */
  lemma Narrowed(urls: seq<UrlData>, prev: seq<UrlData>, stage: seq<UrlData>, n: nat,
                 q: UrlData -> bool, v: ViewState, env: Platform)
    requires n < 6
    requires prev == Select(urls, (u: UrlData) => PassesStages(n, u, v, env))
    requires stage == if StageActive(n, v) then Select(prev, q) else prev
    requires forall u :: q(u) == StageTest(n, u, v, env)
    ensures stage == Select(urls, (u: UrlData) => PassesStages(n + 1, u, v, env))
  {
    if StageActive(n, v) {
      SelectSelect(urls, (u: UrlData) => PassesStages(n, u, v, env), q, (u: UrlData) => PassesStages(n + 1, u, v, env));
    } else {
      SelectSame(urls, (u: UrlData) => PassesStages(n, u, v, env), (u: UrlData) => PassesStages(n + 1, u, v, env));
    }
  }

  // ---------------------------------------------------------------------------
  // Export

  const ExportHeader: seq<string> := ["Original URL", "Short URL", "Created At", "Expires At", "Clicks", "Tags"]

  /** `url.tags?.join(', ') || ''`. */
  function TagsCell(tags: Option<seq<string>>): string
  {
    if tags.Some? then Join(tags.value, ", ") else ""
  }

  /** The six cells of a record's row. */
  function ExportCells(u: UrlData, formatTs: string -> string): seq<string>
  {
    [ u.originalUrl,
      u.shortUrl,
      formatTs(u.createdAt),
      if Truthy(u.expiresAt) then formatTs(u.expiresAt.value) else "",
      IntToString(u.clicks),
      TagsCell(u.tags) ]
  }

  /** The header row, then one row per record; the cells of a row joined by `,`. */
  function ExportLines(urls: seq<UrlData>, formatTs: string -> string): seq<string>
  {
    [Join(ExportHeader, ",")] + seq(|urls|, i requires 0 <= i < |urls| => Join(ExportCells(urls[i], formatTs), ","))
  }

  /** The text of the export: the rows joined by line breaks, with no line break at the end. */
  function ExportText(urls: seq<UrlData>, formatTs: string -> string): string
  {
    Join(ExportLines(urls, formatTs), "\n")
  }

  /** The dates a record's row formats parse: `createdAt`, and `expiresAt` when it is set. */
  predicate DatesValid(u: UrlData, parseDate: string -> Option<int>)
  {
    parseDate(u.createdAt).Some? && (Truthy(u.expiresAt) ==> parseDate(u.expiresAt.value).Some?)
  }

  /**
   * `exportUrls`: date-fns `format` throws a RangeError on an Invalid Date,
   * so the export yields its text only when every date it formats parses;
   * otherwise it stops and nothing is downloaded (`None`). `formatTs` is the
   * formatting of a date that parses.
   */
  function ExportUrls(urls: seq<UrlData>, parseDate: string -> Option<int>, formatTs: string -> string): (r: Option<string>)
    ensures r.Some? <==> forall u :: u in urls ==> DatesValid(u, parseDate)
    ensures r.Some? ==> r.value == ExportText(urls, formatTs)
  {
    if forall i :: 0 <= i < |urls| ==> DatesValid(urls[i], parseDate) then Some(ExportText(urls, formatTs)) else None
  }

  /** The record holds no `c` in any text the export copies, and the date format writes none. */
  predicate CharFree(u: UrlData, formatTs: string -> string, c: char)
  {
    && c !in u.originalUrl
    && c !in u.shortUrl
    && c !in formatTs(u.createdAt)
    && (u.expiresAt.Some? ==> c !in formatTs(u.expiresAt.value))
    && (u.tags.Some? ==> forall t :: t in u.tags.value ==> c !in t)
  }

  /**
   * How many `,` the cells of a record hold: those of its URLs, dates and
   * tags, plus one separator per tag after the first; none in the clicks cell.
   * With no `,` in any text, only the `k - 1` tag separators remain.
   */
  lemma CellCommas(u: UrlData, formatTs: string -> string)
    ensures CountCharAll(ExportCells(u, formatTs), ',') ==
      CountChar(u.originalUrl, ',') + CountChar(u.shortUrl, ',') + CountChar(formatTs(u.createdAt), ',')
      + (if Truthy(u.expiresAt) then CountChar(formatTs(u.expiresAt.value), ',') else 0)
      + (if u.tags.Some? && u.tags.value != [] then CountCharAll(u.tags.value, ',') + |u.tags.value| - 1 else 0)
    ensures CharFree(u, formatTs, ',') ==>
      CountCharAll(ExportCells(u, formatTs), ',') == if u.tags.Some? && |u.tags.value| > 1 then |u.tags.value| - 1 else 0
  {
    var cells := ExportCells(u, formatTs);
    IntToStringRoundTrip(u.clicks);
    CountCharAbsent(cells[4], ',');
    assert CountCharAll(cells[..1], ',') == CountChar(cells[0], ',') by { assert cells[..1][..0] == []; }
    assert CountCharAll(cells[..2], ',') == CountCharAll(cells[..1], ',') + CountChar(cells[1], ',') by { assert cells[..2][..1] == cells[..1]; }
    assert CountCharAll(cells[..3], ',') == CountCharAll(cells[..2], ',') + CountChar(cells[2], ',') by { assert cells[..3][..2] == cells[..2]; }
    assert CountCharAll(cells[..4], ',') == CountCharAll(cells[..3], ',') + CountChar(cells[3], ',') by { assert cells[..4][..3] == cells[..3]; }
    assert CountCharAll(cells[..5], ',') == CountCharAll(cells[..4], ',') + CountChar(cells[4], ',') by { assert cells[..5][..4] == cells[..4]; }
    assert CountCharAll(cells, ',') == CountCharAll(cells[..5], ',') + CountChar(cells[5], ',') by { assert cells[..|cells| - 1] == cells[..5]; }
    assert CountChar(", ", ',') == 1;
    if u.tags.Some? && u.tags.value != [] {
      CountCharJoin(u.tags.value, ", ", ',');
      if CharFree(u, formatTs, ',') {
        forall i | 0 <= i < |u.tags.value| ensures ',' !in u.tags.value[i] {
          assert u.tags.value[i] in u.tags.value;
        }
        CountCharAllAbsent(u.tags.value, ',');
      }
    }
    if CharFree(u, formatTs, ',') {
      CountCharAbsent(u.originalUrl, ',');
      CountCharAbsent(u.shortUrl, ',');
      CountCharAbsent(formatTs(u.createdAt), ',');
      if Truthy(u.expiresAt) {
        CountCharAbsent(formatTs(u.expiresAt.value), ',');
      }
    }
  }

  /** The header row has no line break. */
  lemma HeaderLine()
    ensures '\n' !in Join(ExportHeader, ",")
  {
    assert forall i :: 0 <= i < |ExportHeader| ==> '\n' !in ExportHeader[i];
    CountCharAllAbsent(ExportHeader, '\n');
    CountCharJoin(ExportHeader, ",", '\n');
    CountCharZero(Join(ExportHeader, ","), '\n');
  }

  /** A record's row has no line break when its texts have none. */
  lemma RowHasNoLineBreak(u: UrlData, formatTs: string -> string)
    requires CharFree(u, formatTs, '\n')
    ensures '\n' !in Join(ExportCells(u, formatTs), ",")
  {
    var cells := ExportCells(u, formatTs);
    IntToStringRoundTrip(u.clicks);
    if u.tags.Some? && u.tags.value != [] {
      forall i | 0 <= i < |u.tags.value| ensures '\n' !in u.tags.value[i] {
        assert u.tags.value[i] in u.tags.value;
      }
      CountCharAllAbsent(u.tags.value, '\n');
      CountCharJoin(u.tags.value, ", ", '\n');
      CountCharZero(TagsCell(u.tags), '\n');
    }
    CountCharAllAbsent(cells, '\n');
    CountCharJoin(cells, ",", '\n');
    CountCharZero(Join(cells, ","), '\n');
  }

  /**
   * Reading the export back line by line: the fixed header, then one row per
   * record of the view, in the view's order, as long as no text holds a line break.
   */
  lemma ExportLinesRoundTrip(urls: seq<UrlData>, formatTs: string -> string)
    requires forall u :: u in urls ==> CharFree(u, formatTs, '\n')
    ensures var lines := Split(ExportText(urls, formatTs), '\n');
      && |lines| == |urls| + 1
      && lines[0] == Join(ExportHeader, ",")
      && forall i :: 0 <= i < |urls| ==> lines[i + 1] == Join(ExportCells(urls[i], formatTs), ",")
  {
    LinesHaveNoLineBreak(urls, formatTs);
    SplitJoin(ExportLines(urls, formatTs), '\n');
  }

  lemma LinesHaveNoLineBreak(urls: seq<UrlData>, formatTs: string -> string)
    requires forall u :: u in urls ==> CharFree(u, formatTs, '\n')
    ensures forall i :: 0 <= i < |ExportLines(urls, formatTs)| ==> '\n' !in ExportLines(urls, formatTs)[i]
  {
    var lines := ExportLines(urls, formatTs);
    HeaderLine();
    forall i | 1 <= i < |lines| ensures '\n' !in lines[i] {
      assert urls[i - 1] in urls;
      RowHasNoLineBreak(urls[i - 1], formatTs);
    }
  }

  /**
   * The row of a record with at most one tag reads back, split on `,`, as its
   * six cells, and the clicks cell parses back to the click count.
   */
  lemma ExportRowRoundTrip(u: UrlData, formatTs: string -> string)
    requires CharFree(u, formatTs, ',')
    requires u.tags.Some? ==> |u.tags.value| <= 1
    ensures Split(Join(ExportCells(u, formatTs), ","), ',') == ExportCells(u, formatTs)
    ensures IsIntText(ExportCells(u, formatTs)[4]) && ParseInt(ExportCells(u, formatTs)[4]) == u.clicks
  {
    var cells := ExportCells(u, formatTs);
    CellCommas(u, formatTs);
    forall i | 0 <= i < 6 ensures ',' !in cells[i] {
      CountCharZero(cells[i], ',');
      assert CountChar(cells[i], ',') <= CountCharAll(cells, ',') by {
        CountCharAllBound(cells, i, ',');
      }
    }
    SplitJoin(cells, ',');
    IntToStringRoundTrip(u.clicks);
  }

  /**
   * The export is not RFC 4180 CSV: no cell is quoted, so every `,` inside a
   * cell splits the row further; a row has six fields plus one per such `,`.
   * With no `,` in any text, the tags cell of a record with `k` tags adds
   * `k - 1` separators and its row splits into `5 + k` fields, more than the
   * header's six once `k >= 2`.
   */
  lemma ExportRowWidth(u: UrlData, formatTs: string -> string)
    ensures |Split(Join(ExportCells(u, formatTs), ","), ',')| == 6 + CountCharAll(ExportCells(u, formatTs), ',')
    ensures CharFree(u, formatTs, ',') ==>
      |Split(Join(ExportCells(u, formatTs), ","), ',')| == if u.tags.Some? && |u.tags.value| > 1 then 5 + |u.tags.value| else 6
  {
    var cells := ExportCells(u, formatTs);
    CellCommas(u, formatTs);
    CountCharJoin(cells, ",", ',');
    SplitLength(Join(cells, ","), ',');
  }

  // ---------------------------------------------------------------------------
  // Tag list and new records

  function TagsOf(u: UrlData): Option<seq<string>>
  {
    u.tags
  }

  /**
   * `allTags`: every tag of any record, once each, in the order the tags
   * first occur when the records' tag lists are read one after another.
   */
  function AllTags(urls: seq<UrlData>): (r: seq<string>)
    ensures NoDuplicates(r)
    ensures forall t :: t in r <==> t in Flatten(TagLists(urls, TagsOf))
    ensures forall t :: t in r <==> exists u :: u in urls && u.tags.Some? && t in u.tags.value
    ensures forall i, j :: 0 <= i < j < |r| ==>
      FirstIndex(Flatten(TagLists(urls, TagsOf)), r[i]) < FirstIndex(Flatten(TagLists(urls, TagsOf)), r[j])
  {
    AllTagsOf(urls, TagsOf)
  }

  /** `[newUrl, ...prev]`. */
  function AddCreated(urls: seq<UrlData>, newUrl: UrlData): (r: seq<UrlData>)
    ensures |r| == |urls| + 1 && r[0] == newUrl && r[1..] == urls
  {
    [newUrl] + urls
  }

  /** A created record shows at the front of the filtered list exactly when it passes the filters. */
  lemma AddCreatedView(urls: seq<UrlData>, newUrl: UrlData, v: ViewState, env: Platform)
    ensures Kept(AddCreated(urls, newUrl), v, env) == (if Keep(newUrl, v, env) then [newUrl] else []) + Kept(urls, v, env)
  {
    SelectAppend([newUrl], urls, (u: UrlData) => Keep(u, v, env));
  }

  /**
   * In the shown list, a created record adds one occurrence of itself when it
   * passes the filters, and changes nothing otherwise.
   */
  lemma AddCreatedShown(urls: seq<UrlData>, newUrl: UrlData, v: ViewState, env: Platform)
    ensures multiset(View(AddCreated(urls, newUrl), v, env)) ==
      multiset(View(urls, v, env)) + (if Keep(newUrl, v, env) then multiset{newUrl} else multiset{})
    ensures !Keep(newUrl, v, env) ==> View(AddCreated(urls, newUrl), v, env) == View(urls, v, env)
  {
    var le := Order(v.sortConfig, env.localeLe);
    AddCreatedView(urls, newUrl, v, env);
    InsertionSortPermutes(Kept(AddCreated(urls, newUrl), v, env), le);
    InsertionSortPermutes(Kept(urls, v, env), le);
    if !Keep(newUrl, v, env) {
      assert [] + Kept(urls, v, env) == Kept(urls, v, env);
    }
  }

  /**
   * Where a created record that passes the filters lands: sorted by its key,
   * and ahead of every shown record whose key ties with its own, as the
   * stable sort keeps the order of the prepended list.
   */
  lemma AddCreatedFirstAmongTies(urls: seq<UrlData>, newUrl: UrlData, v: ViewState, env: Platform)
    requires TotalPreorder(env.localeLe)
    requires Keep(newUrl, v, env)
    ensures var le := Order(v.sortConfig, env.localeLe);
      KeyGroup(View(AddCreated(urls, newUrl), v, env), le, newUrl) == [newUrl] + KeyGroup(View(urls, v, env), le, newUrl)
  {
    var le := Order(v.sortConfig, env.localeLe);
    OrderIsTotalPreorder(v.sortConfig, env.localeLe);
    AddCreatedView(urls, newUrl, v, env);
    InsertionSortCorrect(Kept(AddCreated(urls, newUrl), v, env), le);
    InsertionSortCorrect(Kept(urls, v, env), le);
    KeyGroupConcat([newUrl], Kept(urls, v, env), le, newUrl);
    assert le(newUrl, newUrl);
    KeyGroupAppend([], newUrl, le, newUrl);
    assert [] + [newUrl] == [newUrl];
  }
}
