/**
 * The dashboard's derived values: the search-and-tag filter over the link
 * records (with no sorting), the three summary counts, the distinct tag list,
 * the selected-tags updaters and the prepend of a newly created record.
 *
 * The dashboard reads its records with the field names `shortUrl`, `clicks`,
 * `expiresAt` and `tags`; each may be absent on a record (the sample records
 * the dashboard starts with carry `shortCode` and `clickCount` instead).
 * `toLowerCase` is the parameter `toLower`, `new Date(...)` the parameter
 * `parseDate`, and `new Date()` the timestamp `now`.
 */
module Dashboard {
  import opened Seqs
  import opened Js

  datatype DashUrl = DashUrl(
    originalUrl: string,
    shortUrl: Option<string>,
    expiresAt: Option<string>,
    tags: Option<seq<string>>,
    clicks: Option<int>)

  // ---------------------------------------------------------------------------
  // filteredUrls

  /**
   * The search test can be evaluated: it reads `url.shortUrl.toLowerCase()`
   * only when the query is non-empty and `originalUrl` does not match, and
   * that read throws when the record has no `shortUrl`.
   */
  predicate SearchDefined(u: DashUrl, query: string, toLower: string -> string)
  {
    query == "" || Includes(toLower(u.originalUrl), toLower(query)) || u.shortUrl.Some?
  }

  predicate MatchesSearch(u: DashUrl, query: string, toLower: string -> string)
    requires SearchDefined(u, query, toLower)
  {
    || query == ""
    || Includes(toLower(u.originalUrl), toLower(query))
    || Includes(toLower(u.shortUrl.value), toLower(query))
  }

  predicate MatchesTags(u: DashUrl, selected: seq<string>)
  {
    |selected| == 0 || HasAllTags(u.tags, selected)
  }

  predicate Matches(u: DashUrl, query: string, selected: seq<string>, toLower: string -> string)
  {
    SearchDefined(u, query, toLower) && MatchesSearch(u, query, toLower) && MatchesTags(u, selected)
  }

  /**
   * `filteredUrls`: the records that match the search and carry every
   * selected tag, in the order of `urls`.
   */
  function FilteredUrls(urls: seq<DashUrl>, query: string, selected: seq<string>, toLower: string -> string): (r: seq<DashUrl>)
    requires forall u :: u in urls ==> SearchDefined(u, query, toLower)
    ensures forall u :: u in r <==> u in urls && MatchesSearch(u, query, toLower) && MatchesTags(u, selected)
    ensures forall u :: u in urls ==>
      multiset(r)[u] == if MatchesSearch(u, query, toLower) && MatchesTags(u, selected) then multiset(urls)[u] else 0
    ensures IsSubsequence(r, urls)
  {
    var p := (u: DashUrl) => Matches(u, query, selected, toLower);
    SelectMembers(urls, p);
    forall u | u in urls
      ensures multiset(Select(urls, p))[u] == if MatchesSearch(u, query, toLower) && MatchesTags(u, selected) then multiset(urls)[u] else 0
    {
      SelectMultiset(urls, p, u);
    }
    SelectIsSubsequence(urls, p);
    Select(urls, p)
  }

  /**
   * What the filter means: with a query, a record stays when its lower-cased
   * `originalUrl` or `shortUrl` contains the lower-cased query; with a
   * selection, when its tags hold every selected tag (a record without tags
   * drops out); with neither, every record stays in place.
   */
  lemma FilteredUrlsMeaning(urls: seq<DashUrl>, query: string, selected: seq<string>, toLower: string -> string, u: DashUrl)
    requires forall u :: u in urls ==> SearchDefined(u, query, toLower)
    requires u in urls
    ensures query != "" && selected == [] ==>
      (u in FilteredUrls(urls, query, selected, toLower) <==>
        Includes(toLower(u.originalUrl), toLower(query)) || (u.shortUrl.Some? && Includes(toLower(u.shortUrl.value), toLower(query))))
    ensures query == "" ==>
      (u in FilteredUrls(urls, query, selected, toLower) <==>
        selected == [] || (u.tags.Some? && (set t | t in selected) <= (set t | t in u.tags.value)))
    ensures query == "" && selected == [] ==> FilteredUrls(urls, query, selected, toLower) == urls
  {
    HasAllTagsMeaning(u.tags, selected);
    if query == "" && selected == [] {
      SelectAll(urls, (u: DashUrl) => Matches(u, query, selected, toLower));
    }
  }

  /** Selecting a tag that is already selected does not change what the filter keeps. */
  lemma ReselectKeepsFilter(urls: seq<DashUrl>, query: string, selected: seq<string>, tag: string, toLower: string -> string)
    requires forall u :: u in urls ==> SearchDefined(u, query, toLower)
    requires tag in selected
    ensures FilteredUrls(urls, query, TagSelect(selected, tag), toLower) == FilteredUrls(urls, query, selected, toLower)
  {
    forall u | u in urls
      ensures Matches(u, query, TagSelect(selected, tag), toLower) == Matches(u, query, selected, toLower)
    {
      assert forall t :: t in TagSelect(selected, tag) <==> t in selected;
    }
    SelectSame(urls, (u: DashUrl) => Matches(u, query, TagSelect(selected, tag), toLower),
                     (u: DashUrl) => Matches(u, query, selected, toLower));
  }

  /** Removing a selected tag only widens the filter: every record kept before is still kept. */
  lemma RemoveWidensFilter(urls: seq<DashUrl>, query: string, selected: seq<string>, tag: string, toLower: string -> string)
    requires forall u :: u in urls ==> SearchDefined(u, query, toLower)
    ensures forall u :: u in FilteredUrls(urls, query, selected, toLower) ==> u in FilteredUrls(urls, query, TagRemove(selected, tag), toLower)
  {
    var fewer := TagRemove(selected, tag);
    forall u | u in FilteredUrls(urls, query, selected, toLower)
      ensures MatchesTags(u, fewer)
    {
      if |fewer| != 0 {
        assert |selected| != 0 by {
          assert fewer[0] in selected;
        }
      }
    }
  }

  // ---------------------------------------------------------------------------
  // dashboardData

  /** `url.clicks || 0`. */
  function ClicksOrZero(c: Option<int>): int
  {
    if c.Some? then c.value else 0
  }

  /** `totalUrls`: every record, whatever the search and the tag selection. */
  function TotalUrls(urls: seq<DashUrl>): nat
  {
    |urls|
  }

  /**
   * `urls.reduce((acc, url) => acc + (url.clicks || 0), 0)`, folding from the
   * left. Read from the front it is the plain sum: the first record's count,
   * or 0 when it has none, plus the total of the rest.
   */
  function TotalClicks(urls: seq<DashUrl>): (r: int)
    ensures urls == [] ==> r == 0
    ensures urls != [] ==> r == ClicksOrZero(urls[0].clicks) + TotalClicks(urls[1..])
  {
    if urls == [] then 0
    else
      var init, last := urls[..|urls| - 1], urls[|urls| - 1];
      assert |urls| > 1 ==> urls[1..][..|urls| - 2] == init[1..];
      TotalClicks(init) + ClicksOrZero(last.clicks)
  }

  /** The total adds up the click counts of both halves of a list. */
  lemma {:induction false} TotalClicksAppend(a: seq<DashUrl>, b: seq<DashUrl>)
    ensures TotalClicks(a + b) == TotalClicks(a) + TotalClicks(b)
    decreases |b|
  {
    if b != [] {
      TotalClicksAppend(a, b[..|b| - 1]);
      assert (a + b)[..|a + b| - 1] == a + b[..|b| - 1];
    } else {
      assert a + b == a;
    }
  }

  /** Records without a click count add nothing, and no count below zero makes the total negative. */
  lemma {:induction false} TotalClicksBounds(urls: seq<DashUrl>)
    ensures (forall u :: u in urls ==> u.clicks.None?) ==> TotalClicks(urls) == 0
    ensures (forall u :: u in urls && u.clicks.Some? ==> u.clicks.value >= 0) ==> TotalClicks(urls) >= 0
  {
    if urls != [] {
      TotalClicksBounds(urls[..|urls| - 1]);
      assert forall u :: u in urls[..|urls| - 1] ==> u in urls;
    }
  }

  predicate IsActive(u: DashUrl, now: int, parseDate: string -> Option<int>)
  {
    NotExpired(u.expiresAt, now, parseDate)
  }

  /** `activeLinks`: the records with no expiry, or an expiry after `now`. */
  function ActiveLinks(urls: seq<DashUrl>, now: int, parseDate: string -> Option<int>): (r: nat)
    ensures r <= |urls|
    ensures r == |urls| <==> forall i :: 0 <= i < |urls| ==> IsActive(urls[i], now, parseDate)
  {
    var active := (u: DashUrl) => IsActive(u, now, parseDate);
    SelectLengthFull(urls, active);
    |Select(urls, active)|
  }

  /** Every record is counted either as active or as expired. */
  lemma ActivePlusExpired(urls: seq<DashUrl>, now: int, parseDate: string -> Option<int>)
    ensures ActiveLinks(urls, now, parseDate) + |Select(urls, (u: DashUrl) => !IsActive(u, now, parseDate))| == TotalUrls(urls)
  {
    SelectPartition(urls, (u: DashUrl) => IsActive(u, now, parseDate), (u: DashUrl) => !IsActive(u, now, parseDate));
  }

  datatype CountryCount = CountryCount(country: string, count: nat)

  /** The fixed `topCountries` list of the dashboard data. */
  const TopCountries: seq<CountryCount> := [
    CountryCount("United States", 1250),
    CountryCount("United Kingdom", 850),
    CountryCount("Germany", 750),
    CountryCount("France", 600),
    CountryCount("Japan", 450)
  ]

  /**
   * The countries are listed by decreasing count, so the first one has the
   * largest count. The bars are drawn at `count / topCountries[0].count` of
   * the full width; that floating-point width is not modelled, and this is
   * the fact that keeps every bar between empty and full.
   */
  lemma TopCountriesDescending()
    ensures forall i, j :: 0 <= i < j < |TopCountries| ==> TopCountries[i].count >= TopCountries[j].count
    ensures forall i :: 0 <= i < |TopCountries| ==> 0 < TopCountries[i].count <= TopCountries[0].count
  {
  }

  // ---------------------------------------------------------------------------
  // allTags

  function TagsOf(u: DashUrl): Option<seq<string>>
  {
    u.tags
  }

  /**
   * `allTags`: every tag of any record, once each, in the order the tags
   * first occur when the records' tag lists are read one after another.
   */
  function AllTags(urls: seq<DashUrl>): (r: seq<string>)
    ensures NoDuplicates(r)
    ensures forall t :: t in r <==> t in Flatten(TagLists(urls, TagsOf))
    ensures forall t :: t in r <==> exists u :: u in urls && u.tags.Some? && t in u.tags.value
    ensures forall i, j :: 0 <= i < j < |r| ==>
      FirstIndex(Flatten(TagLists(urls, TagsOf)), r[i]) < FirstIndex(Flatten(TagLists(urls, TagsOf)), r[j])
  {
    AllTagsOf(urls, TagsOf)
  }

  // ---------------------------------------------------------------------------
  // Selected tags

  /** `handleTagSelect`: `[...prev, tag]`, even when `tag` is already selected. */
  function TagSelect(prev: seq<string>, tag: string): (r: seq<string>)
    ensures |r| == |prev| + 1 && r[..|prev|] == prev && r[|prev|] == tag
    ensures Count(r, tag) == Count(prev, tag) + 1
  {
    prev + [tag]
  }

  /** `handleTagRemove`: `prev.filter(t => t !== tag)`. */
  function TagRemove(prev: seq<string>, tag: string): (r: seq<string>)
    ensures forall t :: t in r <==> t in prev && t != tag
    ensures forall t :: t != tag ==> Count(r, t) == Count(prev, t)
    ensures IsSubsequence(r, prev)
  {
    var keep := (t: string) => t != tag;
    SelectIsSubsequence(prev, keep);
    SelectMembers(prev, keep);
    forall t ensures Count(Select(prev, keep), t) == if t != tag then Count(prev, t) else 0 {
      SelectMultiset(prev, keep, t);
    }
    Select(prev, keep)
  }

  /** Removing a tag right after selecting it leaves no trace of either step beyond the removal. */
  lemma SelectThenRemove(prev: seq<string>, tag: string)
    ensures TagRemove(TagSelect(prev, tag), tag) == TagRemove(prev, tag)
  {
    SelectAppend(prev, [tag], (t: string) => t != tag);
  }

  /** Removing a tag twice is removing it once. */
  lemma RemoveIdempotent(prev: seq<string>, tag: string)
    ensures TagRemove(TagRemove(prev, tag), tag) == TagRemove(prev, tag)
  {
    SelectAll(TagRemove(prev, tag), (t: string) => t != tag);
  }

  // ---------------------------------------------------------------------------
  // New records

  /** After a successful create: `[newUrl, ...prev]`. */
  function AddCreated(urls: seq<DashUrl>, newUrl: DashUrl): (r: seq<DashUrl>)
    ensures |r| == |urls| + 1 && r[0] == newUrl && r[1..] == urls
  {
    [newUrl] + urls
  }

  /** What a prepended record changes in the dashboard: each count and the filtered list gain only it. */
  lemma AddCreatedEffects(urls: seq<DashUrl>, newUrl: DashUrl, query: string, selected: seq<string>,
                          toLower: string -> string, now: int, parseDate: string -> Option<int>)
    requires SearchDefined(newUrl, query, toLower)
    requires forall u :: u in urls ==> SearchDefined(u, query, toLower)
    ensures TotalUrls(AddCreated(urls, newUrl)) == TotalUrls(urls) + 1
    ensures TotalClicks(AddCreated(urls, newUrl)) == ClicksOrZero(newUrl.clicks) + TotalClicks(urls)
    ensures ActiveLinks(AddCreated(urls, newUrl), now, parseDate) ==
      ActiveLinks(urls, now, parseDate) + (if IsActive(newUrl, now, parseDate) then 1 else 0)
    ensures FilteredUrls(AddCreated(urls, newUrl), query, selected, toLower) ==
      (if Matches(newUrl, query, selected, toLower) then [newUrl] else []) + FilteredUrls(urls, query, selected, toLower)
  {
    TotalClicksAppend([newUrl], urls);
    assert [newUrl][..0] == [];
    SelectAppend([newUrl], urls, (u: DashUrl) => IsActive(u, now, parseDate));
    SelectAppend([newUrl], urls, (u: DashUrl) => Matches(u, query, selected, toLower));
  }

  /**
   * The two sample records the dashboard starts with: they carry their counts
   * under `clickCount` and their short codes under `shortCode`, so the
   * dashboard reads neither a click count nor a short URL from them. The
   * first record's expiry is computed at load time as seven days after the
   * current date; the text below stands for that computed date.
   */
  const SampleUrls: seq<DashUrl> := [
    DashUrl("https://example.com/product", None, Some("7 days from now"), Some(["demo", "product", "sale"]), None),
    DashUrl("https://openai.com/research", None, None, Some(["ai", "ml", "research"]), None)
  ]

  /** The sample records add up to zero clicks, whatever their `clickCount`. */
  lemma SampleTotalClicksZero()
    ensures TotalClicks(SampleUrls) == 0
  {
    TotalClicksBounds(SampleUrls);
  }
}
