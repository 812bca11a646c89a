/**
  The home page's newsletter feed: keyword categorisation, the category
  filter, nine-item pages, the five-button page window, the "New" badge,
  the results line, and the feed state the buttons update.
 */
module Feed {
  import opened Wrappers
  import opened JsStrings

  /** The `date` of a listed newsletter: absent (or empty), not a date `new Date` can read, or a time in milliseconds. */
  datatype DateField = NoDate | Unparseable | At(ms: int)

  /** A newsletter as the feed receives it from GET /api/newsletters. */
  datatype FeedItem = FeedItem(
    id: string, title: string, description: Option<string>, content: Option<string>,
    date: DateField, imageUrl: Option<string>)

  /** A parsed JSON response: an array of newsletters, or anything else. */
  datatype Json = JsonArray(items: seq<FeedItem>) | JsonOther

  /** `Array.isArray(n) ? n : []`, with a failed fetch (`None`) also giving `[]`. */
  function ListFromResponse(fetched: Option<Json>): (r: seq<FeedItem>)
    ensures fetched.Some? && fetched.value.JsonArray? ==> r == fetched.value.items
    ensures !(fetched.Some? && fetched.value.JsonArray?) ==> r == []
  {
    if fetched.Some? && fetched.value.JsonArray? then fetched.value.items else []
  }

  // ---------------------------------------------------------------------
  // Categories

  /** The alternatives of the four regular expressions, in the order they are tried. */
  const AiWords: seq<string> := ["ai", "ml", "gpt", "neural", "model"]
  const CloudWords: seq<string> := ["cloud", "serverless", "kubernetes", "aws", "gcp", "azure"]
  /** `ci\/?cd` matches "ci/cd" and "cicd". */
  const DevOpsWords: seq<string> := ["devops", "ci/cd", "cicd", "pipeline", "docker"]
  const SecurityWords: seq<string> := ["security", "auth", "jwt", "encryption", "privacy"]

  /** The category buttons, "All" first. */
  const Categories: seq<string> := ["All", "AI", "Cloud", "DevOps", "Security", "General"]

  /** `/w1|w2|.../.test(s)`: some alternative occurs somewhere in `s`. */
  predicate ContainsAny(s: string, words: seq<string>)
    decreases |words|
  {
    |words| > 0 && (Contains(s, words[0]) || ContainsAny(s, words[1..]))
  }

  /** The scan over the alternatives finds one exactly when one of them occurs. */
  lemma {:induction false} ContainsAnyIff(s: string, words: seq<string>)
    ensures ContainsAny(s, words) <==> exists i :: 0 <= i < |words| && Contains(s, words[i])
    decreases |words|
  {
    if |words| > 0 {
      ContainsAnyIff(s, words[1..]);
      if ContainsAny(s, words[1..]) {
        var i :| 0 <= i < |words[1..]| && Contains(s, words[1..][i]);
        assert Contains(s, words[i + 1]);
      }
      forall i | 1 <= i < |words| && Contains(s, words[i]) ensures ContainsAny(s, words[1..]) {
        assert words[1..][i - 1] == words[i];
      }
    }
  }

  /** The lower-cased text the keywords are searched in: `${title} ${description ?? ''} ${content ?? ''}`. */
  function SearchText(n: FeedItem): string {
    ToLower(n.title + " " + n.description.GetOr("") + " " + n.content.GetOr(""))
  }

  /** The chain of regular-expression tests of `getCategory`, on the lower-cased text. */
  function TextCategory(t: string): (c: string)
    ensures c in Categories[1..]
  {
    if ContainsAny(t, AiWords) then "AI"
    else if ContainsAny(t, CloudWords) then "Cloud"
    else if ContainsAny(t, DevOpsWords) then "DevOps"
    else if ContainsAny(t, SecurityWords) then "Security"
    else "General"
  }

  /** `getCategory`: the first keyword group that occurs, else "General". */
  function CategoryOf(n: FeedItem): (c: string)
    ensures c in Categories[1..]
  {
    TextCategory(SearchText(n))
  }

  /** Some keyword of the group occurs in the item's text. */
  ghost predicate Mentions(n: FeedItem, words: seq<string>) {
    exists i :: 0 <= i < |words| && Contains(SearchText(n), words[i])
  }

  /**
    The groups are tried in a fixed order: an item is in a group exactly
    when it mentions one of its keywords and none of an earlier group's,
    and it is "General" exactly when it mentions none at all.
   */
  lemma CategoryPriority(n: FeedItem)
    ensures CategoryOf(n) == "AI" <==> Mentions(n, AiWords)
    ensures CategoryOf(n) == "Cloud" <==> !Mentions(n, AiWords) && Mentions(n, CloudWords)
    ensures CategoryOf(n) == "DevOps" <==>
      !Mentions(n, AiWords) && !Mentions(n, CloudWords) && Mentions(n, DevOpsWords)
    ensures CategoryOf(n) == "Security" <==>
      !Mentions(n, AiWords) && !Mentions(n, CloudWords) && !Mentions(n, DevOpsWords) && Mentions(n, SecurityWords)
    ensures CategoryOf(n) == "General" <==>
      !Mentions(n, AiWords) && !Mentions(n, CloudWords) && !Mentions(n, DevOpsWords) && !Mentions(n, SecurityWords)
  {
    MentionsIff(n, AiWords);
    MentionsIff(n, CloudWords);
    MentionsIff(n, DevOpsWords);
    MentionsIff(n, SecurityWords);
    TextCategoryCases(SearchText(n));
  }

  lemma MentionsIff(n: FeedItem, words: seq<string>)
    ensures Mentions(n, words) <==> ContainsAny(SearchText(n), words)
  {
    ContainsAnyIff(SearchText(n), words);
  }

  /** Which branch of the chain `TextCategory` takes. */
  lemma TextCategoryCases(t: string)
    ensures TextCategory(t) == "AI" <==> ContainsAny(t, AiWords)
    ensures TextCategory(t) == "Cloud" <==> !ContainsAny(t, AiWords) && ContainsAny(t, CloudWords)
    ensures TextCategory(t) == "DevOps" <==>
      !ContainsAny(t, AiWords) && !ContainsAny(t, CloudWords) && ContainsAny(t, DevOpsWords)
    ensures TextCategory(t) == "Security" <==>
      !ContainsAny(t, AiWords) && !ContainsAny(t, CloudWords) && !ContainsAny(t, DevOpsWords) && ContainsAny(t, SecurityWords)
    ensures TextCategory(t) == "General" <==>
      !ContainsAny(t, AiWords) && !ContainsAny(t, CloudWords) && !ContainsAny(t, DevOpsWords) && !ContainsAny(t, SecurityWords)
  {
  }

  /** The text is lower-cased before the search, so the case of the title does not matter. */
  lemma CategoryIgnoresCase(n: FeedItem)
    ensures CategoryOf(n.(title := ToLower(n.title))) == CategoryOf(n)
  {
    SearchTextIgnoresTitleCase(n);
  }

  lemma SearchTextIgnoresTitleCase(n: FeedItem)
    ensures SearchText(n.(title := ToLower(n.title))) == SearchText(n)
  {
    var rest := " " + n.description.GetOr("") + " " + n.content.GetOr("");
    var a := ToLower(n.title + rest);
    var b := ToLower(ToLower(n.title) + rest);
    assert |a| == |b|;
    forall i | 0 <= i < |a| ensures a[i] == b[i] {
      if i < |n.title| {
        assert (n.title + rest)[i] == n.title[i];
        assert (ToLower(n.title) + rest)[i] == LowerChar(n.title[i]);
      } else {
        assert (n.title + rest)[i] == rest[i - |n.title|];
        assert (ToLower(n.title) + rest)[i] == rest[i - |n.title|];
      }
    }
    assert n.title + " " + n.description.GetOr("") + " " + n.content.GetOr("") == n.title + rest;
    assert ToLower(n.title) + " " + n.description.GetOr("") + " " + n.content.GetOr("") == ToLower(n.title) + rest;
    assert a == b;
  }

  /**
    Keywords match anywhere, not as words: any title with "ai" somewhere in
    it, even inside a word (as in "Em" + "ai" + "l tips"), puts the item in
    AI, because AI is tested first.
   */
  lemma KeywordsMatchInsideWords(n: FeedItem, before: string, after: string)
    requires n.title == before + "ai" + after
    ensures CategoryOf(n) == "AI"
  {
    var s := n.title + " " + n.description.GetOr("") + " " + n.content.GetOr("");
    var t := SearchText(n);
    var i := |before|;
    assert s[i] == 'a' && s[i + 1] == 'i';
    assert t[i..i + 2] == "ai";
    assert OccursAt(t, "ai", i);
    ContainsIffOccurs(t, "ai");
    assert Contains(t, AiWords[0]);
  }

  // ---------------------------------------------------------------------
  // The category filter

  /** An item with its category attached once, as `{ ...n, _cat: getCategory(n) }`. */
  datatype Tagged = Tagged(item: FeedItem, cat: string)

  /** `newsletters.map(n => ({ ...n, _cat: getCategory(n) }))`. */
  function Categorize(items: seq<FeedItem>): (r: seq<Tagged>)
    ensures |r| == |items|
    ensures forall i :: 0 <= i < |r| ==> r[i].item == items[i] && r[i].cat in Categories[1..]
  {
    seq(|items|, i requires 0 <= i < |items| => Tagged(items[i], CategoryOf(items[i])))
  }

  /** The tagged items of one category, in their original order. */
  function OfCategory(tagged: seq<Tagged>, category: string): (r: seq<Tagged>)
    ensures |r| <= |tagged|
  {
    if tagged == [] then []
    else (if tagged[0].cat == category then [tagged[0]] else []) + OfCategory(tagged[1..], category)
  }

  /** `filter === 'All' ? categorized : categorized.filter(n => n._cat === filter)`. */
  function Filtered(tagged: seq<Tagged>, filter: string): (r: seq<Tagged>)
    ensures |r| <= |tagged|
  {
    if filter == "All" then tagged else OfCategory(tagged, filter)
  }

  /** "All" keeps everything; any other filter keeps exactly the items tagged with that category. */
  lemma {:induction false} FilterMembership(tagged: seq<Tagged>, filter: string)
    ensures filter == "All" ==> Filtered(tagged, filter) == tagged
    ensures filter != "All" ==> forall x :: x in Filtered(tagged, filter) <==> x in tagged && x.cat == filter
    decreases |tagged|
  {
    if filter != "All" && tagged != [] {
      FilterMembership(tagged[1..], filter);
      assert tagged == [tagged[0]] + tagged[1..];
    }
  }

  /** On the home feed: a newsletter is shown under a category button exactly when `getCategory` puts it there. */
  lemma FeedFilterMembership(items: seq<FeedItem>, filter: string, n: FeedItem)
    requires filter != "All"
    ensures (exists x :: x in Filtered(Categorize(items), filter) && x.item == n) <==> n in items && CategoryOf(n) == filter
  {
    var tagged := Categorize(items);
    FilterMembership(tagged, filter);
    if n in items && CategoryOf(n) == filter {
      var i :| 0 <= i < |items| && items[i] == n;
      assert tagged[i] == Tagged(n, CategoryOf(n));
      assert tagged[i] in Filtered(tagged, filter);
    }
    if x :| x in Filtered(tagged, filter) && x.item == n {
      var i :| 0 <= i < |tagged| && tagged[i] == x;
      assert tagged[i] == Tagged(items[i], CategoryOf(items[i]));
    }
  }

  /** Filtering works piece by piece, so it keeps the original order. */
  lemma FilterConcat(a: seq<Tagged>, b: seq<Tagged>, filter: string)
    ensures Filtered(a + b, filter) == Filtered(a, filter) + Filtered(b, filter)
  {
    if filter != "All" {
      OfCategoryConcat(a, b, filter);
    }
  }

  lemma {:induction false} OfCategoryConcat(a: seq<Tagged>, b: seq<Tagged>, category: string)
    ensures OfCategory(a + b, category) == OfCategory(a, category) + OfCategory(b, category)
    decreases |a|
  {
    if a == [] {
      assert a + b == b;
    } else {
      var head := if a[0].cat == category then [a[0]] else [];
      assert (a + b)[0] == a[0];
      assert (a + b)[1..] == a[1..] + b;
      assert OfCategory(a + b, category) == head + OfCategory(a[1..] + b, category);
      assert OfCategory(a, category) == head + OfCategory(a[1..], category);
      OfCategoryConcat(a[1..], b, category);
    }
  }


  /**
    Every tag is one of the five categories, so the five filters' sizes add
    up to the whole feed.
   */
  lemma {:induction false} CategoriesPartition(tagged: seq<Tagged>)
    requires forall i :: 0 <= i < |tagged| ==> tagged[i].cat in Categories[1..]
    ensures |Filtered(tagged, "AI")| + |Filtered(tagged, "Cloud")| + |Filtered(tagged, "DevOps")|
          + |Filtered(tagged, "Security")| + |Filtered(tagged, "General")| == |tagged|
    decreases |tagged|
  {
    if tagged != [] {
      assert tagged[0].cat in Categories[1..];
      CategoriesPartition(tagged[1..]);
    }
  }

  // ---------------------------------------------------------------------
  // Pages

  const ItemsPerPage: nat := 9

  /** `Math.ceil(n / itemsPerPage)`: the fewest pages of nine that hold `n` items. */
  function TotalPages(n: nat): (t: nat)
    ensures n <= t * ItemsPerPage
    ensures t > 0 ==> (t - 1) * ItemsPerPage < n
    ensures t == 0 <==> n == 0
  {
    (n + ItemsPerPage - 1) / ItemsPerPage
  }

  function StartIndex(page: int): int { (page - 1) * ItemsPerPage }

  function EndIndex(page: int): int { StartIndex(page) + ItemsPerPage }

  /** `filtered.slice(startIndex, endIndex)`. */
  function Visible<T>(items: seq<T>, page: int): (r: seq<T>)
    ensures |r| <= ItemsPerPage
  {
    JsSlice(items, StartIndex(page), EndIndex(page))
  }

  function Min(a: int, b: int): int { if a <= b then a else b }

  /** A page from the first on is the items from its start index to its end index, both cut at the end. */
  lemma PageIsWindow<T>(items: seq<T>, page: int)
    requires page >= 1
    ensures var n := |items|;
      Visible(items, page) == items[Min(StartIndex(page), n)..Min(EndIndex(page), n)]
  {
  }

  /**
    The item at index `i` is on page `i / 9 + 1`, at position `i % 9`, and
    on no other page; that page is one of the `TotalPages` pages.
   */
  lemma ItemOnItsPage<T>(items: seq<T>, i: int)
    requires 0 <= i < |items|
    ensures var p := i / ItemsPerPage + 1;
      && 1 <= p <= TotalPages(|items|)
      && i % ItemsPerPage < |Visible(items, p)|
      && Visible(items, p)[i % ItemsPerPage] == items[i]
    ensures forall page :: StartIndex(page) <= i < EndIndex(page) <==> page == i / ItemsPerPage + 1
  {
    var p := i / ItemsPerPage + 1;
    assert StartIndex(p) == i - i % ItemsPerPage;
    PageIsWindow(items, p);
  }

  /** The last page holds something, and every page after it is empty. */
  lemma PagesEndAtTotal<T>(items: seq<T>, page: int)
    ensures |items| > 0 ==> |Visible(items, TotalPages(|items|))| > 0
    ensures page > TotalPages(|items|) ==> Visible(items, page) == []
  {
    var t := TotalPages(|items|);
    if |items| > 0 {
      PageIsWindow(items, t);
    }
    if page > t {
      assert StartIndex(page) >= t * ItemsPerPage;
      PageIsWindow(items, page);
    }
  }

  /** The numbers in "Showing {first}-{last} of {n}". */
  function ResultsRange(n: nat, page: int): (int, int) {
    (StartIndex(page) + 1, Min(EndIndex(page), n))
  }

  /** The results line under the feed; JSX drops the line break before the optional " in {filter}". */
  function ResultsLine(n: nat, page: int, filter: string): string {
    var (first, last) := ResultsRange(n, page);
    "Showing " + IntToString(first) + "-" + IntToString(last) + " of " + IntToString(n) + " newsletters"
      + (if filter != "All" then " in " + filter else "")
  }

  /**
    On any page the feed can be on, the range shown counts exactly the
    visible items; with items it lies within 1..n. An empty feed shows
    "1-0 of 0".
   */
  lemma RangeMatchesVisible<T>(items: seq<T>, page: int)
    requires 1 <= page && (page <= TotalPages(|items|) || page == 1)
    ensures var (first, last) := ResultsRange(|items|, page);
      && last - first + 1 == |Visible(items, page)|
      && (|items| > 0 ==> 1 <= first <= last <= |items|)
      && (|items| == 0 ==> first == 1 && last == 0)
  {
    PageIsWindow(items, page);
  }

  /** The page-number button at position `i` of the window. */
  function PageNumber(current: int, total: int, i: int): int {
    if total <= 5 then i + 1
    else if current <= 3 then i + 1
    else if current >= total - 2 then total - 4 + i
    else current - 2 + i
  }

  /** `Array.from({ length: Math.min(5, totalPages) }, ...)`. */
  function PageWindow(current: int, total: nat): (w: seq<int>)
    ensures |w| == Min(5, total)
  {
    seq(Min(5, total), i => PageNumber(current, total, i))
  }

  /**
    For a current page within the pages, the window is `min(5, total)`
    consecutive page numbers, all existing pages, and includes the current
    page; with at most five pages it lists them all.
   */
  lemma PageWindowShape(current: int, total: nat)
    requires 1 <= current <= total
    ensures var w := PageWindow(current, total);
      && (forall i :: 0 <= i < |w| - 1 ==> w[i + 1] == w[i] + 1)
      && (forall i :: 0 <= i < |w| ==> 1 <= w[i] <= total)
      && current in w
      && (total <= 5 ==> forall i :: 0 <= i < |w| ==> w[i] == i + 1)
  {
    var w := PageWindow(current, total);
    var k := current - w[0];
    assert 0 <= k < |w| && w[k] == current;
  }

  /** The Previous button: `Math.max(1, prev - 1)`. */
  function PreviousPage(p: int): int { if p - 1 >= 1 then p - 1 else 1 }

  /** The Next button: `Math.min(totalPages, prev + 1)`. */
  function NextPage(p: int, total: int): int { if p + 1 <= total then p + 1 else total }

  /** From a page within 1..total, Previous and Next stay within it and move by at most one. */
  lemma StepsStayInRange(p: int, total: int)
    requires 1 <= p <= total
    ensures 1 <= PreviousPage(p) <= total && 1 <= NextPage(p, total) <= total
    ensures PreviousPage(p) == (if p == 1 then 1 else p - 1)
    ensures NextPage(p, total) == (if p == total then total else p + 1)
  {
  }

  // ---------------------------------------------------------------------
  // The "New" badge

  /** `1000 * 60 * 60 * 24 * 7`: a week in milliseconds. */
  const Week: int := 604800000

  /**
    `isNew`: no badge without a date or with one that does not parse (NaN
    compares false); otherwise less than a week has passed since the date,
    where a future date gives a negative difference.
   */
  function IsNew(n: FeedItem, now: int): (b: bool)
    ensures b ==> n.date.At?
  {
    match n.date
    case At(ms) => now - ms < Week
    case _ => false
  }

  /**
    The badge wears off: once an item is not new it stays not new. A dated
    item is new until one week after its date; nothing bounds it from
    below, so an item dated in the future is new as well.
   */
  lemma NewnessWearsOff(n: FeedItem, now: int, later: int)
    requires now <= later
    ensures !IsNew(n, now) ==> !IsNew(n, later)
    ensures n.date.At? ==> (IsNew(n, now) <==> now < n.date.ms + 604800000)
    ensures n.date.At? && now < n.date.ms ==> IsNew(n, now)
  {
  }

  // ---------------------------------------------------------------------
  // The feed's state

  function Max1(t: int): int { if t >= 1 then t else 1 }

  class FeedState {
    var newsletters: seq<FeedItem>
    var filter: string
    var currentPage: int

    /** The current page is always one of the pages of the filtered feed (page 1 when it is empty). */
    ghost predicate Valid()
      reads this
    {
      1 <= currentPage <= Max1(TotalPages(|Filtered(Categorize(newsletters), filter)|))
    }

    function VisibleItems(): seq<Tagged>
      reads this
    {
      Visible(Filtered(Categorize(newsletters), filter), currentPage)
    }

    constructor ()
      ensures Valid()
      ensures newsletters == [] && filter == "All" && currentPage == 1
    {
      newsletters := [];
      filter := "All";
      currentPage := 1;
    }

    /** The mount effect: store the fetched list. It runs while the page is still the first. */
    method Load(fetched: Option<Json>)
      modifies this
      ensures newsletters == ListFromResponse(fetched)
      ensures filter == old(filter) && currentPage == old(currentPage)
      ensures old(currentPage) == 1 ==> Valid()
    {
      newsletters := ListFromResponse(fetched);
    }

    /** A category button: set the filter and go back to the first page. */
    method SelectCategory(name: string)
      modifies this
      ensures filter == name && currentPage == 1 && newsletters == old(newsletters)
      ensures Valid()
    {
      filter := name;
      currentPage := 1;
    }

    /** The Previous button; the buttons are shown only when there is more than one page. */
    method Previous()
      requires Valid() && TotalPages(|Filtered(Categorize(newsletters), filter)|) > 1
      modifies this`currentPage
      ensures currentPage == PreviousPage(old(currentPage))
      ensures Valid()
    {
      StepsStayInRange(currentPage, TotalPages(|Filtered(Categorize(newsletters), filter)|));
      currentPage := if currentPage - 1 >= 1 then currentPage - 1 else 1;
    }

    /** The Next button. */
    method Next()
      requires Valid() && TotalPages(|Filtered(Categorize(newsletters), filter)|) > 1
      modifies this`currentPage
      ensures currentPage == NextPage(old(currentPage), TotalPages(|Filtered(Categorize(newsletters), filter)|))
      ensures Valid()
    {
      var total := TotalPages(|Filtered(Categorize(newsletters), filter)|);
      StepsStayInRange(currentPage, total);
      currentPage := if currentPage + 1 <= total then currentPage + 1 else total;
    }

    /** The page-number button at position `i` of the window. */
    method GoTo(i: int)
      requires Valid() && TotalPages(|Filtered(Categorize(newsletters), filter)|) > 1
      requires 0 <= i < |PageWindow(currentPage, TotalPages(|Filtered(Categorize(newsletters), filter)|))|
      modifies this`currentPage
      ensures currentPage == PageWindow(old(currentPage), TotalPages(|Filtered(Categorize(newsletters), filter)|))[i]
      ensures Valid()
    {
      var total := TotalPages(|Filtered(Categorize(newsletters), filter)|);
      PageWindowShape(currentPage, total);
      currentPage := PageWindow(currentPage, total)[i];
    }
  }
}
