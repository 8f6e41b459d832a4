/** The search filter of the notice board (frontend/src/app/notice/page.tsx):
    a notice is kept when it passes four independent tests — keyword,
    author, inclusive date range and "important only". */
module NoticeFilter {
  import opened Ui
  import opened Text

  /** A calendar day. The page parses "YYYY.MM.DD" notice dates and
      "YYYY-MM-DD" date-input values into midnight-UTC instants, so comparing
      instants is comparing (year, month, day) lexicographically. */
  datatype Date = Date(year: int, month: int, day: int)

  predicate DateLe(a: Date, b: Date)
  {
    || a.year < b.year
    || (a.year == b.year && a.month < b.month)
    || (a.year == b.year && a.month == b.month && a.day <= b.day)
  }

  /** `DateLe` is a total order, so ">= start and <= end" is an interval. */
  lemma DateLeIsTotalOrder(a: Date, b: Date, c: Date)
    ensures DateLe(a, a)
    ensures DateLe(a, b) && DateLe(b, a) ==> a == b
    ensures DateLe(a, b) && DateLe(b, c) ==> DateLe(a, c)
    ensures DateLe(a, b) || DateLe(b, a)
  {
  }

  datatype Notice = Notice(
    id: int,
    title: string,
    date: Date,
    content: string,
    author: string,
    views: int,
    isImportant: bool)

  /** The search form. An empty date input ("") is `None`. */
  datatype SearchFilters = SearchFilters(
    keyword: string,
    author: string,
    startDate: Option<Date>,
    endDate: Option<Date>,
    importantOnly: bool)

  /** The initial form, which the reset button restores. */
  const DefaultFilters: SearchFilters := SearchFilters("", "", None, None, false)

  /** `lower` stands for `String.prototype.toLowerCase`, whose Unicode case
      mapping is not modelled. */
  predicate MatchesKeyword(n: Notice, keyword: string, lower: string -> string)
  {
    || keyword == ""
    || Includes(lower(n.title), lower(keyword))
    || Includes(lower(n.content), lower(keyword))
  }

  predicate MatchesAuthor(n: Notice, author: string, lower: string -> string)
  {
    author == "" || Includes(lower(n.author), lower(author))
  }

  /** The date test, branch for branch as the page writes it. */
  function MatchesDateRange(d: Date, start: Option<Date>, end: Option<Date>): (r: bool)
    ensures r <==> (start.None? || DateLe(start.value, d)) && (end.None? || DateLe(d, end.value))
  {
    if start.None? && end.None? then true
    else if start.Some? && end.Some? then DateLe(start.value, d) && DateLe(d, end.value)
    else if start.Some? then DateLe(start.value, d)
    else if end.Some? then DateLe(d, end.value)
    else true
  }

  predicate MatchesImportant(n: Notice, importantOnly: bool)
  {
    !importantOnly || n.isImportant
  }

  /** The predicate `notices.filter` is called with. */
  predicate Keep(n: Notice, f: SearchFilters, lower: string -> string)
  {
    && MatchesKeyword(n, f.keyword, lower)
    && MatchesAuthor(n, f.author, lower)
    && MatchesDateRange(n.date, f.startDate, f.endDate)
    && MatchesImportant(n, f.importantOnly)
  }

  /** `filteredNotices`: the notices that pass every test, in list order. */
  function FilterNotices(ns: seq<Notice>, f: SearchFilters, lower: string -> string): (r: seq<Notice>)
    ensures |r| <= |ns|
    ensures forall i :: 0 <= i < |r| ==> r[i] in ns && Keep(r[i], f, lower)
    ensures forall i :: 0 <= i < |ns| && Keep(ns[i], f, lower) ==> ns[i] in r
  {
    if |ns| == 0 then []
    else if Keep(ns[0], f, lower) then [ns[0]] + FilterNotices(ns[1..], f, lower)
    else FilterNotices(ns[1..], f, lower)
  }

  /** A kept notice appears in the filtered list as often as in the input,
      and a dropped one never does. */
  lemma {:induction false} FilterCounts(ns: seq<Notice>, f: SearchFilters, lower: string -> string, x: Notice)
    ensures multiset(FilterNotices(ns, f, lower))[x] == if Keep(x, f, lower) then multiset(ns)[x] else 0
    decreases |ns|
  {
    if |ns| > 0 {
      var rest := FilterNotices(ns[1..], f, lower);
      FilterCounts(ns[1..], f, lower, x);
      assert ns == [ns[0]] + ns[1..];
      assert multiset(ns)[x] == multiset{ns[0]}[x] + multiset(ns[1..])[x];
      if Keep(ns[0], f, lower) {
        assert multiset(FilterNotices(ns, f, lower)) == multiset{ns[0]} + multiset(rest);
      } else {
        assert FilterNotices(ns, f, lower) == rest;
      }
    }
  }

  /** Filtering distributes over concatenation: each part is filtered on
      its own, and the kept notices stay in order. */
  lemma {:induction false} FilterAppend(a: seq<Notice>, b: seq<Notice>, f: SearchFilters, lower: string -> string)
    ensures FilterNotices(a + b, f, lower) == FilterNotices(a, f, lower) + FilterNotices(b, f, lower)
    decreases |a|
  {
    if |a| > 0 {
      assert (a + b)[1..] == a[1..] + b;
      FilterAppend(a[1..], b, f, lower);
    } else {
      assert a + b == b;
    }
  }

  /** `xs` is obtained from `ys` by deleting elements: same relative order. */
  ghost predicate IsSubsequence<T>(xs: seq<T>, ys: seq<T>)
    decreases |ys|
  {
    if |xs| == 0 then true
    else if |ys| == 0 then false
    else (xs[0] == ys[0] && IsSubsequence(xs[1..], ys[1..])) || IsSubsequence(xs, ys[1..])
  }

  /** The filtered list keeps the original order. */
  lemma {:induction false} FilterIsSubsequence(ns: seq<Notice>, f: SearchFilters, lower: string -> string)
    ensures IsSubsequence(FilterNotices(ns, f, lower), ns)
  {
    if |ns| > 0 {
      FilterIsSubsequence(ns[1..], f, lower);
      if Keep(ns[0], f, lower) {
        assert ([ns[0]] + FilterNotices(ns[1..], f, lower))[1..] == FilterNotices(ns[1..], f, lower);
      }
    }
  }

  /** With the default form every test passes, so nothing is filtered out. */
  lemma {:induction false} DefaultFiltersKeepAll(ns: seq<Notice>, lower: string -> string)
    ensures FilterNotices(ns, DefaultFilters, lower) == ns
  {
    if |ns| > 0 {
      DefaultFiltersKeepAll(ns[1..], lower);
      assert [ns[0]] + ns[1..] == ns;
    }
  }

  /** What it takes to be kept, spelled out test by test: the keyword (when
      given) occurs case-insensitively in the title or the content, the
      author filter (when given) occurs in the author, the date lies within
      whichever bounds are given, and "important only" admits only
      important notices. */
  lemma KeptNoticeSatisfiesEveryTest(ns: seq<Notice>, f: SearchFilters, lower: string -> string, n: Notice)
    requires n in FilterNotices(ns, f, lower)
    ensures n in ns
    ensures f.keyword != "" ==>
      Includes(lower(n.title), lower(f.keyword)) || Includes(lower(n.content), lower(f.keyword))
    ensures f.author != "" ==> Includes(lower(n.author), lower(f.author))
    ensures f.startDate.Some? ==> DateLe(f.startDate.value, n.date)
    ensures f.endDate.Some? ==> DateLe(n.date, f.endDate.value)
    ensures f.importantOnly ==> n.isImportant
  {
  }

  /** Filtering twice with the same form is filtering once. */
  lemma {:induction false} FilterIdempotent(ns: seq<Notice>, f: SearchFilters, lower: string -> string)
    ensures FilterNotices(FilterNotices(ns, f, lower), f, lower) == FilterNotices(ns, f, lower)
  {
    if |ns| > 0 {
      FilterIdempotent(ns[1..], f, lower);
      if Keep(ns[0], f, lower) {
        var r := [ns[0]] + FilterNotices(ns[1..], f, lower);
        assert r[1..] == FilterNotices(ns[1..], f, lower);
      }
    }
  }
}
