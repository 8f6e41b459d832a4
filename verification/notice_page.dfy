/** The notice board page (frontend/src/app/notice/page.tsx) as a state
    machine: the search form, the current page number and the selected
    notice, driven by the page's event handlers and by the `id` URL
    parameter. */
module NoticePage {
  import opened Ui
  import opened NoticeFilter
  import opened NoticePagination

  /** One call of `handleFilterChange(field, value)`. */
  datatype FilterEdit =
    | SetKeyword(keyword: string)
    | SetAuthor(author: string)
    | SetStartDate(startDate: Option<Date>)
    | SetEndDate(endDate: Option<Date>)
    | SetImportantOnly(importantOnly: bool)

  /** `{ ...prev, [field]: value }`: the named field takes the new value and
      the other four keep theirs. */
  function ApplyEdit(f: SearchFilters, e: FilterEdit): (r: SearchFilters)
    ensures e.SetKeyword? ==> r.keyword == e.keyword
    ensures e.SetAuthor? ==> r.author == e.author
    ensures e.SetStartDate? ==> r.startDate == e.startDate
    ensures e.SetEndDate? ==> r.endDate == e.endDate
    ensures e.SetImportantOnly? ==> r.importantOnly == e.importantOnly
    ensures !e.SetKeyword? ==> r.keyword == f.keyword
    ensures !e.SetAuthor? ==> r.author == f.author
    ensures !e.SetStartDate? ==> r.startDate == f.startDate
    ensures !e.SetEndDate? ==> r.endDate == f.endDate
    ensures !e.SetImportantOnly? ==> r.importantOnly == f.importantOnly
  {
    match e
    case SetKeyword(k) => f.(keyword := k)
    case SetAuthor(a) => f.(author := a)
    case SetStartDate(d) => f.(startDate := d)
    case SetEndDate(d) => f.(endDate := d)
    case SetImportantOnly(b) => f.(importantOnly := b)
  }

  /** Edits of different fields commute, and of the same field the last one
      wins. */
  lemma EditsCommuteOrOverwrite(f: SearchFilters, e1: FilterEdit, e2: FilterEdit)
    ensures e1.SetKeyword? != e2.SetKeyword? || e1.SetAuthor? != e2.SetAuthor? ||
            e1.SetStartDate? != e2.SetStartDate? || e1.SetEndDate? != e2.SetEndDate? ||
            e1.SetImportantOnly? != e2.SetImportantOnly? ==>
      ApplyEdit(ApplyEdit(f, e1), e2) == ApplyEdit(ApplyEdit(f, e2), e1)
    ensures (e1.SetKeyword? && e2.SetKeyword?) || (e1.SetAuthor? && e2.SetAuthor?) ||
            (e1.SetStartDate? && e2.SetStartDate?) || (e1.SetEndDate? && e2.SetEndDate?) ||
            (e1.SetImportantOnly? && e2.SetImportantOnly?) ==>
      ApplyEdit(ApplyEdit(f, e1), e2) == ApplyEdit(f, e2)
  {
  }

  /** The page's constants and the browser functions it calls:
      `notices` is the fixed list, `lower` is `toLowerCase`, and `parseInt`
      gives `None` where JavaScript's `parseInt` gives NaN. */
  datatype Env = Env(
    notices: seq<Notice>,
    lower: string -> string,
    parseInt: string -> Option<int>)

  datatype PageState = PageState(
    filters: SearchFilters,
    currentPage: int,
    selected: Option<Notice>)

  const InitialState: PageState := PageState(DefaultFilters, 1, None)

  datatype Event =
    | EditFilter(edit: FilterEdit)   // an input of the search form
    | Search                         // "검색" button
    | Reset                          // "초기화" button
    | Prev                           // "이전" button
    | Next                           // "다음" button
    | GoToPage(page: int)            // a numbered page button
    | Open(notice: Notice)           // a click on a row of the list
    | BackToList                     // "목록으로" button of the detail view
    | UrlIdChanged(id: Option<string>)  // the `id` search parameter changed

  datatype Transition = Transition(state: PageState, effects: seq<Effect>)

  function Filtered(env: Env, s: PageState): seq<Notice>
  {
    FilterNotices(env.notices, s.filters, env.lower)
  }

  function Pages(env: Env, s: PageState): nat
  {
    TotalPages(|Filtered(env, s)|)
  }

  /** `notices.find(n => n.id === id)`: the index of the first notice with
      that id. */
  function FindIndex(ns: seq<Notice>, id: int): (r: Option<nat>)
    ensures r.Some? ==> r.value < |ns| && ns[r.value].id == id
    ensures r.Some? ==> forall j :: 0 <= j < r.value ==> ns[j].id != id
    ensures r.None? <==> forall j :: 0 <= j < |ns| ==> ns[j].id != id
  {
    if |ns| == 0 then None
    else if ns[0].id == id then Some(0)
    else match FindIndex(ns[1..], id)
      case None => None
      case Some(k) => Some(k + 1)
  }

  /** The effect that reads the `id` parameter. A missing or empty
      parameter (both falsy) clears the selection; an id that names a
      notice selects the first notice with that id; any other id (unknown,
      or not a number) leaves the selection as it was. */
  function SelectFromUrl(env: Env, id: Option<string>, current: Option<Notice>): (r: Option<Notice>)
    ensures id.None? || id.value == "" ==> r.None?
    ensures id.Some? && id.value != "" && env.parseInt(id.value).Some? &&
            (exists i :: 0 <= i < |env.notices| && env.notices[i].id == env.parseInt(id.value).value) ==>
      r.Some? && r.value in env.notices && r.value.id == env.parseInt(id.value).value
    ensures id.Some? && id.value != "" && env.parseInt(id.value).Some? ==>
      forall i :: 0 <= i < |env.notices| && env.notices[i].id == env.parseInt(id.value).value &&
                  (forall j :: 0 <= j < i ==> env.notices[j].id != env.parseInt(id.value).value) ==>
        r == Some(env.notices[i])
    ensures id.Some? && id.value != "" &&
            (env.parseInt(id.value).None? ||
             forall i :: 0 <= i < |env.notices| ==> env.notices[i].id != env.parseInt(id.value).value) ==>
      r == current
  {
    if id.Some? && id.value != "" then
      match env.parseInt(id.value)
      case None => current
      case Some(k) =>
        match FindIndex(env.notices, k)
        case Some(i) => Some(env.notices[i])
        case None => current
    else None
  }

  /** The search form, the list and the pagination are rendered only while
      no notice is selected; the back button only while one is. An event
      from a control that is not on screen cannot happen, and `Step` leaves
      the state alone for it. */
  predicate Enabled(env: Env, s: PageState, e: Event)
  {
    match e
    case EditFilter(_) => s.selected.None?
    case Search => s.selected.None?
    case Reset => s.selected.None?
    case Prev => s.selected.None? && PaginationShown(Pages(env, s))
    case Next => s.selected.None? && PaginationShown(Pages(env, s))
    case GoToPage(k) => s.selected.None? && PaginationShown(Pages(env, s)) && 1 <= k <= Pages(env, s)
    case Open(n) => s.selected.None? && n in CurrentPage(Filtered(env, s), s.currentPage)
    case BackToList => s.selected.Some?
    case UrlIdChanged(_) => true
  }

  function Step(env: Env, s: PageState, e: Event): (t: Transition)
    ensures !Enabled(env, s, e) ==> t == Transition(s, [])
    ensures Enabled(env, s, e) && (e.EditFilter? || e.Search? || e.Reset?) ==> t.state.currentPage == 1
    ensures Enabled(env, s, e) && e.Reset? ==> t.state.filters == DefaultFilters
    ensures e.Search? ==> t.state.filters == s.filters
    ensures Enabled(env, s, e) && e.EditFilter? ==> t.state.filters == ApplyEdit(s.filters, e.edit)
    ensures Enabled(env, s, e) && e.Open? ==> t.state.selected == Some(e.notice)
    ensures e.BackToList? ==> t.state.selected.None?
    ensures t.effects != [] <==> Enabled(env, s, e) && e.BackToList?
    ensures t.effects != [] ==> t.effects == [Navigate("/notice")]
    ensures Enabled(env, s, e) && e.EditFilter? ==>
      t.state == s.(filters := ApplyEdit(s.filters, e.edit), currentPage := 1)
    ensures Enabled(env, s, e) && e.Search? ==> t.state == s.(currentPage := 1)
    ensures Enabled(env, s, e) && e.Reset? ==> t.state == s.(filters := DefaultFilters, currentPage := 1)
    ensures Enabled(env, s, e) && e.Prev? ==> t.state == s.(currentPage := PrevPage(s.currentPage))
    ensures Enabled(env, s, e) && e.Next? ==> t.state == s.(currentPage := NextPage(s.currentPage, Pages(env, s)))
    ensures Enabled(env, s, e) && e.GoToPage? ==> t.state == s.(currentPage := e.page)
    ensures Enabled(env, s, e) && e.Open? ==> t.state == s.(selected := Some(e.notice))
    ensures Enabled(env, s, e) && e.BackToList? ==> t.state == s.(selected := None)
    ensures e.UrlIdChanged? ==> t.state == s.(selected := SelectFromUrl(env, e.id, s.selected))
  {
    if !Enabled(env, s, e) then Transition(s, [])
    else match e
      case EditFilter(edit) => Transition(s.(filters := ApplyEdit(s.filters, edit), currentPage := 1), [])
      case Search => Transition(s.(currentPage := 1), [])
      case Reset => Transition(s.(filters := DefaultFilters, currentPage := 1), [])
      case Prev => Transition(s.(currentPage := PrevPage(s.currentPage)), [])
      case Next => Transition(s.(currentPage := NextPage(s.currentPage, Pages(env, s))), [])
      case GoToPage(k) => Transition(s.(currentPage := k), [])
      case Open(n) => Transition(s.(selected := Some(n)), [])
      case BackToList => Transition(s.(selected := None), [Navigate("/notice")])
      case UrlIdChanged(id) => Transition(s.(selected := SelectFromUrl(env, id, s.selected)), [])
  }

  /** The page number always names an existing page (page 1 when the
      filtered list is empty), and a selected notice is one of the notices. */
  ghost predicate Invariant(env: Env, s: PageState)
  {
    && 1 <= s.currentPage
    && (s.currentPage == 1 || s.currentPage <= Pages(env, s))
    && (s.selected.Some? ==> s.selected.value in env.notices)
  }

  lemma InitialSatisfiesInvariant(env: Env)
    ensures Invariant(env, InitialState)
  {
  }

  lemma StepPreservesInvariant(env: Env, s: PageState, e: Event)
    requires Invariant(env, s)
    ensures Invariant(env, Step(env, s, e).state)
  {
  }

  /** The state after a sequence of events, starting from `s`. */
  function Run(env: Env, s: PageState, events: seq<Event>): PageState
    decreases |events|
  {
    if |events| == 0 then s else Run(env, Step(env, s, events[0]).state, events[1..])
  }

  /** Every state the page can reach satisfies the invariant. */
  lemma {:induction false} RunPreservesInvariant(env: Env, s: PageState, events: seq<Event>)
    requires Invariant(env, s)
    ensures Invariant(env, Run(env, s, events))
    decreases |events|
  {
    if |events| > 0 {
      StepPreservesInvariant(env, s, events[0]);
      RunPreservesInvariant(env, Step(env, s, events[0]).state, events[1..]);
    }
  }

  /** After "초기화" the list shows every notice again, from page 1. */
  lemma ResetShowsAllNotices(env: Env, s: PageState)
    requires s.selected.None?
    ensures Filtered(env, Step(env, s, Reset).state) == env.notices
    ensures Step(env, s, Reset).state.currentPage == 1
  {
    DefaultFiltersKeepAll(env.notices, env.lower);
  }
}
