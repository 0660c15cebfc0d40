/** `src/components/FetchGallery.jsx`: the gallery of fetched templates.
    Templates with a fetch time are grouped by the day of that time, the
    days put newest first, each day's templates newest first, and the
    result laid out as one list of day headers and template cards that is
    shown 20 items a page. The day of a time (`toLocaleDateString`) is a
    parameter. */
module FetchGallery {
  import opened JsArrays

  /** A stored template as the gallery reads it; `fetchedAt` is 0 when the
      record has none. */
  datatype Template = Template(id: string, name: string, url: string, source: string, description: string, fetchedAt: int)

  /** One slot of the laid-out gallery. */
  datatype Item = DayHeader(day: string, count: nat) | Card(template: Template)

  const TemplatesPerPage: nat := 20

  /** A template that takes part in the grouping: one with a fetch time. */
  predicate Dated(t: Template)
  {
    t.fetchedAt != 0
  }

  predicate OnDayOf(t: Template, dayKey: int -> string, d: string)
  {
    Dated(t) && dayKey(t.fetchedAt) == d
  }

  /** `fetchedAt || 0`, the key of the in-day sort. */
  function FetchedAt(t: Template): int
  {
    t.fetchedAt
  }

  // ---------------------------------------------------------------- grouping

  /** The days in the order the grouping first meets them: the key order of
      the `grouped` object. */
  function DayOrder(ts: seq<Template>, dayKey: int -> string): (days: seq<string>)
    ensures Distinct(days)
  {
    if ts == [] then []
    else
      var p := DayOrder(ts[..|ts| - 1], dayKey);
      var t := ts[|ts| - 1];
      if !Dated(t) || dayKey(t.fetchedAt) in p then p else p + [dayKey(t.fetchedAt)]
  }

  /** The templates of day `d`, in input order: `grouped[d]` before sorting. */
  function OnDay(ts: seq<Template>, dayKey: int -> string, d: string): (g: seq<Template>)
    ensures forall i :: 0 <= i < |g| ==> OnDayOf(g[i], dayKey, d) && g[i] in ts
  {
    if ts == [] then []
    else
      var front := ts[..|ts| - 1];
      var t := ts[|ts| - 1];
      assert forall i :: 0 <= i < |front| ==> front[i] in ts;
      OnDay(front, dayKey, d) + (if OnDayOf(t, dayKey, d) then [t] else [])
  }

  /** The grouping before any sort. */
  function Groups(ts: seq<Template>, dayKey: int -> string): map<string, seq<Template>>
  {
    map d | d in DayOrder(ts, dayKey) :: OnDay(ts, dayKey, d)
  }

  /** A day is a key of the grouping exactly when some template has a fetch
      time on that day. */
  lemma {:induction false} DayOrderMembers(ts: seq<Template>, dayKey: int -> string, d: string)
    ensures d in DayOrder(ts, dayKey) <==> OnDay(ts, dayKey, d) != []
  {
    if ts != [] {
      DayOrderMembers(ts[..|ts| - 1], dayKey, d);
    }
  }

  /** Each day's group holds every template of that day as often as the
      input does, and nothing else: templates without a fetch time are in
      no group. */
  lemma {:induction false} OnDayCount(ts: seq<Template>, dayKey: int -> string, d: string, t: Template)
    ensures multiset(OnDay(ts, dayKey, d))[t] == if OnDayOf(t, dayKey, d) then multiset(ts)[t] else 0
  {
    if ts != [] {
      var front := ts[..|ts| - 1];
      assert ts == front + [ts[|ts| - 1]];
      OnDayCount(front, dayKey, d, t);
    }
  }

  /** The first template of a day's group is the first template of the input
      fetched on that day. */
  lemma {:induction false} FirstOnDay(ts: seq<Template>, dayKey: int -> string, i: nat)
    requires i < |ts| && Dated(ts[i])
    requires forall j :: 0 <= j < i ==> !OnDayOf(ts[j], dayKey, dayKey(ts[i].fetchedAt))
    ensures var g := OnDay(ts, dayKey, dayKey(ts[i].fetchedAt)); g != [] && g[0] == ts[i]
  {
    var d := dayKey(ts[i].fetchedAt);
    var front := ts[..|ts| - 1];
    if i < |ts| - 1 {
      assert front[i] == ts[i];
      FirstOnDay(front, dayKey, i);
    }
  }

  /** One step of the grouping: the groups after one more template. */
  lemma GroupsStep(ts: seq<Template>, dayKey: int -> string)
    requires ts != []
    ensures var g, t := Groups(ts[..|ts| - 1], dayKey), ts[|ts| - 1];
            Groups(ts, dayKey) ==
              if !Dated(t) then g
              else g[dayKey(t.fetchedAt) := (if dayKey(t.fetchedAt) in g then g[dayKey(t.fetchedAt)] else []) + [t]]
  {
    var front, t := ts[..|ts| - 1], ts[|ts| - 1];
    var g := Groups(front, dayKey);
    if Dated(t) {
      var day := dayKey(t.fetchedAt);
      DayOrderMembers(front, dayKey, day);
      var h := g[day := (if day in g then g[day] else []) + [t]];
      assert forall d :: d in Groups(ts, dayKey) <==> d in h;
      assert forall d :: d in h ==> Groups(ts, dayKey)[d] == h[d];
    } else {
      assert forall d :: d in Groups(ts, dayKey) <==> d in g;
      assert forall d :: d in g ==> Groups(ts, dayKey)[d] == g[d];
    }
  }

  /** The `forEach` that fills `grouped`; `days` is the key order. */
  method GroupByDay(templates: seq<Template>, dayKey: int -> string) returns (grouped: map<string, seq<Template>>, days: seq<string>)
    ensures grouped == Groups(templates, dayKey)
    ensures days == DayOrder(templates, dayKey)
  {
    grouped, days := map[], [];
    for i := 0 to |templates|
      invariant grouped == Groups(templates[..i], dayKey)
      invariant days == DayOrder(templates[..i], dayKey)
    {
      var ts := templates[..i + 1];
      assert ts[..|ts| - 1] == templates[..i];
      GroupsStep(ts, dayKey);
      ghost var g := grouped;
      var template := templates[i];
      if template.fetchedAt != 0 {
        var day := dayKey(template.fetchedAt);
        if day !in grouped {
          grouped := grouped[day := []];
          days := days + [day];
        }
        grouped := grouped[day := grouped[day] + [template]];
        assert grouped == g[day := (if day in g then g[day] else []) + [template]];
      }
    }
    assert templates[..|templates|] == templates;
  }

  // ---------------------------------------------------------------- sorting

  /** The day sort key: the fetch time of the first template of the day's
      group, or 0 for a missing or empty group. */
  function FirstKey(grouped: map<string, seq<Template>>): string -> int
  {
    d => if d in grouped && grouped[d] != [] then grouped[d][0].fetchedAt else 0
  }

  /** The days, sorted newest first by the fetch time of their first
      template, the tie order kept. */
  function SortedDays(ts: seq<Template>, dayKey: int -> string): seq<string>
  {
    SortDesc(DayOrder(ts, dayKey), FirstKey(Groups(ts, dayKey)))
  }

  /** Every group sorted newest first, the tie order kept. */
  function SortedGroups(g: map<string, seq<Template>>): map<string, seq<Template>>
  {
    map d | d in g :: SortDesc(g[d], FetchedAt)
  }

  /** `templatesByDay`: the groups and the sorted days. The in-day sort runs
      after the day sort, so days are ordered by their first-inserted
      template. */
  method TemplatesByDay(templates: seq<Template>, dayKey: int -> string)
    returns (grouped: map<string, seq<Template>>, sortedDays: seq<string>)
    ensures sortedDays == SortedDays(templates, dayKey)
    ensures grouped == SortedGroups(Groups(templates, dayKey))
  {
    var days;
    grouped, days := GroupByDay(templates, dayKey);
    sortedDays := SortDesc(days, FirstKey(grouped));
    SubMultisetDistinct(sortedDays, days);
    SortDescMembers(days, FirstKey(grouped));
    grouped := SortEachDay(grouped, sortedDays);
  }

  /** `sortedDays.forEach(day => grouped[day].sort(...))`, over days that
      are the keys, once each. */
  method SortEachDay(g0: map<string, seq<Template>>, days: seq<string>) returns (grouped: map<string, seq<Template>>)
    requires Distinct(days)
    requires forall d :: d in g0 <==> d in days
    ensures grouped == SortedGroups(g0)
  {
    grouped := g0;
    for k := 0 to |days|
      invariant grouped.Keys == g0.Keys
      invariant forall d :: d in grouped ==> grouped[d] == if d in days[..k] then SortDesc(g0[d], FetchedAt) else g0[d]
    {
      var day := days[k];
      assert days[..k + 1] == days[..k] + [day];
      assert day !in days[..k] by {
        forall m | 0 <= m < k ensures days[..k][m] != day {
          assert days[..k][m] == days[m];
        }
      }
      grouped := grouped[day := SortDesc(grouped[day], FetchedAt)];
    }
    assert days[..|days|] == days;
    SortedGroupsEqual(grouped, g0);
  }

  lemma SortedGroupsEqual(grouped: map<string, seq<Template>>, g0: map<string, seq<Template>>)
    requires grouped.Keys == g0.Keys
    requires forall d :: d in grouped ==> grouped[d] == SortDesc(g0[d], FetchedAt)
    ensures grouped == SortedGroups(g0)
  {
    assert forall d :: d in grouped <==> d in SortedGroups(g0);
  }

  /** The days come newest first by their first-inserted template, once
      each, and are exactly the days some template was fetched on. */
  lemma DaysOrdered(ts: seq<Template>, dayKey: int -> string, d: string)
    ensures var days := SortedDays(ts, dayKey);
            SortedDesc(days, FirstKey(Groups(ts, dayKey))) && Distinct(days)
            && (d in days <==> exists i :: 0 <= i < |ts| && OnDayOf(ts[i], dayKey, d))
  {
    var days := SortedDays(ts, dayKey);
    var order := DayOrder(ts, dayKey);
    SubMultisetDistinct(days, order);
    assert d in days <==> d in multiset(days);
    assert d in order <==> d in multiset(order);
    DayOrderMembers(ts, dayKey, d);
    var g := OnDay(ts, dayKey, d);
    if g != [] {
      var i :| 0 <= i < |ts| && ts[i] == g[0];
      assert OnDayOf(ts[i], dayKey, d);
    }
    if exists i :: 0 <= i < |ts| && OnDayOf(ts[i], dayKey, d) {
      var i :| 0 <= i < |ts| && OnDayOf(ts[i], dayKey, d);
      OnDayCount(ts, dayKey, d, ts[i]);
      assert ts[i] in multiset(ts);
    }
  }

  /** A day's key in the day sort is the fetch time of the first template
      fetched on that day. */
  lemma DayKeyIsFirst(ts: seq<Template>, dayKey: int -> string, i: nat)
    requires i < |ts| && Dated(ts[i])
    requires forall j :: 0 <= j < i ==> !OnDayOf(ts[j], dayKey, dayKey(ts[i].fetchedAt))
    ensures FirstKey(Groups(ts, dayKey))(dayKey(ts[i].fetchedAt)) == ts[i].fetchedAt
  {
    FirstOnDay(ts, dayKey, i);
    DayOrderMembers(ts, dayKey, dayKey(ts[i].fetchedAt));
  }

  // ---------------------------------------------------------------- flattening

  function Cards(g: seq<Template>): (r: seq<Item>)
    ensures |r| == |g|
    ensures forall i :: 0 <= i < |g| ==> r[i] == Card(g[i])
  {
    seq(|g|, i requires 0 <= i < |g| => Card(g[i]))
  }

  /** For each day in order, its header with the group size, then its cards. */
  function Flat(grouped: map<string, seq<Template>>, days: seq<string>): seq<Item>
    requires forall k :: 0 <= k < |days| ==> days[k] in grouped
  {
    if days == [] then []
    else
      var d := days[|days| - 1];
      Flat(grouped, days[..|days| - 1]) + [DayHeader(d, |grouped[d]|)] + Cards(grouped[d])
  }

  /** `flattenedTemplates`. */
  method Flatten(grouped: map<string, seq<Template>>, sortedDays: seq<string>) returns (flat: seq<Item>)
    requires forall k :: 0 <= k < |sortedDays| ==> sortedDays[k] in grouped
    ensures flat == Flat(grouped, sortedDays)
  {
    flat := [];
    for k := 0 to |sortedDays|
      invariant flat == Flat(grouped, sortedDays[..k])
    {
      var day := sortedDays[k];
      assert sortedDays[..k + 1][..k] == sortedDays[..k];
      ghost var before := flat;
      flat := flat + [DayHeader(day, |grouped[day]|)];
      var group := grouped[day];
      for j := 0 to |group|
        invariant flat == before + [DayHeader(day, |group|)] + Cards(group[..j])
      {
        assert Cards(group[..j + 1]) == Cards(group[..j]) + [Card(group[j])];
        flat := flat + [Card(group[j])];
      }
      assert group[..|group|] == group;
    }
    assert sortedDays[..|sortedDays|] == sortedDays;
  }

  /** `templatesByDay` then `flattenedTemplates`: the list the pages cut. */
  method Layout(templates: seq<Template>, dayKey: int -> string) returns (flat: seq<Item>)
    ensures forall k :: 0 <= k < |SortedDays(templates, dayKey)| ==>
              SortedDays(templates, dayKey)[k] in SortedGroups(Groups(templates, dayKey))
    ensures flat == Flat(SortedGroups(Groups(templates, dayKey)), SortedDays(templates, dayKey))
  {
    var grouped, sortedDays := TemplatesByDay(templates, dayKey);
    SortDescMembers(DayOrder(templates, dayKey), FirstKey(Groups(templates, dayKey)));
    flat := Flatten(grouped, sortedDays);
  }

  /** The templates of the groups, day after day. */
  function Concat(grouped: map<string, seq<Template>>, days: seq<string>): seq<Template>
    requires forall k :: 0 <= k < |days| ==> days[k] in grouped
  {
    if days == [] then [] else Concat(grouped, days[..|days| - 1]) + grouped[days[|days| - 1]]
  }

  /** The templates shown by the cards of a list of items, in order. */
  function CardsOf(items: seq<Item>): seq<Template>
  {
    if items == [] then []
    else CardsOf(items[..|items| - 1]) + (if items[|items| - 1].Card? then [items[|items| - 1].template] else [])
  }

  /** The headers of a list of items, in order. */
  function HeadersOf(items: seq<Item>): seq<Item>
  {
    if items == [] then []
    else HeadersOf(items[..|items| - 1]) + (if items[|items| - 1].DayHeader? then [items[|items| - 1]] else [])
  }

  lemma {:induction false} CardsOfAppend(a: seq<Item>, b: seq<Item>)
    ensures CardsOf(a + b) == CardsOf(a) + CardsOf(b)
    ensures HeadersOf(a + b) == HeadersOf(a) + HeadersOf(b)
    decreases |b|
  {
    if b != [] {
      assert (a + b)[..|a + b| - 1] == a + b[..|b| - 1];
      CardsOfAppend(a, b[..|b| - 1]);
    } else {
      assert a + b == a;
    }
  }

  lemma {:induction false} CardsOfCards(g: seq<Template>)
    ensures CardsOf(Cards(g)) == g && HeadersOf(Cards(g)) == []
  {
    if g != [] {
      assert Cards(g)[..|g| - 1] == Cards(g[..|g| - 1]);
      CardsOfCards(g[..|g| - 1]);
      assert g[..|g| - 1] + [g[|g| - 1]] == g;
    }
  }

  /** The cards of the laid-out list show the groups' templates, day after
      day. */
  lemma {:induction false} FlatCards(grouped: map<string, seq<Template>>, days: seq<string>)
    requires forall k :: 0 <= k < |days| ==> days[k] in grouped
    ensures CardsOf(Flat(grouped, days)) == Concat(grouped, days)
  {
    if days != [] {
      var front, d := days[..|days| - 1], days[|days| - 1];
      FlatCards(grouped, front);
      FlatStep(grouped, days);
    }
  }

  /** What one more day adds to the laid-out list: its header and its
      group's cards. */
  lemma FlatStep(grouped: map<string, seq<Template>>, days: seq<string>)
    requires days != [] && forall k :: 0 <= k < |days| ==> days[k] in grouped
    ensures var front, d := days[..|days| - 1], days[|days| - 1];
            && CardsOf(Flat(grouped, days)) == CardsOf(Flat(grouped, front)) + grouped[d]
            && HeadersOf(Flat(grouped, days)) == HeadersOf(Flat(grouped, front)) + [DayHeader(d, |grouped[d]|)]
  {
    var front, d := days[..|days| - 1], days[|days| - 1];
    var f := Flat(grouped, front);
    var header := [DayHeader(d, |grouped[d]|)];
    assert Flat(grouped, days) == f + header + Cards(grouped[d]);
    CardsOfAppend(f + header, Cards(grouped[d]));
    CardsOfAppend(f, header);
    assert header[..0] == [];
    CardsOfCards(grouped[d]);
  }

  /** The headers of the laid-out list are one per day, in day order, each
      counting its group. */
  lemma {:induction false} FlatHeaders(grouped: map<string, seq<Template>>, days: seq<string>)
    requires forall k :: 0 <= k < |days| ==> days[k] in grouped
    ensures |HeadersOf(Flat(grouped, days))| == |days|
    ensures forall k :: 0 <= k < |days| ==> HeadersOf(Flat(grouped, days))[k] == DayHeader(days[k], |grouped[days[k]]|)
  {
    if days != [] {
      var front, d := days[..|days| - 1], days[|days| - 1];
      FlatHeaders(grouped, front);
      FlatStep(grouped, days);
    }
  }

  /** Headers and cards are all the list holds. */
  lemma {:induction false} FlatLength(grouped: map<string, seq<Template>>, days: seq<string>)
    requires forall k :: 0 <= k < |days| ==> days[k] in grouped
    ensures |Flat(grouped, days)| == |days| + |Concat(grouped, days)|
  {
    if days != [] {
      FlatLength(grouped, days[..|days| - 1]);
    }
  }

  /** How often a template occurs in the concatenated groups of distinct
      days, when only the group of day `d0` can hold it. */
  lemma {:induction false} ConcatCount(grouped: map<string, seq<Template>>, days: seq<string>, t: Template, d0: string)
    requires forall k :: 0 <= k < |days| ==> days[k] in grouped
    requires Distinct(days)
    requires forall k :: 0 <= k < |days| && days[k] != d0 ==> multiset(grouped[days[k]])[t] == 0
    ensures multiset(Concat(grouped, days))[t] == if d0 in days then multiset(grouped[d0])[t] else 0
  {
    if days != [] {
      var front := days[..|days| - 1];
      ConcatCount(grouped, front, t, d0);
      assert days == front + [days[|days| - 1]];
    }
  }

  /** Every template with a fetch time is shown exactly as often as it is
      stored, and one without is not shown. */
  lemma ShownOnce(ts: seq<Template>, dayKey: int -> string, t: Template)
    ensures var grouped, days := SortedGroups(Groups(ts, dayKey)), SortedDays(ts, dayKey);
            (forall k :: 0 <= k < |days| ==> days[k] in grouped)
            && multiset(CardsOf(Flat(grouped, days)))[t] == if Dated(t) then multiset(ts)[t] else 0
  {
    var groups := Groups(ts, dayKey);
    var grouped, days := SortedGroups(groups), SortedDays(ts, dayKey);
    var order := DayOrder(ts, dayKey);
    SubMultisetDistinct(days, order);
    assert forall k :: 0 <= k < |days| ==> days[k] in grouped by {
      forall k | 0 <= k < |days| ensures days[k] in grouped {
        assert days[k] in multiset(days);
      }
    }
    FlatCards(grouped, days);
    var d0 := if Dated(t) then dayKey(t.fetchedAt) else "";
    forall k | 0 <= k < |days| && days[k] != d0 ensures multiset(grouped[days[k]])[t] == 0 {
      OnDayCount(ts, dayKey, days[k], t);
    }
    ConcatCount(grouped, days, t, d0);
    OnDayCount(ts, dayKey, d0, t);
    DayOrderMembers(ts, dayKey, d0);
    assert d0 in days <==> d0 in order by {
      assert d0 in days <==> d0 in multiset(days);
      assert d0 in order <==> d0 in multiset(order);
    }
    if Dated(t) && multiset(ts)[t] > 0 {
      assert t in OnDay(ts, dayKey, d0) by {
        assert t in multiset(OnDay(ts, dayKey, d0));
      }
    }
  }

  // ---------------------------------------------------------------- pages

  /** `Math.ceil(n / 20)`. */
  function TotalPages(n: nat): (r: nat)
    ensures n == 0 ==> r == 0
    ensures n > 0 ==> (r - 1) * TemplatesPerPage < n <= r * TemplatesPerPage
  {
    (n + TemplatesPerPage - 1) / TemplatesPerPage
  }

  /** `flat.slice((page - 1) * 20, (page - 1) * 20 + 20)`. */
  function PageItems(flat: seq<Item>, page: int): seq<Item>
  {
    Slice(flat, (page - 1) * TemplatesPerPage, (page - 1) * TemplatesPerPage + TemplatesPerPage)
  }

  /** Every page in range is full but the last, and none is empty. */
  lemma PageSize(flat: seq<Item>, page: int)
    requires 1 <= page <= TotalPages(|flat|)
    ensures 1 <= |PageItems(flat, page)| <= TemplatesPerPage
    ensures page < TotalPages(|flat|) ==> |PageItems(flat, page)| == TemplatesPerPage
  {
  }

  /** Pages 1 to `k`, one after the other. */
  function Pages(flat: seq<Item>, k: nat): seq<Item>
  {
    if k == 0 then [] else Pages(flat, k - 1) + PageItems(flat, k)
  }

  /** Read page after page, the pages give back the whole list once. */
  lemma {:induction false} PagesCover(flat: seq<Item>, k: nat)
    ensures Pages(flat, k) == flat[..if k * TemplatesPerPage < |flat| then k * TemplatesPerPage else |flat|]
  {
    if k > 0 {
      PagesCover(flat, k - 1);
      var lo := if (k - 1) * TemplatesPerPage < |flat| then (k - 1) * TemplatesPerPage else |flat|;
      var hi := if k * TemplatesPerPage < |flat| then k * TemplatesPerPage else |flat|;
      assert flat[..hi] == flat[..lo] + flat[lo..hi];
    }
  }

  lemma PagesPartition(flat: seq<Item>)
    ensures Pages(flat, TotalPages(|flat|)) == flat
  {
    PagesCover(flat, TotalPages(|flat|));
  }

  /** The page number and its two buttons. */
  class Pager {
    var currentPage: int

    constructor ()
      ensures currentPage == 1
    {
      currentPage := 1;
    }

    /** `setCurrentPage(prev => Math.max(1, prev - 1))`. */
    method Previous()
      modifies this
      ensures currentPage == if old(currentPage) - 1 < 1 then 1 else old(currentPage) - 1
      ensures currentPage >= 1
    {
      currentPage := if currentPage - 1 < 1 then 1 else currentPage - 1;
    }

    /** `setCurrentPage(prev => Math.min(totalPages, prev + 1))`. */
    method Next(totalPages: int)
      modifies this
      ensures currentPage == if totalPages < old(currentPage) + 1 then totalPages else old(currentPage) + 1
      ensures currentPage <= totalPages
    {
      currentPage := if totalPages < currentPage + 1 then totalPages else currentPage + 1;
    }

    /** The items the current page shows. */
    function Visible(flat: seq<Item>): seq<Item>
      reads this
    {
      PageItems(flat, currentPage)
    }
  }

  /** The buttons are shown only with more than one page; Previous is off
      on the first page and Next on the last. */
  predicate ShowsPagination(totalPages: nat) { totalPages > 1 }
  predicate PreviousEnabled(page: int) { page != 1 }
  predicate NextEnabled(page: int, totalPages: nat) { page != totalPages }

  /** Clicking an enabled button from a page in range moves one page and
      stays in range; the page shown is never empty. */
  method ClickWithinRange(pager: Pager, flat: seq<Item>, forward: bool)
    requires 1 <= pager.currentPage <= TotalPages(|flat|) && ShowsPagination(TotalPages(|flat|))
    requires forward ==> NextEnabled(pager.currentPage, TotalPages(|flat|))
    requires !forward ==> PreviousEnabled(pager.currentPage)
    modifies pager
    ensures pager.currentPage == old(pager.currentPage) + (if forward then 1 else -1)
    ensures 1 <= pager.currentPage <= TotalPages(|flat|)
    ensures 1 <= |pager.Visible(flat)| <= TemplatesPerPage
  {
    if forward {
      pager.Next(TotalPages(|flat|));
    } else {
      pager.Previous();
    }
    PageSize(flat, pager.currentPage);
  }
}
