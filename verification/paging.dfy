/** Paginated loading of the candidate pool from the listing API. Each
    successful page response appends its result ids to the pool and asks
    for the next page, until the page number reaches `maxpages`; when the
    page number equals `initialpages` the first recommendation is drawn.
    The HTTP responses are parameters. */
module Paging {
  import opened Js
  import opened App

  const StartMaxPages := 12
  const StartInitialPages := 6
  const MorePages := 6
  const PageParam := "&page="

  /** The counters describe a walk that draws before it stops. */
  predicate Bounded(s: State)
  {
    0 <= s.initialpages < s.maxpages
  }

  /** `reset`: back to page 0 with the starting limits (12 pages, first draw
      at page 6), and flag the stored filters as changed. */
  function Reset(s: State): (r: State)
    ensures Bounded(r) && r.dataIterator == 0 && r.storageChanged
    ensures r.maxpages == StartMaxPages && r.initialpages == StartInitialPages
    ensures r.(dataIterator := s.dataIterator, maxpages := s.maxpages,
               initialpages := s.initialpages, storageChanged := s.storageChanged) == s
  {
    s.(dataIterator := 0, maxpages := StartMaxPages, initialpages := StartInitialPages, storageChanged := true)
  }

  /** `gimmeNew`: allows six more pages. The page request and the draw that
      follow it in the source are separate steps here. */
  function GimmeNew(s: State): (r: State)
    ensures r.maxpages == s.maxpages + MorePages
    ensures Bounded(s) ==> Bounded(r)
    ensures r.(maxpages := s.maxpages) == s
  {
    s.(maxpages := s.maxpages + MorePages)
  }

  /** The page-0 limits: the page count is cut to the total the API reports,
      and the first-draw page is pulled below it when it no longer fits. */
  function Clamp(total: int, maxpages: int, initialpages: int): (r: (int, int))
    ensures r.0 <= total && r.0 <= maxpages && (r.0 == total || r.0 == maxpages)
    ensures r.1 < r.0 && r.1 <= initialpages
    ensures r.1 == initialpages || r.1 == r.0 - 1
    ensures 0 <= initialpages && 0 < r.0 ==> 0 <= r.1
  {
    var m := if total <= maxpages then total else maxpages;
    (m, if m <= initialpages then m - 1 else initialpages)
  }

  datatype Response = Page(totalPages: int, ids: seq<int>) | HttpError

  /** One `getData` callback: the new state, whether it draws a movie,
      the page it requests next (if any), and whether it offers a retry. */
  datatype Step = Step(state: State, draws: bool, next: Option<int>, retry: bool)

  /** The page a request is for: its argument unless that is absent or 0,
      otherwise the page counter. */
  function PageNumber(s: State, page: Option<int>): int
  {
    if page.Some? && page.value != 0 then page.value else s.dataIterator
  }

  /** `getData` on one response. The limits are copied from the state; on
      page 0 the copies are clamped, and with `persistClamp` false (as in
      the source) the clamped copies are dropped afterwards, so later pages
      use the state's unclamped limits. A page below the limit appends its
      ids, bumps the page counter, points `qs` at the next page and requests
      it; it draws when it is the first-draw page. A failed request offers a
      retry when it is at or below the first-draw page. */
  function GetData(s: State, page: Option<int>, resp: Response, persistClamp: bool): (r: Step)
    ensures var i := PageNumber(s, page);
      && (resp.HttpError? ==> r.state == s && r.next.None? && !r.draws && (r.retry <==> i <= s.initialpages))
      && (resp.Page? ==> !r.retry)
      && (r.next.Some? <==> resp.Page? && i < s.maxpages && (i == 0 ==> 0 < resp.totalPages))
      && (r.next.Some? ==>
            && r.state.results == s.results + resp.ids
            && r.state.dataIterator == s.dataIterator + 1
            && r.next == Some(r.state.dataIterator)
            && r.state.qs == s.oqs + PageParam + IntToString(r.state.dataIterator))
      && (r.next.None? ==> r.state == s)
      && (i != 0 ==> (r.draws <==> r.next.Some? && i == s.initialpages))
      && (i == 0 ==> (r.draws <==> r.next.Some? && Clamp(resp.totalPages, s.maxpages, s.initialpages).1 == 0))
      && (persistClamp && i == 0 && r.next.Some? ==>
            && (r.state.maxpages, r.state.initialpages) == Clamp(resp.totalPages, s.maxpages, s.initialpages)
            && r.state.maxpages <= resp.totalPages && r.state.initialpages < r.state.maxpages)
      && (!(persistClamp && i == 0 && r.next.Some?) ==>
            r.state.maxpages == s.maxpages && r.state.initialpages == s.initialpages)
    ensures r.state.(results := s.results, dataIterator := s.dataIterator, qs := s.qs,
                     maxpages := s.maxpages, initialpages := s.initialpages) == s
  {
    var i := PageNumber(s, page);
    match resp
    case HttpError => Step(s, false, None, i <= s.initialpages)
    case Page(total, ids) =>
      var limits := if i == 0 then Clamp(total, s.maxpages, s.initialpages) else (s.maxpages, s.initialpages);
      if i < limits.0 then
        var it := s.dataIterator + 1;
        var kept := if persistClamp && i == 0 then s.(maxpages := limits.0, initialpages := limits.1) else s;
        var next := kept.(results := s.results + ids, dataIterator := it, qs := s.oqs + PageParam + IntToString(it));
        Step(next, i == limits.1, Some(it), false)
      else
        Step(s, false, None, false)
  }

  /** `page || dataIterator`: a call with no page, with page 0 (the retry
      button on page 0) or with the counter's own value requests the same
      page and has the same effect. */
  lemma ResumeFromCounter(s: State, resp: Response, persistClamp: bool)
    ensures GetData(s, Some(0), resp, persistClamp) == GetData(s, None, resp, persistClamp)
    ensures GetData(s, Some(s.dataIterator), resp, persistClamp) == GetData(s, None, resp, persistClamp)
  {
  }

  /** The result of following the page chain over a list of responses. */
  datatype Run = Run(state: State, requests: nat, draws: nat)

  /** The chain of `getData` calls, each consuming the next response, until
      a call requests no further page or the responses run out. */
  function Walk(s: State, page: Option<int>, resps: seq<Response>, persistClamp: bool): (r: Run)
    ensures r.requests <= |resps|
    decreases |resps|
  {
    if |resps| == 0 then Run(s, 0, 0)
    else
      var st := GetData(s, page, resps[0], persistClamp);
      var rest := if st.next.Some? then Walk(st.state, st.next, resps[1..], persistClamp) else Run(st.state, 0, 0);
      Run(rest.state, rest.requests + 1, rest.draws + (if st.draws then 1 else 0))
  }

  predicate AllPages(resps: seq<Response>)
  {
    forall j :: 0 <= j < |resps| ==> resps[j].Page?
  }

  /** From page `d` >= 1 with every request answered, the chain requests
      pages `d` to `maxpages` (the last one appends nothing), stops with the
      counter at `maxpages`, and draws once exactly when the first-draw page
      lies in `d .. maxpages-1`. No clamp applies past page 0. */
  lemma {:induction false} WalkFromPage(s: State, resps: seq<Response>, persistClamp: bool)
    requires 1 <= s.dataIterator <= s.maxpages
    requires AllPages(resps)
    requires |resps| >= s.maxpages - s.dataIterator + 1
    ensures var r := Walk(s, Some(s.dataIterator), resps, persistClamp);
      && r.requests == s.maxpages - s.dataIterator + 1
      && r.draws == (if s.dataIterator <= s.initialpages < s.maxpages then 1 else 0)
      && r.state.dataIterator == s.maxpages
      && r.state.maxpages == s.maxpages && r.state.initialpages == s.initialpages
    decreases s.maxpages - s.dataIterator
  {
    var st := GetData(s, Some(s.dataIterator), resps[0], persistClamp);
    if s.dataIterator < s.maxpages {
      assert AllPages(resps[1..]) by {
        assert forall j :: 0 <= j < |resps[1..]| ==> resps[1..][j] == resps[j + 1];
      }
      WalkFromPage(st.state, resps[1..], persistClamp);
    }
  }

  /** As written: after a reset, when the API reports 1 to 11 pages, the
      chain still requests 13 pages, because the clamp is not kept past
      page 0; and with a single page it draws twice, at page 0 and again at
      page 6. */
  lemma WalkIgnoresTotalAsWritten(s0: State, resps: seq<Response>)
    requires AllPages(resps) && |resps| >= 13
    requires 1 <= resps[0].totalPages < StartMaxPages
    ensures var r := Walk(Reset(s0), None, resps, false);
      && r.requests == 13
      && r.draws == (if resps[0].totalPages == 1 then 2 else 1)
  {
    var s := Reset(s0);
    var st := GetData(s, None, resps[0], false);
    assert st.next == Some(1) && st.state.maxpages == 12 && st.state.initialpages == 6;
    assert AllPages(resps[1..]) by {
      assert forall j :: 0 <= j < |resps[1..]| ==> resps[1..][j] == resps[j + 1];
    }
    WalkFromPage(st.state, resps[1..], false);
  }

  /** Keeping the page-0 clamp: after a reset, with a total of at least one
      page, the chain requests one page past `min(total, 12)` and draws
      exactly once. */
  lemma WalkKeepingClampDrawsOnce(s0: State, resps: seq<Response>)
    requires AllPages(resps) && |resps| >= 13
    requires 1 <= resps[0].totalPages
    ensures var total := resps[0].totalPages;
      var r := Walk(Reset(s0), None, resps, true);
      && r.requests == (if total < StartMaxPages then total else StartMaxPages) + 1
      && r.draws == 1
  {
    var s := Reset(s0);
    var st := GetData(s, None, resps[0], true);
    assert st.next == Some(1);
    assert AllPages(resps[1..]) by {
      assert forall j :: 0 <= j < |resps[1..]| ==> resps[1..][j] == resps[j + 1];
    }
    WalkFromPage(st.state, resps[1..], true);
  }

  /** The clamped limits keep the counters bounded, and `gimmeNew` and
      `reset` do too, so a page-0 response can always reach its draw. */
  lemma ClampKeepsBounded(s: State, resp: Response)
    requires Bounded(s) && s.dataIterator == 0
    requires resp.Page? && 0 < resp.totalPages
    ensures Bounded(GetData(s, None, resp, true).state)
    ensures GetData(s, None, resp, true).state.maxpages <= resp.totalPages
  {
  }
}
