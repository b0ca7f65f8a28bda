/**
 The dashboard page: the signed-in user's chart list, its loading flag, the
 fetch the page issues when the session changes, the local list update after
 a delete, and the choice of what to render.
 */
module Dashboard {
  import opened Records
  import opened Seqs

  /** The page's state: `charts` and `loading`. */
  datatype DashboardState = DashboardState(charts: seq<Chart>, loading: bool)

  /** `useState([])` and `useState(true)` */
  function InitialDashboard(): (s: DashboardState)
    ensures s.loading && s.charts == []
  {
    DashboardState([], true)
  }

  /** The effect run when the session changes: the new state, and the owner
      whose charts are requested (`None` when no request is made). */
  datatype SessionEffect = SessionEffect(state: DashboardState, fetchFor: Option<UserId>)

  /** With a user, the list is requested for that user's id and `loading` is
      left as it is until the request resolves; without one, nothing is
      requested and `loading` is cleared. */
  function OnSessionChange(s: DashboardState, user: Option<UserId>): (e: SessionEffect)
    ensures e.fetchFor == user
    ensures e.state.charts == s.charts
    ensures user.Some? ==> e.state.loading == s.loading
    ensures user.None? ==> !e.state.loading
  {
    match user
    case Some(_) => SessionEffect(s, user)
    case None => SessionEffect(s.(loading := false), None)
  }

  /** The completion of `fetchCharts`: the rows replace the list on success;
      an error only logs, so the previous list stays; loading ends either way. */
  function ResolveFetch(s: DashboardState, outcome: FetchOutcome<seq<Chart>>): (r: DashboardState)
    ensures !r.loading
    ensures outcome.Fetched? ==> r.charts == outcome.data
    ensures outcome.FetchFailed? ==> r.charts == s.charts
  {
    match outcome
    case FetchFailed => s.(loading := false)
    case Fetched(rows) => DashboardState(rows, false)
  }

  /** What the delete request resolves to. */
  datatype DeleteOutcome = DeleteFailed | DeleteSucceeded

  /** The filter test `chart => chart.id !== id`. */
  function KeepOtherCharts(id: ChartId): Chart -> bool {
    (c: Chart) => c.id != id
  }

  /** `deleteChart(id)`: the list after the user answers the confirmation
      and, if they confirmed, the datastore answers the delete. */
  function DeleteChart(charts: seq<Chart>, id: ChartId, confirmed: bool, outcome: DeleteOutcome): (r: seq<Chart>)
    ensures !confirmed || outcome.DeleteFailed? ==> r == charts
    ensures confirmed && outcome.DeleteSucceeded? ==>
      && (forall i :: 0 <= i < |r| ==> r[i].id != id)
      && (forall i :: 0 <= i < |charts| && charts[i].id != id ==> charts[i] in r)
      && IsSubsequence(r, charts)
      && (forall i :: 0 <= i < |charts| && charts[i].id != id ==> multiset(r)[charts[i]] == multiset(charts)[charts[i]])
  {
    if confirmed && outcome.DeleteSucceeded? then
      FilterIsSubsequence(charts, KeepOtherCharts(id));
      FilterMultiplicity(charts, KeepOtherCharts(id));
      Filter(charts, KeepOtherCharts(id))
    else charts
  }

  /** Deleting an id that is not in the list leaves the list unchanged. */
  lemma DeleteAbsentId(charts: seq<Chart>, id: ChartId, confirmed: bool, outcome: DeleteOutcome)
    requires forall i :: 0 <= i < |charts| ==> charts[i].id != id
    ensures DeleteChart(charts, id, confirmed, outcome) == charts
  {
    if confirmed && outcome.DeleteSucceeded? {
      FilterKeepsAll(charts, KeepOtherCharts(id));
    }
  }

  /** A successful delete of an id carried by exactly one chart removes just that chart. */
  lemma DeleteRemovesOne(charts: seq<Chart>, i: nat)
    requires i < |charts|
    requires forall j :: 0 <= j < |charts| && j != i ==> charts[j].id != charts[i].id
    ensures DeleteChart(charts, charts[i].id, true, DeleteSucceeded) == charts[..i] + charts[i + 1..]
  {
    FilterDropsOne(charts, KeepOtherCharts(charts[i].id), i);
  }

  /** Deleting again what was just deleted changes nothing. */
  lemma DeleteIdempotent(charts: seq<Chart>, id: ChartId)
    ensures
      var once := DeleteChart(charts, id, true, DeleteSucceeded);
      DeleteChart(once, id, true, DeleteSucceeded) == once
  {
    FilterIdempotent(charts, KeepOtherCharts(id));
  }

  /** What the page renders. */
  datatype DashboardView = Welcome | Loading | NoChartsYet | ChartGrid(charts: seq<Chart>)

  function ViewOf(user: Option<UserId>, s: DashboardState): (v: DashboardView)
    ensures v == Welcome <==> user.None?
    ensures v == Loading <==> user.Some? && s.loading
    ensures v == NoChartsYet <==> user.Some? && !s.loading && |s.charts| == 0
    ensures v.ChartGrid? ==> v.charts == s.charts && |s.charts| > 0
  {
    if user.None? then Welcome
    else if s.loading then Loading
    else if |s.charts| == 0 then NoChartsYet
    else ChartGrid(s.charts)
  }

  /** Signed out, the welcome view is shown whatever the list holds. */
  lemma SignedOutWelcome(s: DashboardState)
    ensures ViewOf(None, s) == Welcome
    ensures ViewOf(None, OnSessionChange(s, None).state) == Welcome
  {
  }

  /** Signed out on first render: no request is made and loading ends. */
  lemma SignedOutNoFetch()
    ensures OnSessionChange(InitialDashboard(), None) == SessionEffect(DashboardState([], false), None)
  {
  }

  /** Signed in on first render: the list is requested for that user, and the
      loading view stays until the answer arrives. */
  lemma SignedInFetchesOwnCharts(u: UserId)
    ensures OnSessionChange(InitialDashboard(), Some(u)).fetchFor == Some(u)
    ensures ViewOf(Some(u), OnSessionChange(InitialDashboard(), Some(u)).state) == Loading
  {
  }

  /** A failed first fetch is not reported on the page: it looks like an empty list. */
  lemma FailedFirstFetchLooksEmpty(u: UserId)
    ensures ViewOf(Some(u), ResolveFetch(OnSessionChange(InitialDashboard(), Some(u)).state, FetchFailed))
      == NoChartsYet
  {
  }

  /** A successful first fetch shows its rows, or the empty state when there are none. */
  lemma FirstFetchShowsRows(u: UserId, rows: seq<Chart>)
    ensures var v := ViewOf(Some(u), ResolveFetch(OnSessionChange(InitialDashboard(), Some(u)).state, Fetched(rows)));
      (|rows| == 0 ==> v == NoChartsYet) && (|rows| > 0 ==> v == ChartGrid(rows))
  {
  }

  /** Deleting the only chart leaves an empty list and the "No charts yet" view. */
  lemma DeleteOnlyChart(u: UserId, c: Chart)
    ensures DeleteChart([c], c.id, true, DeleteSucceeded) == []
    ensures ViewOf(Some(u), DashboardState(DeleteChart([c], c.id, true, DeleteSucceeded), false)) == NoChartsYet
  {
    DeleteRemovesOne([c], 0);
  }

  // ---------------------------------------------------------------------------
  // Event sequences while the page stays mounted

  /** What can happen to the page's state: the `user` dependency of the effect
      changes, a `fetchCharts` request resolves, or a delete is answered. */
  datatype DashboardEvent =
    | SessionChanged(user: Option<UserId>)
    | FetchResolved(outcome: FetchOutcome<seq<Chart>>)
    | ChartDeleted(id: ChartId, confirmed: bool, deleted: DeleteOutcome)

  function ApplyEvent(s: DashboardState, e: DashboardEvent): DashboardState {
    match e
    case SessionChanged(user) => OnSessionChange(s, user).state
    case FetchResolved(outcome) => ResolveFetch(s, outcome)
    case ChartDeleted(id, confirmed, deleted) => s.(charts := DeleteChart(s.charts, id, confirmed, deleted))
  }

  function ApplyEvents(s: DashboardState, es: seq<DashboardEvent>): DashboardState
    decreases |es|
  {
    if |es| == 0 then s else ApplyEvents(ApplyEvent(s, es[0]), es[1..])
  }

  /** Nothing sets `loading` back to true: once it is false, it stays false
      whatever happens next. */
  lemma {:induction false} LoadingNeverReturns(s: DashboardState, es: seq<DashboardEvent>)
    requires !s.loading
    ensures !ApplyEvents(s, es).loading
    decreases |es|
  {
    if |es| > 0 {
      LoadingNeverReturns(ApplyEvent(s, es[0]), es[1..]);
    }
  }

  /** Session changes never touch the list: only a successful fetch replaces
      it and only a confirmed, successful delete shrinks it. */
  lemma {:induction false} SessionChangesKeepList(s: DashboardState, users: seq<Option<UserId>>)
    ensures ApplyEvents(s, seq(|users|, i requires 0 <= i < |users| => SessionChanged(users[i]))).charts == s.charts
    decreases |users|
  {
    var es := seq(|users|, i requires 0 <= i < |users| => SessionChanged(users[i]));
    if |users| > 0 {
      SessionChangesKeepList(ApplyEvent(s, es[0]), users[1..]);
      assert es[1..] == seq(|users[1..]|, i requires 0 <= i < |users[1..]| => SessionChanged(users[1..][i]));
    }
  }

  /** A second sign-in while the page stays mounted shows the previous user's
      list rather than the loading view, and keeps showing it if the new
      user's fetch fails. */
  lemma SecondSignInShowsPreviousList(u1: UserId, u2: UserId, rows: seq<Chart>)
    requires |rows| > 0
    ensures
      var shown := ApplyEvents(InitialDashboard(), [SessionChanged(Some(u1)), FetchResolved(Fetched(rows)), SessionChanged(Some(u2))]);
      && ViewOf(Some(u2), shown) == ChartGrid(rows)
      && ViewOf(Some(u2), ApplyEvent(shown, FetchResolved(FetchFailed))) == ChartGrid(rows)
  {
    var es := [SessionChanged(Some(u1)), FetchResolved(Fetched(rows)), SessionChanged(Some(u2))];
    var s1 := ApplyEvent(InitialDashboard(), es[0]);
    var s2 := ApplyEvent(s1, es[1]);
    assert s2 == DashboardState(rows, false);
    assert ApplyEvents(InitialDashboard(), es) == ApplyEvents(s2, es[2..]);
    assert ApplyEvents(s2, es[2..]) == ApplyEvents(s2, []);
  }

  /** Signed out on first render and then signed in, the page shows
      "No charts yet" until the fetch answers, not the loading view. */
  lemma SignInAfterSignOutSkipsLoading(u: UserId)
    ensures ViewOf(Some(u), ApplyEvents(InitialDashboard(), [SessionChanged(None), SessionChanged(Some(u))])) == NoChartsYet
  {
    var es := [SessionChanged(None), SessionChanged(Some(u))];
    var s1 := ApplyEvent(InitialDashboard(), es[0]);
    assert s1 == DashboardState([], false);
    assert ApplyEvents(InitialDashboard(), es) == ApplyEvents(s1, es[1..]);
    assert ApplyEvents(s1, es[1..]) == ApplyEvents(s1, []);
  }
}
