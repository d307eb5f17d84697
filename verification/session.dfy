/**
 A session on the dashboard: a sequence of UI events applied one after
 another from a state, collecting the navigations the handlers issue.
 */
module Session {
  import opened Catalog
  import opened DashboardState

  datatype Outcome = Outcome(state: ViewState, navigations: seq<string>)

  /** How many of `es` call the router. */
  function CountNavigating(es: seq<Event>): nat {
    if es == [] then 0
    else (if es[0].Navigates() then 1 else 0) + CountNavigating(es[1..])
  }

  /** The value of the last search input in `es`, or `query` when there is none. */
  function LastQuery(es: seq<Event>, query: string): string {
    if es == [] then query
    else LastQuery(es[1..], if es[0].SearchInput? then es[0].value else query)
  }

  /** The view chosen by the last toggle in `es`, or `view` when there is none. */
  function LastView(es: seq<Event>, view: ViewType): ViewType {
    if es == [] then view
    else LastView(es[1..], if es[0].ShowGrid? then Grid else if es[0].ShowList? then List else view)
  }

  /**
   The create modal's flag after `es`, starting from `open`: the last of
   open, cancel or submit decides it.
   */
  function LastModal(es: seq<Event>, open: bool): bool {
    if es == [] then open
    else LastModal(es[1..], if es[0].OpenCreate? then true
                            else if es[0].CancelCreate? || es[0].SubmitCreate? then false
                            else open)
  }

  /**
   The search overlay's flag after `es`, starting from `open`: the chord and
   a focus of the search bar open it; Escape, a backdrop click and a click
   on a result close it.
   */
  function LastOverlay(es: seq<Event>, open: bool): bool {
    if es == [] then open
    else
      var e := es[0];
      var next :=
        if e.KeyDown? then IsSearchChord(e.press) || (open && e.press.key != "Escape")
        else if e.SearchFocus? then true
        else if e.SearchBackdropClick? || e.SearchProjectClick? then false
        else open;
      LastOverlay(es[1..], next)
  }

  /**
   Apply `es` in order from `s`. One navigation is issued per navigating
   event, every one to the matrix route, and a draft whose type is a select
   option stays so.
   */
  function Run(s: ViewState, es: seq<Event>): (o: Outcome)
    ensures |o.navigations| == CountNavigating(es)
    ensures forall i :: 0 <= i < |o.navigations| ==> o.navigations[i] == MatrixRoute
    ensures ValidDraft(s.newProject) ==> ValidDraft(o.state.newProject)
    decreases |es|
  {
    if es == [] then Outcome(s, [])
    else
      var t := Step(s, es[0]);
      var rest := Run(t.state, es[1..]);
      var issued := if t.navigation.Some? then [t.navigation.value] else [];
      Outcome(rest.state, issued + rest.navigations)
  }

  /** Running `a` then `b` is running `a + b`. */
  lemma {:induction false} RunAppend(s: ViewState, a: seq<Event>, b: seq<Event>)
    ensures Run(s, a + b).state == Run(Run(s, a).state, b).state
    ensures Run(s, a + b).navigations == Run(s, a).navigations + Run(Run(s, a).state, b).navigations
    decreases |a|
  {
    if a != [] {
      var t := Step(s, a[0]);
      var issued := if t.navigation.Some? then [t.navigation.value] else [];
      assert (a + b)[0] == a[0];
      assert (a + b)[1..] == a[1..] + b;
      RunAppend(t.state, a[1..], b);
      var mid := Run(t.state, a[1..]);
      assert Run(s, a) == Outcome(mid.state, issued + mid.navigations);
      assert issued + (mid.navigations + Run(mid.state, b).navigations)
          == (issued + mid.navigations) + Run(mid.state, b).navigations;
    } else {
      assert a + b == b;
    }
  }

  /** After a session the query is the last value typed. */
  lemma {:induction false} RunQueryIsLastTyped(s: ViewState, es: seq<Event>)
    ensures Run(s, es).state.searchQuery == LastQuery(es, s.searchQuery)
    decreases |es|
  {
    if es != [] {
      RunQueryIsLastTyped(Step(s, es[0]).state, es[1..]);
    }
  }

  /** After a session the visible projects are the matches of the last value typed. */
  lemma RunShowsLastTypedMatches(s: ViewState, es: seq<Event>)
    ensures Visible(Run(s, es).state) == Filter(Seed, LastQuery(es, s.searchQuery))
  {
    RunQueryIsLastTyped(s, es);
  }

  /** After a session the view is the one the last toggle chose. */
  lemma {:induction false} RunViewIsLastToggle(s: ViewState, es: seq<Event>)
    ensures Run(s, es).state.viewType == LastView(es, s.viewType)
    decreases |es|
  {
    if es != [] {
      RunViewIsLastToggle(Step(s, es[0]).state, es[1..]);
    }
  }

  /** After a session the create modal is open exactly when the last open, cancel or submit was an open. */
  lemma {:induction false} RunModalIsLastSwitch(s: ViewState, es: seq<Event>)
    ensures Run(s, es).state.isModalOpen == LastModal(es, s.isModalOpen)
    decreases |es|
  {
    if es != [] {
      RunModalIsLastSwitch(Step(s, es[0]).state, es[1..]);
    }
  }

  /** After a session the search overlay is open exactly as the last opening or closing event left it. */
  lemma {:induction false} RunOverlayIsLastSwitch(s: ViewState, es: seq<Event>)
    ensures Run(s, es).state.isSearchOpen == LastOverlay(es, s.isSearchOpen)
    decreases |es|
  {
    if es != [] {
      RunOverlayIsLastSwitch(Step(s, es[0]).state, es[1..]);
    }
  }

  /** Events that neither open, cancel nor submit the create form leave the modal flag alone. */
  lemma {:induction false} ModalFlagIndependent(s: ViewState, es: seq<Event>)
    requires forall i :: 0 <= i < |es| ==> !(es[i].OpenCreate? || es[i].CancelCreate? || es[i].SubmitCreate?)
    ensures Run(s, es).state.isModalOpen == s.isModalOpen
    decreases |es|
  {
    if es != [] {
      ModalFlagIndependent(Step(s, es[0]).state, es[1..]);
    }
  }

  /** A session that only types in the search field leaves everything but the query as it was. */
  lemma {:induction false} TypingOnlyTouchesQuery(s: ViewState, es: seq<Event>)
    requires forall i :: 0 <= i < |es| ==> es[i].SearchInput?
    ensures Run(s, es).state == s.(searchQuery := LastQuery(es, s.searchQuery))
    ensures Run(s, es).navigations == []
    decreases |es|
  {
    if es != [] {
      TypingOnlyTouchesQuery(Step(s, es[0]).state, es[1..]);
    }
  }

  /**
   Open the create form, fill name "Vault" and description "Yield vault",
   keep the default type and submit: the modal closes and exactly one
   navigation, to the matrix route, is issued.
   */
  lemma CreateScenario()
    ensures Run(Initial, [OpenCreate, EditName("Vault"), EditDescription("Yield vault"), SubmitCreate])
      == Outcome(Initial.(newProject := NewProject("Vault", "Yield vault", "defi")), [MatrixRoute])
  {
    var es := [OpenCreate, EditName("Vault"), EditDescription("Yield vault"), SubmitCreate];
    var s1 := Initial.(isModalOpen := true);
    var s2 := s1.(newProject := NewProject("Vault", "", "defi"));
    var s3 := s2.(newProject := NewProject("Vault", "Yield vault", "defi"));
    assert Step(Initial, es[0]) == Transition(s1, None);
    assert Step(s1, es[1]) == Transition(s2, None);
    assert Step(s2, es[2]) == Transition(s3, None);
    assert Step(s3, es[3]) == Transition(s3.(isModalOpen := false), Some(MatrixRoute));
    assert es[1..][1..][1..][1..] == [];
  }

  /** Ctrl+K opens the overlay, Escape closes it, a second Escape keeps it closed. */
  lemma ShortcutScenario(s: ViewState)
    ensures Run(s, [KeyDown(KeyPress("k", false, true))]).state.isSearchOpen
    ensures !Run(s, [KeyDown(KeyPress("k", false, true)), KeyDown(KeyPress("Escape", false, false))]).state.isSearchOpen
    ensures Run(s, [KeyDown(KeyPress("k", false, true)), KeyDown(KeyPress("Escape", false, false)), KeyDown(KeyPress("Escape", false, false))])
      == Run(s, [KeyDown(KeyPress("k", false, true)), KeyDown(KeyPress("Escape", false, false))])
  {
    var chord := KeyDown(KeyPress("k", false, true));
    var esc := KeyDown(KeyPress("Escape", false, false));
    var open := s.(isSearchOpen := true);
    var closed := s.(isSearchOpen := false);
    assert Step(s, chord) == Transition(open, None);
    assert Step(open, esc) == Transition(closed, None);
    assert Step(closed, esc) == Transition(closed, None);
    assert Run(s, [chord]) == Outcome(open, []);
    assert [chord, esc][1..] == [esc];
    assert Run(open, [esc]) == Outcome(closed, []);
    assert Run(s, [chord, esc]) == Outcome(closed, []);
    assert [chord, esc, esc][1..] == [esc, esc];
    assert [esc, esc][1..] == [esc];
    assert Run(closed, [esc]) == Outcome(closed, []);
  }
}
