/**
 The dashboard's view state and the transition each UI event causes. Every
 event handler of the component becomes one case of `Step`, which returns
 the next state and, for the handlers that call the router, the route they
 navigate to.
 */
module DashboardState {
  import opened Catalog

  datatype Option<T> = None | Some(value: T)

  /** The single destination both the project click and the create submit route to. */
  const MatrixRoute: string := "/matrix"

  datatype ViewType = Grid | List

  /** The choices of the "Project Type" select, each with its option value. */
  datatype ProjectType = DeFi | Lending | Amm | Staking {
    function OptionValue(): string {
      match this
      case DeFi => "defi"
      case Lending => "lending"
      case Amm => "amm"
      case Staking => "staking"
    }
  }

  /** The create form's draft. `kind` holds the selected option value as a string. */
  datatype NewProject = NewProject(name: string, description: string, kind: string)

  datatype ViewState = ViewState(
    searchQuery: string,
    isModalOpen: bool,
    isSearchOpen: bool,
    viewType: ViewType,
    newProject: NewProject
  )

  /** The state on mount: empty query, both overlays closed, grid view, empty "defi" draft. */
  const Initial: ViewState := ViewState("", false, false, Grid, NewProject("", "", "defi"))

  /** A global key-down as the listener sees it. */
  datatype KeyPress = KeyPress(key: string, metaKey: bool, ctrlKey: bool)

  datatype Event =
    | KeyDown(press: KeyPress)
    | ShowGrid
    | ShowList
    | OpenCreate
    | CancelCreate
    | SubmitCreate
    | GridProjectClick(projectId: string)
    | SearchProjectClick(projectId: string)
    | SearchFocus
    | SearchInput(value: string)
    | SearchBackdropClick
    | SearchPanelClick
    | EditName(value: string)
    | EditDescription(value: string)
    | SelectType(choice: ProjectType)
  {
    /** The handler calls the router. */
    predicate Navigates() {
      SubmitCreate? || GridProjectClick? || SearchProjectClick?
    }
  }

  /** The fields of `ViewState`, draft fields separately, for stating what a handler may touch. */
  datatype Field = Query | ModalOpen | SearchOpen | View | DraftName | DraftDescription | DraftKind

  /** `s` and `t` agree on every field outside `touched`. */
  predicate AgreeOutside(s: ViewState, t: ViewState, touched: set<Field>) {
    && (Query !in touched ==> t.searchQuery == s.searchQuery)
    && (ModalOpen !in touched ==> t.isModalOpen == s.isModalOpen)
    && (SearchOpen !in touched ==> t.isSearchOpen == s.isSearchOpen)
    && (View !in touched ==> t.viewType == s.viewType)
    && (DraftName !in touched ==> t.newProject.name == s.newProject.name)
    && (DraftDescription !in touched ==> t.newProject.description == s.newProject.description)
    && (DraftKind !in touched ==> t.newProject.kind == s.newProject.kind)
  }

  /** The fields each event's handler assigns. */
  function Footprint(e: Event): set<Field> {
    match e
    case KeyDown(_) => {SearchOpen}
    case ShowGrid => {View}
    case ShowList => {View}
    case OpenCreate => {ModalOpen}
    case CancelCreate => {ModalOpen}
    case SubmitCreate => {ModalOpen}
    case GridProjectClick(_) => {}
    case SearchProjectClick(_) => {SearchOpen}
    case SearchFocus => {SearchOpen}
    case SearchInput(_) => {Query}
    case SearchBackdropClick => {SearchOpen}
    case SearchPanelClick => {}
    case EditName(_) => {DraftName}
    case EditDescription(_) => {DraftDescription}
    case SelectType(_) => {DraftKind}
  }

  /** The draft's type is one of the select's option values. */
  predicate ValidDraft(d: NewProject) {
    exists t: ProjectType :: d.kind == t.OptionValue()
  }

  /** The accelerator chord: Cmd or Ctrl together with the key reported as exactly "k". */
  predicate IsSearchChord(k: KeyPress) {
    (k.metaKey || k.ctrlKey) && k.key == "k"
  }

  /**
   The global key-down listener: the chord opens the search overlay, Escape
   closes it, and any other key changes nothing. Only the overlay flag moves.
   */
  function OnKeyDown(s: ViewState, k: KeyPress): (r: ViewState)
    ensures AgreeOutside(s, r, {SearchOpen})
    ensures r.isSearchOpen <==> IsSearchChord(k) || (s.isSearchOpen && k.key != "Escape")
  {
    var afterChord := if IsSearchChord(k) then s.(isSearchOpen := true) else s;
    if k.key == "Escape" then afterChord.(isSearchOpen := false) else afterChord
  }

  datatype Transition = Transition(state: ViewState, navigation: Option<string>)

  /**
   One UI event. The handlers assign only the fields of the event's
   footprint, each to the value its handler writes, navigate exactly when
   the event is a project click or the create submit, always to the matrix
   route, and keep the draft's type one of the select's options.
   */
  function Step(s: ViewState, e: Event): (t: Transition)
    ensures AgreeOutside(s, t.state, Footprint(e))
    ensures e.KeyDown? ==> t.state == OnKeyDown(s, e.press)
    ensures e.ShowGrid? ==> t.state.viewType == Grid
    ensures e.ShowList? ==> t.state.viewType == List
    ensures e.OpenCreate? ==> t.state.isModalOpen
    ensures e.CancelCreate? || e.SubmitCreate? ==> !t.state.isModalOpen
    ensures e.SearchFocus? ==> t.state.isSearchOpen
    ensures e.SearchBackdropClick? || e.SearchProjectClick? ==> !t.state.isSearchOpen
    ensures e.SearchInput? ==> t.state.searchQuery == e.value
    ensures e.EditName? ==> t.state.newProject.name == e.value
    ensures e.EditDescription? ==> t.state.newProject.description == e.value
    ensures e.SelectType? ==> t.state.newProject.kind == e.choice.OptionValue()
    ensures t.navigation.Some? <==> e.Navigates()
    ensures t.navigation.Some? ==> t.navigation.value == MatrixRoute
    ensures ValidDraft(s.newProject) ==> ValidDraft(t.state.newProject)
  {
    match e
    case KeyDown(k) => Transition(OnKeyDown(s, k), None)
    case ShowGrid => Transition(s.(viewType := Grid), None)
    case ShowList => Transition(s.(viewType := List), None)
    case OpenCreate => Transition(s.(isModalOpen := true), None)
    case CancelCreate => Transition(s.(isModalOpen := false), None)
    case SubmitCreate => Transition(s.(isModalOpen := false), Some(MatrixRoute))
    case GridProjectClick(_) => Transition(s, Some(MatrixRoute))
    case SearchProjectClick(_) => Transition(s.(isSearchOpen := false), Some(MatrixRoute))
    case SearchFocus => Transition(s.(isSearchOpen := true), None)
    case SearchInput(v) => Transition(s.(searchQuery := v), None)
    case SearchBackdropClick => Transition(s.(isSearchOpen := false), None)
    case SearchPanelClick => Transition(s, None)
    case EditName(v) => Transition(s.(newProject := s.newProject.(name := v)), None)
    case EditDescription(v) => Transition(s.(newProject := s.newProject.(description := v)), None)
    case SelectType(c) =>
      assert ValidDraft(s.newProject.(kind := c.OptionValue()));
      Transition(s.(newProject := s.newProject.(kind := c.OptionValue())), None)
  }

  /** The projects the grid and the search results show. */
  function Visible(s: ViewState): (r: seq<Project>)
    ensures forall p :: p in r <==> p in Seed && Matches(p, s.searchQuery)
  {
    Filter(Seed, s.searchQuery)
  }

  lemma InitialIsValid()
    ensures ValidDraft(Initial.newProject)
  {
    assert Initial.newProject.kind == DeFi.OptionValue();
  }

  /** On mount every seed project is visible, in order. */
  lemma InitialShowsEverything()
    ensures Visible(Initial) == Seed
  {
    FilterEmptyQuery(Seed);
  }

  /** The chord opens the overlay whatever the state. */
  lemma ChordOpensSearch(s: ViewState, k: KeyPress)
    requires IsSearchChord(k)
    ensures OnKeyDown(s, k) == s.(isSearchOpen := true)
  {
  }

  /** Escape closes the overlay; pressed while already closed it changes nothing. */
  lemma EscapeClosesSearch(s: ViewState, k: KeyPress)
    requires k.key == "Escape"
    ensures OnKeyDown(s, k) == s.(isSearchOpen := false)
    ensures !s.isSearchOpen ==> OnKeyDown(s, k) == s
  {
  }

  /** Keys other than the chord and Escape leave the whole state unchanged. */
  lemma OtherKeysIgnored(s: ViewState, k: KeyPress)
    requires !IsSearchChord(k) && k.key != "Escape"
    ensures OnKeyDown(s, k) == s
  {
  }

  /** The key is compared case-sensitively: Ctrl+Shift+K reports "K" and does not open the overlay. */
  lemma CapitalKIgnored(s: ViewState)
    ensures OnKeyDown(s, KeyPress("K", false, true)) == s
  {
  }

  /** Pressing the same key twice has the effect of pressing it once. */
  lemma KeyDownIdempotent(s: ViewState, k: KeyPress)
    ensures OnKeyDown(OnKeyDown(s, k), k) == OnKeyDown(s, k)
  {
  }

  /** Submitting closes the modal and navigates once, whatever the draft holds; nothing else changes. */
  lemma SubmitClosesAndNavigates(s: ViewState)
    ensures Step(s, SubmitCreate) == Transition(s.(isModalOpen := false), Some(MatrixRoute))
  {
  }

  /** Both project clicks navigate to the matrix route whatever the id; the one in the overlay also closes it. */
  lemma ProjectClickNavigates(s: ViewState, id: string)
    ensures Step(s, GridProjectClick(id)) == Transition(s, Some(MatrixRoute))
    ensures Step(s, SearchProjectClick(id)) == Transition(s.(isSearchOpen := false), Some(MatrixRoute))
  {
  }

  /** Clicks inside the search panel stop at the panel: the overlay stays as it was. */
  lemma PanelClickContained(s: ViewState)
    ensures Step(s, SearchPanelClick) == Transition(s, None)
  {
  }

  /** Each draft edit replaces only its own field of the draft. */
  lemma DraftEditsReplaceOneField(s: ViewState, v: string, c: ProjectType)
    ensures Step(s, EditName(v)).state == s.(newProject := NewProject(v, s.newProject.description, s.newProject.kind))
    ensures Step(s, EditDescription(v)).state == s.(newProject := NewProject(s.newProject.name, v, s.newProject.kind))
    ensures Step(s, SelectType(c)).state == s.(newProject := NewProject(s.newProject.name, s.newProject.description, c.OptionValue()))
  {
  }

  /** Switching to list and back to grid restores a grid-view state exactly. */
  lemma ToggleRoundTrip(s: ViewState)
    requires s.viewType == Grid
    ensures Step(Step(s, ShowList).state, ShowGrid).state == s
  {
  }

  /** Typing replaces the query, and the visible projects follow the new query. */
  lemma SearchInputRefilters(s: ViewState, v: string)
    ensures Step(s, SearchInput(v)).state.searchQuery == v
    ensures Visible(Step(s, SearchInput(v)).state) == Filter(Seed, v)
  {
  }
}
