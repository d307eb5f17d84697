# Project dashboard view state, in Dafny

This project models the non-visual logic of the project dashboard screen
(`components/Dashboard.tsx`). The screen shows a fixed list of three sample
projects with a search bar. A search overlay opens with Cmd/Ctrl+K. There is
a grid/list toggle and a "Create New Project" modal. The model has two parts.

- **Search filter.** The seed list is `Catalog.Seed`. `Catalog.Filter` keeps
  a project when its lower-cased name or lower-cased description contains the
  lower-cased query. Kept projects stay in seed order. Lower-casing is
  `Text.Lower` and the substring test is `Text.Contains`.
  `Text.Includes` is the left-to-right search that decides that test. The
  filter itself is stated through `Text.Contains`; `Text.Includes` is there
  only to show that the predicate is the one such a search computes.
- **View-state machine.** `DashboardState.ViewState` holds the component's
  five pieces of state: `searchQuery`, `isModalOpen`, `isSearchOpen`,
  `viewType` and the `newProject` draft. `DashboardState.Step` applies one UI
  event. Each case of `Step` is one handler of the component. `Step` returns
  the next state and, for the handlers that call the router, the route they
  navigate to. `Session.Run` applies a sequence of events and collects those
  navigations.

Files: `text.dfy` (module `Text`), `catalog.dfy` (module `Catalog`),
`dashboard_state.dfy` (module `DashboardState`), `session.dfy` (module
`Session`).

Two behaviours of the handlers worth knowing:

- The draft is not reset when the create modal opens (line 123). It is not
  reset on submit either (lines 85-90). A second open shows the old draft
  again.
- The shortcut compares the key with exactly `"k"` (line 62). Ctrl+Shift+K
  reports `"K"` and does nothing (`DashboardState.CapitalKIgnored`).

## Model

| member | source | states |
|---|---|---|
| Text.LowerChar | components/Dashboard.tsx:77-78 | a capital letter becomes its small letter and every other character is unchanged; the result is never a capital |
| Text.Lower | components/Dashboard.tsx:77-78 | the result has the input's length and no capitals; each capital becomes its small letter and every other character stays in place |
| Text.Includes | components/Dashboard.tsx:77-78 | the substring search answers true exactly when the needle occurs at some position of the haystack |
| Text.LowerIdempotent | components/Dashboard.tsx:77-78 | lower-casing an already lower-cased string changes nothing |
| Text.ContainsEmpty | components/Dashboard.tsx:77-78 | every string contains the empty string |
| Text.MissingCharNotContained | components/Dashboard.tsx:77-78 | a needle holding a character the haystack lacks is not contained in it |
| Catalog.Filter | components/Dashboard.tsx:76-79 | a project is in the result exactly when it is in the input and its name or description mentions the query; the result is never longer than the input |
| Catalog.FilterIsSubsequence | components/Dashboard.tsx:76-79 | the result is a subsequence of the input, so the seed order is kept |
| Catalog.FilterMultiplicity | components/Dashboard.tsx:76-79 | a matching project appears as often as in the input and a non-matching one never, so nothing is duplicated or dropped |
| Catalog.FilterAllMatch | components/Dashboard.tsx:76-79 | when every project matches, the list comes back unchanged |
| Catalog.FilterEmptyQuery | components/Dashboard.tsx:76-79 | the empty query returns the whole list in its original order |
| Catalog.FilterCaseInsensitive | components/Dashboard.tsx:77-78 | two queries that lower-case alike select the same projects |
| Catalog.FilterKeepsIdsUnique | components/Dashboard.tsx:76-79 | when the input has unique ids, so does the result |
| Catalog.SeedIdsUnique | components/Dashboard.tsx:22-44 | the three seed projects have distinct ids |
| Catalog.TextLacksLetter | components/Dashboard.tsx:77-78 | a text lacking some letter of the query, in either case, does not mention the query |
| Catalog.SeedLending | components/Dashboard.tsx:22-44 | any query that lower-cases to "lending" shows only project '2' |
| Catalog.SeedLendingExample | components/Dashboard.tsx:22-44 | the query "lending" shows only project '2' |
| Catalog.SeedLendingUpperExample | components/Dashboard.tsx:22-44 | the query "LENDING" shows only project '2' too |
| Catalog.SeedWithoutZ | components/Dashboard.tsx:22-44 | no seed project matches a query containing 'z' |
| Catalog.SeedNoMatchExample | components/Dashboard.tsx:22-44 | the query "zzz-no-match" shows nothing |
| DashboardState.OnKeyDown | components/Dashboard.tsx:60-70 | only the overlay flag changes; afterwards the overlay is open exactly when the key was the Cmd/Ctrl+"k" chord, or it was open and the key was not Escape |
| DashboardState.ChordOpensSearch | components/Dashboard.tsx:62-65 | Cmd+k or Ctrl+k opens the overlay and changes nothing else |
| DashboardState.EscapeClosesSearch | components/Dashboard.tsx:67-69 | Escape closes the overlay, and pressed while closed it leaves the state unchanged |
| DashboardState.OtherKeysIgnored | components/Dashboard.tsx:60-70 | any other key leaves the whole state unchanged |
| DashboardState.CapitalKIgnored | components/Dashboard.tsx:62 | Ctrl with key "K" does not open the overlay, because the key comparison is case-sensitive |
| DashboardState.KeyDownIdempotent | components/Dashboard.tsx:60-70 | pressing the same key twice has the effect of pressing it once |
| DashboardState.Step | components/Dashboard.tsx:81-90 | each event changes only the fields its handler assigns, including the inline handlers of lines 108-320, and sets them to the handler's value: open makes the modal open, cancel and submit close it, focusing the search bar opens the overlay, a backdrop or result click closes it, the toggles set grid or list, typing and the draft edits store the field's value; it navigates exactly for a project click or a submit, always to "/matrix"; the draft's type stays one of the select options |
| DashboardState.Visible | components/Dashboard.tsx:76-79 | the shown projects are exactly the seed projects matching the current query |
| DashboardState.InitialIsValid | components/Dashboard.tsx:52-56 | the initial draft's type "defi" is one of the select options |
| DashboardState.InitialShowsEverything | components/Dashboard.tsx:47-56 | on mount the empty query shows every seed project in order |
| DashboardState.SubmitClosesAndNavigates | components/Dashboard.tsx:85-90 | submit closes the modal and issues one navigation to "/matrix" whatever the draft holds; nothing else changes |
| DashboardState.ProjectClickNavigates | components/Dashboard.tsx:240-243 | both project clicks navigate to "/matrix" whatever the id; the click in the overlay also closes it |
| DashboardState.PanelClickContained | components/Dashboard.tsx:209-216 | a click inside the search panel changes nothing, because it does not reach the backdrop's close handler |
| DashboardState.DraftEditsReplaceOneField | components/Dashboard.tsx:287-305 | editing the name, the description or the type replaces only that field of the draft |
| DashboardState.ToggleRoundTrip | components/Dashboard.tsx:107-117 | from grid view, switching to list and back to grid restores the state exactly |
| DashboardState.SearchInputRefilters | components/Dashboard.tsx:143-145 | typing sets the query to the field's value, and the visible list becomes that value's matches |
| Session.Run | components/Dashboard.tsx:81-90 | a session issues one navigation per project click or submit, each to "/matrix", and keeps the draft's type a select option |
| Session.RunAppend | components/Dashboard.tsx:46-90 | running two event sequences one after the other is running their concatenation |
| Session.RunQueryIsLastTyped | components/Dashboard.tsx:143-145 | after a session the query is the last value typed into either search field |
| Session.RunShowsLastTypedMatches | components/Dashboard.tsx:76-79 | after a session the visible projects are the matches of the last value typed |
| Session.RunViewIsLastToggle | components/Dashboard.tsx:107-117 | after a session the view is the one chosen by the last toggle |
| Session.RunModalIsLastSwitch | components/Dashboard.tsx:85-123 | after a session the create modal is open exactly when the last of open (line 123), submit (line 88) and cancel (line 320) was an open, or, with none of them, as it started |
| Session.RunOverlayIsLastSwitch | components/Dashboard.tsx:60-145 | after a session the search overlay is open exactly as the last chord or Escape (lines 60-70), search-bar focus (line 145), backdrop click (line 210) or result click (line 242) left it |
| Session.ModalFlagIndependent | components/Dashboard.tsx:49-50 | events other than open, cancel and submit never change the create-modal flag |
| Session.TypingOnlyTouchesQuery | components/Dashboard.tsx:143-145 | a session that only types in the search field changes the query and nothing else, and navigates nowhere |
| Session.CreateScenario | components/Dashboard.tsx:279-334 | open the form, enter "Vault" and "Yield vault", keep type "defi", submit: the modal is closed and there is exactly one navigation, to "/matrix" |
| Session.ShortcutScenario | components/Dashboard.tsx:60-70 | Ctrl+k opens the overlay, Escape closes it, and a second Escape changes nothing |

## Left out

- Rendering is not modelled: the JSX, the Tailwind classes, the icons and the framer-motion animation props (lines 92-340).
- Attaching and detaching the `keydown` listener on `window` (lines 59-74) is browser lifecycle code. Only the handler's transition is modelled.
- `router.push` is not performed. It appears as the `navigation` value of a `Transition`.
- `console.log` of the draft on submit (line 87) is output only.
- `preventDefault` and `stopPropagation` (lines 63, 86, 216) are DOM event semantics. The panel's `stopPropagation` shows up only as `SearchPanelClick` being a no-op.
- The `required` attribute on the name and description fields (lines 285, 294) is enforced by the browser before the submit handler runs. The handler itself checks nothing, and `Step` models the handler.
- `Step` accepts every event in every state, as the handlers do. The model does not say which events the rendered page can deliver, for example that the create form exists only while the modal is open.
- Session.Run: a navigation does not end the session. In the app `router.push('/matrix')` (lines 82, 89) leaves the dashboard, which unmounts the component; a later visit starts again from `Initial`. `Run` keeps applying the events that follow a navigation to the same state, so sessions are meaningful up to their first navigation.
- Text.Lower: folds only the ASCII letters A-Z. JavaScript's `toLowerCase` is Unicode-aware.
- The create-project modal body has no click handler, so clicking inside it is not an event of the model.
- app/dashboard/page.tsx only mounts the component inside a wrapper and is not part of this model.
