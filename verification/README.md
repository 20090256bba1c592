# Custom document request: claim selection, screen steps and scaffold decisions

This project models, in Dafny, the logic core of the EUDI verifier app's
"custom request" screen, where a verifier picks which claims of a document to
request from a holder:

- `CustomRequestInteractor` (custom_request_interactor.dfy): looking up the
  claims configured for a document kind, turning claims into selectable rows
  (`Row(itemId, checkbox)`, the checkbox being `Some(isChecked)` or absent),
  extracting the checked rows back into claims, and toggling a row's checkbox
  together with the "anything selected" flag.
- `CustomRequestViewModel` (custom_request_view_model.dfy): the screen's
  `handleEvent` as a pure step `HandleEvent(env, state, event) -> Step(state, effect)`
  over the four events `Init`, `OnItemClicked`, `OnDoneClick` and `OnCancelClick`
  and the `GoBack` navigation effect. `Replay` runs a sequence of events; the
  screen invariant `ItemsMatchCatalogue` (the rows carry exactly the catalogue's
  claims for the current document kind) is proved to hold after any sequence,
  so every document handed back asks only for configured claims, in catalogue order.
- `ContentScreen` (content_screen.dfy): the decisions of the shared scaffold:
  whether a toolbar is shown, the top spacing, which top bar is used, the
  effective navigation action, icon and callback, and the split of toolbar
  actions into visible icons and an overflow menu (a stable sort by `order`,
  highest first, then the first `maxActions` visible and the rest in the menu).
- `ConfigModel`, `RequestedDocument` and `Wrappers` hold the record types
  (`AttestationType`, `ClaimItem`, `DocumentMode`, `RequestedDocumentUi`,
  `RequestedDocsHolder`) and an `Option` type for Kotlin's nullable values.

Collaborators become parameters: the catalogue of supported documents is a
`map<AttestationType, seq<ClaimItem>>` and the localised screen title is an
opaque function `AttestationType -> string`, both carried in `Collaborators`.
`MAX_TOOLBAR_ACTIONS`, whose value is not part of this model, is the
parameter `maxActions`. Callbacks (`onBack`, `onCancel`, `onClick`) are opaque
`Callback` handles, so the model can say which callback is invoked but not
what it does.

The screen has no select-all event and no "enabled" flag in its state: the
interactor computes `hasSelectedItems`, but the view-model never reads it.
The view-model calls
`handleItemSelection` with an extra `isChecked` argument and assigns the result
straight to `items`, while the interactor declares `(items, identifier)` and
returns a partial state; the model follows the interactor's declaration,
ignores the event's flag and uses the partial state's `items` (commented in
`HandleEvent`).

## Model

| member | source | states |
|---|---|---|
| CustomRequestInteractor.GetDocumentClaims | verifierApp/src/commonMain/kotlin/eu/europa/ec/euidi/verifier/domain/interactor/CustomRequestInteractor.kt:68-70 | the configured claims of the kind when it has an entry, otherwise the empty list; never fails |
| CustomRequestInteractor.TransformToClaimItems | verifierApp/src/commonMain/kotlin/eu/europa/ec/euidi/verifier/domain/interactor/CustomRequestInteractor.kt:72-84 | the result is never longer than the rows, and keeps every row only when every row is checked |
| CustomRequestInteractor.TransformToClaimItemsMembership | verifierApp/src/commonMain/kotlin/eu/europa/ec/euidi/verifier/domain/interactor/CustomRequestInteractor.kt:74-83 | a claim is extracted exactly when some checked row carries its label as id; unchecked rows and rows without a checkbox never contribute |
| CustomRequestInteractor.TransformToClaimItemsAppend | verifierApp/src/commonMain/kotlin/eu/europa/ec/euidi/verifier/domain/interactor/CustomRequestInteractor.kt:74-83 | extraction distributes over concatenation, so each row contributes independently and in place |
| CustomRequestInteractor.TransformToClaimItemsIsSubsequence | verifierApp/src/commonMain/kotlin/eu/europa/ec/euidi/verifier/domain/interactor/CustomRequestInteractor.kt:74-83 | the extracted claims keep row order: they are a subsequence of the claims named by all rows |
| CustomRequestInteractor.AllCheckedYieldsAllClaims | verifierApp/src/commonMain/kotlin/eu/europa/ec/euidi/verifier/domain/interactor/CustomRequestInteractor.kt:74-83 | when every row is checked, every row contributes its claim, in order |
| CustomRequestInteractor.NoClaimsIffNothingChecked | verifierApp/src/commonMain/kotlin/eu/europa/ec/euidi/verifier/domain/interactor/CustomRequestInteractor.kt:74-83 | nothing is extracted exactly when no row has a checked checkbox |
| CustomRequestInteractor.TransformToUiItems | verifierApp/src/commonTest/kotlin/eu/europa/ec/euidi/verifier/domain/interactor/CustomRequestInteractorTest.kt:196-218 | one row per claim, same order, id equal to the claim label, checkbox present and checked |
| CustomRequestInteractor.UiItemsRoundTrip | verifierApp/src/commonMain/kotlin/eu/europa/ec/euidi/verifier/domain/interactor/CustomRequestInteractor.kt:72-96 | extracting claims from freshly built rows gives back exactly the original claims |
| CustomRequestInteractor.HandleItemSelection | verifierApp/src/commonMain/kotlin/eu/europa/ec/euidi/verifier/domain/interactor/CustomRequestInteractor.kt:98-121 | same length, order and ids; each checkbox row with the identifier is negated; every other row, including a matching row without checkbox, is unchanged; the flag holds exactly when some updated row is checked |
| CustomRequestInteractor.HandleItemSelectionTwice | verifierApp/src/commonMain/kotlin/eu/europa/ec/euidi/verifier/domain/interactor/CustomRequestInteractor.kt:102-113 | toggling the same identifier twice restores the original rows |
| CustomRequestInteractor.HandleItemSelectionUnknownIdentifier | verifierApp/src/commonMain/kotlin/eu/europa/ec/euidi/verifier/domain/interactor/CustomRequestInteractor.kt:102-113 | toggling an identifier no row carries leaves the rows unchanged |
| CustomRequestInteractor.SelectedFlagMatchesClaims | verifierApp/src/commonMain/kotlin/eu/europa/ec/euidi/verifier/domain/interactor/CustomRequestInteractor.kt:115-120 | after a toggle, the selection flag holds exactly when confirming would request at least one claim |
| CustomRequestInteractor.ToggleUncheckedScenario | verifierApp/src/commonTest/kotlin/eu/europa/ec/euidi/verifier/domain/interactor/CustomRequestInteractorTest.kt:226-250 | two unchecked rows, clicking id_1 checks it and sets the flag |
| CustomRequestInteractor.UncheckLastScenario | verifierApp/src/commonTest/kotlin/eu/europa/ec/euidi/verifier/domain/interactor/CustomRequestInteractorTest.kt:252-273 | unchecking the only checked row clears it and the flag |
| CustomRequestViewModel.CreateInitialState | verifierApp/src/commonMain/kotlin/eu/europa/ec/euidi/verifier/presentation/ui/custom_request/CustomRequestViewModel.kt:32-36 | the initial state has an empty title, no document and no rows |
| CustomRequestViewModel.HandleEvent | verifierApp/src/commonMain/kotlin/eu/europa/ec/euidi/verifier/presentation/ui/custom_request/CustomRequestViewModel.kt:58-134 | Init(null) changes nothing; Init(doc) stores doc, its kind's title and one checked row per configured claim; a click changes only the rows, as the interactor toggles them; Done without document changes nothing, with one keeps id, kind and mode, replaces the claims by the checked rows' claims, stores it and emits GoBack with exactly that document; Cancel emits GoBack with no documents and keeps the state |
| CustomRequestViewModel.InitialStateMatchesCatalogue | verifierApp/src/commonMain/kotlin/eu/europa/ec/euidi/verifier/presentation/ui/custom_request/CustomRequestViewModel.kt:32-36 | the initial state satisfies the screen invariant (no document, no rows) |
| CustomRequestViewModel.HandleEventPreservesInvariant | verifierApp/src/commonMain/kotlin/eu/europa/ec/euidi/verifier/presentation/ui/custom_request/CustomRequestViewModel.kt:58-134 | every event keeps the rows aligned with the catalogue of the current document kind and emits only a cancel result or one document whose claims are an in-order subset of its kind's catalogue |
| CustomRequestViewModel.ReplayPreservesInvariant | verifierApp/src/commonMain/kotlin/eu/europa/ec/euidi/verifier/presentation/ui/custom_request/CustomRequestViewModel.kt:58-134 | the same holds for any sequence of events handled one after another |
| CustomRequestViewModel.ScreenOnlyReturnsCatalogueClaims | verifierApp/src/commonMain/kotlin/eu/europa/ec/euidi/verifier/presentation/ui/custom_request/CustomRequestViewModel.kt:86-110 | from the initial state, whatever the events, every document handed back asks only for configured claims of its kind, in catalogue order |
| CustomRequestViewModel.InitThenDoneRequestsAllClaims | verifierApp/src/commonMain/kotlin/eu/europa/ec/euidi/verifier/presentation/ui/custom_request/CustomRequestViewModel.kt:60-110 | confirming right after opening a document requests every configured claim of its kind |
| CustomRequestViewModel.ClickTwiceRestoresState | verifierApp/src/commonMain/kotlin/eu/europa/ec/euidi/verifier/presentation/ui/custom_request/CustomRequestViewModel.kt:122-131 | clicking the same row twice restores the whole screen state |
| CustomRequestViewModel.DoneBeforeInitIsIgnored | verifierApp/src/commonMain/kotlin/eu/europa/ec/euidi/verifier/presentation/ui/custom_request/CustomRequestViewModel.kt:86-110 | confirming before any document is set emits nothing and changes nothing |
| ContentScreen.HasToolBar | verifierApp/src/commonMain/kotlin/eu/europa/ec/euidi/verifier/presentation/component/content/ContentScreen.kt:100-103 | a toolbar is wanted exactly when an error config is present, the navigate action is not none, a custom top bar is given, or the toolbar actions are non-empty |
| ContentScreen.TopSpacingOf | verifierApp/src/commonMain/kotlin/eu/europa/ec/euidi/verifier/presentation/component/content/ContentScreen.kt:104 | the top spacing is WithToolbar when a toolbar is wanted and WithoutToolbar otherwise |
| ContentScreen.BackHandlerTarget | verifierApp/src/commonMain/kotlin/eu/europa/ec/euidi/verifier/presentation/component/content/ContentScreen.kt:164-168 | the back gesture calls the error's onCancel when an error config is present, and onBack (possibly none) otherwise |
| ContentScreen.TopBarShownIffHasToolBar | verifierApp/src/commonMain/kotlin/eu/europa/ec/euidi/verifier/presentation/component/content/ContentScreen.kt:100-119 | some top bar is shown exactly when there is an error, a navigation action other than none, a custom top bar or a non-empty action list |
| ContentScreen.TopSpacingMatchesTopBar | verifierApp/src/commonMain/kotlin/eu/europa/ec/euidi/verifier/presentation/component/content/ContentScreen.kt:100-119 | the body is padded for a toolbar exactly when a top bar is shown |
| ContentScreen.TopBarOf | verifierApp/src/commonMain/kotlin/eu/europa/ec/euidi/verifier/presentation/component/content/ContentScreen.kt:106-119 | the custom top bar is used exactly when given and no error is shown; the default toolbar is cancelable and calls the error's onCancel under an error, and otherwise uses the given action and onBack |
| ContentScreen.ErrorShowsCloseButton | verifierApp/src/commonMain/kotlin/eu/europa/ec/euidi/verifier/presentation/component/content/ContentScreen.kt:106-119 | with an error, the default toolbar is always shown with a close icon calling the error's onCancel |
| ContentScreen.NavigationButtonAgreesWithBackHandler | verifierApp/src/commonMain/kotlin/eu/europa/ec/euidi/verifier/presentation/component/content/ContentScreen.kt:106-168 | the toolbar's navigation button and the system back gesture call the same callback |
| ContentScreen.NavigationIcon | verifierApp/src/commonMain/kotlin/eu/europa/ec/euidi/verifier/presentation/component/content/ContentScreen.kt:188-205 | no icon for none, Close for cancelable, ArrowBack for backable |
| ContentScreen.ToolbarTitle | verifierApp/src/commonMain/kotlin/eu/europa/ec/euidi/verifier/presentation/component/content/ContentScreen.kt:183 | the configured title, or the empty string without a toolbar configuration |
| ContentScreen.SortedByOrderDescending | verifierApp/src/commonMain/kotlin/eu/europa/ec/euidi/verifier/presentation/component/content/ContentScreen.kt:223-225 | the sorted actions are a permutation of the input and non-increasing in order |
| ContentScreen.SortIsStable | verifierApp/src/commonMain/kotlin/eu/europa/ec/euidi/verifier/presentation/component/content/ContentScreen.kt:223-225 | for every order value, the actions carrying it keep their input order |
| ContentScreen.ToolBarActions | verifierApp/src/commonMain/kotlin/eu/europa/ec/euidi/verifier/presentation/component/content/ContentScreen.kt:215-254 | no list gives nothing; otherwise min(n, max) visible actions, an overflow menu exactly when n > max, and visible followed by the menu is the sorted list |
| ContentScreen.VisibleAndOverflowSplitSortedActions | verifierApp/src/commonMain/kotlin/eu/europa/ec/euidi/verifier/presentation/component/content/ContentScreen.kt:223-246 | visible followed by overflow is the whole list sorted by order, highest first, and the visible part has min(n, max) actions |
| ContentScreen.VisibleAndOverflowKeepTies | verifierApp/src/commonMain/kotlin/eu/europa/ec/euidi/verifier/presentation/component/content/ContentScreen.kt:223-246 | across visible icons and overflow menu, actions of equal order keep their input order (the sort is stable) |
| ContentScreen.OverflowNeverOutranksVisible | verifierApp/src/commonMain/kotlin/eu/europa/ec/euidi/verifier/presentation/component/content/ContentScreen.kt:223-246 | no overflow action has a greater order than a visible one |
| ContentScreen.OverflowMenuIffOverflowActions | verifierApp/src/commonMain/kotlin/eu/europa/ec/euidi/verifier/presentation/component/content/ContentScreen.kt:231-246 | the overflow menu exists exactly when some action does not fit among the visible ones |

## Left out

- Localisation: `getScreenTitle` and the display text of rows go through a resource provider that is not part of this model; the title is an opaque function in `Collaborators` and rows carry no display text.
- CustomRequestInteractor.TransformToUiItems: the source delegates to `UiTransformer`, which is not part of this model; the function is defined by the shape the tests assert (one checked row per claim, id equal to label), not by that code.
- `hasAnyCheckedCheckbox`: its extension source is not part of this model; `HasAnyCheckedCheckbox` is defined as "some row has a checked checkbox", as the tests use it.
- `ListItemDataUi` and `CheckboxDataUi` are reduced to `Row(itemId, checkbox)` and `isChecked`: the main and supporting content of a row and any other field of `CheckboxDataUi` are not modelled. The toggle builds a fresh `CheckboxDataUi(isChecked = ...)`, which would reset such fields to their defaults, so CustomRequestInteractor.HandleItemSelectionTwice and CustomRequestViewModel.ClickTwiceRestoresState ("restores the original") hold for the program only under this reduction.
- Coroutines: `withContext`, `viewModelScope.launch` and effect-channel delivery are scheduling only; each event is one atomic step, so interleavings of a slow `Init` with later events are not modelled.
- Compose rendering: layouts, theming, `Scaffold`, the loading indicator, the sticky bottom, previews, `ToolbarIcon`'s clickable/non-clickable choice, the dropdown's expanded flag and the keyboard hiding on navigation.
- `ToolbarActionUi.customTint`: a colour, used only for drawing.
- `AttestationType` and `DocumentMode`: their declarations are not part of this model; the three document kinds the tests name stand for the enum, and the mode is an opaque wrapper carried through unchanged.
- DataStore settings storage, dependency-injection wiring, the navigation graph and toasts: platform plumbing outside the claim-selection core.
