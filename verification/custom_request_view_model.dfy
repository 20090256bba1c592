/**
 * The custom-request screen (`CustomRequestViewModel`): a state, four events and
 * one navigation effect. Each event is handled as one atomic, pure step; the
 * coroutine launches of the source are not modelled.
 */
module CustomRequestViewModel {
  import opened Wrappers
  import opened ConfigModel
  import opened RequestedDocument
  import opened CustomRequestInteractor

  /** `CustomRequestContract.State`. */
  datatype State = State(screenTitle: string, requestedDoc: Option<RequestedDocumentUi>, items: seq<Row>)

  /** `CustomRequestContract.Event`. */
  datatype Event =
    | Init(doc: Option<RequestedDocumentUi>)
    | OnItemClicked(identifier: string, isChecked: bool)
    | OnDoneClick
    | OnCancelClick

  /** `CustomRequestContract.Effect.Navigation.GoBack`: return to the opening screen with a result. */
  datatype Effect = GoBack(requestedDocuments: RequestedDocsHolder)

  /** The state after an event, and the effect it emitted, if any. */
  datatype Step = Step(state: State, effect: Option<Effect>)

  /**
   * What the screen asks of its collaborators: the configured catalogue, and
   * the localised screen title for a document kind (opaque here).
   */
  datatype Collaborators = Collaborators(
    supportedDocuments: SupportedDocuments,
    screenTitle: AttestationType -> string)

  /** The states and effects of a sequence of events handled one after another. */
  datatype Trace = Trace(state: State, effects: seq<Effect>)

  /** The state before any event: no title, no document, no rows. */
  function CreateInitialState(): (s: State)
    ensures s.screenTitle == "" && s.requestedDoc.None? && s.items == []
  {
    State("", None, [])
  }

  /** The rows the screen shows for a document kind: one checked row per configured claim. */
  function ItemsFor(env: Collaborators, documentType: AttestationType): seq<Row> {
    TransformToUiItems(documentType, GetDocumentClaims(env.supportedDocuments, documentType))
  }

  /** `handleEvent` as a pure transition. */
  function HandleEvent(env: Collaborators, s: State, event: Event): (r: Step)
    ensures event == Init(None) ==> r == Step(s, None)
    ensures event.Init? && event.doc.Some? ==>
      var doc := event.doc.value;
      var claims := GetDocumentClaims(env.supportedDocuments, doc.documentType);
      && r.effect.None?
      && r.state.screenTitle == env.screenTitle(doc.documentType)
      && r.state.requestedDoc == Some(doc)
      && |r.state.items| == |claims|
      && (forall i :: 0 <= i < |claims| ==> r.state.items[i] == Row(claims[i].name, Some(true)))
    ensures event.OnItemClicked? ==>
      && r.effect.None?
      && r.state.screenTitle == s.screenTitle
      && r.state.requestedDoc == s.requestedDoc
      && r.state.items == HandleItemSelection(s.items, event.identifier).items
    ensures event.OnDoneClick? && s.requestedDoc.None? ==> r == Step(s, None)
    ensures event.OnDoneClick? && s.requestedDoc.Some? ==>
      var doc := s.requestedDoc.value;
      var reqDoc := RequestedDocumentUi(doc.id, doc.documentType, doc.mode, TransformToClaimItems(s.items));
      && r.state == s.(requestedDoc := Some(reqDoc))
      && r.effect == Some(GoBack(RequestedDocsHolder([reqDoc])))
    ensures event.OnCancelClick? ==> r == Step(s, Some(GoBack(RequestedDocsHolder([]))))
  {
    match event
    case Init(None) => Step(s, None)
    case Init(Some(doc)) =>
      Step(s.(screenTitle := env.screenTitle(doc.documentType),
              requestedDoc := Some(doc),
              items := ItemsFor(env, doc.documentType)),
           None)
    case OnItemClicked(identifier, _) =>
      // The source passes `isChecked` too and assigns the interactor's result
      // straight to `items`; the interactor declares only `(items, identifier)`
      // and returns a partial state, so the event's flag is ignored and the
      // partial state's `items` is used.
      Step(s.(items := HandleItemSelection(s.items, identifier).items), None)
    case OnDoneClick =>
      if s.requestedDoc.None? then Step(s, None)
      else
        var reqDoc := s.requestedDoc.value.(claims := TransformToClaimItems(s.items));
        Step(s.(requestedDoc := Some(reqDoc)), Some(GoBack(RequestedDocsHolder([reqDoc]))))
    case OnCancelClick => Step(s, Some(GoBack(RequestedDocsHolder([]))))
  }

  /** Handles `events` in order from `s`, collecting the emitted effects. */
  function Replay(env: Collaborators, s: State, events: seq<Event>): Trace
    decreases |events|
  {
    if events == [] then Trace(s, [])
    else
      var step := HandleEvent(env, s, events[0]);
      var rest := Replay(env, step.state, events[1..]);
      Trace(rest.state, (if step.effect.Some? then [step.effect.value] else []) + rest.effects)
  }

  /**
   * The screen invariant: without a document there are no rows; with one, the
   * rows carry exactly the catalogue's claims for its kind, in catalogue order.
   */
  ghost predicate ItemsMatchCatalogue(env: Collaborators, s: State) {
    match s.requestedDoc
    case None => s.items == []
    case Some(doc) =>
      var claims := GetDocumentClaims(env.supportedDocuments, doc.documentType);
      |s.items| == |claims| && forall i :: 0 <= i < |claims| ==> s.items[i].itemId == claims[i].name
  }

  /**
   * A navigation result the screen may legitimately return: nothing (cancel), or
   * one document whose claims are picked, in order, from its kind's catalogue.
   */
  ghost predicate IsValidGoBack(env: Collaborators, effect: Effect) {
    var docs := effect.requestedDocuments.items;
    || docs == []
    || (|docs| == 1 && IsSubsequence(docs[0].claims, GetDocumentClaims(env.supportedDocuments, docs[0].documentType)))
  }

  /** Rows matching the catalogue name exactly the catalogue's claims. */
  lemma AsClaimsOfMatchingItems(env: Collaborators, s: State)
    requires ItemsMatchCatalogue(env, s) && s.requestedDoc.Some?
    ensures AsClaims(s.items) == GetDocumentClaims(env.supportedDocuments, s.requestedDoc.value.documentType)
  {
  }

  /** The initial state satisfies the screen invariant. */
  lemma InitialStateMatchesCatalogue(env: Collaborators)
    ensures ItemsMatchCatalogue(env, CreateInitialState())
  {
  }

  /** Every event keeps the screen invariant, and every effect it emits is a valid result. */
  lemma HandleEventPreservesInvariant(env: Collaborators, s: State, event: Event)
    requires ItemsMatchCatalogue(env, s)
    ensures ItemsMatchCatalogue(env, HandleEvent(env, s, event).state)
    ensures HandleEvent(env, s, event).effect.Some? ==> IsValidGoBack(env, HandleEvent(env, s, event).effect.value)
  {
    if event.OnDoneClick? && s.requestedDoc.Some? {
      TransformToClaimItemsIsSubsequence(s.items);
      AsClaimsOfMatchingItems(env, s);
    }
  }

  /** From any state satisfying the invariant, any event sequence keeps it and emits only valid results. */
  lemma {:induction false} ReplayPreservesInvariant(env: Collaborators, s: State, events: seq<Event>)
    requires ItemsMatchCatalogue(env, s)
    ensures ItemsMatchCatalogue(env, Replay(env, s, events).state)
    ensures forall k :: 0 <= k < |Replay(env, s, events).effects| ==>
      IsValidGoBack(env, Replay(env, s, events).effects[k])
    decreases |events|
  {
    if events != [] {
      var step := HandleEvent(env, s, events[0]);
      HandleEventPreservesInvariant(env, s, events[0]);
      ReplayPreservesInvariant(env, step.state, events[1..]);
    }
  }

  /**
   * Whatever the user does on a freshly opened screen, every document handed
   * back carries only claims configured for its kind, in catalogue order.
   */
  lemma ScreenOnlyReturnsCatalogueClaims(env: Collaborators, events: seq<Event>)
    ensures forall k :: 0 <= k < |Replay(env, CreateInitialState(), events).effects| ==>
      IsValidGoBack(env, Replay(env, CreateInitialState(), events).effects[k])
  {
    InitialStateMatchesCatalogue(env);
    ReplayPreservesInvariant(env, CreateInitialState(), events);
  }

  /** Confirming right after opening a document requests every configured claim. */
  lemma InitThenDoneRequestsAllClaims(env: Collaborators, s: State, doc: RequestedDocumentUi)
    ensures
      var ready := HandleEvent(env, s, Init(Some(doc))).state;
      var reqDoc := doc.(claims := GetDocumentClaims(env.supportedDocuments, doc.documentType));
      HandleEvent(env, ready, OnDoneClick).effect == Some(GoBack(RequestedDocsHolder([reqDoc])))
  {
    UiItemsRoundTrip(doc.documentType, GetDocumentClaims(env.supportedDocuments, doc.documentType));
  }

  /** Clicking the same row twice restores the whole screen state. */
  lemma ClickTwiceRestoresState(env: Collaborators, s: State, identifier: string, first: bool, second: bool)
    ensures
      var once := HandleEvent(env, s, OnItemClicked(identifier, first)).state;
      HandleEvent(env, once, OnItemClicked(identifier, second)).state == s
  {
    HandleItemSelectionTwice(s.items, identifier);
  }

  /** Confirming before a document is set emits nothing and changes nothing. */
  lemma DoneBeforeInitIsIgnored(env: Collaborators)
    ensures HandleEvent(env, CreateInitialState(), OnDoneClick) == Step(CreateInitialState(), None)
  {
  }
}
