/**
 * The decisions the shared screen scaffold (`ContentScreen`) takes before
 * rendering: whether a toolbar is shown, which top bar is used, which
 * navigation action, icon and callback apply, and how toolbar actions split
 * into visible icons and an overflow menu. Layout and drawing are not modelled.
 */
module ContentScreen {
  import opened Wrappers

  /** `ScreenNavigateAction`: a back arrow, a close button, or no navigation button. */
  datatype ScreenNavigateAction = Backable | Cancelable | NoNavigation

  /** The icons the scaffold chooses itself; any other icon is carried by name. */
  datatype Icon = ArrowBack | Close | VerticalMore | OtherIcon(name: string)

  /** An opaque handle standing for a `() -> Unit` callback supplied by the caller. */
  datatype Callback = Callback(name: string)

  /** `ContentErrorConfig`, reduced to the callback the scaffold uses. */
  datatype ContentErrorConfig = ContentErrorConfig(onCancel: Callback)

  /** `ToolbarActionUi`, without the colour tint. */
  datatype ToolbarActionUi = ToolbarActionUi(
    icon: Icon,
    order: int,
    enabled: bool,
    clickable: bool,
    throttleClicks: bool,
    onClick: Callback)

  /** `ToolbarConfig`. */
  datatype ToolbarConfig = ToolbarConfig(title: string, actions: seq<ToolbarActionUi>)

  /**
   * The arguments of `ContentScreen` the decisions depend on; `hasCustomTopBar`
   * stands for a non-null `topBar` composable.
   */
  datatype ScreenConfig = ScreenConfig(
    toolBarConfig: Option<ToolbarConfig>,
    navigatableAction: ScreenNavigateAction,
    onBack: Option<Callback>,
    hasCustomTopBar: bool,
    contentErrorConfig: Option<ContentErrorConfig>)

  /** `TopSpacing`: the padding above the body content. */
  datatype TopSpacing = WithToolbar | WithoutToolbar

  /** Which top bar the scaffold shows, with the arguments of the default one. */
  datatype TopBar =
    | CustomTopBar
    | DefaultToolBar(navigatableAction: ScreenNavigateAction, onBack: Option<Callback>, toolbarConfig: Option<ToolbarConfig>)
    | NoTopBar

  /** The actions split by `ToolBarActions`; `overflowMenu` is the dropdown, if there is one. */
  datatype ToolbarLayout = ToolbarLayout(visible: seq<ToolbarActionUi>, overflowMenu: Option<seq<ToolbarActionUi>>)

  /** Some toolbar content is configured: an error, a navigation action, a custom top bar or actions. */
  predicate HasToolBar(c: ScreenConfig): (r: bool)
    ensures c.contentErrorConfig.Some? ==> r
    ensures c.navigatableAction != NoNavigation ==> r
    ensures c.hasCustomTopBar ==> r
    ensures c.toolBarConfig.Some? && c.toolBarConfig.value.actions != [] ==> r
    ensures r ==>
      || c.contentErrorConfig.Some?
      || c.navigatableAction != NoNavigation
      || c.hasCustomTopBar
      || (c.toolBarConfig.Some? && c.toolBarConfig.value.actions != [])
  {
    || c.contentErrorConfig.Some?
    || c.navigatableAction != NoNavigation
    || c.hasCustomTopBar
    || (c.toolBarConfig.Some? && |c.toolBarConfig.value.actions| > 0)
  }

  /** The body is padded for a toolbar exactly when there is toolbar content. */
  function TopSpacingOf(c: ScreenConfig): (spacing: TopSpacing)
    ensures HasToolBar(c) ==> spacing == WithToolbar
    ensures !HasToolBar(c) ==> spacing == WithoutToolbar
  {
    if HasToolBar(c) then WithToolbar else WithoutToolbar
  }

  /**
   * The top bar: the caller's own unless an error is shown; otherwise the
   * default toolbar whenever there is toolbar content. On an error the default
   * toolbar is cancelable and its button calls the error's `onCancel`.
   */
  function TopBarOf(c: ScreenConfig): (r: TopBar)
    ensures r.CustomTopBar? <==> c.hasCustomTopBar && c.contentErrorConfig.None?
    ensures r.DefaultToolBar? && c.contentErrorConfig.Some? ==>
      r.navigatableAction == Cancelable && r.onBack == Some(c.contentErrorConfig.value.onCancel)
    ensures r.DefaultToolBar? && c.contentErrorConfig.None? ==>
      r.navigatableAction == c.navigatableAction && r.onBack == c.onBack
    ensures r.DefaultToolBar? ==> r.toolbarConfig == c.toolBarConfig
  {
    if c.hasCustomTopBar && c.contentErrorConfig.None? then CustomTopBar
    else if HasToolBar(c) then
      var navigatableAction := if c.contentErrorConfig.Some? then Cancelable else c.navigatableAction;
      var onBack := if c.contentErrorConfig.Some? then Some(c.contentErrorConfig.value.onCancel) else c.onBack;
      DefaultToolBar(navigatableAction, onBack, c.toolBarConfig)
    else NoTopBar
  }

  /** What the system back gesture calls: the error's `onCancel` if an error is shown, else `onBack`. */
  function BackHandlerTarget(c: ScreenConfig): (target: Option<Callback>)
    ensures c.contentErrorConfig.Some? ==> target == Some(c.contentErrorConfig.value.onCancel)
    ensures c.contentErrorConfig.None? ==> target == c.onBack
  {
    if c.contentErrorConfig.Some? then Some(c.contentErrorConfig.value.onCancel) else c.onBack
  }

  /** The navigation button's icon: none, a close cross, or a back arrow. */
  function NavigationIcon(action: ScreenNavigateAction): (icon: Option<Icon>)
    ensures icon.None? <==> action == NoNavigation
    ensures icon == Some(Close) <==> action == Cancelable
    ensures icon == Some(ArrowBack) <==> action == Backable
  {
    match action
    case NoNavigation => None
    case Cancelable => Some(Close)
    case Backable => Some(ArrowBack)
  }

  /** The toolbar title: the configured one, or empty. */
  function ToolbarTitle(config: Option<ToolbarConfig>): (title: string)
    ensures config.None? ==> title == ""
    ensures config.Some? ==> title == config.value.title
  {
    if config.Some? then config.value.title else ""
  }

  // ----- Splitting the toolbar actions -----

  function Min(a: int, b: int): int {
    if a <= b then a else b
  }

  /** The actions of `s` whose order is `k`, in their order in `s`. */
  function WithOrder(s: seq<ToolbarActionUi>, k: int): seq<ToolbarActionUi>
    decreases |s|
  {
    if s == [] then []
    else (if s[0].order == k then [s[0]] else []) + WithOrder(s[1..], k)
  }

  /** Non-increasing in `order`. */
  predicate SortedDescending(s: seq<ToolbarActionUi>) {
    forall i, j :: 0 <= i < j < |s| ==> s[i].order >= s[j].order
  }

  /**
   * Inserts `a` into the descending list `s` before the first action whose
   * order is not greater than its own, so that it precedes its ties.
   */
  function InsertDescending(a: ToolbarActionUi, s: seq<ToolbarActionUi>): (r: seq<ToolbarActionUi>)
    requires SortedDescending(s)
    ensures |r| == |s| + 1
    ensures r[0] == a || (s != [] && r[0] == s[0])
    ensures SortedDescending(r)
    ensures multiset(r) == multiset([a] + s)
    decreases |s|
  {
    if s == [] || s[0].order <= a.order then [a] + s
    else
      var rest := InsertDescending(a, s[1..]);
      assert s == [s[0]] + s[1..];
      [s[0]] + rest
  }

  /** Kotlin's `sortedByDescending { it.order }`, highest order first. */
  function SortedByOrderDescending(actions: seq<ToolbarActionUi>): (r: seq<ToolbarActionUi>)
    ensures |r| == |actions|
    ensures SortedDescending(r)
    ensures multiset(r) == multiset(actions)
    decreases |actions|
  {
    if actions == [] then []
    else
      assert actions == [actions[0]] + actions[1..];
      InsertDescending(actions[0], SortedByOrderDescending(actions[1..]))
  }

  /** Selecting one order value distributes over concatenation. */
  lemma {:induction false} WithOrderAppend(a: seq<ToolbarActionUi>, b: seq<ToolbarActionUi>, k: int)
    ensures WithOrder(a + b, k) == WithOrder(a, k) + WithOrder(b, k)
    decreases |a|
  {
    if a == [] {
      assert a + b == b;
    } else {
      var ab := a + b;
      var head := if a[0].order == k then [a[0]] else [];
      assert ab[0] == a[0] && ab[1..] == a[1..] + b;
      WithOrderAppend(a[1..], b, k);
      calc {
        WithOrder(ab, k);
        head + WithOrder(a[1..] + b, k);
        head + (WithOrder(a[1..], k) + WithOrder(b, k));
        (head + WithOrder(a[1..], k)) + WithOrder(b, k);
      }
    }
  }

  /** Two adjacent actions of different orders can be swapped without changing any selection. */
  lemma WithOrderSwapFront(x: ToolbarActionUi, y: ToolbarActionUi, t: seq<ToolbarActionUi>, k: int)
    requires x.order != y.order
    ensures WithOrder([x] + ([y] + t), k) == WithOrder([y] + ([x] + t), k)
  {
    assert ([x] + ([y] + t))[1..] == [y] + t;
    assert ([y] + ([x] + t))[1..] == [x] + t;
    assert ([y] + t)[1..] == t;
    assert ([x] + t)[1..] == t;
  }

  /** Inserting `a` puts it before every action of equal order and moves no tie. */
  lemma {:induction false} InsertDescendingKeepsTies(a: ToolbarActionUi, s: seq<ToolbarActionUi>, k: int)
    requires SortedDescending(s)
    ensures WithOrder(InsertDescending(a, s), k) == WithOrder([a] + s, k)
    decreases |s|
  {
    if s != [] && s[0].order > a.order {
      var head, tail := s[0], s[1..];
      var rest := InsertDescending(a, tail);
      assert InsertDescending(a, s) == [head] + rest;
      assert s == [head] + tail;
      InsertDescendingKeepsTies(a, tail, k);
      assert ([head] + rest)[1..] == rest;
      assert ([head] + ([a] + tail))[1..] == [a] + tail;
      WithOrderSwapFront(head, a, tail, k);
    }
  }

  /**
   * The sort is stable: for every order value, the actions carrying it appear
   * in the same relative order before and after sorting.
   */
  lemma {:induction false} SortIsStable(actions: seq<ToolbarActionUi>, k: int)
    ensures WithOrder(SortedByOrderDescending(actions), k) == WithOrder(actions, k)
    decreases |actions|
  {
    if actions != [] {
      var head, tail := actions[0], actions[1..];
      var rest := SortedByOrderDescending(tail);
      assert SortedByOrderDescending(actions) == InsertDescending(head, rest);
      assert actions == [head] + tail;
      SortIsStable(tail, k);
      InsertDescendingKeepsTies(head, rest, k);
      WithOrderAppend([head], rest, k);
      WithOrderAppend([head], tail, k);
    }
  }

  /** The actions shown as icons: the first `maxActions` of the sorted list. */
  function VisibleActions(actions: seq<ToolbarActionUi>, maxActions: nat): seq<ToolbarActionUi> {
    SortedByOrderDescending(actions)[..Min(|actions|, maxActions)]
  }

  /** The actions moved to the dropdown: the sorted list without its first `maxActions`. */
  function OverflowActions(actions: seq<ToolbarActionUi>, maxActions: nat): seq<ToolbarActionUi> {
    SortedByOrderDescending(actions)[Min(|actions|, maxActions)..]
  }

  /** The overflow button and its dropdown exist when there are more actions than fit. */
  predicate HasOverflowMenu(actions: seq<ToolbarActionUi>, maxActions: nat) {
    |actions| > maxActions
  }

  /**
   * `ToolBarActions`: nothing for a missing list; otherwise the visible icons
   * and, when the list is longer than `maxActions`, the dropdown's actions.
   */
  function ToolBarActions(toolBarActions: Option<seq<ToolbarActionUi>>, maxActions: nat): (r: ToolbarLayout)
    ensures toolBarActions.None? ==> r == ToolbarLayout([], None)
    ensures toolBarActions.Some? ==>
      var actions := toolBarActions.value;
      && |r.visible| == Min(|actions|, maxActions)
      && (r.overflowMenu.Some? <==> |actions| > maxActions)
      && r.visible + r.overflowMenu.GetOr([]) == SortedByOrderDescending(actions)
  {
    match toolBarActions
    case None => ToolbarLayout([], None)
    case Some(actions) =>
      var sorted := SortedByOrderDescending(actions);
      var visible := VisibleActions(actions, maxActions);
      assert visible + OverflowActions(actions, maxActions) == sorted;
      ToolbarLayout(
        visible,
        if HasOverflowMenu(actions, maxActions) then Some(OverflowActions(actions, maxActions)) else None)
  }

  /** Some top bar is shown exactly when there is toolbar content. */
  lemma TopBarShownIffHasToolBar(c: ScreenConfig)
    ensures TopBarOf(c) != NoTopBar <==> HasToolBar(c)
  {
  }

  /** The body is padded for a toolbar exactly when a top bar is shown. */
  lemma TopSpacingMatchesTopBar(c: ScreenConfig)
    ensures TopSpacingOf(c) == WithToolbar <==> TopBarOf(c) != NoTopBar
  {
  }

  /** With an error the default toolbar is always shown, with a close button calling `onCancel`. */
  lemma ErrorShowsCloseButton(c: ScreenConfig)
    requires c.contentErrorConfig.Some?
    ensures TopBarOf(c).DefaultToolBar?
    ensures NavigationIcon(TopBarOf(c).navigatableAction) == Some(Close)
    ensures TopBarOf(c).onBack == Some(c.contentErrorConfig.value.onCancel)
  {
  }

  /** The default toolbar's navigation button and the system back gesture call the same callback. */
  lemma NavigationButtonAgreesWithBackHandler(c: ScreenConfig)
    requires TopBarOf(c).DefaultToolBar?
    ensures TopBarOf(c).onBack == BackHandlerTarget(c)
  {
  }

  /**
   * Visible followed by overflow is the whole list sorted by order, highest
   * first; the visible part holds `min(n, maxActions)` actions.
   */
  lemma VisibleAndOverflowSplitSortedActions(actions: seq<ToolbarActionUi>, maxActions: nat)
    ensures |VisibleActions(actions, maxActions)| == Min(|actions|, maxActions)
    ensures VisibleActions(actions, maxActions) + OverflowActions(actions, maxActions) == SortedByOrderDescending(actions)
  {
  }

  /** Across visible icons and overflow menu, actions of equal order keep their input order. */
  lemma VisibleAndOverflowKeepTies(actions: seq<ToolbarActionUi>, maxActions: nat, k: int)
    ensures WithOrder(VisibleActions(actions, maxActions) + OverflowActions(actions, maxActions), k) == WithOrder(actions, k)
  {
    VisibleAndOverflowSplitSortedActions(actions, maxActions);
    SortIsStable(actions, k);
  }

  /** The visible actions are the highest-ranked: no overflow action has a greater order. */
  lemma OverflowNeverOutranksVisible(actions: seq<ToolbarActionUi>, maxActions: nat, i: nat, j: nat)
    requires i < |VisibleActions(actions, maxActions)| && j < |OverflowActions(actions, maxActions)|
    ensures VisibleActions(actions, maxActions)[i].order >= OverflowActions(actions, maxActions)[j].order
  {
    var sorted := SortedByOrderDescending(actions);
    var m := Min(|actions|, maxActions);
    assert VisibleActions(actions, maxActions) == sorted[..m];
    assert OverflowActions(actions, maxActions) == sorted[m..];
    assert i < m + j < |sorted|;
    assert sorted[i].order >= sorted[m + j].order;
  }

  /** The overflow menu exists exactly when some action does not fit among the visible ones. */
  lemma OverflowMenuIffOverflowActions(actions: seq<ToolbarActionUi>, maxActions: nat)
    ensures HasOverflowMenu(actions, maxActions) <==> OverflowActions(actions, maxActions) != []
  {
  }
}
