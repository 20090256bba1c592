/**
 * The claim-selection logic of the custom-request screen
 * (`CustomRequestInteractorImpl`): look up the claims configured for a
 * document kind, turn claims into selectable rows and back, and toggle a row.
 */
module CustomRequestInteractor {
  import opened Wrappers
  import opened ConfigModel

  /**
   * A selectable row (`ListItemDataUi`). `checkbox` is `Some(isChecked)` when the
   * row's trailing content is a checkbox and `None` for a row without one. The
   * localised display text is not modelled.
   */
  datatype Row = Row(itemId: string, checkbox: Option<bool>)

  /** The result of a toggle: the updated rows and whether any of them is checked. */
  datatype HandleItemSelectionPartialState = Updated(items: seq<Row>, hasSelectedItems: bool)

  /** The row has a checkbox and it is checked. */
  predicate IsChecked(row: Row) {
    row.checkbox == Some(true)
  }

  /** Some row of the list has a checked checkbox. */
  predicate HasAnyCheckedCheckbox(rows: seq<Row>) {
    exists i :: 0 <= i < |rows| && IsChecked(rows[i])
  }

  /** Every row is reported as the claim its identifier names, checked or not. */
  function AsClaims(rows: seq<Row>): (claims: seq<ClaimItem>)
    ensures |claims| == |rows|
    ensures forall i :: 0 <= i < |rows| ==> claims[i].name == rows[i].itemId
  {
    seq(|rows|, i requires 0 <= i < |rows| => ClaimItem(rows[i].itemId))
  }

  /** `a` can be obtained from `b` by deleting elements, keeping the order of the rest. */
  ghost predicate IsSubsequence<T>(a: seq<T>, b: seq<T>)
    decreases |b|
  {
    if b == [] then a == []
    else (a != [] && a[0] == b[0] && IsSubsequence(a[1..], b[1..])) || IsSubsequence(a, b[1..])
  }

  /** The claims configured for `attestationType`, or none when it has no entry. */
  function GetDocumentClaims(documents: SupportedDocuments, attestationType: AttestationType): (claims: seq<ClaimItem>)
    ensures attestationType in documents ==> claims == documents[attestationType]
    ensures attestationType !in documents ==> claims == []
  {
    if attestationType in documents then documents[attestationType] else []
  }

  /**
   * The claims named by the checked rows, in row order. Rows with an unchecked
   * checkbox and rows without a checkbox contribute nothing.
   */
  function TransformToClaimItems(items: seq<Row>): (claims: seq<ClaimItem>)
    ensures |claims| <= |items|
    ensures |claims| == |items| ==> forall i :: 0 <= i < |items| ==> IsChecked(items[i])
  {
    if items == [] then []
    else
      var rest := TransformToClaimItems(items[1..]);
      assert forall i :: 1 <= i < |items| ==> items[i] == items[1..][i - 1];
      if IsChecked(items[0]) then [ClaimItem(items[0].itemId)] + rest else rest
  }

  /**
   * One checked row per claim, in claim order, identified by the claim's label.
   * `documentType` only selects the localised display text, which is not modelled.
   */
  function TransformToUiItems(documentType: AttestationType, claims: seq<ClaimItem>): (items: seq<Row>)
    ensures |items| == |claims|
    ensures forall i :: 0 <= i < |claims| ==> items[i].itemId == claims[i].name && IsChecked(items[i])
  {
    seq(|claims|, i requires 0 <= i < |claims| => Row(claims[i].name, Some(true)))
  }

  /** A row after a click on `identifier`: its checkbox flips when it matches and has one. */
  function ToggleRow(row: Row, identifier: string): Row {
    if row.itemId == identifier && row.checkbox.Some? then row.(checkbox := Some(!row.checkbox.value))
    else row
  }

  /**
   * Flips the checkbox of every checkbox row whose id is `identifier` and
   * recomputes whether anything is selected, from the updated rows.
   */
  function HandleItemSelection(items: seq<Row>, identifier: string): (r: HandleItemSelectionPartialState)
    ensures |r.items| == |items|
    ensures forall i :: 0 <= i < |items| ==> r.items[i].itemId == items[i].itemId
    ensures forall i :: 0 <= i < |items| && items[i].itemId == identifier && items[i].checkbox.Some? ==>
      r.items[i].checkbox == Some(!items[i].checkbox.value)
    ensures forall i :: 0 <= i < |items| && (items[i].itemId != identifier || items[i].checkbox.None?) ==>
      r.items[i] == items[i]
    ensures r.hasSelectedItems <==> exists i :: 0 <= i < |r.items| && r.items[i].checkbox == Some(true)
  {
    var updatedItems := seq(|items|, i requires 0 <= i < |items| => ToggleRow(items[i], identifier));
    Updated(updatedItems, HasAnyCheckedCheckbox(updatedItems))
  }

  /**
   * A claim is extracted exactly when some checked row carries its label as
   * id: unchecked rows and rows without a checkbox never contribute.
   */
  lemma {:induction false} TransformToClaimItemsMembership(items: seq<Row>, c: ClaimItem)
    ensures c in TransformToClaimItems(items) <==>
      exists i :: 0 <= i < |items| && IsChecked(items[i]) && items[i].itemId == c.name
    decreases |items|
  {
    if items != [] {
      TransformToClaimItemsMembership(items[1..], c);
      assert forall i :: 1 <= i < |items| ==> items[i] == items[1..][i - 1];
      if exists i :: 0 <= i < |items[1..]| && IsChecked(items[1..][i]) && items[1..][i].itemId == c.name {
        var i :| 0 <= i < |items[1..]| && IsChecked(items[1..][i]) && items[1..][i].itemId == c.name;
        assert IsChecked(items[i + 1]) && items[i + 1].itemId == c.name;
      }
    }
  }

  /** Claim extraction distributes over concatenation of row lists. */
  lemma {:induction false} TransformToClaimItemsAppend(a: seq<Row>, b: seq<Row>)
    ensures TransformToClaimItems(a + b) == TransformToClaimItems(a) + TransformToClaimItems(b)
    decreases |a|
  {
    if a == [] {
      assert a + b == b;
    } else {
      assert (a + b)[1..] == a[1..] + b;
      TransformToClaimItemsAppend(a[1..], b);
    }
  }

  /** The extracted claims keep the rows' order: they are a subsequence of all rows' claims. */
  lemma {:induction false} TransformToClaimItemsIsSubsequence(items: seq<Row>)
    ensures IsSubsequence(TransformToClaimItems(items), AsClaims(items))
    decreases |items|
  {
    if items != [] {
      TransformToClaimItemsIsSubsequence(items[1..]);
      assert AsClaims(items)[1..] == AsClaims(items[1..]);
    }
  }

  /** When every row is checked, every row contributes its claim, in order. */
  lemma {:induction false} AllCheckedYieldsAllClaims(items: seq<Row>)
    requires forall i :: 0 <= i < |items| ==> IsChecked(items[i])
    ensures TransformToClaimItems(items) == AsClaims(items)
    decreases |items|
  {
    if items != [] {
      AllCheckedYieldsAllClaims(items[1..]);
      assert TransformToClaimItems(items) == [ClaimItem(items[0].itemId)] + TransformToClaimItems(items[1..]);
      assert AsClaims(items) == [ClaimItem(items[0].itemId)] + AsClaims(items[1..]);
    }
  }

  /** No claim is extracted exactly when no row is checked. */
  lemma NoClaimsIffNothingChecked(items: seq<Row>)
    ensures TransformToClaimItems(items) == [] <==> !HasAnyCheckedCheckbox(items)
  {
    if HasAnyCheckedCheckbox(items) {
      var i :| 0 <= i < |items| && IsChecked(items[i]);
      TransformToClaimItemsMembership(items, ClaimItem(items[i].itemId));
    } else if TransformToClaimItems(items) != [] {
      TransformToClaimItemsMembership(items, TransformToClaimItems(items)[0]);
    }
  }

  /** Rows built from claims, left untouched, give back exactly those claims. */
  lemma UiItemsRoundTrip(documentType: AttestationType, claims: seq<ClaimItem>)
    ensures TransformToClaimItems(TransformToUiItems(documentType, claims)) == claims
  {
    var items := TransformToUiItems(documentType, claims);
    AllCheckedYieldsAllClaims(items);
    assert AsClaims(items) == claims;
  }

  /** Clicking the same identifier twice restores the original rows. */
  lemma HandleItemSelectionTwice(items: seq<Row>, identifier: string)
    ensures HandleItemSelection(HandleItemSelection(items, identifier).items, identifier).items == items
  {
  }

  /** Clicking an identifier that no row carries changes no row. */
  lemma HandleItemSelectionUnknownIdentifier(items: seq<Row>, identifier: string)
    requires forall i :: 0 <= i < |items| ==> items[i].itemId != identifier
    ensures HandleItemSelection(items, identifier).items == items
  {
  }

  /** After a click, "something is selected" holds exactly when confirming would request a claim. */
  lemma SelectedFlagMatchesClaims(items: seq<Row>, identifier: string)
    ensures var r := HandleItemSelection(items, identifier);
      r.hasSelectedItems <==> TransformToClaimItems(r.items) != []
  {
    NoClaimsIffNothingChecked(HandleItemSelection(items, identifier).items);
  }

  /** The repository unit-test scenario: two unchecked rows, clicking `id_1` checks it and enables the selection. */
  lemma ToggleUncheckedScenario()
    ensures var r := HandleItemSelection([Row("id_1", Some(false)), Row("id_2", Some(false))], "id_1");
      r.items == [Row("id_1", Some(true)), Row("id_2", Some(false))] && r.hasSelectedItems
  {
    var r := HandleItemSelection([Row("id_1", Some(false)), Row("id_2", Some(false))], "id_1");
    assert r.items[0].checkbox == Some(true);
  }

  /** The repository unit-test scenario: unchecking the only checked row leaves nothing selected. */
  lemma UncheckLastScenario()
    ensures var r := HandleItemSelection([Row("id_1", Some(true)), Row("id_2", Some(false))], "id_1");
      r.items == [Row("id_1", Some(false)), Row("id_2", Some(false))] && !r.hasSelectedItems
  {
  }
}
