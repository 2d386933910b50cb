/** The selection controller of AssetsSelector: the click toggle over the
    list of selected ids, asset lookup by id, the preview derivation and the
    getSelectedAssets projection. */
module Selection {
  import opened Types
  import opened Seqs

  /** The updater passed to setSelectedItems on a click on `id`. An
      unselected id is appended unless the selection is at its ceiling; a
      selected id is dropped unless that would go under the floor. */
  function Toggle(selected: seq<string>, id: string, minSelection: int, maxSelection: int): (r: seq<string>)
    ensures forall y :: y != id ==> (y in r <==> y in selected)
    ensures id !in selected ==> (id in r <==> |selected| < maxSelection)
    ensures NoDup(selected) && id in selected ==> (id !in r <==> |selected| - 1 >= minSelection)
    ensures NoDup(selected) ==> NoDup(r)
    ensures |selected| <= maxSelection ==> |r| <= maxSelection
    ensures NoDup(selected) && |r| < |selected| ==> |r| == |selected| - 1 >= minSelection
  {
    var alreadySelected := IndexOf(selected, id) >= 0;
    if |selected| >= maxSelection && !alreadySelected then
      selected
    else if alreadySelected then
      if |selected| - 1 >= minSelection then RemoveAll(selected, id) else selected
    else
      assert NoDup(selected) ==> NoDup(selected + [id]) by {
        if NoDup(selected) {
          forall i, j | 0 <= i < j < |selected| + 1 ensures (selected + [id])[i] != (selected + [id])[j] {
            if j == |selected| {
              assert (selected + [id])[i] == selected[i];
            }
          }
        }
      }
      selected + [id]
  }

  /** Clicking an unselected id under the ceiling appends it at the end. */
  lemma ToggleAppends(selected: seq<string>, id: string, minSelection: int, maxSelection: int)
    requires id !in selected && |selected| < maxSelection
    ensures Toggle(selected, id, minSelection, maxSelection) == selected + [id]
  {
  }

  /** Clicking an unselected id at or above the ceiling changes nothing. */
  lemma ToggleAtCeiling(selected: seq<string>, id: string, minSelection: int, maxSelection: int)
    requires id !in selected && |selected| >= maxSelection
    ensures Toggle(selected, id, minSelection, maxSelection) == selected
  {
  }

  /** Clicking selected[i] when one fewer is still enough cuts out exactly
      that position and keeps the order of the others. */
  lemma ToggleRemoves(selected: seq<string>, i: int, minSelection: int, maxSelection: int)
    requires NoDup(selected) && 0 <= i < |selected|
    requires |selected| - 1 >= minSelection
    ensures Toggle(selected, selected[i], minSelection, maxSelection) == selected[..i] + selected[i + 1..]
  {
    RemoveAllAt(selected, i);
  }

  /** Clicking a selected id when one fewer would be under the floor changes nothing. */
  lemma ToggleAtFloor(selected: seq<string>, id: string, minSelection: int, maxSelection: int)
    requires id in selected && |selected| - 1 < minSelection
    ensures Toggle(selected, id, minSelection, maxSelection) == selected
  {
  }

  /** Array.prototype.find on the asset list: the first asset with that id. */
  function Lookup(items: seq<Asset>, id: string): (r: Option<Asset>)
    ensures r.None? <==> id !in Ids(items)
    ensures r.Some? ==> r.value in items && r.value.id == id
    ensures r.Some? ==> exists k :: 0 <= k < |items| && items[k] == r.value && id !in Ids(items[..k])
  {
    var k := IndexOf(Ids(items), id);
    if k < 0 then None
    else
      assert Ids(items[..k]) == Ids(items)[..k];
      Some(items[k])
  }

  /** With unique ids, the lookup of an id finds the one asset that has it. */
  lemma LookupUnique(items: seq<Asset>, a: Asset)
    requires NoDup(Ids(items)) && a in items
    ensures Lookup(items, a.id) == Some(a)
  {
    var k :| 0 <= k < |items| && items[k] == a;
    IndexOfNoDup(Ids(items), k);
  }

  /** The asset reported to onPreviewSourceUpdated after a selection change:
      the asset whose id was selected last, or undefined. */
  function Preview(items: seq<Asset>, selected: seq<string>): (r: Option<Asset>)
    ensures selected == [] ==> r == None
    ensures selected != [] ==> r == Lookup(items, selected[|selected| - 1])
    ensures r.Some? ==> r.value in items && r.value.id == selected[|selected| - 1]
  {
    if |selected| > 0 then
      var lastId := selected[|selected| - 1];
      Lookup(items, lastId)
    else
      None
  }

  /** getSelectedAssets: each selected id mapped to its asset, undefined
      where the id is not among the loaded items. */
  function SelectedAssets(items: seq<Asset>, selected: seq<string>): (r: seq<Option<Asset>>)
    ensures |r| == |selected|
    ensures forall i :: 0 <= i < |selected| ==> (r[i].None? <==> selected[i] !in Ids(items))
    ensures forall i :: 0 <= i < |selected| && r[i].Some? ==> r[i].value in items && r[i].value.id == selected[i]
    ensures forall i :: 0 <= i < |selected| && r[i].Some? ==>
              exists k :: 0 <= k < |items| && items[k] == r[i].value && selected[i] !in Ids(items[..k])
  {
    seq(|selected|, i requires 0 <= i < |selected| => Lookup(items, selected[i]))
  }
}
