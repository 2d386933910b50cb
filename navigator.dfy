/** The finish button of the default top navigator. */
module Navigator {
  import opened Types

  /** handleActionRequest: how many times a press calls onSuccess. A falsy
      minSelection lets every press through; otherwise a falsy count blocks
      it and a truthy one must reach the minimum. */
  function HandleActionRequest(selected: Option<int>, minSelection: Option<int>): (calls: nat)
    ensures calls <= 1
    ensures !Truthy(minSelection) ==> calls == 1
    ensures Truthy(minSelection) && !Truthy(selected) ==> calls == 0
    ensures Truthy(minSelection) && Truthy(selected) ==> (calls == 1 <==> selected.value >= minSelection.value)
  {
    if !Truthy(minSelection) then
      1
    else if Truthy(selected) then
      if selected.value >= minSelection.value then 1 else 0
    else
      0
  }

  /** For the count the picker passes (the length of its selection) and a
      positive minimum, the gate opens exactly when the count reaches it. */
  lemma GateOnSelectionCount(count: nat, minSelection: int)
    requires minSelection > 0
    ensures HandleActionRequest(Some(count), Some(minSelection)) == 1 <==> count >= minSelection
  {
  }

  /** A negative minimum is truthy, so an empty selection is still blocked
      although 0 >= minSelection holds. */
  lemma GateBlocksEmptyUnderNegativeMinimum(minSelection: int)
    requires minSelection < 0
    ensures HandleActionRequest(Some(0), Some(minSelection)) == 0
  {
  }
}
