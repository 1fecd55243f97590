/** The persisted best score: the single `dinoJumperHighScore` item of the
    browser's local storage, read and written by both scenes. */
module HighScore {

  datatype Option<T> = None | Some(value: T)

  function Max(a: int, b: int): (r: int) {
    if a < b then b else a
  }

  /** The number a score is compared against. `getItem` yields null for a
      missing item, and JavaScript's `>` reads null as 0. */
  function BestValue(slot: Option<int>): (r: int) {
    match slot
    case None => 0
    case Some(v) => v
  }

  /** TitleScreen.setHighScore: a missing item is created holding 0; an item
      that exists (even one holding 0, a non-empty string) is left alone. */
  function Initialized(slot: Option<int>): (r: Option<int>)
    ensures r.Some?
    ensures slot.Some? ==> r == slot
    ensures BestValue(r) == BestValue(slot)
  {
    if slot.None? then Some(0) else slot
  }

  /** RunnerGame.updateLocalStorage: the score is written only when it is
      strictly greater than what is stored, so the stored value becomes the
      larger of the two. */
  function Recorded(slot: Option<int>, score: int): (r: Option<int>)
    ensures BestValue(r) == Max(BestValue(slot), score)
    ensures r != slot <==> score > BestValue(slot)
    ensures r != slot ==> r == Some(score)
    ensures slot.Some? ==> r.Some?
  {
    if score > BestValue(slot) then Some(score) else slot
  }

  /** Entering the title screen a second time changes nothing more. */
  lemma InitializedIdempotent(slot: Option<int>)
    ensures Initialized(Initialized(slot)) == Initialized(slot)
  {
  }

  /** Recording the same score twice writes at most once. */
  lemma RecordedIdempotent(slot: Option<int>, score: int)
    ensures Recorded(Recorded(slot, score), score) == Recorded(slot, score)
  {
  }
}
