/** The two index updaters of the keyboard handler: pure functions of the previous index and
    the number of suggestions. -1 means "no row highlighted". */
module Navigation {

  function Min(a: int, b: int): (r: int) { if a <= b then a else b }
  function Max(a: int, b: int): (r: int) { if a >= b then a else b }

  /** The index an index stays within: -1 or a position of the suggestion list. */
  predicate InRange(index: int, count: nat) { -1 <= index < count }

  /** ArrowDown: one step forward unless already at (or past) the last row; no wrap-around. */
  function NextIndex(prev: int, count: nat): (r: int)
    ensures prev <= r <= prev + 1
    ensures r == prev + 1 <==> prev < count - 1
    ensures InRange(prev, count) ==> InRange(r, count)
  {
    if prev < count - 1 then prev + 1 else prev
  }

  /** ArrowUp: one step back unless already at row 0 or at -1; never wraps to the bottom. */
  function PrevIndex(prev: int): (r: int)
    ensures prev - 1 <= r <= prev
    ensures r == prev - 1 <==> prev > 0
    ensures r >= Min(prev, 0)
    ensures forall count: nat :: InRange(prev, count) ==> InRange(r, count)
  {
    if prev > 0 then prev - 1 else prev
  }

  /** The index after `presses` ArrowDown presses with a fixed list of `count` suggestions. */
  function PressDown(index: int, count: nat, presses: nat): (r: int)
    decreases presses
  {
    if presses == 0 then index else PressDown(NextIndex(index, count), count, presses - 1)
  }

  /** The index after `presses` ArrowUp presses. */
  function PressUp(index: int, presses: nat): (r: int)
    decreases presses
  {
    if presses == 0 then index else PressUp(PrevIndex(index), presses - 1)
  }

  /** Repeated ArrowDown climbs one row per press and then stays on the last row; an index
      already at or past the last row does not move at all. */
  lemma {:induction false} PressDownClamps(index: int, count: nat, presses: nat)
    ensures PressDown(index, count, presses)
         == if index >= count - 1 then index else Min(index + presses, count - 1)
    decreases presses
  {
    if presses > 0 {
      PressDownClamps(NextIndex(index, count), count, presses - 1);
    }
  }

  /** From "nothing highlighted", any number of presses at least the list length lands on the
      last row, and with no suggestions the index stays -1. */
  lemma PressDownFromNoneStabilises(count: nat, presses: nat)
    requires presses >= count
    ensures PressDown(-1, count, presses) == count - 1
    ensures count == 0 ==> PressDown(-1, count, presses) == -1
  {
    PressDownClamps(-1, count, presses);
  }

  /** Repeated ArrowUp walks down to row 0 and stops; from 0 or -1 (or below) it never moves. */
  lemma {:induction false} PressUpClamps(index: int, presses: nat)
    ensures PressUp(index, presses) == if index <= 0 then index else Max(index - presses, 0)
    decreases presses
  {
    if presses > 0 {
      PressUpClamps(PrevIndex(index), presses - 1);
    }
  }
}
