/**
 * Direction input. The snake's direction is a delta `(dx, dy)`; a key press or
 * a swipe may turn it by a right angle, never reverse it. The rule is written
 * as "a vertical turn needs `dy == 0`, a horizontal turn needs `dx == 0`".
 */
module Direction {
  import opened Grid

  /** The five deltas the game ever stores: standing still or one unit step. */
  predicate IsDir(dx: int, dy: int)
  {
    (dx == 0 && dy == 0) || IsUnit(dx, dy)
  }

  /** An orthogonal unit step. */
  predicate IsUnit(dx: int, dy: int)
  {
    (dx == 0 && (dy == 1 || dy == -1)) || (dy == 0 && (dx == 1 || dx == -1))
  }

  lemma UnitStepIsAdjacent(p: Pos, dx: int, dy: int)
    requires IsUnit(dx, dy)
    ensures Adjacent(Translate(p, dx, dy), p)
  {
  }

  // ---------------------------------------------------------------- keys

  /** ASCII upper case to lower case; every other character is kept. */
  function LowerChar(c: char): char
  {
    if 'A' <= c <= 'Z' then (c as int + 32) as char else c
  }

  /** The key name as `toLowerCase` gives it, for ASCII letters. */
  function Lower(s: string): (r: string)
    ensures |r| == |s|
    ensures forall i :: 0 <= i < |s| ==> r[i] == LowerChar(s[i])
  {
    if s == [] then [] else [LowerChar(s[0])] + Lower(s[1..])
  }

  predicate IsPauseKey(k: string) { k == " " || k == "escape" }
  predicate IsUpKey(k: string) { k == "w" || k == "arrowup" }
  predicate IsDownKey(k: string) { k == "s" || k == "arrowdown" }
  predicate IsLeftKey(k: string) { k == "a" || k == "arrowleft" }
  predicate IsRightKey(k: string) { k == "d" || k == "arrowright" }

  /**
   * The movement branch of the key handler: the direction after pressing the
   * (lower-cased) key `k` while moving by `(dx, dy)`. The key either turns the
   * snake by a right angle or is ignored; it never reverses a moving snake.
   */
  function Steer(k: string, dx: int, dy: int): (r: (int, int))
    ensures r == (dx, dy) || (r.1 == 0 && dx == 0 && IsUnit(r.0, r.1))
                          || (r.0 == 0 && dy == 0 && IsUnit(r.0, r.1))
    ensures IsDir(dx, dy) ==> IsDir(r.0, r.1)
    ensures (dx, dy) != (0, 0) ==> r != (-dx, -dy)
    ensures dy == 0 && IsUpKey(k) ==> r == (0, -1)
    ensures dy == 0 && IsDownKey(k) ==> r == (0, 1)
    ensures dx == 0 && IsLeftKey(k) ==> r == (-1, 0)
    ensures dx == 0 && IsRightKey(k) ==> r == (1, 0)
    ensures (IsUpKey(k) || IsDownKey(k)) && dy != 0 ==> r == (dx, dy)
    ensures (IsLeftKey(k) || IsRightKey(k)) && dx != 0 ==> r == (dx, dy)
    ensures !IsUpKey(k) && !IsDownKey(k) && !IsLeftKey(k) && !IsRightKey(k) ==> r == (dx, dy)
  {
    if IsUpKey(k) && dy == 0 then (0, -1)
    else if IsDownKey(k) && dy == 0 then (0, 1)
    else if IsLeftKey(k) && dx == 0 then (-1, 0)
    else if IsRightKey(k) && dx == 0 then (1, 0)
    else (dx, dy)
  }

  // ---------------------------------------------------------------- swipes

  /** A swipe shorter than this many pixels along its main axis is ignored. */
  const MinSwipeDistance: real := 50.0

  function AbsReal(v: real): (r: real)
    ensures r >= 0.0 && (r == v || r == -v)
  {
    if v < 0.0 then -v else v
  }

  /**
   * The direction after a swipe by `(deltaX, deltaY)` pixels: the dominant axis
   * decides (ties go to the vertical axis), the swipe must be longer than
   * `MinSwipeDistance`, and the same no-reversal rule as for keys applies.
   */
  function Swipe(deltaX: real, deltaY: real, dx: int, dy: int): (r: (int, int))
    ensures r == (dx, dy) || (r.1 == 0 && dx == 0 && IsUnit(r.0, r.1))
                          || (r.0 == 0 && dy == 0 && IsUnit(r.0, r.1))
    ensures IsDir(dx, dy) ==> IsDir(r.0, r.1)
    ensures (dx, dy) != (0, 0) ==> r != (-dx, -dy)
    ensures r != (dx, dy) ==> AbsReal(deltaX) > MinSwipeDistance || AbsReal(deltaY) > MinSwipeDistance
    ensures AbsReal(deltaX) > AbsReal(deltaY) && AbsReal(deltaX) > MinSwipeDistance && dx == 0 ==>
              r == (if deltaX > 0.0 then 1 else -1, 0)
    ensures AbsReal(deltaX) <= AbsReal(deltaY) && AbsReal(deltaY) > MinSwipeDistance && dy == 0 ==>
              r == (0, if deltaY > 0.0 then 1 else -1)
    ensures AbsReal(deltaX) > AbsReal(deltaY) && dx != 0 ==> r == (dx, dy)
    ensures AbsReal(deltaX) <= AbsReal(deltaY) && dy != 0 ==> r == (dx, dy)
  {
    if AbsReal(deltaX) > AbsReal(deltaY) then
      if AbsReal(deltaX) > MinSwipeDistance then
        if deltaX > 0.0 && dx == 0 then (1, 0)
        else if deltaX < 0.0 && dx == 0 then (-1, 0)
        else (dx, dy)
      else (dx, dy)
    else
      if AbsReal(deltaY) > MinSwipeDistance then
        if deltaY > 0.0 && dy == 0 then (0, 1)
        else if deltaY < 0.0 && dy == 0 then (0, -1)
        else (dx, dy)
      else (dx, dy)
  }
}
