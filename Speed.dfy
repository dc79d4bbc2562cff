/**
 * The tick interval in milliseconds: its starting value per difficulty and
 * the 10% speed-up applied on every level-up, floored at 50 ms. JavaScript
 * computes `gameSpeed * 0.9` in floating point; here it is an exact `real`.
 */
module Speed {

  /** The shortest interval the game will ever use. */
  const MinInterval: real := 50.0

  /**
   * The difficulty table: easy 200, normal 150, hard 100, extreme 75, and 150
   * for any name the table does not hold.
   */
  function DifficultySpeed(difficulty: string): (r: real)
    ensures r == 200.0 || r == 150.0 || r == 100.0 || r == 75.0
    ensures MinInterval < r
    ensures r == 150.0 <==> difficulty != "easy" && difficulty != "hard" && difficulty != "extreme"
    ensures difficulty == "easy" ==> r == 200.0
    ensures difficulty == "hard" ==> r == 100.0
    ensures difficulty == "extreme" ==> r == 75.0
  {
    match difficulty
    case "easy" => 200.0
    case "normal" => 150.0
    case "hard" => 100.0
    case "extreme" => 75.0
    case _ => 150.0
  }

  /**
   * The interval after a level-up: 90% of the old one, but never below
   * `MinInterval`. From any interval at or above the floor it never grows, and
   * it strictly shrinks while it is above the floor.
   */
  function LevelUpSpeed(g: real): (r: real)
    ensures r >= MinInterval
    ensures r >= g * 0.9
    ensures r == g * 0.9 || r == MinInterval
    ensures g >= MinInterval ==> r <= g
    ensures g > MinInterval ==> r < g
  {
    if g * 0.9 >= MinInterval then g * 0.9 else MinInterval
  }

  /** The interval after `k` level-ups from `g`. */
  function SpeedAfter(g: real, k: nat): real
  {
    if k == 0 then g else LevelUpSpeed(SpeedAfter(g, k - 1))
  }

  /** However many level-ups, the interval stays between the floor and its start. */
  lemma {:induction false} SpeedAfterBounds(g: real, k: nat)
    requires g >= MinInterval
    ensures MinInterval <= SpeedAfter(g, k) <= g
  {
    if k > 0 {
      SpeedAfterBounds(g, k - 1);
    }
  }

  /** The first level-up on normal difficulty gives 135 ms. */
  lemma NormalFirstLevelUp()
    ensures LevelUpSpeed(DifficultySpeed("normal")) == 135.0
  {
  }
}
