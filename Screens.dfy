/**
 * The game-state name `showScreen` derives from a screen id: the first
 * occurrence of "-screen" is taken out, as JavaScript's
 * `String.prototype.replace` does with a string pattern.
 */
module Screens {

  const Marker: string := "-screen"

  /** "-screen" starts at index `i` of `s`. */
  predicate OccursAt(s: string, i: int)
  {
    0 <= i && i + |Marker| <= |s| && s[i..i + |Marker|] == Marker
  }

  /** The state name for screen id `s`. */
  function StateName(s: string): (r: string)
    ensures |r| == |s| || |r| == |s| - |Marker|
  {
    if |s| < |Marker| then s
    else if s[..|Marker|] == Marker then s[|Marker|..]
    else [s[0]] + StateName(s[1..])
  }

  /** Without any occurrence of "-screen" the id is the state name. */
  lemma {:induction false} StateNameWithoutMarker(s: string)
    requires forall i :: 0 <= i <= |s| ==> !OccursAt(s, i)
    ensures StateName(s) == s
  {
    if |s| >= |Marker| {
      assert !OccursAt(s, 0);
      forall i | 0 <= i <= |s[1..]| ensures !OccursAt(s[1..], i) {
        assert !OccursAt(s, i + 1);
        if i + |Marker| <= |s[1..]| {
          assert s[1..][i..i + |Marker|] == s[i + 1..i + 1 + |Marker|];
        }
      }
      StateNameWithoutMarker(s[1..]);
    }
  }

  /** Only the first occurrence of "-screen" is removed. */
  lemma {:induction false} StateNameRemovesFirst(s: string, i: int)
    requires OccursAt(s, i)
    requires forall j :: 0 <= j < i ==> !OccursAt(s, j)
    ensures StateName(s) == s[..i] + s[i + |Marker|..]
    decreases i
  {
    if i == 0 {
      assert s[..|Marker|] == Marker;
    } else {
      var t := s[1..];
      assert !OccursAt(s, 0);
      assert s[..|Marker|] != Marker;
      assert StateName(s) == [s[0]] + StateName(t);
      OccursInTail(s, i);
      forall j | 0 <= j < i - 1 ensures !OccursAt(t, j) {
        assert !OccursAt(s, j + 1);
        OccursInTail(s, j + 1);
      }
      StateNameRemovesFirst(t, i - 1);
      assert s[..i] == [s[0]] + t[..i - 1];
      assert s[i + |Marker|..] == t[i - 1 + |Marker|..];
    }
  }

  /** An occurrence at `i > 0` of `s` is one at `i - 1` of its tail, and the other way round. */
  lemma OccursInTail(s: string, i: int)
    requires 0 < i && |s| >= 1
    ensures OccursAt(s, i) <==> OccursAt(s[1..], i - 1)
  {
    if i + |Marker| <= |s| {
      assert s[1..][i - 1..i - 1 + |Marker|] == s[i..i + |Marker|];
    }
  }

  /**
   * No occurrence of "-screen" starts before `i` when the `k`-th character of
   * "-screen" is absent from the stretch of `s` where those occurrences would
   * have it.
   */
  lemma NoMarkerBefore(s: string, i: int, k: int)
    requires 0 <= k < |Marker| && 0 <= i && i + k <= |s|
    requires Marker[k] !in s[k..i + k]
    ensures forall j :: 0 <= j < i ==> !OccursAt(s, j)
  {
    forall j | 0 <= j < i ensures !OccursAt(s, j) {
      assert s[j + k] == s[k..i + k][j];
    }
  }

  // The screen ids the game shows and the states they leave behind.

  lemma WelcomeScreenState()
    ensures StateName("welcome-screen") == "welcome"
  {
    NoMarkerBefore("welcome-screen", 7, 0);
    StateNameRemovesFirst("welcome-screen", 7);
  }

  lemma GameScreenState()
    ensures StateName("game-screen") == "game"
  {
    NoMarkerBefore("game-screen", 4, 0);
    StateNameRemovesFirst("game-screen", 4);
  }

  lemma PauseScreenState()
    ensures StateName("pause-screen") == "pause"
  {
    NoMarkerBefore("pause-screen", 5, 0);
    StateNameRemovesFirst("pause-screen", 5);
  }

  lemma GameOverScreenState()
    ensures StateName("game-over-screen") == "game-over"
  {
    NoMarkerBefore("game-over-screen", 9, 2);
    StateNameRemovesFirst("game-over-screen", 9);
  }

  lemma MainMenuState()
    ensures StateName("main-menu") == "main-menu"
  {
    NoMarkerBefore("main-menu", 3, 2);
    StateNameWithoutMarker("main-menu");
  }
}
