/** The streak computations of utils/stats-utils.ts: the streak stored with a
    new game, and the one-pass scan that summarises the streaks of a list. */
module Streaks {
  import opened Sequences
  import opened Matches

  /** `calculateWinStreak(matches, newResult)`: 0 for a loss; for a win, one
      more than the wins that end the list, counted by a backward loop that
      stops at the first game that is not a win. */
  method CalculateWinStreak(ms: seq<Match>, newResult: Outcome) returns (streak: int)
    ensures newResult == Lose ==> streak == 0
    ensures newResult == Win ==> streak == TrailingWins(ms) + 1
    ensures 0 <= streak <= |ms| + 1
  {
    if newResult == Lose {
      return 0;
    }
    streak := 1;
    var i := |ms| - 1;
    while i >= 0
      invariant -1 <= i < |ms|
      invariant streak == |ms| - i
      invariant forall j :: i < j < |ms| ==> IsWin(ms[j])
      decreases i + 1
    {
      if IsWin(ms[i]) {
        streak := streak + 1;
      } else {
        break;
      }
      i := i - 1;
    }
    TrailingWinsExact(ms, streak - 1);
  }

  /** What `getStreakStats` returns. */
  datatype StreakStats = StreakStats(maxStreak: int, currentStreak: int, streakHistory: seq<int>)

  /** The lengths of the runs of wins that a later loss has ended, in order. */
  function ClosedRuns(ms: seq<Match>): seq<int>
  {
    if ms == [] then []
    else
      var p := ms[..|ms| - 1];
      ClosedRuns(p) + (if !IsWin(ms[|ms| - 1]) && TrailingWins(p) > 0 then [TrailingWins(p)] else [])
  }

  /** The lengths of all maximal runs of wins, in order: the closed runs and
      the run still open at the end. */
  function WinRuns(ms: seq<Match>): seq<int>
  {
    ClosedRuns(ms) + (if TrailingWins(ms) > 0 then [TrailingWins(ms)] else [])
  }

  /** `getStreakStats`: one pass over the games, keeping the current streak,
      the longest streak so far, and the history of finished streaks. */
  method GetStreakStats(ms: seq<Match>) returns (r: StreakStats)
    ensures r.streakHistory == WinRuns(ms)
    ensures r.currentStreak == TrailingWins(ms)
    ensures r.maxStreak == MaxOf(WinRuns(ms))
  {
    var maxStreak, currentStreak := 0, 0;
    var streakHistory: seq<int> := [];
    var i := 0;
    while i < |ms|
      invariant 0 <= i <= |ms|
      invariant currentStreak == TrailingWins(ms[..i])
      invariant streakHistory == ClosedRuns(ms[..i])
      invariant maxStreak == MaxOf(ClosedRuns(ms[..i]) + [currentStreak])
    {
      StreakStep(ms, i);
      maxStreak, currentStreak, streakHistory := ScanGame(maxStreak, currentStreak, streakHistory, ms[i]);
      i := i + 1;
    }
    assert ms[..|ms|] == ms;
    if currentStreak > 0 {
      streakHistory := streakHistory + [currentStreak];
    }
    r := StreakStats(maxStreak, currentStreak, streakHistory);
  }

  /** The body of the scan's `forEach` for one game. */
  method ScanGame(maxStreak: int, currentStreak: int, streakHistory: seq<int>, m: Match)
    returns (maxStreak': int, currentStreak': int, streakHistory': seq<int>)
    requires 0 <= currentStreak
    requires maxStreak == MaxOf(streakHistory + [currentStreak])
    ensures currentStreak' == if IsWin(m) then currentStreak + 1 else 0
    ensures streakHistory' == if !IsWin(m) && currentStreak > 0 then streakHistory + [currentStreak] else streakHistory
    ensures maxStreak' == MaxOf(streakHistory' + [currentStreak'])
  {
    MaxOfAppend(streakHistory, currentStreak);
    maxStreak', currentStreak', streakHistory' := maxStreak, currentStreak, streakHistory;
    if IsWin(m) {
      currentStreak' := currentStreak' + 1;
      maxStreak' := if maxStreak' > currentStreak' then maxStreak' else currentStreak';
      MaxOfAppend(streakHistory, currentStreak');
    } else {
      if currentStreak' > 0 {
        streakHistory' := streakHistory' + [currentStreak'];
      }
      currentStreak' := 0;
      MaxOfAppend(streakHistory', 0);
      MaxOfAppend(streakHistory, currentStreak);
    }
  }

  /** How one game more changes the closed runs and the open run. */
  lemma StreakStep(ms: seq<Match>, i: nat)
    requires i < |ms|
    ensures TrailingWins(ms[..i + 1]) == if IsWin(ms[i]) then TrailingWins(ms[..i]) + 1 else 0
    ensures ClosedRuns(ms[..i + 1])
         == if !IsWin(ms[i]) && TrailingWins(ms[..i]) > 0 then ClosedRuns(ms[..i]) + [TrailingWins(ms[..i])]
            else ClosedRuns(ms[..i])
  {
    assert ms[..i + 1][..i] == ms[..i];
  }

  lemma {:induction false} ClosedRunsPositive(ms: seq<Match>)
    ensures forall i :: 0 <= i < |ClosedRuns(ms)| ==> ClosedRuns(ms)[i] > 0
  {
    if ms != [] {
      ClosedRunsPositive(ms[..|ms| - 1]);
    }
  }

  /** Every entry of the streak history is a positive run length. */
  lemma WinRunsPositive(ms: seq<Match>)
    ensures forall i :: 0 <= i < |WinRuns(ms)| ==> WinRuns(ms)[i] > 0
  {
    ClosedRunsPositive(ms);
  }

  /** The runs of wins account for every win exactly once. */
  lemma {:induction false} WinRunsSum(ms: seq<Match>)
    ensures SumBy(WinRuns(ms), Identity) == Wins(ms)
  {
    if ms != [] {
      var p, m := ms[..|ms| - 1], ms[|ms| - 1];
      WinRunsSum(p);
      assert ms == p + [m];
      WinsConcat(p, [m]);
      TrailingWinsAppend(p, m);
      var c := ClosedRuns(p);
      var t := TrailingWins(p);
      if IsWin(m) {
        assert Wins([m]) == 1;
        assert ClosedRuns(ms) == c;
        assert WinRuns(ms) == c + [t + 1];
        assert SumBy([t + 1], Identity) == t + 1 by {
          assert [t + 1][..0] == [];
        }
        if t > 0 {
          assert SumBy([t], Identity) == t by {
            assert [t][..0] == [];
          }
        }
        SumByConcat(c, [t + 1], Identity);
        SumByConcat(c, if t > 0 then [t] else [], Identity);
      } else {
        assert Wins([m]) == 0;
        assert WinRuns(ms) == ClosedRuns(ms) == WinRuns(p);
      }
    }
  }

  /** The longest streak is 0 exactly when there is no win. */
  lemma MaxStreakZero(ms: seq<Match>)
    ensures MaxOf(WinRuns(ms)) == 0 <==> Wins(ms) == 0
  {
    var w := WinRuns(ms);
    WinRunsPositive(ms);
    WinRunsSum(ms);
    SumPositive(w);
    if w != [] {
      assert w[0] <= MaxOf(w);
    }
  }
}
