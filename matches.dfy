/** The recorded game and the small facts every statistic is built on. */
module Matches {
  import opened Sequences

  /** A local hour of the day, as `Date.prototype.getHours` reports it. */
  type Hour = h: int | 0 <= h < 24

  /** One recorded game. `position` and `result` keep the text the record
      carries ("first"/"second", "win"/"lose"): records read from CSV files
      take whatever the columns hold. `timestamp` is the instant of the game
      in milliseconds (its ISO text is a one-to-one rendering of it), and
      `hour` is the local hour of that instant. An empty `note` stands for a
      record without a note. */
  datatype Match = Match(
    yourDeck: string,
    opponentDeck: string,
    position: string,
    result: string,
    timestamp: int,
    hour: Hour,
    winStreak: int,
    note: string)

  /** The two results the entry form offers. */
  datatype Outcome = Win | Lose

  /** The two turn orders the entry form offers. */
  datatype Side = First | Second

  function OutcomeText(o: Outcome): (r: string)
    ensures r == "win" <==> o == Win
    ensures r == "win" || r == "lose"
  {
    match o
    case Win => "win"
    case Lose => "lose"
  }

  function SideText(p: Side): (r: string)
    ensures r == "first" <==> p == First
    ensures r == "first" || r == "second"
  {
    match p
    case First => "first"
    case Second => "second"
  }

  /** Every statistic counts a game as won only when its result is "win";
      anything else counts as a loss. */
  predicate IsWin(m: Match)
  {
    m.result == "win"
  }

  /** Only a position of "first" counts as going first. */
  predicate IsFirst(m: Match)
  {
    m.position == "first"
  }

  predicate NotFirst(m: Match)
  {
    !IsFirst(m)
  }

  function DeckOf(m: Match): string
  {
    m.yourDeck
  }

  function TimeOf(m: Match): real
  {
    m.timestamp as real
  }

  /** Number of won games. */
  function Wins(ms: seq<Match>): nat
  {
    |Filter(ms, IsWin)|
  }

  lemma WinsConcat(a: seq<Match>, b: seq<Match>)
    ensures Wins(a + b) == Wins(a) + Wins(b)
  {
    FilterConcat(a, b, IsWin);
  }

  lemma WinsBound(ms: seq<Match>)
    ensures Wins(ms) <= |ms|
  {
  }

  /** The win rate in percent, `wins / total * 100`, and 0 for no games. */
  function WinRate(wins: nat, total: nat): (r: real)
    requires wins <= total
    ensures 0.0 <= r <= 100.0
    ensures r == 0.0 <==> wins == 0
    ensures r == 100.0 <==> 0 < total && wins == total
  {
    if total > 0 then RateArith(wins, total); wins as real / total as real * 100.0 else 0.0
  }

  /** The rate times the number of games is a hundred times the wins. */
  lemma WinRateScaled(wins: nat, total: nat)
    requires wins <= total && 0 < total
    ensures WinRate(wins, total) * total as real == 100.0 * wins as real
  {
    RateArith(wins, total);
  }

  /** The arithmetic behind the bounds of a rate. */
  lemma RateArith(wins: nat, total: nat)
    requires wins <= total && 0 < total
    ensures var r := wins as real / total as real * 100.0;
            && 0.0 <= r <= 100.0
            && (r == 0.0 <==> wins == 0)
            && (r == 100.0 <==> wins == total)
            && r * total as real == 100.0 * wins as real
  {
    var w, t := wins as real, total as real;
    var q := w / t;
    assert q * t == w;
    PositiveFactor(q, t);
    assert (1.0 - q) * t == t - w;
    PositiveFactor(1.0 - q, t);
    assert (q * 100.0) * t == 100.0 * (q * t);
  }

  /** A factor of a product with a positive number has the product's sign. */
  lemma PositiveFactor(u: real, t: real)
    requires 0.0 < t
    ensures u * t >= 0.0 ==> u >= 0.0
    ensures u * t == 0.0 ==> u == 0.0
  {
  }

  /** A better record has the higher win rate: more wins out of the same
      number of games never lowers it. */
  lemma WinRateMonotone(w1: nat, w2: nat, total: nat)
    requires w1 <= w2 <= total
    ensures WinRate(w1, total) <= WinRate(w2, total)
  {
    if total > 0 {
      DivMonotone(w1 as real, w2 as real, total as real);
    }
  }

  /** Dividing by a positive number keeps the order of two reals. */
  lemma DivMonotone(x: real, y: real, t: real)
    requires x <= y && 0.0 < t
    ensures x / t <= y / t
  {
    var a, b := x / t, y / t;
    assert a * t == x && b * t == y;
    assert (b - a) * t == y - x;
    PositiveFactor(b - a, t);
  }

  /** The number of consecutive wins at the end of the list. */
  function TrailingWins(ms: seq<Match>): (r: nat)
    ensures r <= |ms|
  {
    if ms != [] && IsWin(ms[|ms| - 1]) then TrailingWins(ms[..|ms| - 1]) + 1 else 0
  }

  /** The last `TrailingWins(ms)` games are wins and the game before them,
      if any, is not. */
  lemma {:induction false} TrailingWinsMeaning(ms: seq<Match>)
    ensures forall i :: |ms| - TrailingWins(ms) <= i < |ms| ==> IsWin(ms[i])
    ensures TrailingWins(ms) < |ms| ==> !IsWin(ms[|ms| - 1 - TrailingWins(ms)])
  {
    if ms != [] && IsWin(ms[|ms| - 1]) {
      var p := ms[..|ms| - 1];
      TrailingWinsMeaning(p);
      assert forall i :: 0 <= i < |p| ==> ms[i] == p[i];
    }
  }

  /** Conversely, the trailing wins are determined by where the last loss is. */
  lemma TrailingWinsExact(ms: seq<Match>, n: nat)
    requires n <= |ms|
    requires forall i :: |ms| - n <= i < |ms| ==> IsWin(ms[i])
    requires n < |ms| ==> !IsWin(ms[|ms| - 1 - n])
    ensures TrailingWins(ms) == n
  {
    TrailingWinsMeaning(ms);
  }

  /** The streak of the game about to be added is fixed by the games that
      end the list: appending a win lengthens it, a loss ends it. */
  lemma TrailingWinsAppend(ms: seq<Match>, m: Match)
    ensures TrailingWins(ms + [m]) == if IsWin(m) then TrailingWins(ms) + 1 else 0
  {
    assert (ms + [m])[..|ms|] == ms;
  }
}
