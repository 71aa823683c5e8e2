/** The grouping behind the per-deck and per-matchup statistics. Each of
    them fills a JavaScript `Map` inside a `forEach` over the games; a `Map`
    iterates its keys in the order they were first inserted, which is the
    order of each key's first game (`FirstSeen`). The counting loop is
    `TallyBy`; the rows built from its result are `Rows`, specified by `RowsOf`. */
module Grouping {
  import opened Sequences
  import opened Matches

  /** The games whose key is `k`, in their original order. */
  function GroupOf(ms: seq<Match>, key: Match -> string, k: string): (g: seq<Match>)
    ensures |g| <= |ms|
  {
    if ms == [] then []
    else GroupOf(ms[..|ms| - 1], key, k) + (if key(ms[|ms| - 1]) == k then [ms[|ms| - 1]] else [])
  }

  /** Every game of the group carries the key. */
  lemma {:induction false} GroupOfKeys(ms: seq<Match>, key: Match -> string, k: string)
    ensures forall i :: 0 <= i < |GroupOf(ms, key, k)| ==> key(GroupOf(ms, key, k)[i]) == k
  {
    if ms != [] {
      GroupOfKeys(ms[..|ms| - 1], key, k);
    }
  }

  lemma GroupOfAppend(ms: seq<Match>, m: Match, key: Match -> string, k: string)
    ensures GroupOf(ms + [m], key, k) == GroupOf(ms, key, k) + (if key(m) == k then [m] else [])
  {
    assert (ms + [m])[..|ms|] == ms;
  }

  /** A key has games exactly when some game carries it. */
  lemma {:induction false} GroupOfEmpty(ms: seq<Match>, key: Match -> string, k: string)
    ensures GroupOf(ms, key, k) == [] <==> forall i :: 0 <= i < |ms| ==> key(ms[i]) != k
  {
    if ms != [] {
      var p := ms[..|ms| - 1];
      GroupOfEmpty(p, key, k);
      assert forall i :: 0 <= i < |p| ==> ms[i] == p[i];
    }
  }

  /** The distinct keys of the games, in the order of each key's first game:
      the iteration order of a `Map` filled by one `forEach` over the games. */
  function FirstSeen(ms: seq<Match>, key: Match -> string): (ks: seq<string>)
    ensures |ks| <= |ms|
  {
    if ms == [] then []
    else
      var ks := FirstSeen(ms[..|ms| - 1], key);
      if key(ms[|ms| - 1]) in ks then ks else ks + [key(ms[|ms| - 1])]
  }

  lemma FirstSeenAppend(ms: seq<Match>, m: Match, key: Match -> string)
    ensures FirstSeen(ms + [m], key)
         == if key(m) in FirstSeen(ms, key) then FirstSeen(ms, key) else FirstSeen(ms, key) + [key(m)]
  {
    assert (ms + [m])[..|ms|] == ms;
  }

  /** `FirstSeen` lists each key once, and lists exactly the keys that have games. */
  lemma {:induction false} FirstSeenFacts(ms: seq<Match>, key: Match -> string)
    ensures forall i, j :: 0 <= i < j < |FirstSeen(ms, key)| ==> FirstSeen(ms, key)[i] != FirstSeen(ms, key)[j]
    ensures forall k :: k in FirstSeen(ms, key) <==> GroupOf(ms, key, k) != []
  {
    if ms != [] {
      FirstSeenFacts(ms[..|ms| - 1], key);
    }
  }

  /** A game's own key is among the first-seen keys. */
  lemma FirstSeenHas(ms: seq<Match>, key: Match -> string, j: nat)
    requires j < |ms|
    ensures key(ms[j]) in FirstSeen(ms, key)
  {
    FirstSeenFacts(ms, key);
    GroupOfEmpty(ms, key, key(ms[j]));
  }

  /** What the counting loop keeps per key: wins, losses and the positive
      stored streaks of the won games, in order. */
  datatype Tally = Tally(wins: nat, losses: nat, streaks: seq<int>)

  const NoGames := Tally(0, 0, [])

  /** One step of the counting loop for one game. */
  function Count(t: Tally, m: Match): Tally
  {
    if IsWin(m) then
      Tally(t.wins + 1, t.losses, if m.winStreak > 0 then t.streaks + [m.winStreak] else t.streaks)
    else
      Tally(t.wins, t.losses + 1, t.streaks)
  }

  /** A won game whose stored streak is positive contributes to the average streak. */
  predicate CountsStreak(m: Match)
  {
    IsWin(m) && m.winStreak > 0
  }

  /** The tally of a group of games: its wins and losses, and the stored
      streaks of exactly its won games with a positive streak, in order. */
  function TallyOf(g: seq<Match>): (t: Tally)
    ensures t.wins == Wins(g) && t.wins + t.losses == |g|
    ensures |t.streaks| == |Filter(g, CountsStreak)|
  {
    if g == [] then NoGames else Count(TallyOf(g[..|g| - 1]), g[|g| - 1])
  }

  /** The stored streaks of a tally are those of the group's won games with
      a positive streak, in order. */
  lemma {:induction false} TallyStreaks(g: seq<Match>)
    ensures forall i :: 0 <= i < |TallyOf(g).streaks| ==>
              TallyOf(g).streaks[i] == Filter(g, CountsStreak)[i].winStreak > 0
  {
    if g != [] {
      TallyStreaks(g[..|g| - 1]);
    }
  }

  lemma TallyOfAppend(g: seq<Match>, m: Match)
    ensures TallyOf(g + [m]) == Count(TallyOf(g), m)
  {
    assert (g + [m])[..|g|] == g;
  }

  /** The tally of key `k` after the game `m` is added to the games `ms`. */
  function TallyNext(ms: seq<Match>, m: Match, key: Match -> string, k: string): Tally
  {
    if key(m) != k then TallyOf(GroupOf(ms, key, k))
    else if k in FirstSeen(ms, key) then Count(TallyOf(GroupOf(ms, key, k)), m)
    else Count(NoGames, m)
  }

  /** One game more changes only the tally of its own key; a new key starts
      from no games. */
  lemma TallyAt(ms: seq<Match>, m: Match, key: Match -> string, k: string)
    ensures TallyOf(GroupOf(ms + [m], key, k)) == TallyNext(ms, m, key, k)
  {
    GroupOfAppend(ms, m, key, k);
    var g := GroupOf(ms, key, k);
    if key(m) == k {
      assert GroupOf(ms + [m], key, k) == g + [m];
      TallyOfAppend(g, m);
      if k !in FirstSeen(ms, key) {
        FirstSeenFacts(ms, key);
        assert g == [];
      }
    } else {
      assert GroupOf(ms + [m], key, k) == g;
    }
  }

  /** The `forEach` that fills the `Map`: its keys in insertion order, and
      for every key the tally of exactly the games with that key. */
  method TallyBy(ms: seq<Match>, key: Match -> string) returns (order: seq<string>, tallies: map<string, Tally>)
    ensures order == FirstSeen(ms, key)
    ensures forall k :: k in tallies <==> k in FirstSeen(ms, key)
    ensures forall k :: k in tallies ==> tallies[k] == TallyOf(GroupOf(ms, key, k))
  {
    order, tallies := [], map[];
    var i := 0;
    while i < |ms|
      invariant 0 <= i <= |ms|
      invariant order == FirstSeen(ms[..i], key)
      invariant forall k :: k in tallies <==> k in FirstSeen(ms[..i], key)
      invariant forall k :: k in tallies ==> tallies[k] == TallyOf(GroupOf(ms[..i], key, k))
    {
      ghost var before := tallies;
      order, tallies := CountGame(order, tallies, ms[i], key);
      TallyStep(ms, i, key, before, tallies);
      i := i + 1;
    }
    assert ms[..|ms|] == ms;
  }

  /** The body of the `forEach`: a new key is inserted with no games, then
      the game is counted under its key. */
  method CountGame(order: seq<string>, tallies: map<string, Tally>, m: Match, key: Match -> string)
    returns (order': seq<string>, tallies': map<string, Tally>)
    ensures order' == if key(m) in tallies then order else order + [key(m)]
    ensures tallies' == tallies[key(m) := Count(if key(m) in tallies then tallies[key(m)] else NoGames, m)]
  {
    var k := key(m);
    order', tallies' := order, tallies;
    if k !in tallies' {
      order' := order' + [k];
      tallies' := tallies'[k := NoGames];
    }
    tallies' := tallies'[k := Count(tallies'[k], m)];
  }

  /** The loop step of `TallyBy` for the game at index `i`. */
  lemma TallyStep(ms: seq<Match>, i: nat, key: Match -> string, before: map<string, Tally>, after: map<string, Tally>)
    requires i < |ms|
    requires forall k :: k in before <==> k in FirstSeen(ms[..i], key)
    requires forall k :: k in before ==> before[k] == TallyOf(GroupOf(ms[..i], key, k))
    requires after == before[key(ms[i]) := Count(if key(ms[i]) in before then before[key(ms[i])] else NoGames, ms[i])]
    ensures FirstSeen(ms[..i + 1], key)
         == if key(ms[i]) in before then FirstSeen(ms[..i], key) else FirstSeen(ms[..i], key) + [key(ms[i])]
    ensures forall k :: k in after <==> k in FirstSeen(ms[..i + 1], key)
    ensures forall k :: k in after ==> after[k] == TallyOf(GroupOf(ms[..i + 1], key, k))
  {
    var p, m := ms[..i], ms[i];
    assert ms[..i + 1] == p + [m];
    FirstSeenAppend(p, m, key);
    forall k' | k' in after
      ensures after[k'] == TallyOf(GroupOf(p + [m], key, k'))
    {
      TallyAt(p, m, key, k');
    }
  }

  /** The tally of key `k`, counted directly from the games. */
  function TallyFor(ms: seq<Match>, key: Match -> string, k: string): Tally
  {
    TallyOf(GroupOf(ms, key, k))
  }

  /** One row per listed key, built from that key's tally. */
  function KeyRows<R>(ms: seq<Match>, key: Match -> string, ks: seq<string>, row: (string, Tally) -> R): (rows: seq<R>)
    ensures |rows| == |ks|
  {
    seq(|ks|, j requires 0 <= j < |ks| => row(ks[j], TallyFor(ms, key, ks[j])))
  }

  /** The rows for a key list are the rows for all but its last key, then
      the row of the last key. */
  lemma KeyRowsSnoc<R>(ms: seq<Match>, key: Match -> string, ks: seq<string>, row: (string, Tally) -> R)
    requires ks != []
    ensures var rows := KeyRows(ms, key, ks, row);
            && rows[..|rows| - 1] == KeyRows(ms, key, ks[..|ks| - 1], row)
            && rows[|rows| - 1] == row(ks[|ks| - 1], TallyFor(ms, key, ks[|ks| - 1]))
  {
    var rows := KeyRows(ms, key, ks, row);
    var front := KeyRows(ms, key, ks[..|ks| - 1], row);
    assert |rows[..|rows| - 1]| == |front|;
    forall j | 0 <= j < |front| ensures rows[j] == front[j] {
      assert ks[j] == ks[..|ks| - 1][j];
    }
  }

  /** Rows built by `row2` are the rows built by `row1`, mapped by `f`,
      when `row2` is `row1` followed by `f`. */
  lemma KeyRowsMap<R, S>(ms: seq<Match>, key: Match -> string, ks: seq<string>,
                         row1: (string, Tally) -> R, row2: (string, Tally) -> S, f: R -> S)
    requires forall k, t :: row2(k, t) == f(row1(k, t))
    ensures KeyRows(ms, key, ks, row2) == Map(KeyRows(ms, key, ks, row1), f)
  {
    var a, b := KeyRows(ms, key, ks, row2), Map(KeyRows(ms, key, ks, row1), f);
    forall j | 0 <= j < |ks|
      ensures a[j] == b[j]
    {
      var t := TallyFor(ms, key, ks[j]);
      assert KeyRows(ms, key, ks, row1)[j] == row1(ks[j], t);
      assert a[j] == row2(ks[j], t) == f(row1(ks[j], t));
    }
  }

  /** `Array.from(map.entries()).map(row)` after the counting loop: one row
      per key, in first-seen order. */
  function RowsOf<R>(ms: seq<Match>, key: Match -> string, row: (string, Tally) -> R): seq<R>
  {
    KeyRows(ms, key, FirstSeen(ms, key), row)
  }

  lemma RowsOfAt<R>(ms: seq<Match>, key: Match -> string, row: (string, Tally) -> R, j: nat)
    requires j < |FirstSeen(ms, key)|
    ensures |RowsOf(ms, key, row)| == |FirstSeen(ms, key)|
    ensures RowsOf(ms, key, row)[j] == row(FirstSeen(ms, key)[j], TallyOf(GroupOf(ms, key, FirstSeen(ms, key)[j])))
  {
    var f := FirstSeen(ms, key);
    var rows := KeyRows(ms, key, f, row);
    assert rows[j] == row(f[j], TallyFor(ms, key, f[j]));
  }

  /** The projection the source applies to the loop's result. */
  function Rows<R>(order: seq<string>, tallies: map<string, Tally>, row: (string, Tally) -> R): (rows: seq<R>)
    requires forall k :: k in order ==> k in tallies
    ensures |rows| == |order|
  {
    seq(|order|, j requires 0 <= j < |order| => row(order[j], tallies[order[j]]))
  }

  /** What `TallyBy` returns, projected row by row, is `RowsOf`. */
  lemma RowsAgree<R>(ms: seq<Match>, key: Match -> string, order: seq<string>, tallies: map<string, Tally>, row: (string, Tally) -> R)
    requires order == FirstSeen(ms, key)
    requires forall k :: k in tallies <==> k in FirstSeen(ms, key)
    requires forall k :: k in tallies ==> tallies[k] == TallyOf(GroupOf(ms, key, k))
    ensures forall k :: k in order ==> k in tallies
    ensures Rows(order, tallies, row) == RowsOf(ms, key, row)
  {
    var a, b := Rows(order, tallies, row), RowsOf(ms, key, row);
    forall j | 0 <= j < |order|
      ensures a[j] == b[j]
    {
      assert order[j] in FirstSeen(ms, key);
      assert tallies[order[j]] == TallyFor(ms, key, order[j]);
    }
  }

  /** Total number of games over the listed keys. */
  function GroupSizes(ks: seq<string>, ms: seq<Match>, key: Match -> string): int
  {
    if ks == [] then 0 else GroupSizes(ks[..|ks| - 1], ms, key) + |GroupOf(ms, key, ks[|ks| - 1])|
  }

  /** Rows whose size is their tally's games add up to the group sizes. */
  lemma {:induction false} KeyRowsSum<R>(ms: seq<Match>, key: Match -> string, ks: seq<string>,
                                         row: (string, Tally) -> R, size: R -> int)
    requires forall k, t :: size(row(k, t)) == t.wins + t.losses
    ensures SumBy(KeyRows(ms, key, ks, row), size) == GroupSizes(ks, ms, key)
  {
    if ks != [] {
      var q, x := ks[..|ks| - 1], ks[|ks| - 1];
      KeyRowsSum(ms, key, q, row, size);
      KeyRowsSnoc(ms, key, ks, row);
      var t := TallyFor(ms, key, x);
      assert size(row(x, t)) == |GroupOf(ms, key, x)|;
    }
  }

  lemma {:induction false} GroupSizesAppend(ks: seq<string>, ms: seq<Match>, m: Match, key: Match -> string)
    requires forall i, j :: 0 <= i < j < |ks| ==> ks[i] != ks[j]
    ensures GroupSizes(ks, ms + [m], key) == GroupSizes(ks, ms, key) + (if key(m) in ks then 1 else 0)
  {
    if ks != [] {
      var q, x := ks[..|ks| - 1], ks[|ks| - 1];
      GroupSizesAppend(q, ms, m, key);
      GroupOfAppend(ms, m, key, x);
      assert ks == q + [x];
      assert key(m) in ks <==> key(m) in q || key(m) == x;
      if key(m) in q {
        var i :| 0 <= i < |q| && q[i] == key(m);
        assert ks[i] == q[i];
      }
    }
  }

  /** Every game belongs to exactly one key's group. */
  lemma {:induction false} GroupSizesAll(ms: seq<Match>, key: Match -> string)
    ensures GroupSizes(FirstSeen(ms, key), ms, key) == |ms|
  {
    if ms != [] {
      var p, m := ms[..|ms| - 1], ms[|ms| - 1];
      assert ms == p + [m];
      GroupSizesAll(p, key);
      FirstSeenAppend(p, m, key);
      FirstSeenFacts(p, key);
      var f := FirstSeen(p, key);
      GroupSizesAppend(f, p, m, key);
      if key(m) !in f {
        var f' := f + [key(m)];
        assert f'[..|f'| - 1] == f;
        GroupOfAppend(p, m, key, key(m));
        assert GroupOf(p, key, key(m)) == [];
      }
    }
  }
}
