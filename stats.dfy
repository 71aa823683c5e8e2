/** The per-deck statistics of utils/stats-utils.ts: `getDeckStats`,
    `getBestDeck`, `getMostPlayedDeck` and `getMatchupStats`. Each one runs
    the counting loop `TallyBy`, projects one row per key in first-seen order
    and then sorts and filters those rows. `SortBy` is a stable sort, as
    `Array.prototype.sort` is, so rows with equal sort keys keep the order in
    which their keys first appeared. */
module Stats {
  import opened Sequences
  import opened Matches
  import opened Grouping
  import opened Text

  /** One entry of `getDeckStats`. */
  datatype DeckStats = DeckStats(deck: string, wins: nat, losses: nat, total: nat, winRate: real, avgWinStreak: real)

  /** `xs.reduce((a, b) => a + b, 0) / xs.length`, and 0 for no entries. */
  function Mean(xs: seq<int>): real
  {
    if |xs| > 0 then SumBy(xs, Identity) as real / |xs| as real else 0.0
  }

  /** The entry `getDeckStats` builds from one `Map` entry. */
  function DeckRow(deck: string, t: Tally): DeckStats
  {
    var total := t.wins + t.losses;
    DeckStats(deck, t.wins, t.losses, total, WinRate(t.wins, total), Mean(t.streaks))
  }

  function DeckName(d: DeckStats): string
  {
    d.deck
  }

  function TotalOf(d: DeckStats): int
  {
    d.total
  }

  /** Sorting ascending by `-winRate` is `sort((a, b) => b.winRate - a.winRate)`. */
  function NegRate(d: DeckStats): real
  {
    -d.winRate
  }

  /** The number of games played with a deck. */
  function Plays(ms: seq<Match>, deck: string): nat
  {
    |GroupOf(ms, DeckOf, deck)|
  }

  /** The win rate of a deck over all its games. */
  function RateOf(ms: seq<Match>, deck: string): real
  {
    var g := GroupOf(ms, DeckOf, deck);
    WinRate(Wins(g), |g|)
  }

  /** The entries of `getDeckStats` before sorting: one per deck, in the
      order of each deck's first game. */
  function DeckRowsOf(ms: seq<Match>): seq<DeckStats>
  {
    RowsOf(ms, DeckOf, DeckRow)
  }

  /** The result of `getDeckStats`. */
  function DeckStatsOf(ms: seq<Match>): seq<DeckStats>
  {
    SortBy(DeckRowsOf(ms), NegRate)
  }

  /** `getDeckStats`. */
  method GetDeckStats(ms: seq<Match>) returns (r: seq<DeckStats>)
    ensures r == DeckStatsOf(ms)
  {
    var order, tallies := TallyBy(ms, DeckOf);
    RowsAgree(ms, DeckOf, order, tallies, DeckRow);
    r := SortBy(Rows(order, tallies, DeckRow), NegRate);
  }

  /** `d` summarises exactly the games played with its deck: there is at
      least one, `total` counts them, `wins` counts the won ones, `losses`
      the rest, `winRate` is the percentage won and `avgWinStreak` the mean
      of the positive stored streaks of the won games. */
  ghost predicate Describes(ms: seq<Match>, d: DeckStats)
  {
    var g := GroupOf(ms, DeckOf, d.deck);
    && g != []
    && d.total == |g|
    && d.wins == Wins(g)
    && d.losses == |g| - Wins(g)
    && d.winRate == RateOf(ms, d.deck)
    && d.avgWinStreak == Mean(TallyOf(g).streaks)
  }

  /** The unsorted rows describe the first-seen decks, one each. */
  lemma DeckRowsDescribe(ms: seq<Match>)
    ensures |DeckRowsOf(ms)| == |FirstSeen(ms, DeckOf)|
    ensures forall j :: 0 <= j < |DeckRowsOf(ms)| ==>
              DeckRowsOf(ms)[j].deck == FirstSeen(ms, DeckOf)[j] && Describes(ms, DeckRowsOf(ms)[j])
  {
    var rows, f := DeckRowsOf(ms), FirstSeen(ms, DeckOf);
    FirstSeenFacts(ms, DeckOf);
    forall j | 0 <= j < |rows|
      ensures rows[j].deck == f[j] && Describes(ms, rows[j])
    {
      RowsOfAt(ms, DeckOf, DeckRow, j);
      assert f[j] in f;
      DeckRowDescribes(ms, f[j]);
    }
  }

  lemma DeckRowDescribes(ms: seq<Match>, k: string)
    requires GroupOf(ms, DeckOf, k) != []
    ensures Describes(ms, DeckRow(k, TallyOf(GroupOf(ms, DeckOf, k))))
  {
  }

  /** Every entry of `getDeckStats` summarises its deck's games, with
      `wins + losses == total`; the rate is 0 exactly when the deck never won
      and 100 exactly when it never lost. */
  lemma DeckStatsDescribe(ms: seq<Match>)
    ensures forall i :: 0 <= i < |DeckStatsOf(ms)| ==> Describes(ms, DeckStatsOf(ms)[i])
    ensures forall i :: 0 <= i < |DeckStatsOf(ms)| ==>
              var d := DeckStatsOf(ms)[i];
              && d.wins + d.losses == d.total > 0
              && (d.winRate == 0.0 <==> d.wins == 0)
              && (d.winRate == 100.0 <==> d.losses == 0)
  {
    DeckRowsDescribe(ms);
    SortByAll(DeckRowsOf(ms), NegRate, d => Describes(ms, d));
    forall i | 0 <= i < |DeckStatsOf(ms)|
      ensures var d := DeckStatsOf(ms)[i];
              && d.wins + d.losses == d.total > 0
              && (d.winRate == 0.0 <==> d.wins == 0)
              && (d.winRate == 100.0 <==> d.losses == 0)
    {
      var d := DeckStatsOf(ms)[i];
      var g := GroupOf(ms, DeckOf, d.deck);
      assert d.winRate == WinRate(Wins(g), |g|);
    }
  }

  /** Every deck that was played has an entry. */
  lemma DeckStatsCover(ms: seq<Match>)
    ensures forall j :: 0 <= j < |ms| ==>
              exists i :: 0 <= i < |DeckStatsOf(ms)| && DeckStatsOf(ms)[i].deck == ms[j].yourDeck
  {
    var r := DeckStatsOf(ms);
    forall j | 0 <= j < |ms|
      ensures exists i :: 0 <= i < |r| && r[i].deck == ms[j].yourDeck
    {
      var i := DeckEntry(ms, j);
      assert 0 <= i < |r| && r[i].deck == ms[j].yourDeck;
    }
  }

  lemma DeckEntry(ms: seq<Match>, j: nat) returns (i: nat)
    requires j < |ms|
    ensures i < |DeckStatsOf(ms)| && DeckStatsOf(ms)[i].deck == ms[j].yourDeck
  {
    var f := FirstSeen(ms, DeckOf);
    DeckRowsDescribe(ms);
    FirstSeenHas(ms, DeckOf, j);
    var a :| 0 <= a < |f| && f[a] == ms[j].yourDeck;
    i := SortByHas(DeckRowsOf(ms), NegRate, a);
  }

  /** No deck has two entries. */
  lemma DeckStatsDistinct(ms: seq<Match>)
    ensures forall i, j :: 0 <= i < j < |DeckStatsOf(ms)| ==> DeckStatsOf(ms)[i].deck != DeckStatsOf(ms)[j].deck
  {
    DeckRowsDescribe(ms);
    FirstSeenFacts(ms, DeckOf);
    assert DistinctBy(DeckRowsOf(ms), DeckName);
    SortByDistinct(DeckRowsOf(ms), NegRate, DeckName);
  }

  /** The entries run from the highest win rate to the lowest. */
  lemma DeckStatsOrdered(ms: seq<Match>)
    ensures forall i, j :: 0 <= i < j < |DeckStatsOf(ms)| ==> DeckStatsOf(ms)[j].winRate <= DeckStatsOf(ms)[i].winRate
  {
    SortBySorted(DeckRowsOf(ms), NegRate);
    var r := DeckStatsOf(ms);
    forall i, j | 0 <= i < j < |r|
      ensures r[j].winRate <= r[i].winRate
    {
      assert NegRate(r[i]) <= NegRate(r[j]);
    }
  }

  /** Decks with the same win rate keep the order of their first games. */
  lemma DeckStatsStable(ms: seq<Match>, rate: real)
    ensures KeyClass(DeckStatsOf(ms), NegRate, -rate) == KeyClass(DeckRowsOf(ms), NegRate, -rate)
  {
    SortByStable(DeckRowsOf(ms), NegRate, -rate);
  }

  lemma DeckRowsTotal(ms: seq<Match>, ks: seq<string>)
    ensures SumBy(KeyRows(ms, DeckOf, ks, DeckRow), TotalOf) == GroupSizes(ks, ms, DeckOf)
  {
    forall k, t
      ensures TotalOf(DeckRow(k, t)) == t.wins + t.losses
    {
    }
    KeyRowsSum(ms, DeckOf, ks, DeckRow, TotalOf);
  }

  /** The totals add up to the number of games. */
  lemma DeckStatsTotal(ms: seq<Match>)
    ensures SumBy(DeckStatsOf(ms), TotalOf) == |ms|
  {
    SortBySum(DeckRowsOf(ms), NegRate, TotalOf);
    DeckRowsTotal(ms, FirstSeen(ms, DeckOf));
    GroupSizesAll(ms, DeckOf);
  }

  /** The filter `d.total >= minGames`. */
  function Qualifies(minGames: nat): DeckStats -> bool
  {
    (d: DeckStats) => d.total >= minGames
  }

  /** `getBestDeck` requires this many games of a deck. */
  const BestDeckMinGames: nat := 10

  /** Sort by win rate, keep the decks with enough games, take the first. */
  function BestDeckOf(ms: seq<Match>, minGames: nat): Option<DeckStats>
  {
    Head(Filter(DeckStatsOf(ms), Qualifies(minGames)))
  }

  /** `getBestDeck`. */
  method GetBestDeck(ms: seq<Match>) returns (r: Option<DeckStats>)
    ensures r == BestDeckOf(ms, BestDeckMinGames)
  {
    var order, tallies := TallyBy(ms, DeckOf);
    RowsAgree(ms, DeckOf, order, tallies, DeckRow);
    r := Head(Filter(SortBy(Rows(order, tallies, DeckRow), NegRate), Qualifies(BestDeckMinGames)));
  }

  /** The decks with enough games, in first-seen order. */
  function QualifiedRows(ms: seq<Match>, minGames: nat): seq<DeckStats>
  {
    Filter(DeckRowsOf(ms), Qualifies(minGames))
  }

  /** Filtering after the sort picks what sorting the qualified decks picks. */
  lemma BestDeckSorted(ms: seq<Match>, minGames: nat)
    ensures BestDeckOf(ms, minGames) == Head(SortBy(QualifiedRows(ms, minGames), NegRate))
  {
    SortByFilter(DeckRowsOf(ms), NegRate, Qualifies(minGames));
  }

  lemma QualifiedDescribe(ms: seq<Match>, minGames: nat)
    ensures forall i :: 0 <= i < |QualifiedRows(ms, minGames)| ==>
              Describes(ms, QualifiedRows(ms, minGames)[i]) && QualifiedRows(ms, minGames)[i].total >= minGames
  {
    DeckRowsDescribe(ms);
    FilterAllSatisfy(DeckRowsOf(ms), Qualifies(minGames), d => Describes(ms, d));
    var q := QualifiedRows(ms, minGames);
    forall i | 0 <= i < |q|
      ensures q[i].total >= minGames
    {
      FilterMembers(DeckRowsOf(ms), Qualifies(minGames), q[i]);
    }
  }

  /** A deck that has enough games has a qualified row. */
  lemma QualifiedHas(ms: seq<Match>, minGames: nat, j: nat) returns (i: nat)
    requires j < |ms| && Plays(ms, ms[j].yourDeck) >= minGames
    ensures i < |QualifiedRows(ms, minGames)| && QualifiedRows(ms, minGames)[i].deck == ms[j].yourDeck
    ensures QualifiedRows(ms, minGames)[i].winRate == RateOf(ms, ms[j].yourDeck)
  {
    var rows := DeckRowsOf(ms);
    DeckRowsDescribe(ms);
    FirstSeenHas(ms, DeckOf, j);
    var a :| 0 <= a < |FirstSeen(ms, DeckOf)| && FirstSeen(ms, DeckOf)[a] == ms[j].yourDeck;
    FilterMembers(rows, Qualifies(minGames), rows[a]);
    var q := QualifiedRows(ms, minGames);
    i :| 0 <= i < |q| && q[i] == rows[a];
  }

  /** There is no best deck exactly when no deck has `minGames` games. */
  lemma BestDeckNone(ms: seq<Match>, minGames: nat)
    ensures BestDeckOf(ms, minGames).None? <==> forall j :: 0 <= j < |ms| ==> Plays(ms, ms[j].yourDeck) < minGames
  {
    BestDeckSorted(ms, minGames);
    var q := QualifiedRows(ms, minGames);
    if exists j :: 0 <= j < |ms| && Plays(ms, ms[j].yourDeck) >= minGames {
      var j :| 0 <= j < |ms| && Plays(ms, ms[j].yourDeck) >= minGames;
      var i := QualifiedHas(ms, minGames, j);
    }
    if q != [] {
      QualifiedDescribe(ms, minGames);
      var d := q[0].deck;
      GroupOfEmpty(ms, DeckOf, d);
      var j :| 0 <= j < |ms| && ms[j].yourDeck == d;
      assert Plays(ms, ms[j].yourDeck) >= minGames;
    }
  }

  /** The best deck has `minGames` games or more and a win rate no lower
      than that of any deck with `minGames` games or more; among decks with
      that top rate it is the one whose first game came first. */
  lemma BestDeckIsBest(ms: seq<Match>, minGames: nat)
    requires BestDeckOf(ms, minGames).Some?
    ensures var b := BestDeckOf(ms, minGames).value;
            && Describes(ms, b) && b.total >= minGames
            && (forall j :: 0 <= j < |ms| && Plays(ms, ms[j].yourDeck) >= minGames ==>
                  RateOf(ms, ms[j].yourDeck) <= b.winRate)
            && exists a :: 0 <= a < |QualifiedRows(ms, minGames)| && QualifiedRows(ms, minGames)[a] == b
                 && forall i :: 0 <= i < a ==> QualifiedRows(ms, minGames)[i].winRate < b.winRate
  {
    BestDeckSorted(ms, minGames);
    QualifiedDescribe(ms, minGames);
    var q := QualifiedRows(ms, minGames);
    var a := SortByHead(q, NegRate);
    var b := BestDeckOf(ms, minGames).value;
    assert b == q[a];
    forall j | 0 <= j < |ms| && Plays(ms, ms[j].yourDeck) >= minGames
      ensures RateOf(ms, ms[j].yourDeck) <= b.winRate
    {
      var i := QualifiedHas(ms, minGames, j);
      assert NegRate(q[a]) <= NegRate(q[i]);
    }
    forall i | 0 <= i < a
      ensures q[i].winRate < b.winRate
    {
      assert NegRate(q[a]) < NegRate(q[i]);
    }
  }

  /** What `getMostPlayedDeck` returns. */
  datatype DeckCount = DeckCount(deck: string, count: nat)

  function CountRow(deck: string, t: Tally): DeckCount
  {
    DeckCount(deck, t.wins + t.losses)
  }

  /** Sorting ascending by `-count` is `sort((a, b) => b[1] - a[1])`. */
  function NegCount(c: DeckCount): real
  {
    -(c.count as real)
  }

  /** The per-deck counts in first-seen order. */
  function CountRowsOf(ms: seq<Match>): seq<DeckCount>
  {
    RowsOf(ms, DeckOf, CountRow)
  }

  function MostPlayedOf(ms: seq<Match>): Option<DeckCount>
  {
    Head(SortBy(CountRowsOf(ms), NegCount))
  }

  /** `getMostPlayedDeck`. */
  method GetMostPlayedDeck(ms: seq<Match>) returns (r: Option<DeckCount>)
    ensures r == MostPlayedOf(ms)
  {
    var order, tallies := TallyBy(ms, DeckOf);
    RowsAgree(ms, DeckOf, order, tallies, CountRow);
    r := Head(SortBy(Rows(order, tallies, CountRow), NegCount));
  }

  /** The per-deck counts are the play counts of the first-seen decks. */
  lemma CountRowsFacts(ms: seq<Match>)
    ensures |CountRowsOf(ms)| == |FirstSeen(ms, DeckOf)|
    ensures forall j :: 0 <= j < |CountRowsOf(ms)| ==>
              CountRowsOf(ms)[j] == DeckCount(FirstSeen(ms, DeckOf)[j], Plays(ms, FirstSeen(ms, DeckOf)[j]))
  {
    var rows, f := CountRowsOf(ms), FirstSeen(ms, DeckOf);
    forall j | 0 <= j < |rows|
      ensures rows[j] == DeckCount(f[j], Plays(ms, f[j]))
    {
      RowsOfAt(ms, DeckOf, CountRow, j);
    }
  }

  /** There is a most-played deck exactly when there are games. */
  lemma MostPlayedNone(ms: seq<Match>)
    ensures MostPlayedOf(ms).None? <==> ms == []
  {
    CountRowsFacts(ms);
    if ms != [] {
      FirstSeenHas(ms, DeckOf, 0);
    }
  }

  /** The most-played deck was played `count` times, no deck was played
      more often, and every deck first seen before it was played fewer times. */
  lemma MostPlayedIsMost(ms: seq<Match>)
    requires MostPlayedOf(ms).Some?
    ensures var c := MostPlayedOf(ms).value;
            && c.count == Plays(ms, c.deck) >= 1
            && (forall j :: 0 <= j < |ms| ==> Plays(ms, ms[j].yourDeck) <= c.count)
            && exists a :: 0 <= a < |FirstSeen(ms, DeckOf)| && FirstSeen(ms, DeckOf)[a] == c.deck
                 && forall i :: 0 <= i < a ==> Plays(ms, FirstSeen(ms, DeckOf)[i]) < c.count
  {
    var f := FirstSeen(ms, DeckOf);
    var rows := CountRowsOf(ms);
    CountRowsFacts(ms);
    var a := SortByHead(rows, NegCount);
    var c := MostPlayedOf(ms).value;
    assert c == rows[a];
    FirstSeenFacts(ms, DeckOf);
    assert f[a] in f;
    forall j | 0 <= j < |ms|
      ensures Plays(ms, ms[j].yourDeck) <= c.count
    {
      FirstSeenHas(ms, DeckOf, j);
      var b :| 0 <= b < |f| && f[b] == ms[j].yourDeck;
      assert NegCount(rows[a]) <= NegCount(rows[b]);
    }
    forall i | 0 <= i < a
      ensures Plays(ms, f[i]) < c.count
    {
      assert NegCount(rows[a]) < NegCount(rows[i]);
    }
  }

  /** One entry of `getMatchupStats`. */
  datatype MatchupStats = MatchupStats(
    yourDeck: string, opponentDeck: string, wins: nat, losses: nat, total: nat, winRate: real)

  const Versus := " vs "

  /** The `Map` key of a game's matchup. */
  function MatchupKey(m: Match): string
  {
    m.yourDeck + Versus + m.opponentDeck
  }

  /** `const [yourDeck, opponentDeck] = key.split(" vs ")`; the second name
      is read as "" when the key has no separator, which no matchup key lacks. */
  function PairOf(key: string): (string, string)
  {
    var parts := Split(key, Versus);
    (parts[0], if |parts| > 1 then parts[1] else "")
  }

  function MatchupRow(key: string, t: Tally): MatchupStats
  {
    var total := t.wins + t.losses;
    MatchupStats(PairOf(key).0, PairOf(key).1, t.wins, t.losses, total, WinRate(t.wins, total))
  }

  /** `getMatchupStats` reports only matchups played at least this often. */
  const MatchupMinGames: nat := 3

  function Significant(s: MatchupStats): bool
  {
    s.total >= MatchupMinGames
  }

  function NegMatchupRate(s: MatchupStats): real
  {
    -s.winRate
  }

  function MatchupRowsOf(ms: seq<Match>): seq<MatchupStats>
  {
    RowsOf(ms, MatchupKey, MatchupRow)
  }

  /** The result of `getMatchupStats`: filter, then sort by win rate. */
  function MatchupStatsOf(ms: seq<Match>): seq<MatchupStats>
  {
    SortBy(Filter(MatchupRowsOf(ms), Significant), NegMatchupRate)
  }

  /** `getMatchupStats`. */
  method GetMatchupStats(ms: seq<Match>) returns (r: seq<MatchupStats>)
    ensures r == MatchupStatsOf(ms)
  {
    var order, tallies := TallyBy(ms, MatchupKey);
    RowsAgree(ms, MatchupKey, order, tallies, MatchupRow);
    r := SortBy(Filter(Rows(order, tallies, MatchupRow), Significant), NegMatchupRate);
  }

  /** `s` summarises the games whose matchup key is `k`. */
  ghost predicate Summarises(ms: seq<Match>, k: string, s: MatchupStats)
  {
    var g := GroupOf(ms, MatchupKey, k);
    && (s.yourDeck, s.opponentDeck) == PairOf(k)
    && s.total == |g| && s.wins == Wins(g) && s.losses == |g| - Wins(g)
    && s.winRate == WinRate(s.wins, s.total)
  }

  ghost predicate ReportedMatchup(ms: seq<Match>, s: MatchupStats)
  {
    s.total >= MatchupMinGames && exists k :: k in FirstSeen(ms, MatchupKey) && Summarises(ms, k, s)
  }

  /** The unsorted matchup rows summarise the first-seen matchup keys. */
  lemma MatchupRowsFacts(ms: seq<Match>)
    ensures |MatchupRowsOf(ms)| == |FirstSeen(ms, MatchupKey)|
    ensures forall j :: 0 <= j < |MatchupRowsOf(ms)| ==>
              Summarises(ms, FirstSeen(ms, MatchupKey)[j], MatchupRowsOf(ms)[j])
  {
    var rows, f := MatchupRowsOf(ms), FirstSeen(ms, MatchupKey);
    forall j | 0 <= j < |rows|
      ensures Summarises(ms, f[j], rows[j])
    {
      RowsOfAt(ms, MatchupKey, MatchupRow, j);
    }
  }

  /** Every reported matchup has at least three games and summarises the
      games of one matchup key. */
  lemma MatchupStatsDescribe(ms: seq<Match>)
    ensures forall i :: 0 <= i < |MatchupStatsOf(ms)| ==> ReportedMatchup(ms, MatchupStatsOf(ms)[i])
  {
    var rows := MatchupRowsOf(ms);
    var f := FirstSeen(ms, MatchupKey);
    MatchupRowsFacts(ms);
    forall j | 0 <= j < |rows| && Significant(rows[j])
      ensures ReportedMatchup(ms, rows[j])
    {
      assert f[j] in f;
    }
    var q := Filter(rows, Significant);
    forall i | 0 <= i < |q|
      ensures ReportedMatchup(ms, q[i])
    {
      FilterMembers(rows, Significant, q[i]);
    }
    SortByAll(q, NegMatchupRate, s => ReportedMatchup(ms, s));
  }

  /** Every matchup key with at least three games is reported. */
  lemma MatchupStatsComplete(ms: seq<Match>)
    ensures forall j :: 0 <= j < |ms| && |GroupOf(ms, MatchupKey, MatchupKey(ms[j]))| >= MatchupMinGames ==>
              exists i :: 0 <= i < |MatchupStatsOf(ms)| && Summarises(ms, MatchupKey(ms[j]), MatchupStatsOf(ms)[i])
  {
    forall j | 0 <= j < |ms| && |GroupOf(ms, MatchupKey, MatchupKey(ms[j]))| >= MatchupMinGames
      ensures exists i :: 0 <= i < |MatchupStatsOf(ms)| && Summarises(ms, MatchupKey(ms[j]), MatchupStatsOf(ms)[i])
    {
      var i := MatchupEntry(ms, j);
    }
  }

  lemma MatchupEntry(ms: seq<Match>, j: nat) returns (i: nat)
    requires j < |ms| && |GroupOf(ms, MatchupKey, MatchupKey(ms[j]))| >= MatchupMinGames
    ensures i < |MatchupStatsOf(ms)| && Summarises(ms, MatchupKey(ms[j]), MatchupStatsOf(ms)[i])
  {
    var rows := MatchupRowsOf(ms);
    var f := FirstSeen(ms, MatchupKey);
    MatchupRowsFacts(ms);
    FirstSeenHas(ms, MatchupKey, j);
    var a :| 0 <= a < |f| && f[a] == MatchupKey(ms[j]);
    FilterMembers(rows, Significant, rows[a]);
    var q := Filter(rows, Significant);
    var b :| 0 <= b < |q| && q[b] == rows[a];
    i := SortByHas(q, NegMatchupRate, b);
  }

  /** The reported matchups run from the highest win rate to the lowest. */
  lemma MatchupStatsOrdered(ms: seq<Match>)
    ensures forall i, j :: 0 <= i < j < |MatchupStatsOf(ms)| ==>
              MatchupStatsOf(ms)[j].winRate <= MatchupStatsOf(ms)[i].winRate
  {
    var q := Filter(MatchupRowsOf(ms), Significant);
    SortBySorted(q, NegMatchupRate);
    var r := MatchupStatsOf(ms);
    forall i, j | 0 <= i < j < |r|
      ensures r[j].winRate <= r[i].winRate
    {
      assert NegMatchupRate(r[i]) <= NegMatchupRate(r[j]);
    }
  }

  /** A matchup key splits back into the two names when the separator's
      first occurrence is the one the key put there and the opponent's name
      has none. */
  lemma PairOfKey(a: string, b: string)
    requires forall j :: 0 <= j < |a| ==> !OccursAt(a + Versus + b, Versus, j)
    requires forall j :: 0 <= j <= |b| ==> !OccursAt(b, Versus, j)
    ensures PairOf(a + Versus + b) == (a, b)
  {
    SplitFirst(a, Versus, b);
    SplitNone(b, Versus);
  }

  lemma OpponentUnsplit()
    ensures Split("vs B", Versus) == ["vs B"]
  {
    forall j | 0 <= j <= 4
      ensures !OccursAt("vs B", Versus, j)
    {
      if j == 0 {
        assert "vs B"[0] != Versus[0];
      }
    }
    SplitNone("vs B", Versus);
  }

  /** A first name ending in " vs" is cut short: the key's first separator
      then starts inside that name, so the first part is the name without
      its " vs". */
  lemma MisreadSplit(p: string, b: string)
    requires forall j :: 0 <= j < |p| ==> !OccursAt(p + " vs" + Versus + b, Versus, j)
    ensures Split(p + " vs" + Versus + b, Versus)[0] == p
  {
    assert p + " vs" + Versus + b == p + Versus + ("vs " + b);
    SplitFirst(p, Versus, "vs " + b);
  }

  /** A game played with a deck named `p + " vs"` (and no separator
      earlier in its key) is reported under the deck name `p`. */
  lemma PairOfMisreads(m: Match, p: string)
    requires m.yourDeck == p + " vs"
    requires forall j :: 0 <= j < |p| ==> !OccursAt(MatchupKey(m), Versus, j)
    ensures PairOf(MatchupKey(m)).0 == p != m.yourDeck
  {
    assert MatchupKey(m) == p + " vs" + Versus + m.opponentDeck;
    MisreadSplit(p, m.opponentDeck);
  }

  /** For example, "q vs" against "B" is read back as "q" against "vs B". */
  lemma MisreadExample()
    ensures PairOf(MatchupKey(Match("q vs", "B", "first", "win", 0, 0, 0, ""))) == ("q", "vs B")
  {
    var s := MatchupKey(Match("q vs", "B", "first", "win", 0, 0, 0, ""));
    assert s == "q" + Versus + "vs B";
    assert s[0] != Versus[0];
    assert !OccursAt(s, Versus, 0);
    SplitFirst("q", Versus, "vs B");
    OpponentUnsplit();
  }

  /** Two different matchups can share one key, and are then counted together. */
  lemma MatchupKeysCollide()
    ensures MatchupKey(Match("A vs B", "C", "first", "win", 0, 0, 0, ""))
         == MatchupKey(Match("A", "B vs C", "first", "win", 0, 0, 0, ""))
  {
  }
}
