/** The text report of components/report-generator.tsx: the current streak,
    the all-time summary, the report's own most-played and best-deck picks,
    the numbered game lines and the report assembled from them. Dates and
    the two decimal renderings of rates (`toFixed(1)`, and the number that
    `parseFloat` makes of it) come in as parameters. */
module Report {
  import opened Sequences
  import opened Matches
  import opened Text
  import opened Grouping
  import opened Stats

  /** The privacy and content switches of the report. */
  datatype ReportOptions = ReportOptions(
    hideDeckNames: bool, deckAlias: string, hideOpponentNames: bool, showAllTimeStats: bool)

  const DefaultOptions := ReportOptions(false, "내 덱", false, true)

  /** `getCurrentStreak`: counts the wins at the end of today's games with a
      backward loop that stops at the first game that is not a win. */
  method GetCurrentStreak(today: seq<Match>) returns (streak: nat)
    ensures streak == TrailingWins(today)
    ensures today == [] || !IsWin(today[|today| - 1]) ==> streak == 0
  {
    if |today| == 0 {
      return 0;
    }
    streak := 0;
    var i := |today| - 1;
    while i >= 0
      invariant -1 <= i < |today|
      invariant streak == |today| - 1 - i
      invariant forall j :: i < j < |today| ==> IsWin(today[j])
      decreases i + 1
    {
      if IsWin(today[i]) {
        streak := streak + 1;
      } else {
        break;
      }
      i := i - 1;
    }
    TrailingWinsExact(today, streak);
  }

  /** What `getAllTimeStats` returns for a non-empty history. */
  datatype AllTimeStats = AllTimeStats(totalGames: nat, wins: nat, losses: int, winRate: real, maxStreak: int)

  function WinStreaks(ms: seq<Match>): seq<int>
  {
    seq(|ms|, i requires 0 <= i < |ms| => ms[i].winStreak)
  }

  /** `getAllTimeStats`: nothing for an empty history; otherwise the games,
      wins, the rest as losses, the rate, and the largest stored streak,
      with 0 as the floor `Math.max(..., 0)` adds. */
  function AllTimeStatsOf(ms: seq<Match>): (r: Option<AllTimeStats>)
    ensures r.None? <==> ms == []
    ensures r.Some? ==> r.value.totalGames == |ms| && r.value.wins == Wins(ms)
                        && 0 <= r.value.losses && r.value.wins + r.value.losses == r.value.totalGames
                        && r.value.winRate * (|ms| as real) == 100.0 * (Wins(ms) as real)
    ensures r.Some? ==> 0 <= r.value.maxStreak
                        && (forall i :: 0 <= i < |ms| ==> ms[i].winStreak <= r.value.maxStreak)
                        && (r.value.maxStreak == 0 || exists i :: 0 <= i < |ms| && ms[i].winStreak == r.value.maxStreak)
  {
    if ms == [] then None
    else
      var wins := Wins(ms);
      var streaks := WinStreaks(ms);
      var top := MaxOf(streaks);
      assert forall i :: 0 <= i < |ms| ==> ms[i].winStreak == streaks[i];
      WinRateScaled(wins, |ms|);
      Some(AllTimeStats(|ms|, wins, |ms| - wins, WinRate(wins, |ms|), top))
  }

  /** A row of the report's own best-deck pick: deck, games and rate. */
  datatype DeckRate = DeckRate(deck: string, total: nat, winRate: real)

  function RateRow(deck: string, t: Tally): DeckRate
  {
    DeckRate(deck, t.wins + t.losses, WinRate(t.wins, t.wins + t.losses))
  }

  function Brief(d: DeckStats): DeckRate
  {
    DeckRate(d.deck, d.total, d.winRate)
  }

  /** The report's best deck needs this many games. */
  const ReportMinGames := 3

  predicate Enough(d: DeckRate)
  {
    d.total >= ReportMinGames
  }

  function NegBriefRate(d: DeckRate): real
  {
    -d.winRate
  }

  function RateRowsOf(ms: seq<Match>): seq<DeckRate>
  {
    RowsOf(ms, DeckOf, RateRow)
  }

  /** The inline `bestDeck`: rows in first-seen order, those with enough
      games, sorted by falling rate (stable), and the first of them. */
  function ReportBestDeckOf(ms: seq<Match>): Option<DeckRate>
  {
    Head(SortBy(Filter(RateRowsOf(ms), Enough), NegBriefRate))
  }

  method ReportBestDeck(ms: seq<Match>) returns (r: Option<DeckRate>)
    ensures r == ReportBestDeckOf(ms)
  {
    var order, tallies := TallyBy(ms, DeckOf);
    RowsAgree(ms, DeckOf, order, tallies, RateRow);
    r := Head(SortBy(Filter(Rows(order, tallies, RateRow), Enough), NegBriefRate));
  }

  lemma RateRowsBrief(ms: seq<Match>)
    ensures RateRowsOf(ms) == Map(DeckRowsOf(ms), Brief)
  {
    forall k, t
      ensures RateRow(k, t) == Brief(DeckRow(k, t))
    {
    }
    KeyRowsMap(ms, DeckOf, FirstSeen(ms, DeckOf), DeckRow, RateRow, Brief);
  }

  /** The report's pick is `getBestDeck`'s pick with a threshold of 3,
      reduced to deck, games and rate, although one sorts before filtering
      and the other filters before sorting. */
  lemma ReportBestDeckAgrees(ms: seq<Match>)
    ensures ReportBestDeckOf(ms) == match BestDeckOf(ms, ReportMinGames)
                                      case None => None
                                      case Some(d) => Some(Brief(d))
  {
    var rows := DeckRowsOf(ms);
    var q := Qualifies(ReportMinGames);
    RateRowsBrief(ms);
    FilterMap(rows, Brief, Enough, q);
    SortByMap(Filter(rows, q), Brief, NegBriefRate, NegRate);
    SortByFilter(rows, NegRate, q);
    var sorted := SortBy(Filter(rows, q), NegRate);
    assert Filter(SortBy(rows, NegRate), q) == sorted;
    assert SortBy(Filter(RateRowsOf(ms), Enough), NegBriefRate) == Map(sorted, Brief);
  }

  /** The report names no best deck exactly when no deck has 3 games; the
      deck it names has at least 3, reports its games and rate truly, and
      no deck with 3 or more games has a higher rate. */
  lemma ReportBestDeckFacts(ms: seq<Match>)
    ensures ReportBestDeckOf(ms).None? <==> forall j :: 0 <= j < |ms| ==> Plays(ms, ms[j].yourDeck) < ReportMinGames
    ensures ReportBestDeckOf(ms).Some? ==>
              var b := ReportBestDeckOf(ms).value;
              && b.total == Plays(ms, b.deck) >= ReportMinGames
              && b.winRate == RateOf(ms, b.deck)
              && forall j :: 0 <= j < |ms| && Plays(ms, ms[j].yourDeck) >= ReportMinGames ==>
                   RateOf(ms, ms[j].yourDeck) <= b.winRate
  {
    ReportBestDeckAgrees(ms);
    BestDeckNone(ms, ReportMinGames);
    if BestDeckOf(ms, ReportMinGames).Some? {
      BestDeckIsBest(ms, ReportMinGames);
    }
  }

  /** The fixed report for a day without games when the all-time section
      is switched off. */
  const NoRecords := "게임 기록이 없습니다."
  /** The today section's text for no games, kept by an `else` branch. */
  const NothingYet := "아직 기록된 게임이 없습니다.\n"

  /** `"=".repeat(30)`. */
  const Rule := "==========" + "==========" + "=========="

  function PositionText(m: Match): string
  {
    if IsFirst(m) then "선공\U{1F680}" else "후공\U{1F6E1}\U{FE0F}"
  }

  function ResultText(m: Match): string
  {
    if IsWin(m) then "승리✅" else "패배❌"
  }

  function StreakText(m: Match): string
  {
    if m.winStreak > 1 then " (" + IntText(m.winStreak) + "연승!)" else ""
  }

  /** The deck shown for the player's side of a game. */
  function ShownDeck(m: Match, o: ReportOptions): string
  {
    if o.hideDeckNames then o.deckAlias else m.yourDeck
  }

  function ShownOpponent(m: Match, o: ReportOptions): string
  {
    if o.hideOpponentNames then "상대" else m.opponentDeck
  }

  /** The report line of game `i` (counted from 0) of the day. */
  function MatchLine(i: nat, m: Match, o: ReportOptions): string
  {
    NatText(i + 1) + ". " + ShownDeck(m, o) + " vs " + ShownOpponent(m, o)
    + " (" + PositionText(m) + ") → " + ResultText(m) + StreakText(m) + "\n"
  }

  /** `xs.forEach((x, i) => ...)` appending `line(i, x)` for each element. */
  function Numbered<T>(xs: seq<T>, line: (nat, T) -> string): seq<string>
  {
    if xs == [] then [] else Numbered(xs[..|xs| - 1], line) + [line(|xs| - 1, xs[|xs| - 1])]
  }

  lemma {:induction false} NumberedAt<T>(xs: seq<T>, line: (nat, T) -> string)
    ensures |Numbered(xs, line)| == |xs|
    ensures forall i :: 0 <= i < |xs| ==> Numbered(xs, line)[i] == line(i, xs[i])
  {
    if xs != [] {
      var x0 := xs[..|xs| - 1];
      NumberedAt(x0, line);
      assert forall i :: 0 <= i < |x0| ==> x0[i] == xs[i];
    }
  }

  lemma NumberedStep<T>(xs: seq<T>, i: nat, line: (nat, T) -> string)
    requires i < |xs|
    ensures Numbered(xs[..i + 1], line) == Numbered(xs[..i], line) + [line(i, xs[i])]
  {
    assert xs[..i + 1][..i] == xs[..i];
  }

  function LineOf(o: ReportOptions): (nat, Match) -> string
  {
    (i: nat, m: Match) => MatchLine(i, m, o)
  }

  /** The game lines, numbered from 1, in the day's order. */
  function GameLines(day: seq<Match>, o: ReportOptions): seq<string>
  {
    Numbered(day, LineOf(o))
  }

  /** There is one line per game, and line `i` is game `i`'s. */
  lemma GameLinesAt(day: seq<Match>, o: ReportOptions)
    ensures |GameLines(day, o)| == |day|
    ensures forall i :: 0 <= i < |day| ==> GameLines(day, o)[i] == MatchLine(i, day[i], o)
  {
    NumberedAt(day, LineOf(o));
    forall i | 0 <= i < |day|
      ensures GameLines(day, o)[i] == MatchLine(i, day[i], o)
    {
      assert LineOf(o)(i, day[i]) == MatchLine(i, day[i], o);
    }
  }

  /** A line is numbered `i + 1` and then names the shown deck: the alias
      when deck names are hidden. */
  lemma MatchLineStart(i: nat, m: Match, o: ReportOptions)
    ensures var n := NatText(i + 1) + ". ";
            var line := MatchLine(i, m, o);
            && |n| + |ShownDeck(m, o)| <= |line|
            && line[..|n| + |ShownDeck(m, o)|] == n + ShownDeck(m, o)
            && (o.hideDeckNames ==> line[|n|..|n| + |o.deckAlias|] == o.deckAlias)
  {
    var n := NatText(i + 1) + ". ";
    var rest := " vs " + ShownOpponent(m, o) + " (" + PositionText(m) + ") → " + ResultText(m) + StreakText(m) + "\n";
    assert MatchLine(i, m, o) == (n + ShownDeck(m, o)) + rest;
  }

  /** A line ends with a newline, and with `)` before it exactly when the
      game carries a streak above 1. */
  lemma MatchLineEnd(i: nat, m: Match, o: ReportOptions)
    ensures var line := MatchLine(i, m, o);
            && |line| >= 2 && line[|line| - 1] == '\n'
            && (line[|line| - 2] == ')' <==> m.winStreak > 1)
  {
    var head := NatText(i + 1) + ". " + ShownDeck(m, o) + " vs " + ShownOpponent(m, o) + " (" + PositionText(m) + ") → ";
    var r := ResultText(m);
    assert r[|r| - 1] != ')';
    assert MatchLine(i, m, o) == (head + r) + StreakText(m) + "\n";
  }

  /** Hidden names do not reach the line: with deck names hidden it is the
      same whatever the player's deck, with opponent names hidden the same
      whatever the opponent's deck; the note, time and hour never show. */
  lemma MatchLinePrivate(i: nat, m: Match, o: ReportOptions, other: Match)
    requires other.position == m.position && other.result == m.result && other.winStreak == m.winStreak
    requires o.hideDeckNames || other.yourDeck == m.yourDeck
    requires o.hideOpponentNames || other.opponentDeck == m.opponentDeck
    ensures MatchLine(i, other, o) == MatchLine(i, m, o)
  {
  }

  /** The all-time section, when there is history. */
  function AllTimeLines(all: seq<Match>, fixed1: real -> string, shown: real -> string): seq<string>
  {
    match AllTimeStatsOf(all)
    case None => []
    case Some(s) => AllTimeSection(s, MostPlayedOf(all), ReportBestDeckOf(all), fixed1, shown)
  }

  function AllTimeSection(s: AllTimeStats, most: Option<DeckCount>, best: Option<DeckRate>,
                          fixed1: real -> string, shown: real -> string): seq<string>
  {
      ["\U{1F4CA} 전체 통계 (누적)\n",
       "• 총 게임: " + NatText(s.totalGames) + "게임\n",
       "• 승리: " + NatText(s.wins) + "게임 | 패배: " + IntText(s.losses) + "게임\n",
       "• 승률: " + shown(s.winRate) + "%\n"]
      + (match most
         case None => []
         case Some(c) => ["• 최다 플레이 덱: " + c.deck + " (" + NatText(c.count) + "게임)\n"])
      + (match best
         case None => []
         case Some(b) => ["• 최고 승률 덱: " + b.deck + " (" + fixed1(b.winRate) + "%)\n"])
      + ["\n"]
  }

  /** The counts that open the today section of a day with games: games,
      wins and losses, the rate, the current streak when there is one. */
  function DaySummary(today: seq<Match>, fixed1: real -> string): seq<string>
  {
    var wins := Wins(today);
    var streak := TrailingWins(today);
    ["\U{1F3AF} 오늘의 전적\n",
     "• 총 게임: " + NatText(|today|) + "게임\n",
     "• 승리: " + NatText(wins) + "게임 | 패배: " + NatText(|today| - wins) + "게임\n",
     "• 승률: " + fixed1(WinRate(wins, |today|)) + "%\n"]
    + (if streak > 0 then ["• 현재 연승: " + NatText(streak) + "연승 ⚡\n"] else [])
    + ["\n", "\U{1F3C6} 게임 기록\n"]
  }

  /** The today section: the day's counts and the game lines; for no games,
      the "no games yet" lines only when the all-time section is off. */
  function TodayLines(today: seq<Match>, o: ReportOptions, fixed1: real -> string): seq<string>
  {
    if |today| > 0 then DaySummary(today, fixed1) + GameLines(today, o)
    else if !o.showAllTimeStats then ["\U{1F3AF} 오늘의 전적\n", NothingYet]
    else []
  }

  function HeaderLines(date: string): seq<string>
  {
    ["\U{1F4C5} " + date + "\n", Rule + "\n\n"]
  }

  function FooterLines(appName: string): seq<string>
  {
    ["\n" + Rule + "\n", "Generated by " + appName]
  }

  /** The pieces `generateTextReport` appends, in order. */
  function ReportPieces(today: seq<Match>, all: seq<Match>, o: ReportOptions, date: string, appName: string,
                        fixed1: real -> string, shown: real -> string): seq<string>
  {
    if |today| == 0 && !o.showAllTimeStats then [NoRecords]
    else
      HeaderLines(date) + (if o.showAllTimeStats then AllTimeLines(all, fixed1, shown) else [])
      + TodayLines(today, o, fixed1) + FooterLines(appName)
  }

  function ReportText(today: seq<Match>, all: seq<Match>, o: ReportOptions, date: string, appName: string,
                      fixed1: real -> string, shown: real -> string): string
  {
    Concat(ReportPieces(today, all, o, date, appName, fixed1, shown))
  }

  lemma {:induction false} ConcatFront(p: string, rest: seq<string>)
    ensures Concat([p] + rest) == p + Concat(rest)
    decreases |rest|
  {
    ConcatAppend([p], rest);
    assert Concat([p]) == Concat([p][..0]) + p;
  }

  /** The report is the fixed message exactly when there are no games today
      and the all-time section is off; every other report opens with the
      calendar line. */
  lemma ReportEmptyMessage(today: seq<Match>, all: seq<Match>, o: ReportOptions, date: string, appName: string,
                           fixed1: real -> string, shown: real -> string)
    ensures ReportText(today, all, o, date, appName, fixed1, shown) == NoRecords <==> |today| == 0 && !o.showAllTimeStats
  {
    var pieces := ReportPieces(today, all, o, date, appName, fixed1, shown);
    if |today| == 0 && !o.showAllTimeStats {
      assert Concat([NoRecords]) == Concat([NoRecords][..0]) + NoRecords;
    } else {
      var first := "\U{1F4C5} " + date + "\n";
      assert pieces == [first] + pieces[1..];
      ConcatFront(first, pieces[1..]);
      var text := ReportText(today, all, o, date, appName, fixed1, shown);
      assert text[0] == '\U{1F4C5}';
      assert NoRecords[0] != '\U{1F4C5}';
    }
  }

  /** Without games today the report is the fixed message or has no today
      section at all: the "no games yet" branch of the today section is
      never reached. */
  lemma ReportNoGamesToday(today: seq<Match>, all: seq<Match>, o: ReportOptions, date: string, appName: string,
                           fixed1: real -> string, shown: real -> string)
    requires today == []
    ensures ReportPieces(today, all, o, date, appName, fixed1, shown)
            == if o.showAllTimeStats then HeaderLines(date) + AllTimeLines(all, fixed1, shown) + FooterLines(appName)
               else [NoRecords]
  {
    if o.showAllTimeStats {
      var a := AllTimeLines(all, fixed1, shown);
      assert HeaderLines(date) + a + [] == HeaderLines(date) + a;
    }
  }

  /** With games today, the report ends with the day's counts, the game
      lines and the footer. */
  lemma ReportEndsWithGames(today: seq<Match>, all: seq<Match>, o: ReportOptions, date: string, appName: string,
                            fixed1: real -> string, shown: real -> string)
    requires today != []
    ensures exists front :: ReportPieces(today, all, o, date, appName, fixed1, shown)
                            == front + DaySummary(today, fixed1) + GameLines(today, o) + FooterLines(appName)
  {
    var front := HeaderLines(date) + (if o.showAllTimeStats then AllTimeLines(all, fixed1, shown) else []);
    var summary, games, footer := DaySummary(today, fixed1), GameLines(today, o), FooterLines(appName);
    assert front + (summary + games) + footer == front + summary + games + footer;
  }

  /** `generateTextReport`, appending to the report string piece by piece. */
  method GenerateTextReport(today: seq<Match>, all: seq<Match>, o: ReportOptions, date: string, appName: string,
                            fixed1: real -> string, shown: real -> string) returns (report: string)
    ensures report == ReportText(today, all, o, date, appName, fixed1, shown)
  {
    if |today| == 0 && !o.showAllTimeStats {
      ConcatSnoc([], NoRecords);
      return NoRecords;
    }
    ghost var pieces: seq<string> := [];
    report := "";
    var header := HeaderLines(date);
    report, pieces := Append(report, pieces, header);
    assert pieces == header;
    report, pieces := AppendAllTime(report, pieces, all, o, fixed1, shown);
    report, pieces := AppendToday(report, pieces, today, o, fixed1);
    var footer := FooterLines(appName);
    report, pieces := Append(report, pieces, footer);
    ReportPiecesShape(today, all, o, date, appName, fixed1, shown);
  }

  /** The all-time section, appended only when the option asks for it. */
  method AppendAllTime(report: string, ghost pieces: seq<string>, all: seq<Match>, o: ReportOptions,
                       fixed1: real -> string, shown: real -> string) returns (r: string, ghost ps: seq<string>)
    requires report == Concat(pieces)
    ensures ps == pieces + (if o.showAllTimeStats then AllTimeLines(all, fixed1, shown) else []) && r == Concat(ps)
  {
    r, ps := report, pieces;
    if o.showAllTimeStats {
      var allTime := AllTimeReport(all, fixed1, shown);
      r, ps := Append(r, ps, allTime);
    } else {
      assert pieces + [] == pieces;
    }
  }

  /** The today section: the counts and one line per game, when there are
      games today. */
  method AppendToday(report: string, ghost pieces: seq<string>, today: seq<Match>, o: ReportOptions,
                     fixed1: real -> string) returns (r: string, ghost ps: seq<string>)
    requires report == Concat(pieces)
    requires |today| > 0 || o.showAllTimeStats
    ensures ps == pieces + TodayLines(today, o, fixed1) && r == Concat(ps)
  {
    r, ps := report, pieces;
    if |today| > 0 {
      var summary := TodaySummary(today, fixed1);
      r, ps := AppendWithNumbered(r, ps, summary, today, LineOf(o));
    } else {
      assert pieces + [] == pieces;
    }
  }

  /** Some pieces, then one numbered line per element. */
  method AppendWithNumbered<T>(report: string, ghost pieces: seq<string>, more: seq<string>, xs: seq<T>, line: (nat, T) -> string)
    returns (r: string, ghost ps: seq<string>)
    requires report == Concat(pieces)
    ensures ps == pieces + (more + Numbered(xs, line)) && r == Concat(ps)
  {
    r, ps := Append(report, pieces, more);
    r, ps := AppendNumbered(r, ps, xs, line);
    assert ps == pieces + (more + Numbered(xs, line));
  }

  /** Outside the fixed message, the pieces are the header, the optional
      all-time section, the today section and the footer. */
  lemma ReportPiecesShape(today: seq<Match>, all: seq<Match>, o: ReportOptions, date: string, appName: string,
                          fixed1: real -> string, shown: real -> string)
    requires |today| > 0 || o.showAllTimeStats
    ensures ReportPieces(today, all, o, date, appName, fixed1, shown)
            == HeaderLines(date) + (if o.showAllTimeStats then AllTimeLines(all, fixed1, shown) else [])
               + TodayLines(today, o, fixed1) + FooterLines(appName)
  {
  }

  /** The all-time section, built from `getAllTimeStats` and the two
      inline picks. */
  method AllTimeReport(all: seq<Match>, fixed1: real -> string, shown: real -> string) returns (lines: seq<string>)
    ensures lines == AllTimeLines(all, fixed1, shown)
  {
    var allTime := AllTimeStatsOf(all);
    if allTime.None? {
      return [];
    }
    var mostPlayed := GetMostPlayedDeck(all);
    var bestDeck := ReportBestDeck(all);
    lines := AllTimeSection(allTime.value, mostPlayed, bestDeck, fixed1, shown);
  }

  /** The counts of the today section, with the streak that
      `getCurrentStreak` counts. */
  method TodaySummary(today: seq<Match>, fixed1: real -> string) returns (lines: seq<string>)
    ensures lines == DaySummary(today, fixed1)
  {
    var wins := Wins(today);
    var currentStreak := GetCurrentStreak(today);
    lines := ["\U{1F3AF} 오늘의 전적\n",
              "• 총 게임: " + NatText(|today|) + "게임\n",
              "• 승리: " + NatText(wins) + "게임 | 패배: " + NatText(|today| - wins) + "게임\n",
              "• 승률: " + fixed1(WinRate(wins, |today|)) + "%\n"];
    if currentStreak > 0 {
      lines := lines + ["• 현재 연승: " + NatText(currentStreak) + "연승 ⚡\n"];
    }
    lines := lines + ["\n", "\U{1F3C6} 게임 기록\n"];
  }

  /** A `forEach` over `xs` appending `line(i, x)` for each element. */
  method AppendNumbered<T>(report: string, ghost pieces: seq<string>, xs: seq<T>, line: (nat, T) -> string)
    returns (r: string, ghost ps: seq<string>)
    requires report == Concat(pieces)
    ensures ps == pieces + Numbered(xs, line) && r == Concat(ps)
  {
    r, ps := report, pieces;
    for i := 0 to |xs|
      invariant ps == pieces + Numbered(xs[..i], line) && r == Concat(ps)
    {
      var text := line(i, xs[i]);
      NumberedStep(xs, i, line);
      ConcatSnoc(ps, text);
      r := r + text;
      ps := ps + [text];
    }
    assert xs[..|xs|] == xs;
  }

  /** Appends each of `more` to the report. */
  method Append(report: string, ghost pieces: seq<string>, more: seq<string>) returns (r: string, ghost ps: seq<string>)
    requires report == Concat(pieces)
    ensures ps == pieces + more && r == Concat(ps)
  {
    r, ps := report, pieces;
    for k := 0 to |more|
      invariant ps == pieces + more[..k] && r == Concat(ps)
    {
      ConcatSnoc(ps, more[k]);
      assert more[..k + 1] == more[..k] + [more[k]];
      r := r + more[k];
      ps := ps + [more[k]];
    }
    assert more[..|more|] == more;
  }
}
