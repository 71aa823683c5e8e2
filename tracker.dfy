/** The state of the tracker screen in card-game-tracker.tsx: today's
    games, every game, and the archived days, with the handlers that change
    them. Storage writes, alerts and confirmation dialogs are effects on the
    outside and are left out; a handler guarded by `confirm` is modelled as
    confirmed. The current date and instant come in as parameters. */
module App {
  import opened Sequences
  import opened Matches
  import opened Text
  import opened Streaks
  import opened Csv

  /** One archived day. */
  datatype DailyRecord = DailyRecord(
    date: string, matches: seq<Match>, totalGames: nat, wins: nat, losses: nat, draws: nat, winRate: real)

  predicate IsLoss(m: Match)
  {
    m.result == "lose"
  }

  /** The record `handleFinishDay` archives for a non-empty day. Losses are
      the games whose result is "lose"; draws are always 0. */
  function DayRecord(date: string, day: seq<Match>): DailyRecord
    requires day != []
  {
    var wins := Wins(day);
    DailyRecord(date, day, |day|, wins, |Filter(day, IsLoss)|, 0, wins as real / |day| as real * 100.0)
  }

  /** Every result is "win" or "lose", as the entry form records them. */
  ghost predicate Recorded(day: seq<Match>)
  {
    forall i :: 0 <= i < |day| ==> day[i].result == "win" || day[i].result == "lose"
  }

  lemma {:induction false} WinsAndLosses(day: seq<Match>)
    ensures Wins(day) + |Filter(day, IsLoss)| <= |day|
    ensures Recorded(day) ==> Wins(day) + |Filter(day, IsLoss)| == |day|
  {
    if day != [] {
      WinsAndLosses(day[..|day| - 1]);
    }
  }

  /** The archived record counts the day's games and wins, has no draws,
      and its rate is the percentage won; wins and losses never exceed the
      games and add up to them when every result is "win" or "lose". */
  lemma DayRecordFacts(date: string, day: seq<Match>)
    requires day != []
    ensures var r := DayRecord(date, day);
            && r.date == date && r.matches == day
            && r.totalGames == |day| && r.wins == Wins(day) && r.draws == 0
            && r.winRate == WinRate(r.wins, r.totalGames)
            && r.wins + r.losses <= r.totalGames
            && (Recorded(day) ==> r.wins + r.losses == r.totalGames)
  {
    WinsAndLosses(day);
  }

  lemma RecordedAppend(day: seq<Match>, m: Match)
    requires Recorded(day) && (m.result == "win" || m.result == "lose")
    ensures Recorded(day + [m])
  {
    assert forall i :: 0 <= i < |day| ==> (day + [m])[i] == day[i];
  }

  /** The game `handleAddMatch` records: the form's fields, the current
      instant and hour, the streak snapshot and no note. */
  function NewMatch(yourDeck: string, opponentDeck: string, position: Side, result: Outcome, now: Stamp, streak: int): Match
  {
    Match(yourDeck, opponentDeck, SideText(position), OutcomeText(result), now.instant, now.hour, streak, "")
  }

  /** The entry form needs both deck names to be non-blank. */
  predicate FormFilled(yourDeck: string, opponentDeck: string)
  {
    Trim(yourDeck) != [] && Trim(opponentDeck) != []
  }

  class Tracker {
    var todayMatches: seq<Match>
    var allMatches: seq<Match>
    var allTimeStats: seq<DailyRecord>

    /** `initializeData`: today's stored games and the stored history are
        taken as they are, the seed file (`fetched`, `None` when the fetch
        failed) is read by `loadCSVData`, and its games are merged into the
        stored games by timestamp. `loadCSVData` reports its own failures as
        no seed games, so the merge always runs. */
    constructor Start(storedToday: seq<Match>, storedStats: seq<DailyRecord>, storedAll: seq<Match>,
                      fetched: Option<string>, decode: string -> Option<Stamp>)
      ensures todayMatches == storedToday
      ensures allTimeStats == storedStats
      ensures allMatches == MergeNew(storedAll, SeedData(fetched, decode))
    {
      var seed := LoadCsvData(fetched, decode);
      todayMatches := storedToday;
      allTimeStats := storedStats;
      allMatches := MergeNew(storedAll, seed);
    }

    ghost predicate TodayRecorded()
      reads this
    {
      Recorded(todayMatches)
    }

    /** `handleFinishDay` as the closure that runs it sees the day: `day`
        is the `todayMatches` it reads. An empty day changes nothing;
        otherwise the day is archived and today's list emptied. */
    method FinishDayWith(day: seq<Match>, date: string) returns (finished: bool)
      modifies this
      ensures finished <==> day != []
      ensures !finished ==> todayMatches == old(todayMatches) && allTimeStats == old(allTimeStats)
      ensures finished ==> allTimeStats == old(allTimeStats) + [DayRecord(date, day)] && todayMatches == []
      ensures allMatches == old(allMatches)
    {
      if |day| == 0 {
        return false;
      }
      var record := DayRecord(date, day);
      allTimeStats := allTimeStats + [record];
      todayMatches := [];
      return true;
    }

    /** `handleFinishDay`. */
    method FinishDay(date: string) returns (finished: bool)
      modifies this
      ensures finished <==> old(todayMatches) != []
      ensures !finished ==> todayMatches == old(todayMatches) && allTimeStats == old(allTimeStats)
      ensures finished ==> allTimeStats == old(allTimeStats) + [DayRecord(date, old(todayMatches))] && todayMatches == []
      ensures allMatches == old(allMatches)
    {
      finished := FinishDayWith(todayMatches, date);
    }

    /** `handleAddMatch`. A blank deck name changes nothing. Otherwise the
        new game gets the streak snapshot of today's games, is appended to
        today's games and added to all games by time. When auto-save is on
        and today now holds enough games, `handleFinishDay` runs on the day
        as it was before this game was added: an empty earlier day is not
        archived and the new game stays, otherwise the earlier day is
        archived without the new game and today's list is emptied. */
    method AddMatch(yourDeck: string, opponentDeck: string, position: Side, result: Outcome,
                    now: Stamp, autoSaveGames: int, date: string) returns (added: Option<Match>)
      modifies this
      ensures added.None? <==> !FormFilled(yourDeck, opponentDeck)
      ensures added.None? ==> todayMatches == old(todayMatches) && allMatches == old(allMatches)
                              && allTimeStats == old(allTimeStats)
      ensures added.Some? ==>
                && added.value == NewMatch(yourDeck, opponentDeck, position, result, now,
                                           if result == Win then TrailingWins(old(todayMatches)) + 1 else 0)
                && allMatches == AddMatchToData(added.value, old(allMatches))
      ensures added.Some? && !(autoSaveGames > 0 && |old(todayMatches)| + 1 >= autoSaveGames) ==>
                todayMatches == old(todayMatches) + [added.value] && allTimeStats == old(allTimeStats)
      ensures added.Some? && autoSaveGames > 0 && |old(todayMatches)| + 1 >= autoSaveGames ==>
                if old(todayMatches) == [] then
                  todayMatches == [added.value] && allTimeStats == old(allTimeStats)
                else
                  todayMatches == [] && allTimeStats == old(allTimeStats) + [DayRecord(date, old(todayMatches))]
      ensures old(TodayRecorded()) ==> TodayRecorded()
    {
      if !FormFilled(yourDeck, opponentDeck) {
        return None;
      }
      var streak := CalculateWinStreak(todayMatches, result);
      var m := NewMatch(yourDeck, opponentDeck, position, result, now, streak);
      Record(m, autoSaveGames, date);
      added := Some(m);
    }

    /** The state updates of `handleAddMatch` for the game `m` it built. */
    method Record(m: Match, autoSaveGames: int, date: string)
      modifies this
      ensures allMatches == AddMatchToData(m, old(allMatches))
      ensures !(autoSaveGames > 0 && |old(todayMatches)| + 1 >= autoSaveGames) ==>
                todayMatches == old(todayMatches) + [m] && allTimeStats == old(allTimeStats)
      ensures autoSaveGames > 0 && |old(todayMatches)| + 1 >= autoSaveGames ==>
                if old(todayMatches) == [] then
                  todayMatches == [m] && allTimeStats == old(allTimeStats)
                else
                  todayMatches == [] && allTimeStats == old(allTimeStats) + [DayRecord(date, old(todayMatches))]
      ensures old(TodayRecorded()) && (m.result == "win" || m.result == "lose") ==> TodayRecorded()
    {
      var before := todayMatches;
      if Recorded(before) && (m.result == "win" || m.result == "lose") {
        RecordedAppend(before, m);
      }
      todayMatches := before + [m];
      allMatches := AddMatchToData(m, allMatches);
      if autoSaveGames > 0 && |todayMatches| >= autoSaveGames {
        var _ := FinishDayWith(before, date);
      }
    }

    /** `handleDeleteMatch`: the game at `index` leaves today's games, the
        others keeping their order, and every game with its timestamp
        leaves all games. */
    method DeleteMatch(index: nat)
      requires index < |todayMatches|
      modifies this
      ensures todayMatches == old(todayMatches[..index] + todayMatches[index + 1..])
      ensures allMatches == RemoveMatchFromData(old(todayMatches[index]), old(allMatches))
      ensures allTimeStats == old(allTimeStats)
      ensures old(TodayRecorded()) ==> TodayRecorded()
    {
      var gone := todayMatches[index];
      todayMatches := todayMatches[..index] + todayMatches[index + 1..];
      allMatches := RemoveMatchFromData(gone, allMatches);
    }

    /** `handleImportCSV`: a successful import replaces all games with the
        merged list; a failed one changes nothing. */
    method ImportCsv(text: string, decode: string -> Option<Stamp>) returns (r: ImportResult)
      modifies this
      ensures r == ImportOf(text, old(allMatches), decode)
      ensures allMatches == if r.Imported? then r.updatedMatches else old(allMatches)
      ensures todayMatches == old(todayMatches) && allTimeStats == old(allTimeStats)
    {
      r := ImportFromCsv(text, allMatches, decode);
      if r.Imported? {
        allMatches := r.updatedMatches;
      }
    }

    /** `clearAllData`. */
    method ClearAllData()
      modifies this
      ensures todayMatches == [] && allMatches == [] && allTimeStats == []
    {
      allTimeStats := [];
      allMatches := [];
      todayMatches := [];
    }
  }
}
