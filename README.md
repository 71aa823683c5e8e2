# DualLog match statistics — a Dafny model

DualLog is a personal card-game match logger. The user records each game:

- the two decks,
- whether they went first or second,
- whether they won or lost.

The app keeps today's games, every game ever played, and an archive of finished days. From these it computes statistics and a shareable text report.

This project models the computing part of the app and proves what it computes:

- the statistics of `utils/stats-utils.ts`: per deck, best deck, most played deck, per matchup, per turn order, per part of the day, and streaks;
- the match-log codec and list operations of `utils/csv-utils.ts`;
- the state handlers of `card-game-tracker.tsx`, as the class `App.Tracker`;
- the report computations of `components/report-generator.tsx`: the current streak, the all-time summary, the report's own most-played and best-deck picks, the numbered game lines, and the whole report text.

## Modules

| file | module | contents |
|---|---|---|
| `sequences.dfy` | `Sequences` | `Filter` and `SumBy`. `SortBy`, a stable insertion sort on a real key: `Array.prototype.sort` is stable, so ties keep input order, and a descending sort is an ascending sort on the negated key. `Head`, `MaxOf`, `Map`, `Concat`, with their lemmas. |
| `matches.dfy` | `Matches` | The `Match` record, win counting, `WinRate` and trailing wins. |
| `text.dfy` | `Text` | JavaScript's `trim`, `split`, `join`, `parseInt`, the decimal rendering of integers, and the removal of `"`. |
| `grouping.dfy` | `Grouping` | The `forEach` that fills a `Map` (`TallyBy`). A `Map` iterates keys in first-insertion order (`FirstSeen`). One row is built per key (`Rows`/`RowsOf`). |
| `streaks.dfy` | `Streaks` | `calculateWinStreak` and `getStreakStats`. |
| `stats.dfy` | `Stats` | `getDeckStats`, `getBestDeck`, `getMostPlayedDeck`, `getMatchupStats`. |
| `buckets.dfy` | `Buckets` | `getPositionStats`, `getTimeStats`. |
| `csv.dfy` | `Csv` | The `loadCSVData` and `importFromCSV` readers, the merge, the `exportToCSV` text, `addMatchToData`, `removeMatchFromData`. |
| `tracker.dfy` | `App` | `DailyRecord` and the class `Tracker` with one method per handler. |
| `report.dfy` | `Report` | The helpers of the report generator and `generateTextReport`. |

## Modelling choices

**The `Match` record**

- `position` and `result` stay strings.
  - Rows read from CSV files carry whatever their columns hold.
  - Every statistic counts a game as won when `result == "win"`, and as going first when `position == "first"`. Any other text counts as a loss, or as going second.
  - The entry form only produces the values of `Outcome` and `Side`.
- `timestamp` is an integer instant.
- `hour`, the local hour 0..23 of that instant, is carried with the record. It stands for `new Date(timestamp).getHours()`.

**Order and ties**

- Sorting is the stable `SortBy`, so every tie keeps first-occurrence order.
- A JavaScript `Map` iterates in insertion order, which is `FirstSeen`.
- The per-deck and per-matchup rows therefore come out in the order of each key's first game, then get stably sorted by falling win rate.

**Rates and dates**

- Rates are exact `real`s: `wins / total * 100`, and 0 for no games.
- Turning the text `date + "T" + time + ":00"` into an instant and an hour is the parameter `decode`.
  - `decode` returns `None` where JavaScript's `toISOString` throws its `RangeError`.
  - Export's date and time rendering are the parameters `dateOf` and `timeOf`.
  - The report's `toFixed(1)` and `parseFloat(toFixed(1))` are the parameters `fixed1` and `shown`.

**Seed file and stored values**

- The seed file's text comes in as `Option<string>`; `None` stands for a failed fetch.
- The values stored in `localStorage` are constructor arguments of `Tracker.Start`.

**The auto-save branch of `handleAddMatch`**

- The `handleFinishDay` closure it calls still sees the `todayMatches` of before the new game.
- `Tracker.Record` runs `FinishDayWith(before, date)` with exactly that stale list.
- So with auto-save on:
  - when the earlier day was empty, nothing is archived and the new game stays in today's list;
  - otherwise the earlier day is archived without the new game, and today's list is emptied.
  - In both cases the new game is in `allMatches`.

**Behaviour of the code worth knowing**

- `importFromCSV` does not recover per row. A row whose date is invalid makes `new Date(...).toISOString()` throw, and the whole import fails with "CSV 파일을 읽는 중 오류가 발생했습니다." (`ImportRowsFail`). Only `loadCSVData` skips bad rows.
- The import reader neither trims fields nor skips blank lines. A blank line falls out only because it has fewer than seven fields.
- The merge removes only incoming games whose timestamp an existing game has. Several incoming games with one new timestamp are all kept (`MergeNewFacts`).
- The startup merge always re-sorts the stored games by time. With no new seed games it equals the stored list only when that list is already sorted.
- Export writes a UTC date (`toISOString`) and a local time to the minute (`toLocaleTimeString`). So the round-trip lemmas give back each game's decks, position, result, streak and note, and the instant and hour that the date parser `decode` makes of the exported date and time. Only `ReimportExport` assumes the parser restores the game's own instant. `ReimportDuplicates` covers the case where it does not.
- `winStreak` read from a file is `parseInt(...) || 0`, which can be negative, so it is an `int`.

## Model

| member | source | states |
|---|---|---|
| Streaks.CalculateWinStreak | utils/stats-utils.ts:261-273 | 0 for a loss. For a win, one more than the number of wins ending the list, so the value is between 1 and the list length plus one. |
| Streaks.GetStreakStats | utils/stats-utils.ts:107-129 | The history is the lengths of all maximal win runs in order, including an open final run. The current streak is the trailing wins. The max streak is the largest history entry. |
| Streaks.ScanGame | utils/stats-utils.ts:112-121 | One forward step: a win extends the current streak, a loss closes a positive run into the history and resets to 0, and the max stays the maximum of history and current. |
| Streaks.WinRunsPositive | utils/stats-utils.ts:116-126 | Every history entry is greater than 0. |
| Streaks.WinRunsSum | utils/stats-utils.ts:112-126 | The history entries add up to the number of wins. |
| Streaks.MaxStreakZero | utils/stats-utils.ts:108-128 | The max streak is 0 exactly when there are no wins. |
| Matches.TrailingWinsMeaning | utils/stats-utils.ts:265-271 | The trailing count covers only wins, and the game just before them, if any, is not a win. |
| Matches.TrailingWinsAppend | utils/stats-utils.ts:261-273 | A new game extends the trailing wins by one if it is a win, and resets them to 0 otherwise. |
| Matches.WinRate | utils/stats-utils.ts:85 | The rate is between 0 and 100. It is 0 exactly when nothing was won, and 100 exactly when every game was won. |
| Matches.WinRateScaled | utils/stats-utils.ts:85 | The rate times the games equals 100 times the wins. |
| Matches.WinRateMonotone | utils/stats-utils.ts:85 | More wins over the same games never give a lower rate. |
| Grouping.TallyBy | utils/stats-utils.ts:135-150 | The loop fills the map with exactly the keys that have games, in first-insertion order, and each key's tally counts exactly that key's games. |
| Grouping.CountGame | utils/stats-utils.ts:136-149 | A new key is inserted with zero counts, then the game is counted under its key. |
| Grouping.TallyOf | utils/stats-utils.ts:142-149 | A group's tally has its wins, and wins plus losses is the group size. |
| Grouping.TallyStreaks | utils/stats-utils.ts:142-146 | The tally's streak list is the positive stored streaks of exactly the group's won games, in order. |
| Grouping.FirstSeenFacts | utils/stats-utils.ts:137-139 | The map's keys are distinct, and are exactly the keys that have games. |
| Stats.GetDeckStats | utils/stats-utils.ts:132-162 | The result is the rows in first-seen deck order, stably sorted by falling win rate. |
| Stats.DeckStatsDescribe | utils/stats-utils.ts:152-160 | For each entry: total, wins, losses, rate and average streak are those of exactly that deck's games, total is wins plus losses and positive, and the rate is 0 iff no wins and 100 iff no losses. |
| Stats.DeckRowsDescribe | utils/stats-utils.ts:152-160 | Before sorting there is one row per distinct deck, in first-game order, each describing its deck. |
| Stats.DeckStatsCover | utils/stats-utils.ts:135-160 | Every deck played has an entry. |
| Stats.DeckStatsDistinct | utils/stats-utils.ts:133-160 | No deck has two entries. |
| Stats.DeckStatsOrdered | utils/stats-utils.ts:161 | Entries are ordered by non-increasing win rate. |
| Stats.DeckStatsStable | utils/stats-utils.ts:161 | Entries with equal win rate keep the first-game order of their decks. |
| Stats.DeckStatsTotal | utils/stats-utils.ts:152-160 | The totals add up to the number of games. |
| Stats.GetBestDeck | utils/stats-utils.ts:59-90 | The result is the first entry with at least 10 games in the sorted deck statistics. |
| Stats.BestDeckNone | utils/stats-utils.ts:79-89 | There is no best deck exactly when no deck has at least 10 games. |
| Stats.BestDeckIsBest | utils/stats-utils.ts:79-89 | The best deck describes its games and has at least 10. Its rate is at least that of every deck with 10 games. Among the qualifying decks it is the first, in first-seen order, with that rate. |
| Stats.BestDeckSorted | utils/stats-utils.ts:88-89 | Filtering and then taking the head of the sorted rows equals sorting only the qualifying rows and taking the head. |
| Stats.GetMostPlayedDeck | utils/stats-utils.ts:93-104 | The result is the head of the per-deck counts, in first-seen order, stably sorted by falling count. |
| Stats.CountRowsFacts | utils/stats-utils.ts:96-101 | There is one count per distinct deck, in first-seen order, and each count is that deck's number of games. |
| Stats.MostPlayedNone | utils/stats-utils.ts:101-103 | There is no most-played deck exactly when there are no games. |
| Stats.MostPlayedIsMost | utils/stats-utils.ts:96-103 | The pick's count is its deck's number of games, and is at least that of every deck. Every deck seen before it has fewer games, so a tie goes to the first-seen deck. |
| Stats.GetMatchupStats | utils/stats-utils.ts:165-196 | The result is the matchup rows, in first-seen key order, filtered to at least 3 games and then stably sorted by falling win rate. |
| Stats.MatchupRowsFacts | utils/stats-utils.ts:182-193 | There is one row per distinct matchup key, summarising exactly that key's games. |
| Stats.MatchupStatsDescribe | utils/stats-utils.ts:182-194 | Every reported matchup has at least 3 games and summarises the games of one matchup key. |
| Stats.MatchupStatsComplete | utils/stats-utils.ts:168-194 | Every matchup with at least 3 games is reported. |
| Stats.MatchupStatsOrdered | utils/stats-utils.ts:195 | Reported matchups are ordered by non-increasing win rate. |
| Stats.PairOfKey | utils/stats-utils.ts:184 | The `" vs "` key splits back into its deck pair when the first `" vs "` in the key is the one between the names (none starts earlier) and the opponent's name holds none. |
| Stats.MisreadSplit | utils/stats-utils.ts:184 | For any first name `p + " vs"` with no `" vs "` starting inside `p`, the key's first part is `p`: the split breaks at the wrong place. |
| Stats.PairOfMisreads | utils/stats-utils.ts:169-184 | Every game whose deck is `p vs`, with no `" vs "` starting inside `p`, is reported under the deck `p`, not its own. |
| Stats.MisreadExample | utils/stats-utils.ts:169-184 | For example the matchup (`q vs`, `B`) is reported as (`q`, `vs B`). |
| Stats.MatchupKeysCollide | utils/stats-utils.ts:169 | Two different deck pairs can share one key. |
| Buckets.GetPositionStats | utils/stats-utils.ts:199-227 | The first bucket holds exactly the games with position "first", the second bucket all other games. |
| Buckets.PositionStatsFacts | utils/stats-utils.ts:199-226 | The two totals add up to the number of games, and the wins add up to the wins. In each bucket wins plus losses is the total, and the rate is 0 iff no wins. |
| Buckets.PositionPartition | utils/stats-utils.ts:203-209 | Every game is counted in exactly one bucket. |
| Buckets.CounterStep | utils/stats-utils.ts:203-209 | One loop step adds the game to the counts of its bucket only. |
| Buckets.GetTimeStats | utils/stats-utils.ts:230-258 | The result is the morning, afternoon, evening and night rows, in that order, without the empty ones. Each row counts exactly the games of its part of the day. |
| Buckets.SlotStep | utils/stats-utils.ts:238-247 | One loop step adds the game to the counter of the slot of its hour and to no other. |
| Buckets.SlotPartition | utils/stats-utils.ts:242-245 | Every game falls in exactly one of the four slots. |
| Buckets.SlotOccupied | utils/stats-utils.ts:242-245 | A slot has games exactly when some game's hour falls in it. |
| Buckets.SlotRowTotal | utils/stats-utils.ts:247-254 | A slot row's total counts the games whose hour falls in that slot. |
| Buckets.TimeStatsTotal | utils/stats-utils.ts:250-257 | The reported totals add up to the number of games. |
| Buckets.TimeStatsReported | utils/stats-utils.ts:250-257 | A slot's row is reported exactly when some game falls in it. |
| Buckets.TimeStatsEntries | utils/stats-utils.ts:250-257 | Every reported row has a positive total and is one of the four slot rows. |
| Text.TrimFacts | utils/csv-utils.ts:30-31 | Trimming leaves a string unchanged iff it neither starts nor ends with a space, and gives "" iff the string is all spaces. |
| Text.TrimStart | utils/csv-utils.ts:30 | Removes exactly the leading spaces. |
| Text.TrimEnd | utils/csv-utils.ts:30 | Removes exactly the trailing spaces. |
| Text.Find | utils/csv-utils.ts:33 | Finds the first occurrence of the separator at or after the start position, or the end of the string. |
| Text.SplitJoin | utils/csv-utils.ts:98 | Splitting on a character gives back the parts it joined, when no part contains that character. |
| Text.DigitPrefixFacts | utils/csv-utils.ts:106 | `parseInt` reads the longest prefix of digits. |
| Text.ParseIntText | utils/csv-utils.ts:106 | Parsing the decimal text of any integer gives that integer back, also under the `|| 0` default. |
| Text.ParseNatural | utils/csv-utils.ts:106 | The decimal text of a natural number parses to it. |
| Text.ParseNegative | utils/csv-utils.ts:106 | A minus sign followed by a positive number's text parses to its negation. |
| Text.RemoveQuotesFacts | utils/csv-utils.ts:107 | Removing quotes leaves no `"`, and changes nothing in a text without one. |
| Csv.LoadCsvData | utils/csv-utils.ts:12-59 | The loader returns what its line-by-line reading of the fetched text specifies: the games of the lines after the header, or no games for a failed fetch. |
| Csv.ReadSeedLines | utils/csv-utils.ts:29-50 | The loop from line 1 yields the games of the lines after the header, in order. |
| Csv.SeedRowCases | utils/csv-utils.ts:30-49 | A line yields nothing when it is blank after trimming, has fewer than 7 fields or an invalid date. Otherwise it yields one game of its trimmed fields in order, the streak parsed to 0 when not a number and the note unquoted, or empty without an eighth field. |
| Csv.SeedRowsBound | utils/csv-utils.ts:29-50 | The seed reader yields at most one game per line. |
| Csv.SeedRowBlank | utils/csv-utils.ts:30-31 | A blank line yields no game. |
| Csv.ImportFromCsv | utils/csv-utils.ts:84-129 | The result is the reading of the lines after the header followed by the merge, or the read error when a date is invalid. |
| Csv.ReadStep | utils/csv-utils.ts:97-110 | One loop step adds the row's game, skips a short row, or fails on an invalid date. |
| Csv.ReadRowsFail | utils/csv-utils.ts:97-111 | A reading fails exactly when some line has an invalid date. |
| Csv.ImportRowsFail | utils/csv-utils.ts:97-125 | An import fails on reading exactly when some line after the header has at least 7 fields and an invalid date. |
| Csv.MergeNewFacts | utils/csv-utils.ts:113-119 | The new games are exactly the incoming ones with a timestamp no existing game has. Duplicates among them are kept. The merged list is the existing games plus the new ones, as a multiset, with that length, sorted by time. |
| Csv.MergeImported | utils/csv-utils.ts:113-120 | A successful import reports a non-empty list of the new games and an updated list that keeps every existing game, adds exactly the new ones, and is sorted by time. |
| Csv.MergeNothingNew | utils/csv-utils.ts:116-123 | The import reports "새로운 매치가 없습니다." exactly when every imported timestamp is already present. |
| Csv.MergeAgain | utils/csv-utils.ts:113-123 | Importing the same games again finds nothing new. |
| Csv.AddMatchFacts | utils/csv-utils.ts:132-141 | The result is a permutation of the existing games plus the new one, sorted by time. When the new game is the latest of a sorted list, it is simply appended. |
| Csv.RemoveMatchFacts | utils/csv-utils.ts:144-151 | Exactly the games with another timestamp remain. Removing twice equals removing once. An absent timestamp changes nothing. |
| Csv.ExportRows | utils/csv-utils.ts:67-71 | One row per game, in order. |
| Csv.RowSplits | utils/csv-utils.ts:70 | An exported row splits on commas into its eight fields, the note in quotes, when no field holds a comma or newline. |
| Csv.NoteRoundTrip | utils/csv-utils.ts:107 | A quoted note without quotes reads back as the note. |
| Csv.RowRoundTrip | utils/csv-utils.ts:98-108 | Reading an exported row gives back its decks, position, result, streak and note unchanged, with the instant and hour the date parser makes of the exported date and time, when no field holds a comma or newline and the note no quote. |
| Csv.SeedRowRoundTrip | utils/csv-utils.ts:30-49 | The seed loader reads an exported row back the same way when the exported fields also have no white space at either end. |
| Csv.ExportLines | utils/csv-utils.ts:63-72 | The lines after the first of the exported text are exactly the rows. |
| Csv.ExportImportRoundTrip | utils/csv-utils.ts:62-111 | Under the same conditions, and when the date parser accepts every exported date and time, reading the exported text gives back every game in order, each with the parser's instant and hour. |
| Csv.ExportLoadRoundTrip | utils/csv-utils.ts:12-72 | `loadCSVData` on an exported file gives back every game in the same way, when the fields also have no white space at either end. |
| Csv.ReimportExport | utils/csv-utils.ts:62-123 | When the date parser gives every exported game back its own instant and hour, importing an export into the games it came from finds nothing new. |
| Csv.ReimportDuplicates | utils/csv-utils.ts:62-123 | A game whose exported date and time read back as an instant no game has is imported again as a new game. Re-importing an export duplicates it. |
| App.DayRecordFacts | card-game-tracker.tsx:455-469 | The archived record has the date, the day's games, their number as `totalGames`, the wins, no draws, and the percentage rate. Wins plus losses never exceed the games, and equal them when every result is "win" or "lose". |
| App.WinsAndLosses | card-game-tracker.tsx:455-456 | Wins and losses together never exceed the games, and equal them when every result is "win" or "lose". |
| App.Tracker.Start | card-game-tracker.tsx:355-386 | Starts with the stored day and history. All games are the stored games merged with the seed that `loadCSVData` reads from the fetched text. |
| App.Tracker.FinishDayWith | card-game-tracker.tsx:449-483 | An empty day changes nothing and reports so. Otherwise exactly one record of that day is appended to the history and today's list is emptied. All games are unchanged. |
| App.Tracker.FinishDay | card-game-tracker.tsx:449-483 | `FinishDayWith` on the current day. |
| App.Tracker.AddMatch | card-game-tracker.tsx:409-447 | A blank deck name changes nothing. Otherwise the game carries the streak snapshot of today's games and is added to all games by time. Without auto-save it ends today's list. With auto-save, the stale-day branch holds as described above. Today's results stay "win" or "lose". |
| App.Tracker.Record | card-game-tracker.tsx:425-437 | The state updates for the built game: added to today and to all games, then the auto-save finish on the earlier day. |
| App.Tracker.DeleteMatch | card-game-tracker.tsx:489-502 | Exactly the element at the index leaves today's list, the others keep their order. Every game with its timestamp leaves all games. The history is unchanged. |
| App.Tracker.ImportCsv | card-game-tracker.tsx:508-524 | A successful import replaces all games with the merged list. A failed one changes nothing. |
| App.Tracker.ClearAllData | card-game-tracker.tsx:526-536 | All three collections are empty. |
| Report.GetCurrentStreak | components/report-generator.tsx:62-74 | The current streak is the number of trailing wins, and 0 for no games or a day ending in a loss. |
| Report.AllTimeStatsOf | components/report-generator.tsx:77-91 | None exactly for no games. Otherwise it gives the games, the wins, the rest as losses, and a rate with rate × games = 100 × wins. The max streak is at least 0, at least every stored streak, and is a stored streak unless it is 0. |
| Report.ReportBestDeck | components/report-generator.tsx:123-135 | The pick is the head of the per-deck rows with at least 3 games, stably sorted by falling rate. |
| Report.RateRowsBrief | components/report-generator.tsx:130-131 | The report's rows are the statistics rows reduced to deck, games and rate. |
| Report.ReportBestDeckAgrees | components/report-generator.tsx:123-135 | The report's pick is `getBestDeck`'s selection with a threshold of 3 instead of 10. |
| Report.ReportBestDeckFacts | components/report-generator.tsx:123-135 | There is no pick exactly when no deck has 3 games. Otherwise the pick has at least 3 games, its own rate, and a rate at least that of every deck with 3 games. |
| Report.AllTimeReport | components/report-generator.tsx:110-143 | Builds the all-time section from the summary, the most-played deck (`getMostPlayedDeck`'s computation, lines 117-122), and the report's best deck. |
| Report.TodaySummary | components/report-generator.tsx:146-157 | Builds the today counts, with the streak line only for a current streak. |
| Report.NumberedAt | components/report-generator.tsx:158-167 | One line per element, the line of element `i` made with index `i`. |
| Report.GameLinesAt | components/report-generator.tsx:158-167 | One line per game of the day, the `i`-th being that game's line with number `i + 1`. |
| Report.MatchLineStart | components/report-generator.tsx:159-166 | A line starts with its number counted from 1, then the shown deck. With names hidden, the alias is shown. |
| Report.MatchLineEnd | components/report-generator.tsx:164-166 | A line ends in a newline, preceded by `)` exactly when the stored streak is above 1. |
| Report.MatchLinePrivate | components/report-generator.tsx:159-160 | With names hidden, the hidden names do not affect the line. |
| Report.ReportEmptyMessage | components/report-generator.tsx:95 | The report is "게임 기록이 없습니다." exactly when there are no games today and the all-time section is off. |
| Report.ReportNoGamesToday | components/report-generator.tsx:94-171 | With no games today the report is the fixed message or header, all-time section and footer, so the "아직 기록된 게임이 없습니다." branch is never reached. |
| Report.ReportEndsWithGames | components/report-generator.tsx:146-176 | With games today, the report ends with the day's counts, its game lines and the footer. |
| Report.GenerateTextReport | components/report-generator.tsx:94-177 | The `+=` assembly yields the concatenation of the specified pieces. |
| Report.AppendAllTime | components/report-generator.tsx:110-143 | Appends the all-time section exactly when the option is on, and nothing otherwise. |
| Report.AppendToday | components/report-generator.tsx:146-167 | Appends the day's counts followed by one numbered line per game, and nothing without games today. |
| Report.AppendNumbered | components/report-generator.tsx:158-167 | The `forEach` appending numbered lines adds exactly those lines. |
| Sequences.SortBySorted | utils/stats-utils.ts:161 | The sort orders by its key. |
| Sequences.SortByMultiset | utils/csv-utils.ts:133-135 | The sort is a permutation. |
| Sequences.SortByStable | utils/stats-utils.ts:161 | Elements with equal keys keep their relative order. |
| Sequences.FilterIdempotent | utils/csv-utils.ts:145 | Filtering twice equals filtering once. |

## Left out

- Browser I/O is left out: `fetch` of the seed file, `FileReader`, Blob and URL downloads, the clipboard, `toast` and `console` logging. The fetched file text and the imported file text come in as arguments.
- `localStorage` is left out. Every read and write is an effect outside the model: stored values are constructor arguments, and writes are not modelled.
- `alert` and `confirm` are left out. A handler guarded by `confirm` (`handleDeleteMatch`, `clearAllData`) is modelled as confirmed. The streak alert (card-game-tracker.tsx:439-441) and the win-rate-goal alert (card-game-tracker.tsx:475-477) are not modelled.
- JavaScript dates are left out: `new Date(...)`, `toISOString`, `getHours`, `toLocaleTimeString` and `toLocaleDateString`. They are the parameters `decode`, `dateOf` and `timeOf`, the record's `hour`, and the report's `date`. Export writes a UTC date, a local time and only the minute. The round trips therefore give back the instant and hour the parser makes of those, not the game's own.
- Floating point is left out. `toFixed(1)` and `parseFloat` are the parameters `fixed1` and `shown`, and rates are exact reals.
- AllTimeStatsOf: its `winRate` is the exact rate, while the source stores `parseFloat(toFixed(1))` of it (components/report-generator.tsx:81, 88). The report prints it through `shown`.
- Csv.ReimportExport: holds only when the parser restores every game's own instant. A game recorded in the app is stamped to the millisecond, so its export in general reads back with another instant. By `Csv.ReimportDuplicates`, re-importing the export then adds it a second time.
- CSV quoting is left out because the code has none: commas, quotes and newlines in fields are not escaped. The round-trip lemmas require fields free of them.
- The form fields are not state of the model. Saving the last deck name and resetting the form after adding a game (card-game-tracker.tsx:412, 443-446) are left out.
- The settings are not state of the model. Loading them and `saveSettings` are left out, and the auto-save count is a parameter of `AddMatch`.
- The `catch` branch of `initializeData` (card-game-tracker.tsx:389-396) is left out. `loadCSVData` turns its own failures into no games, so the merge after it always runs.
- App.Tracker.DeleteMatch requires an index into today's games. The handler is bound only to rendered rows, and an index out of range would make `removeMatchFromData` throw on `undefined.timestamp`.
- The rendering is left out: all React components and the `texts` tables, components/main-view.tsx and components/settings-view.tsx.
- Image reports, the community-post button and the legacy prototype dual/src/App.jsx (with its "draw" result) are not part of this model.
- Build configuration and scripts/prepare-extension.mjs are not part of this model.
