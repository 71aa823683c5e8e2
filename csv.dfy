/** The CSV codec and list updates of utils/csv-utils.ts: the seed loader
    `loadCSVData`, `exportToCSV`, `importFromCSV` and its merge,
    `addMatchToData` and `removeMatchFromData`.

    Turning the text `date + "T" + time + ":00"` into an instant and a local
    hour (`new Date(...)`, then `toISOString` and `getHours`) is JavaScript's
    date parser in the local time zone; it is the parameter `decode`, whose
    `None` stands for the `RangeError` an invalid date raises. Export's
    rendering of an instant as a date and a time is likewise the pair of
    parameters `dateOf` and `timeOf`. */
module Csv {
  import opened Sequences
  import opened Matches
  import opened Text

  /** An instant in milliseconds and the local hour of that instant. */
  datatype Stamp = Stamp(instant: int, hour: Hour)

  /** The text both readers hand to `new Date`. */
  function DateText(date: string, time: string): string
  {
    date + "T" + time + ":00"
  }

  /** What one line's fields make: a game, too few fields to be a row, or
      a row whose date the parser rejects. */
  datatype Parsed = Parsed(m: Match) | Short | BadDate

  /** The import reader uses each field as it is. */
  function Keep(s: string): string
  {
    s
  }

  /** One line's comma-separated fields as a game, with `clean` applied to
      every field (`trim` for the seed loader, nothing for import). A line
      needs seven fields; the eighth, the note, loses its double quotes and
      defaults to "". `winStreak` is `parseInt(...) || 0`. */
  function ParseRow(values: seq<string>, clean: string -> string, decode: string -> Option<Stamp>): Parsed
  {
    if |values| < 7 then Short
    else
      match decode(DateText(clean(values[0]), clean(values[1])))
      case None => BadDate
      case Some(st) =>
        Parsed(Match(
          clean(values[2]), clean(values[3]), clean(values[4]), clean(values[5]),
          st.instant, st.hour, ParseIntOrZero(clean(values[6])),
          if |values| > 7 then RemoveQuotes(clean(values[7])) else ""))
  }

  /** A row of seven or more fields whose date the parser accepts is a game
      made of its cleaned fields. */
  lemma ParseRowAccepts(values: seq<string>, clean: string -> string, decode: string -> Option<Stamp>, st: Stamp)
    requires |values| >= 7 && decode(DateText(clean(values[0]), clean(values[1]))) == Some(st)
    ensures ParseRow(values, clean, decode)
            == Parsed(Match(clean(values[2]), clean(values[3]), clean(values[4]), clean(values[5]),
                            st.instant, st.hour, ParseIntOrZero(clean(values[6])),
                            if |values| > 7 then RemoveQuotes(clean(values[7])) else ""))
  {
  }

  const Comma := ","
  const Newline := "\n"

  /** The game a seed line yields, if any: the line is trimmed, a blank line
      is skipped, and a line with fewer than seven fields or an invalid date
      yields nothing (the loader logs the failure and goes on). */
  function SeedRow(line: string, decode: string -> Option<Stamp>): seq<Match>
  {
    var t := Trim(line);
    if t == [] then []
    else
      match ParseRow(Split(t, Comma), Trim, decode)
      case Parsed(m) => [m]
      case Short => []
      case BadDate => []
  }

  /** The games a list of lines yields when each line yields `row(line)`,
      in order. */
  function RowsOf(lines: seq<string>, row: string -> seq<Match>): seq<Match>
  {
    if lines == [] then [] else RowsOf(lines[..|lines| - 1], row) + row(lines[|lines| - 1])
  }

  function SeedReader(decode: string -> Option<Stamp>): string -> seq<Match>
  {
    (line: string) => SeedRow(line, decode)
  }

  /** The games the seed lines yield, in order. */
  function SeedRows(lines: seq<string>, decode: string -> Option<Stamp>): seq<Match>
  {
    RowsOf(lines, SeedReader(decode))
  }

  /** `loadCSVData` once the seed file is fetched: every line after the
      header. A failed fetch (`None`) yields no games. */
  function SeedData(fetched: Option<string>, decode: string -> Option<Stamp>): seq<Match>
  {
    match fetched
    case None => []
    case Some(text) => SeedRows(Split(text, Newline)[1..], decode)
  }

  /** `loadCSVData`: the text split into lines, then the loop over the
      lines after the header. */
  method LoadCsvData(fetched: Option<string>, decode: string -> Option<Stamp>) returns (ms: seq<Match>)
    ensures ms == SeedData(fetched, decode)
  {
    if fetched.None? {
      return [];
    }
    var lines := Split(fetched.value, Newline);
    ms := ReadSeedLines(lines, decode);
  }

  /** The loop of `loadCSVData` over every line but the first. */
  method ReadSeedLines(lines: seq<string>, decode: string -> Option<Stamp>) returns (ms: seq<Match>)
    requires lines != []
    ensures ms == SeedRows(lines[1..], decode)
  {
    ms := [];
    for i := 1 to |lines|
      invariant ms == SeedRows(lines[1..i], decode)
    {
      RowsStep(lines, i, SeedReader(decode));
      var row := ReadSeedLine(lines[i], decode);
      assert SeedReader(decode)(lines[i]) == row;
      ms := ms + row;
    }
    assert lines[1..|lines|] == lines[1..];
  }

  lemma RowsStep(lines: seq<string>, i: nat, row: string -> seq<Match>)
    requires 1 <= i < |lines|
    ensures RowsOf(lines[1..i + 1], row) == RowsOf(lines[1..i], row) + row(lines[i])
  {
    assert lines[1..i + 1][..i - 1] == lines[1..i];
  }

  /** The body of the seed loop for one line. */
  method ReadSeedLine(raw: string, decode: string -> Option<Stamp>) returns (row: seq<Match>)
    ensures row == SeedRow(raw, decode)
  {
    var line := Trim(raw);
    if line == [] {
      return [];
    }
    var parsed := ParseRow(Split(line, Comma), Trim, decode);
    if parsed.Parsed? {
      return [parsed.m];
    }
    return [];
  }

  /** Every seed line yields at most one game, so the loader never returns
      more games than the text has lines after the header. */
  lemma {:induction false} SeedRowsBound(lines: seq<string>, decode: string -> Option<Stamp>)
    ensures |SeedRows(lines, decode)| <= |lines|
  {
    if lines != [] {
      SeedRowsBound(lines[..|lines| - 1], decode);
      assert |SeedRow(lines[|lines| - 1], decode)| <= 1;
    }
  }

  /** Blank lines contribute nothing. */
  lemma SeedRowBlank(line: string, decode: string -> Option<Stamp>)
    requires forall i :: 0 <= i < |line| ==> IsSpace(line[i])
    ensures SeedRow(line, decode) == []
  {
    TrimFacts(line);
  }

  /** What one seed line yields: nothing when it is blank after trimming,
      has fewer than seven fields or an invalid date; otherwise one game
      made of its trimmed fields in order, with the note unquoted (empty
      when there is no eighth field) and the streak parsed to 0 when it is
      not a number. */
  lemma SeedRowCases(line: string, decode: string -> Option<Stamp>)
    ensures Trim(line) == [] ==> SeedRow(line, decode) == []
    ensures |Split(Trim(line), Comma)| < 7 ==> SeedRow(line, decode) == []
    ensures var v := Split(Trim(line), Comma);
            |v| >= 7 && decode(DateText(Trim(v[0]), Trim(v[1]))).None? ==> SeedRow(line, decode) == []
    ensures var v := Split(Trim(line), Comma);
            Trim(line) != [] && |v| >= 7 && decode(DateText(Trim(v[0]), Trim(v[1]))).Some? ==>
              var st := decode(DateText(Trim(v[0]), Trim(v[1]))).value;
              SeedRow(line, decode) == [Match(Trim(v[2]), Trim(v[3]), Trim(v[4]), Trim(v[5]), st.instant, st.hour,
                                              ParseIntOrZero(Trim(v[6])), if |v| > 7 then RemoveQuotes(Trim(v[7])) else "")]
  {
    var t := Trim(line);
    var v := Split(t, Comma);
    if t != [] && |v| >= 7 {
      var d := decode(DateText(Trim(v[0]), Trim(v[1])));
      if d.Some? {
        ParseRowAccepts(v, Trim, decode, d.value);
      }
    }
  }

  /** The import reader's result over the lines after the header: `None`
      when a row's date is invalid, which makes the whole import fail. */
  function ImportRows(lines: seq<string>, decode: string -> Option<Stamp>): Option<seq<Match>>
  {
    ReadRows(lines, ImportReader(decode))
  }

  /** How the import reader takes one line. */
  function ImportLine(line: string, decode: string -> Option<Stamp>): Parsed
  {
    ParseRow(Split(line, Comma), Keep, decode)
  }

  function ImportReader(decode: string -> Option<Stamp>): string -> Parsed
  {
    (line: string) => ImportLine(line, decode)
  }

  /** The import loop's reading with `row` taking each line: rows too
      short are skipped and the first bad date ends the read with `None`. */
  function ReadRows(lines: seq<string>, row: string -> Parsed): Option<seq<Match>>
  {
    if lines == [] then Some([])
    else
      match ReadRows(lines[..|lines| - 1], row)
      case None => None
      case Some(p) =>
        match row(lines[|lines| - 1])
        case Parsed(m) => Some(p + [m])
        case Short => Some(p)
        case BadDate => None
  }

  /** The outcome `importFromCSV` reports through its callbacks. */
  datatype ImportResult = Imported(newMatches: seq<Match>, updatedMatches: seq<Match>) | Failed(message: string)

  const NoNewMatches := "새로운 매치가 없습니다."
  const ReadError := "CSV 파일을 읽는 중 오류가 발생했습니다."

  /** The timestamps of a list of games. */
  function Stamps(ms: seq<Match>): set<int>
  {
    set i | 0 <= i < |ms| :: ms[i].timestamp
  }

  /** A game is new when no existing game has its timestamp. */
  function IsNewTo(existing: seq<Match>): Match -> bool
  {
    (m: Match) => m.timestamp !in Stamps(existing)
  }

  /** The incoming games whose timestamp no existing game has, in order;
      duplicates among the incoming games themselves are all kept. */
  function NewTo(existing: seq<Match>, incoming: seq<Match>): seq<Match>
  {
    Filter(incoming, IsNewTo(existing))
  }

  /** `[...existing, ...new].sort(by time)`, shared by the import and the
      startup merge of the seed data. */
  function MergeNew(existing: seq<Match>, incoming: seq<Match>): seq<Match>
  {
    SortBy(existing + NewTo(existing, incoming), TimeOf)
  }

  /** The merged list keeps every existing game, adds exactly the incoming
      games with a new timestamp, and is ordered by time. */
  lemma MergeNewFacts(existing: seq<Match>, incoming: seq<Match>)
    ensures forall m :: m in NewTo(existing, incoming) <==> m in incoming && m.timestamp !in Stamps(existing)
    ensures multiset(MergeNew(existing, incoming)) == multiset(existing) + multiset(NewTo(existing, incoming))
    ensures |MergeNew(existing, incoming)| == |existing| + |NewTo(existing, incoming)|
    ensures SortedBy(MergeNew(existing, incoming), TimeOf)
  {
    forall m
      ensures m in NewTo(existing, incoming) <==> m in incoming && m.timestamp !in Stamps(existing)
    {
      FilterMembers(incoming, IsNewTo(existing), m);
    }
    SortByMultiset(existing + NewTo(existing, incoming), TimeOf);
    SortBySorted(existing + NewTo(existing, incoming), TimeOf);
  }

  /** The merge after reading: if some rows have a new timestamp, return
      them and the merged list; otherwise report that there were no new
      games. */
  function Merge(existing: seq<Match>, imported: seq<Match>): ImportResult
  {
    var unseen := NewTo(existing, imported);
    if |unseen| > 0 then Imported(unseen, MergeNew(existing, imported)) else Failed(NoNewMatches)
  }

  /** `importFromCSV` on the file's text. */
  function ImportOf(text: string, existing: seq<Match>, decode: string -> Option<Stamp>): ImportResult
  {
    match ImportRows(Split(text, Newline)[1..], decode)
    case None => Failed(ReadError)
    case Some(rows) => Merge(existing, rows)
  }

  /** `importFromCSV`: the reading loop, then the merge. */
  method ImportFromCsv(text: string, existing: seq<Match>, decode: string -> Option<Stamp>) returns (r: ImportResult)
    ensures r == ImportOf(text, existing, decode)
  {
    var lines := Split(text, Newline);
    var imported := [];
    for i := 1 to |lines|
      invariant ImportRows(lines[1..i], decode) == Some(imported)
    {
      var parsed := ImportLine(lines[i], decode);
      ReadStep(lines, i, ImportReader(decode), imported);
      if parsed.BadDate? {
        ReadFailStays(lines[1..], i, ImportReader(decode));
        return Failed(ReadError);
      }
      if parsed.Parsed? {
        imported := imported + [parsed.m];
      }
    }
    assert lines[1..|lines|] == lines[1..];
    r := Merge(existing, imported);
  }

  lemma ReadStep(lines: seq<string>, i: nat, row: string -> Parsed, p: seq<Match>)
    requires 1 <= i < |lines| && ReadRows(lines[1..i], row) == Some(p)
    ensures ReadRows(lines[1..i + 1], row) ==
            match row(lines[i])
            case Parsed(m) => Some(p + [m])
            case Short => Some(p)
            case BadDate => None
  {
    assert lines[1..i + 1][..i - 1] == lines[1..i];
  }

  /** Once a row fails, the whole read fails. */
  lemma {:induction false} ReadFailStays(lines: seq<string>, i: nat, row: string -> Parsed)
    requires i <= |lines| && ReadRows(lines[..i], row) == None
    ensures ReadRows(lines, row) == None
    decreases |lines| - i
  {
    if i < |lines| {
      assert lines[..i + 1][..i] == lines[..i];
      ReadFailStays(lines, i + 1, row);
    } else {
      assert lines[..i] == lines;
    }
  }

  /** The read fails exactly when some line has a date the parser rejects. */
  lemma {:induction false} ReadRowsFail(lines: seq<string>, row: string -> Parsed)
    ensures ReadRows(lines, row).None? <==> exists j :: 0 <= j < |lines| && row(lines[j]).BadDate?
  {
    if lines != [] {
      var p := lines[..|lines| - 1];
      ReadRowsFail(p, row);
      if exists j :: 0 <= j < |p| && row(p[j]).BadDate? {
        var j :| 0 <= j < |p| && row(p[j]).BadDate?;
        assert lines[j] == p[j];
      }
      if exists j :: 0 <= j < |lines| && row(lines[j]).BadDate? {
        var j :| 0 <= j < |lines| && row(lines[j]).BadDate?;
        if j < |p| {
          assert p[j] == lines[j];
        }
      }
    }
  }

  /** The import fails exactly when some line has seven fields or more and
      a date the parser rejects. */
  lemma ImportRowsFail(lines: seq<string>, decode: string -> Option<Stamp>)
    ensures ImportRows(lines, decode).None? <==>
            exists j :: 0 <= j < |lines| && ImportLine(lines[j], decode).BadDate?
  {
    var row := ImportReader(decode);
    ReadRowsFail(lines, row);
    assert forall j :: 0 <= j < |lines| ==> row(lines[j]) == ImportLine(lines[j], decode);
  }

  lemma StampsHas(ms: seq<Match>, m: Match)
    requires m in ms
    ensures m.timestamp in Stamps(ms)
  {
    var i :| 0 <= i < |ms| && ms[i] == m;
  }

  /** A successful merge reports the rows whose timestamp is new, all of
      them, and an updated list that holds exactly the existing games and
      those rows, ordered by time. */
  lemma MergeImported(existing: seq<Match>, imported: seq<Match>)
    requires Merge(existing, imported).Imported?
    ensures var r := Merge(existing, imported);
            && r.newMatches != []
            && (forall m :: m in r.newMatches <==> m in imported && m.timestamp !in Stamps(existing))
            && multiset(r.updatedMatches) == multiset(existing) + multiset(r.newMatches)
            && SortedBy(r.updatedMatches, TimeOf)
  {
    MergeNewFacts(existing, imported);
  }

  /** The merge reports that nothing is new exactly when every row's
      timestamp is already taken. */
  lemma MergeNothingNew(existing: seq<Match>, imported: seq<Match>)
    ensures Merge(existing, imported) == Failed(NoNewMatches) <==>
            forall j :: 0 <= j < |imported| ==> imported[j].timestamp in Stamps(existing)
  {
    var unseen := Filter(imported, IsNewTo(existing));
    if unseen != [] {
      FilterMembers(imported, IsNewTo(existing), unseen[0]);
      var j :| 0 <= j < |imported| && imported[j] == unseen[0];
    }
    if exists j :: 0 <= j < |imported| && imported[j].timestamp !in Stamps(existing) {
      var j :| 0 <= j < |imported| && imported[j].timestamp !in Stamps(existing);
      FilterMembers(imported, IsNewTo(existing), imported[j]);
    }
  }

  /** Importing the same rows again into the updated list finds nothing new. */
  lemma MergeAgain(existing: seq<Match>, imported: seq<Match>)
    requires Merge(existing, imported).Imported?
    ensures Merge(Merge(existing, imported).updatedMatches, imported) == Failed(NoNewMatches)
  {
    var r := Merge(existing, imported);
    MergeImported(existing, imported);
    var u := r.updatedMatches;
    forall j | 0 <= j < |imported|
      ensures imported[j].timestamp in Stamps(u)
    {
      var m := imported[j];
      if m.timestamp in Stamps(existing) {
        var i :| 0 <= i < |existing| && existing[i].timestamp == m.timestamp;
        assert existing[i] in multiset(u);
        StampsHas(u, existing[i]);
      } else {
        assert m in r.newMatches;
        assert m in multiset(u);
        StampsHas(u, m);
      }
    }
    MergeNothingNew(u, imported);
  }

  /** `addMatchToData`: the game appended, then the list sorted by time. */
  function AddMatchToData(m: Match, existing: seq<Match>): seq<Match>
  {
    SortBy(existing + [m], TimeOf)
  }

  /** The new list holds the existing games and the new one, ordered by
      time; when the new game is the latest, it simply ends the list. */
  lemma AddMatchFacts(m: Match, existing: seq<Match>)
    ensures multiset(AddMatchToData(m, existing)) == multiset(existing) + multiset{m}
    ensures SortedBy(AddMatchToData(m, existing), TimeOf)
    ensures (SortedBy(existing, TimeOf) && forall i :: 0 <= i < |existing| ==> existing[i].timestamp <= m.timestamp)
            ==> AddMatchToData(m, existing) == existing + [m]
  {
    SortByMultiset(existing + [m], TimeOf);
    SortBySorted(existing + [m], TimeOf);
    if SortedBy(existing, TimeOf) && (forall i :: 0 <= i < |existing| ==> existing[i].timestamp <= m.timestamp) {
      var s := existing + [m];
      assert SortedBy(s, TimeOf) by {
        forall i, j | 0 <= i < j < |s|
          ensures TimeOf(s[i]) <= TimeOf(s[j])
        {
          if j < |existing| {
            assert TimeOf(existing[i]) <= TimeOf(existing[j]);
          }
        }
      }
      SortBySortedIdentity(s, TimeOf);
    }
  }

  /** Keeps the games whose timestamp differs from `t`. */
  function OtherStamp(t: int): Match -> bool
  {
    (m: Match) => m.timestamp != t
  }

  /** `removeMatchFromData`: every game with the deleted game's timestamp
      goes. */
  function RemoveMatchFromData(m: Match, existing: seq<Match>): seq<Match>
  {
    Filter(existing, OtherStamp(m.timestamp))
  }

  /** No game with that timestamp is left, every other game is kept, and
      removing again changes nothing. */
  lemma RemoveMatchFacts(m: Match, existing: seq<Match>)
    ensures forall x :: x in RemoveMatchFromData(m, existing) <==> x in existing && x.timestamp != m.timestamp
    ensures RemoveMatchFromData(m, RemoveMatchFromData(m, existing)) == RemoveMatchFromData(m, existing)
    ensures m.timestamp !in Stamps(existing) ==> RemoveMatchFromData(m, existing) == existing
  {
    forall x
      ensures x in RemoveMatchFromData(m, existing) <==> x in existing && x.timestamp != m.timestamp
    {
      FilterMembers(existing, OtherStamp(m.timestamp), x);
    }
    FilterIdempotent(existing, OtherStamp(m.timestamp));
    if m.timestamp !in Stamps(existing) {
      forall i | 0 <= i < |existing|
        ensures OtherStamp(m.timestamp)(existing[i])
      {
        assert existing[i].timestamp in Stamps(existing);
      }
      FilterAll(existing, OtherStamp(m.timestamp));
    }
  }

  /** "Date,Time,YourDeck,OpponentDeck,Position,Result,WinStreak,Note" */
  const Header := "Date,Time,YourDeck," + "OpponentDeck,Position," + "Result,WinStreak,Note"

  /** The fields of one exported row; the note is written inside double
      quotes. */
  function RowFields(m: Match, dateOf: int -> string, timeOf: int -> string): seq<string>
  {
    [dateOf(m.timestamp), timeOf(m.timestamp), m.yourDeck, m.opponentDeck, m.position, m.result,
     IntText(m.winStreak), "\"" + m.note + "\""]
  }

  /** One exported row: its fields joined by commas. */
  function CsvRow(m: Match, dateOf: int -> string, timeOf: int -> string): string
  {
    Join(RowFields(m, dateOf, timeOf), Comma)
  }

  function ExportRows(ms: seq<Match>, dateOf: int -> string, timeOf: int -> string): (rows: seq<string>)
    ensures |rows| == |ms|
  {
    seq(|ms|, i requires 0 <= i < |ms| => CsvRow(ms[i], dateOf, timeOf))
  }

  /** The text `exportToCSV` writes: a byte-order mark, the header, then one
      row per game, separated by newlines. */
  function ExportCsv(ms: seq<Match>, dateOf: int -> string, timeOf: int -> string): string
  {
    "\U{FEFF}" + Join([Header] + ExportRows(ms, dateOf, timeOf), Newline)
  }

  /** A game whose rendered date and time and whose text fields hold no
      comma or newline, and whose note holds no double quote. */
  ghost predicate Exportable(m: Match, dateOf: int -> string, timeOf: int -> string)
  {
    && (forall f :: f in [dateOf(m.timestamp), timeOf(m.timestamp), m.yourDeck, m.opponentDeck, m.position, m.result, m.note] ==>
          ',' !in f && '\n' !in f)
    && '"' !in m.note
  }

  /** A game whose exported date, time, deck names, position and result
      have no white space at either end, so the seed loader's `trim` leaves
      them alone. */
  ghost predicate Trimmed(m: Match, dateOf: int -> string, timeOf: int -> string)
  {
    forall f :: f in [dateOf(m.timestamp), timeOf(m.timestamp), m.yourDeck, m.opponentDeck, m.position, m.result] ==>
      Trim(f) == f
  }

  /** What the date parser makes of the date and time exported for `m`. */
  function ExportedStamp(m: Match, dateOf: int -> string, timeOf: int -> string, decode: string -> Option<Stamp>): Option<Stamp>
  {
    decode(DateText(dateOf(m.timestamp), timeOf(m.timestamp)))
  }

  /** The game an exported row of `m` reads back as: the same fields, with
      the instant and hour the parser makes of the exported date and time.
      Export keeps only the minute and writes the date in UTC, so these
      need not be the game's own. */
  function Reread(m: Match, dateOf: int -> string, timeOf: int -> string, decode: string -> Option<Stamp>): Match
  {
    match ExportedStamp(m, dateOf, timeOf, decode)
    case None => m
    case Some(st) => m.(timestamp := st.instant, hour := st.hour)
  }

  function RereadAll(ms: seq<Match>, dateOf: int -> string, timeOf: int -> string, decode: string -> Option<Stamp>): (r: seq<Match>)
    ensures |r| == |ms|
  {
    seq(|ms|, i requires 0 <= i < |ms| => Reread(ms[i], dateOf, timeOf, decode))
  }

  lemma RereadSnoc(ms: seq<Match>, dateOf: int -> string, timeOf: int -> string, decode: string -> Option<Stamp>)
    requires ms != []
    ensures RereadAll(ms, dateOf, timeOf, decode)
            == RereadAll(ms[..|ms| - 1], dateOf, timeOf, decode) + [Reread(ms[|ms| - 1], dateOf, timeOf, decode)]
  {
  }

  lemma IntTextPlain(n: int)
    ensures ',' !in IntText(n) && '\n' !in IntText(n)
  {
    var m: nat := if n < 0 then -n else n;
    NatTextDigits(m);
    var t := IntText(n);
    forall i | 0 <= i < |t|
      ensures t[i] != ',' && t[i] != '\n'
    {
      if n < 0 {
        assert t == "-" + NatText(m);
        if i > 0 {
          assert t[i] == NatText(m)[i - 1];
        }
      }
    }
  }

  /** Splitting an exported row on commas gives back its fields. */
  lemma RowSplits(m: Match, dateOf: int -> string, timeOf: int -> string)
    requires Exportable(m, dateOf, timeOf)
    ensures Split(CsvRow(m, dateOf, timeOf), Comma) == RowFields(m, dateOf, timeOf)
  {
    var fs := RowFields(m, dateOf, timeOf);
    IntTextPlain(m.winStreak);
    forall i | 0 <= i < |fs|
      ensures ',' !in fs[i]
    {
      if i < 6 {
        assert fs[i] in [dateOf(m.timestamp), timeOf(m.timestamp), m.yourDeck, m.opponentDeck, m.position, m.result, m.note];
      } else if i == 7 {
        assert m.note in [dateOf(m.timestamp), timeOf(m.timestamp), m.yourDeck, m.opponentDeck, m.position, m.result, m.note];
        assert fs[7] == "\"" + m.note + "\"";
      }
    }
    SplitJoin(fs, ',');
  }

  /** The quotes export puts around a note are the ones import removes. */
  lemma NoteRoundTrip(note: string)
    requires '"' !in note
    ensures RemoveQuotes("\"" + note + "\"") == note
  {
    var q := "\"" + note + "\"";
    assert q == ['"'] + note + ['"'];
    FilterConcat(['"'] + note, ['"'], NotQuote);
    FilterConcat(['"'], note, NotQuote);
    RemoveQuotesFacts(note);
    FilterSingle('"', NotQuote);
  }

  /** The import reader turns an exported row back into its game: decks,
      position, result, streak and note come back unchanged, and the instant
      and hour are whatever the date parser makes of the exported date and
      time. */
  lemma RowRoundTrip(m: Match, dateOf: int -> string, timeOf: int -> string, decode: string -> Option<Stamp>, st: Stamp)
    requires Exportable(m, dateOf, timeOf)
    requires decode(DateText(dateOf(m.timestamp), timeOf(m.timestamp))) == Some(st)
    ensures ImportLine(CsvRow(m, dateOf, timeOf), decode) == Parsed(m.(timestamp := st.instant, hour := st.hour))
  {
    RowSplits(m, dateOf, timeOf);
    ParseIntText(m.winStreak);
    NoteRoundTrip(m.note);
  }

  /** The same holds for the seed loader, which trims every field first,
      when the exported fields have no white space at either end. */
  lemma SeedRowRoundTrip(m: Match, dateOf: int -> string, timeOf: int -> string, decode: string -> Option<Stamp>, st: Stamp)
    requires Exportable(m, dateOf, timeOf) && Trimmed(m, dateOf, timeOf)
    requires decode(DateText(dateOf(m.timestamp), timeOf(m.timestamp))) == Some(st)
    ensures SeedRow(CsvRow(m, dateOf, timeOf), decode) == [m.(timestamp := st.instant, hour := st.hour)]
  {
    var fs := RowFields(m, dateOf, timeOf);
    var line := CsvRow(m, dateOf, timeOf);
    var back := m.(timestamp := st.instant, hour := st.hour);
    TrimmedFields(m, dateOf, timeOf);
    SeedFieldsBack(m, dateOf, timeOf, decode, st);
    assert line != [] && Trim(line) == line && Split(line, Comma) == fs by {
      RowTrimmed(m, dateOf, timeOf);
      RowSplits(m, dateOf, timeOf);
    }
    SeedRowOf(line, decode, back);
  }

  /** The trimming parser reads an exported row's fields back as the game. */
  lemma SeedFieldsBack(m: Match, dateOf: int -> string, timeOf: int -> string, decode: string -> Option<Stamp>, st: Stamp)
    requires Trim(dateOf(m.timestamp)) == dateOf(m.timestamp) && Trim(timeOf(m.timestamp)) == timeOf(m.timestamp)
    requires Trim(m.yourDeck) == m.yourDeck && Trim(m.opponentDeck) == m.opponentDeck
    requires Trim(m.position) == m.position && Trim(m.result) == m.result
    requires '"' !in m.note
    requires decode(DateText(dateOf(m.timestamp), timeOf(m.timestamp))) == Some(st)
    ensures ParseRow(RowFields(m, dateOf, timeOf), Trim, decode) == Parsed(m.(timestamp := st.instant, hour := st.hour))
  {
    var date, time := dateOf(m.timestamp), timeOf(m.timestamp);
    var streak, quoted := IntText(m.winStreak), "\"" + m.note + "\"";
    assert RowFields(m, dateOf, timeOf) == [date, time, m.yourDeck, m.opponentDeck, m.position, m.result, streak, quoted];
    IntTextTrimmed(m.winStreak);
    QuotedTrimmed(m.note);
    ParseFields(date, time, m.yourDeck, m.opponentDeck, m.position, m.result, streak, quoted, Trim, decode, st);
    ParseIntText(m.winStreak);
    NoteRoundTrip(m.note);
  }

  /** `ParseRow` on eight named fields whose date the parser accepts. */
  lemma ParseFields(date: string, time: string, yours: string, theirs: string, position: string, result: string,
                    streak: string, note: string, clean: string -> string, decode: string -> Option<Stamp>, st: Stamp)
    requires decode(DateText(clean(date), clean(time))) == Some(st)
    ensures ParseRow([date, time, yours, theirs, position, result, streak, note], clean, decode)
            == Parsed(Match(clean(yours), clean(theirs), clean(position), clean(result), st.instant, st.hour,
                            ParseIntOrZero(clean(streak)), RemoveQuotes(clean(note))))
  {
    ParseRowAccepts([date, time, yours, theirs, position, result, streak, note], clean, decode, st);
  }

  lemma TrimmedFields(m: Match, dateOf: int -> string, timeOf: int -> string)
    requires Trimmed(m, dateOf, timeOf)
    ensures Trim(dateOf(m.timestamp)) == dateOf(m.timestamp) && Trim(timeOf(m.timestamp)) == timeOf(m.timestamp)
    ensures Trim(m.yourDeck) == m.yourDeck && Trim(m.opponentDeck) == m.opponentDeck
    ensures Trim(m.position) == m.position && Trim(m.result) == m.result
  {
    var plain := [dateOf(m.timestamp), timeOf(m.timestamp), m.yourDeck, m.opponentDeck, m.position, m.result];
    assert plain[0] in plain && plain[1] in plain && plain[2] in plain;
    assert plain[3] in plain && plain[4] in plain && plain[5] in plain;
  }

  /** A trimmed, non-blank seed line whose fields parse to a game yields
      that game. */
  lemma SeedRowOf(line: string, decode: string -> Option<Stamp>, m: Match)
    requires line != [] && Trim(line) == line && ParseRow(Split(line, Comma), Trim, decode) == Parsed(m)
    ensures SeedRow(line, decode) == [m]
  {
  }

  /** A quoted text is left alone by `trim`. */
  lemma QuotedTrimmed(note: string)
    ensures Trim("\"" + note + "\"") == "\"" + note + "\""
  {
    TrimFacts("\"" + note + "\"");
  }

  /** The text of an integer is left alone by `trim`. */
  lemma IntTextTrimmed(n: int)
    ensures Trim(IntText(n)) == IntText(n)
  {
    var k: nat := if n < 0 then -n else n;
    var d := NatText(k);
    NatTextDigits(k);
    var t := IntText(n);
    assert t == (if n < 0 then "-" else "") + d;
    var first, last := t[0], t[|t| - 1];
    assert first == '-' || first == d[0];
    assert last == d[|d| - 1];
    NotSpace(first);
    NotSpace(last);
    Unspaced(t);
  }

  /** Digits, the minus sign, the comma and the double quote are not white
      space. */
  lemma NotSpace(c: char)
    requires '0' <= c <= '9' || c == '-' || c == ',' || c == '"'
    ensures !IsSpace(c)
  {
  }

  /** A text that neither starts nor ends with white space is left alone by
      `trim`. */
  lemma Unspaced(s: string)
    requires s != [] && !IsSpace(s[0]) && !IsSpace(s[|s| - 1])
    ensures Trim(s) == s
  {
    TrimFacts(s);
  }

  /** The last part of a join ends it. */
  lemma {:induction false} JoinEnd(parts: seq<string>, sep: string)
    requires |parts| >= 1
    ensures var j, l := Join(parts, sep), parts[|parts| - 1];
            |l| <= |j| && j[|j| - |l|..] == l
  {
    if |parts| > 1 {
      JoinEnd(parts[1..], sep);
      assert parts[1..][|parts| - 2] == parts[|parts| - 1];
    }
  }

  /** An exported row whose date has no white space at its start is left
      alone by `trim`: it starts with the date or a comma and ends with the
      note's closing quote. */
  lemma RowTrimmed(m: Match, dateOf: int -> string, timeOf: int -> string)
    requires Trim(dateOf(m.timestamp)) == dateOf(m.timestamp)
    ensures Trim(CsvRow(m, dateOf, timeOf)) == CsvRow(m, dateOf, timeOf)
  {
    var fs := RowFields(m, dateOf, timeOf);
    assert fs[0] == [] || !IsSpace(fs[0][0]) by {
      TrimFacts(dateOf(m.timestamp));
    }
    assert fs[7][|fs[7]| - 1] == '"';
    JoinTrimmed(fs);
  }

  /** A comma-joined row whose first field is empty or starts with no white
      space, and whose last field ends with a double quote, is left alone by
      `trim`. */
  lemma JoinTrimmed(parts: seq<string>)
    requires |parts| >= 2
    requires parts[0] == [] || !IsSpace(parts[0][0])
    requires var q := parts[|parts| - 1]; q != [] && q[|q| - 1] == '"'
    ensures Trim(Join(parts, Comma)) == Join(parts, Comma)
  {
    var line := Join(parts, Comma);
    JoinFront(parts, Comma);
    JoinEnd(parts, Comma);
    var first, last := line[0], line[|line| - 1];
    if parts[0] == [] {
      assert first == ',';
      NotSpace(first);
    } else {
      assert first == parts[0][0];
    }
    var q := parts[|parts| - 1];
    assert last == q[|q| - 1];
    NotSpace(last);
    Unspaced(line);
  }

  /** A join of two or more parts is the first part, the separator and the
      join of the rest. */
  lemma JoinFront(parts: seq<string>, sep: string)
    requires |parts| >= 2
    ensures Join(parts, sep) == parts[0] + sep + Join(parts[1..], sep)
  {
  }

  lemma JoinPrefix(pre: string, parts: seq<string>, sep: string)
    requires |parts| >= 1
    ensures pre + Join(parts, sep) == Join([pre + parts[0]] + parts[1..], sep)
  {
    var q := [pre + parts[0]] + parts[1..];
    assert q[1..] == parts[1..];
    if |parts| > 1 {
      assert pre + (parts[0] + sep + Join(parts[1..], sep)) == (pre + parts[0]) + sep + Join(parts[1..], sep);
    }
  }

  /** A character that is in neither the parts nor the separator is not in
      their join. */
  lemma {:induction false} JoinAvoids(parts: seq<string>, sep: string, c: char)
    requires c !in sep
    requires forall i :: 0 <= i < |parts| ==> c !in parts[i]
    ensures c !in Join(parts, sep)
  {
    if |parts| > 1 {
      JoinAvoids(parts[1..], sep, c);
      assert c !in parts[0];
    }
  }

  lemma RowPlain(m: Match, dateOf: int -> string, timeOf: int -> string)
    requires Exportable(m, dateOf, timeOf)
    ensures '\n' !in CsvRow(m, dateOf, timeOf)
  {
    var fs := RowFields(m, dateOf, timeOf);
    IntTextPlain(m.winStreak);
    var plain := [dateOf(m.timestamp), timeOf(m.timestamp), m.yourDeck, m.opponentDeck, m.position, m.result, m.note];
    forall i | 0 <= i < |fs|
      ensures '\n' !in fs[i]
    {
      if i < 6 {
        assert fs[i] == plain[i];
      } else if i == 7 {
        assert m.note == plain[6];
        assert fs[7] == ['"'] + m.note + ['"'];
      }
    }
    JoinAvoids(fs, Comma, '\n');
  }

  lemma {:induction false} ImportExportRows(ms: seq<Match>, dateOf: int -> string, timeOf: int -> string, decode: string -> Option<Stamp>)
    requires forall i :: 0 <= i < |ms| ==> Exportable(ms[i], dateOf, timeOf) && ExportedStamp(ms[i], dateOf, timeOf, decode).Some?
    ensures ImportRows(ExportRows(ms, dateOf, timeOf), decode) == Some(RereadAll(ms, dateOf, timeOf, decode))
  {
    if ms != [] {
      var p, m := ms[..|ms| - 1], ms[|ms| - 1];
      var rows := ExportRows(ms, dateOf, timeOf);
      assert rows[..|rows| - 1] == ExportRows(p, dateOf, timeOf);
      ImportExportRows(p, dateOf, timeOf, decode);
      RowRoundTrip(m, dateOf, timeOf, decode, ExportedStamp(m, dateOf, timeOf, decode).value);
      assert ImportReader(decode)(rows[|rows| - 1]) == Parsed(Reread(m, dateOf, timeOf, decode));
      RereadSnoc(ms, dateOf, timeOf, decode);
    }
  }

  /** The seed reader over exported rows. */
  lemma {:induction false} SeedExportRows(ms: seq<Match>, dateOf: int -> string, timeOf: int -> string, decode: string -> Option<Stamp>)
    requires forall i :: 0 <= i < |ms| ==>
               Exportable(ms[i], dateOf, timeOf) && Trimmed(ms[i], dateOf, timeOf) && ExportedStamp(ms[i], dateOf, timeOf, decode).Some?
    ensures SeedRows(ExportRows(ms, dateOf, timeOf), decode) == RereadAll(ms, dateOf, timeOf, decode)
  {
    if ms != [] {
      var p, m := ms[..|ms| - 1], ms[|ms| - 1];
      var rows := ExportRows(ms, dateOf, timeOf);
      assert rows[..|rows| - 1] == ExportRows(p, dateOf, timeOf);
      SeedExportRows(p, dateOf, timeOf, decode);
      SeedRowRoundTrip(m, dateOf, timeOf, decode, ExportedStamp(m, dateOf, timeOf, decode).value);
      assert SeedReader(decode)(rows[|rows| - 1]) == [Reread(m, dateOf, timeOf, decode)];
      RereadSnoc(ms, dateOf, timeOf, decode);
    }
  }

  lemma HeaderPlain()
    ensures '\n' !in "\U{FEFF}" + Header
  {
    assert '\n' !in "\U{FEFF}";
    assert '\n' !in "Date,Time,YourDeck,";
    assert '\n' !in "OpponentDeck,Position,";
    assert '\n' !in "Result,WinStreak,Note";
  }

  /** Text made of a first line and then rows, none holding a newline,
      splits back into them. */
  lemma SplitAfterFirst(pre: string, head: string, rows: seq<string>)
    requires '\n' !in pre + head
    requires forall i :: 0 <= i < |rows| ==> '\n' !in rows[i]
    ensures Split(pre + Join([head] + rows, Newline), Newline)[1..] == rows
  {
    var parts := [head] + rows;
    JoinPrefix(pre, parts, Newline);
    var lines := [pre + head] + rows;
    assert parts[1..] == rows;
    forall i | 0 <= i < |lines|
      ensures '\n' !in lines[i]
    {
      if i > 0 {
        assert lines[i] == rows[i - 1];
      }
    }
    SplitJoin(lines, '\n');
    assert lines[1..] == rows;
  }

  /** The lines of an export after the header line are its rows. */
  lemma ExportLines(ms: seq<Match>, dateOf: int -> string, timeOf: int -> string)
    requires forall i :: 0 <= i < |ms| ==> Exportable(ms[i], dateOf, timeOf)
    ensures Split(ExportCsv(ms, dateOf, timeOf), Newline)[1..] == ExportRows(ms, dateOf, timeOf)
  {
    var rows := ExportRows(ms, dateOf, timeOf);
    HeaderPlain();
    forall i | 0 <= i < |rows|
      ensures '\n' !in rows[i]
    {
      RowPlain(ms[i], dateOf, timeOf);
    }
    SplitAfterFirst("\U{FEFF}", Header, rows);
  }

  /** Export followed by import reads back every game in order, with its
      decks, position, result, streak and note, provided no field holds a
      comma or newline, no note a double quote, and the date parser accepts
      each exported date and time; instant and hour are the parser's. */
  lemma ExportImportRoundTrip(ms: seq<Match>, dateOf: int -> string, timeOf: int -> string, decode: string -> Option<Stamp>)
    requires forall i :: 0 <= i < |ms| ==> Exportable(ms[i], dateOf, timeOf) && ExportedStamp(ms[i], dateOf, timeOf, decode).Some?
    ensures ImportRows(Split(ExportCsv(ms, dateOf, timeOf), Newline)[1..], decode) == Some(RereadAll(ms, dateOf, timeOf, decode))
  {
    ExportLines(ms, dateOf, timeOf);
    ImportExportRows(ms, dateOf, timeOf, decode);
  }

  /** `loadCSVData` on an exported file reads back every game in the same
      way, when the exported fields also have no white space at either end. */
  lemma ExportLoadRoundTrip(ms: seq<Match>, dateOf: int -> string, timeOf: int -> string, decode: string -> Option<Stamp>)
    requires forall i :: 0 <= i < |ms| ==>
               Exportable(ms[i], dateOf, timeOf) && Trimmed(ms[i], dateOf, timeOf) && ExportedStamp(ms[i], dateOf, timeOf, decode).Some?
    ensures SeedData(Some(ExportCsv(ms, dateOf, timeOf)), decode) == RereadAll(ms, dateOf, timeOf, decode)
  {
    ExportLines(ms, dateOf, timeOf);
    SeedExportRows(ms, dateOf, timeOf, decode);
  }

  /** When the date parser gives every exported game back its own instant
      and hour, importing a list's own export finds nothing new. */
  lemma ReimportExport(ms: seq<Match>, dateOf: int -> string, timeOf: int -> string, decode: string -> Option<Stamp>)
    requires forall i :: 0 <= i < |ms| ==> Exportable(ms[i], dateOf, timeOf)
    requires forall i :: 0 <= i < |ms| ==>
               ExportedStamp(ms[i], dateOf, timeOf, decode) == Some(Stamp(ms[i].timestamp, ms[i].hour))
    ensures ImportOf(ExportCsv(ms, dateOf, timeOf), ms, decode) == Failed(NoNewMatches)
  {
    ExportImportRoundTrip(ms, dateOf, timeOf, decode);
    assert RereadAll(ms, dateOf, timeOf, decode) == ms;
    forall j | 0 <= j < |ms|
      ensures ms[j].timestamp in Stamps(ms)
    {
    }
    MergeNothingNew(ms, ms);
  }

  /** A game whose exported date and time read back as an instant no game
      has (a game stamped to the second or millisecond, say) is imported
      again as a new game: re-importing an export duplicates it. */
  lemma ReimportDuplicates(ms: seq<Match>, dateOf: int -> string, timeOf: int -> string, decode: string -> Option<Stamp>, j: nat)
    requires forall i :: 0 <= i < |ms| ==> Exportable(ms[i], dateOf, timeOf) && ExportedStamp(ms[i], dateOf, timeOf, decode).Some?
    requires j < |ms| && Reread(ms[j], dateOf, timeOf, decode).timestamp !in Stamps(ms)
    ensures var r := ImportOf(ExportCsv(ms, dateOf, timeOf), ms, decode);
            r.Imported? && Reread(ms[j], dateOf, timeOf, decode) in r.newMatches
  {
    ExportImportRoundTrip(ms, dateOf, timeOf, decode);
    var back := RereadAll(ms, dateOf, timeOf, decode);
    assert back[j] == Reread(ms[j], dateOf, timeOf, decode);
    FilterMembers(back, IsNewTo(ms), back[j]);
  }
}
