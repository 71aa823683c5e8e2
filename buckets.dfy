/** Win/loss counts over fixed buckets: `getPositionStats` (going first or
    second) and `getTimeStats` (four parts of the day) in
    utils/stats-utils.ts. Both run a counting loop; each loop is proved to
    compute the counts that filtering the games into the bucket gives. */
module Buckets {
  import opened Sequences
  import opened Matches

  /** The running counts of one bucket. */
  datatype Counter = Counter(wins: nat, losses: nat)

  /** `match.result === "win" ? wins++ : losses++` */
  function Add(c: Counter, m: Match): Counter
  {
    if IsWin(m) then Counter(c.wins + 1, c.losses) else Counter(c.wins, c.losses + 1)
  }

  /** The counts of a group of games, read off the group directly. */
  function CounterOf(g: seq<Match>): Counter
  {
    Counter(Wins(g), |g| - Wins(g))
  }

  /** The games of the first `i + 1` that satisfy `p` are those of the
      first `i`, then game `i` if it satisfies `p`; the counts follow. */
  lemma CounterStep(ms: seq<Match>, i: nat, p: Match -> bool)
    requires i < |ms|
    ensures CounterOf(Filter(ms[..i + 1], p))
         == if p(ms[i]) then Add(CounterOf(Filter(ms[..i], p)), ms[i]) else CounterOf(Filter(ms[..i], p))
  {
    assert ms[..i + 1][..i] == ms[..i];
    var f := Filter(ms[..i], p);
    if p(ms[i]) {
      WinsConcat(f, [ms[i]]);
      FilterSingle(ms[i], IsWin);
    } else {
      assert Filter(ms[..i + 1], p) == f;
    }
  }

  /** One bucket of `getPositionStats`. */
  datatype Bucket = Bucket(wins: nat, losses: nat, total: nat, winRate: real)

  /** The object literal built from a bucket's counts. */
  function Finish(c: Counter): Bucket
  {
    Bucket(c.wins, c.losses, c.wins + c.losses, WinRate(c.wins, c.wins + c.losses))
  }

  function BucketOf(g: seq<Match>): Bucket
  {
    Finish(CounterOf(g))
  }

  datatype PositionStats = PositionStats(first: Bucket, second: Bucket)

  /** Games with position "first" go in the first bucket; every other
      position counts as going second. */
  function PositionStatsOf(ms: seq<Match>): PositionStats
  {
    PositionStats(BucketOf(Filter(ms, IsFirst)), BucketOf(Filter(ms, NotFirst)))
  }

  /** `getPositionStats`. */
  method GetPositionStats(ms: seq<Match>) returns (r: PositionStats)
    ensures r == PositionStatsOf(ms)
  {
    var first, second := Counter(0, 0), Counter(0, 0);
    for i := 0 to |ms|
      invariant first == CounterOf(Filter(ms[..i], IsFirst))
      invariant second == CounterOf(Filter(ms[..i], NotFirst))
    {
      CounterStep(ms, i, IsFirst);
      CounterStep(ms, i, NotFirst);
      if ms[i].position == "first" {
        first := Add(first, ms[i]);
      } else {
        second := Add(second, ms[i]);
      }
    }
    assert ms[..|ms|] == ms;
    r := PositionStats(Finish(first), Finish(second));
  }

  lemma {:induction false} PositionPartition(ms: seq<Match>)
    ensures |Filter(ms, IsFirst)| + |Filter(ms, NotFirst)| == |ms|
    ensures Wins(Filter(ms, IsFirst)) + Wins(Filter(ms, NotFirst)) == Wins(ms)
  {
    if ms != [] {
      var p, m := ms[..|ms| - 1], ms[|ms| - 1];
      PositionPartition(p);
      assert ms == p + [m];
      WinsConcat(p, [m]);
      FilterSingle(m, IsWin);
      var f, n := Filter(p, IsFirst), Filter(p, NotFirst);
      if IsFirst(m) {
        assert Filter(ms, IsFirst) == f + [m];
        assert Filter(ms, NotFirst) == n;
        WinsConcat(f, [m]);
      } else {
        assert Filter(ms, IsFirst) == f;
        assert Filter(ms, NotFirst) == n + [m];
        WinsConcat(n, [m]);
      }
    }
  }

  /** Every game is in exactly one of the two buckets: the totals add up to
      the number of games and the wins to the number of wins. Each bucket's
      wins and losses add up to its total, and its rate is 0 for no wins. */
  lemma PositionStatsFacts(ms: seq<Match>)
    ensures var r := PositionStatsOf(ms);
            && r.first.total + r.second.total == |ms|
            && r.first.wins + r.second.wins == Wins(ms)
            && r.first.total == |Filter(ms, IsFirst)|
            && r.first.wins + r.first.losses == r.first.total
            && r.second.wins + r.second.losses == r.second.total
            && (r.first.winRate == 0.0 <==> r.first.wins == 0)
            && (r.second.winRate == 0.0 <==> r.second.wins == 0)
  {
    PositionPartition(ms);
  }

  /** The four parts of the day `getTimeStats` reports, in its order. */
  datatype Slot = Morning | Afternoon | Evening | Night

  /** 6-11 is morning, 12-17 afternoon, 18-23 evening and 0-5 night. */
  function SlotOf(hour: Hour): Slot
  {
    if 6 <= hour < 12 then Morning
    else if 12 <= hour < 18 then Afternoon
    else if 18 <= hour < 24 then Evening
    else Night
  }

  function SlotName(s: Slot): string
  {
    match s
    case Morning => "morning"
    case Afternoon => "afternoon"
    case Evening => "evening"
    case Night => "night"
  }

  /** A game belongs to the slot of its local hour. */
  function InSlot(s: Slot): Match -> bool
  {
    (m: Match) => SlotOf(m.hour) == s
  }

  /** One entry of `getTimeStats`. */
  datatype TimeStats = TimeStats(time: string, wins: nat, losses: nat, total: nat, winRate: real)

  function TimeRow(s: Slot, c: Counter): TimeStats
  {
    TimeStats(SlotName(s), c.wins, c.losses, c.wins + c.losses, WinRate(c.wins, c.wins + c.losses))
  }

  function SlotRow(s: Slot, ms: seq<Match>): TimeStats
  {
    TimeRow(s, CounterOf(Filter(ms, InSlot(s))))
  }

  function Played(t: TimeStats): bool
  {
    t.total > 0
  }

  function TimeTotal(t: TimeStats): int
  {
    t.total
  }

  /** One row per slot, in the order of the `timeSlots` object. */
  function SlotRows(ms: seq<Match>): seq<TimeStats>
  {
    [SlotRow(Morning, ms), SlotRow(Afternoon, ms), SlotRow(Evening, ms), SlotRow(Night, ms)]
  }

  /** The four slots in order, without the ones no game fell in. */
  function TimeStatsOf(ms: seq<Match>): seq<TimeStats>
  {
    Filter(SlotRows(ms), Played)
  }

  function CounterAt(ms: seq<Match>, i: nat, s: Slot): Counter
    requires i <= |ms|
  {
    CounterOf(Filter(ms[..i], InSlot(s)))
  }

  /** The counter object of `getTimeStats`, one field per slot. */
  datatype SlotCounts = SlotCounts(morning: Counter, afternoon: Counter, evening: Counter, night: Counter)

  /** `timeSlots[slot].wins++` or `timeSlots[slot].losses++`. */
  function Bump(c: SlotCounts, s: Slot, m: Match): SlotCounts
  {
    match s
    case Morning => c.(morning := Add(c.morning, m))
    case Afternoon => c.(afternoon := Add(c.afternoon, m))
    case Evening => c.(evening := Add(c.evening, m))
    case Night => c.(night := Add(c.night, m))
  }

  ghost predicate SlotsCounted(ms: seq<Match>, i: nat, c: SlotCounts)
    requires i <= |ms|
  {
    && c.morning == CounterAt(ms, i, Morning)
    && c.afternoon == CounterAt(ms, i, Afternoon)
    && c.evening == CounterAt(ms, i, Evening)
    && c.night == CounterAt(ms, i, Night)
  }

  lemma SlotStep(ms: seq<Match>, i: nat, c: SlotCounts)
    requires i < |ms| && SlotsCounted(ms, i, c)
    ensures SlotsCounted(ms, i + 1, Bump(c, SlotOf(ms[i].hour), ms[i]))
  {
    CounterStep(ms, i, InSlot(Morning));
    CounterStep(ms, i, InSlot(Afternoon));
    CounterStep(ms, i, InSlot(Evening));
    CounterStep(ms, i, InSlot(Night));
  }

  /** The counts a finished loop holds give the rows of `SlotRows`. */
  function CountedRows(c: SlotCounts): seq<TimeStats>
  {
    [TimeRow(Morning, c.morning), TimeRow(Afternoon, c.afternoon), TimeRow(Evening, c.evening), TimeRow(Night, c.night)]
  }

  /** `getTimeStats`. The local hour of each game is the one its record
      carries. */
  method GetTimeStats(ms: seq<Match>) returns (r: seq<TimeStats>)
    ensures r == TimeStatsOf(ms)
  {
    var none := Counter(0, 0);
    var counts := SlotCounts(none, none, none, none);
    for i := 0 to |ms|
      invariant SlotsCounted(ms, i, counts)
    {
      SlotStep(ms, i, counts);
      counts := Bump(counts, SlotOf(ms[i].hour), ms[i]);
    }
    assert ms[..|ms|] == ms;
    r := Filter(CountedRows(counts), Played);
  }

  lemma {:induction false} SlotPartition(ms: seq<Match>)
    ensures |Filter(ms, InSlot(Morning))| + |Filter(ms, InSlot(Afternoon))|
          + |Filter(ms, InSlot(Evening))| + |Filter(ms, InSlot(Night))| == |ms|
  {
    if ms != [] {
      SlotPartition(ms[..|ms| - 1]);
    }
  }

  lemma {:induction false} SumByDropZero<T>(s: seq<T>, p: T -> bool, f: T -> int)
    requires forall x :: !p(x) ==> f(x) == 0
    ensures SumBy(Filter(s, p), f) == SumBy(s, f)
  {
    if s != [] {
      var s0, x := s[..|s| - 1], s[|s| - 1];
      SumByDropZero(s0, p, f);
      var fs, fx := Filter(s0, p), if p(x) then [x] else [];
      assert Filter(s, p) == fs + fx;
      assert SumBy(s, f) == SumBy(s0, f) + f(x);
      SumByConcat(fs, fx, f);
      SumBySingle(x, f);
    }
  }

  lemma SumBySingle<T>(x: T, f: T -> int)
    ensures SumBy([x], f) == f(x)
  {
    assert [x][..0] == [];
  }

  lemma SumByFour<T>(a: T, b: T, c: T, d: T, f: T -> int)
    ensures SumBy([a, b, c, d], f) == f(a) + f(b) + f(c) + f(d)
  {
    assert [a, b, c, d][..3] == [a, b, c];
    assert [a, b, c][..2] == [a, b];
    assert [a, b][..1] == [a];
    assert [a][..0] == [];
    assert SumBy([a], f) == f(a);
    assert SumBy([a, b], f) == f(a) + f(b);
    assert SumBy([a, b, c], f) == f(a) + f(b) + f(c);
  }

  /** Every game falls in exactly one slot, so the reported totals add up
      to the number of games. */
  lemma TimeStatsTotal(ms: seq<Match>)
    ensures SumBy(TimeStatsOf(ms), TimeTotal) == |ms|
  {
    SumByDropZero(SlotRows(ms), Played, TimeTotal);
    SlotRowsSum(ms);
  }

  /** The four rows together count every game once. */
  lemma SlotRowsSum(ms: seq<Match>)
    ensures SumBy(SlotRows(ms), TimeTotal) == |ms|
  {
    SumByFour(SlotRow(Morning, ms), SlotRow(Afternoon, ms), SlotRow(Evening, ms), SlotRow(Night, ms), TimeTotal);
    SlotRowTotal(ms, Morning);
    SlotRowTotal(ms, Afternoon);
    SlotRowTotal(ms, Evening);
    SlotRowTotal(ms, Night);
    SlotPartition(ms);
  }

  lemma SlotRowListed(ms: seq<Match>, s: Slot)
    ensures SlotRow(s, ms) in SlotRows(ms)
  {
  }

  lemma SlotOccupied(ms: seq<Match>, s: Slot)
    ensures Filter(ms, InSlot(s)) != [] <==> exists j :: 0 <= j < |ms| && SlotOf(ms[j].hour) == s
  {
    var g := Filter(ms, InSlot(s));
    if g != [] {
      FilterMembers(ms, InSlot(s), g[0]);
      var j :| 0 <= j < |ms| && ms[j] == g[0];
    }
    if exists j :: 0 <= j < |ms| && SlotOf(ms[j].hour) == s {
      var j :| 0 <= j < |ms| && SlotOf(ms[j].hour) == s;
      FilterMembers(ms, InSlot(s), ms[j]);
    }
  }

  /** A slot is reported exactly when some game fell in it. */
  lemma TimeStatsReported(ms: seq<Match>, s: Slot)
    ensures SlotRow(s, ms) in TimeStatsOf(ms) <==> exists j :: 0 <= j < |ms| && SlotOf(ms[j].hour) == s
  {
    var row, g := SlotRow(s, ms), Filter(ms, InSlot(s));
    FilterMembers(SlotRows(ms), Played, row);
    SlotRowListed(ms, s);
    SlotOccupied(ms, s);
    SlotRowTotal(ms, s);
    assert Played(row) <==> g != [];
  }

  lemma SlotRowTotal(ms: seq<Match>, s: Slot)
    ensures SlotRow(s, ms).total == |Filter(ms, InSlot(s))|
  {
    var g := Filter(ms, InSlot(s));
    WinsBound(g);
  }

  /** Every reported entry is a slot's row, and no game fell in a slot
      that is left out. */
  lemma TimeStatsEntries(ms: seq<Match>)
    ensures forall i :: 0 <= i < |TimeStatsOf(ms)| ==>
              TimeStatsOf(ms)[i].total > 0 && TimeStatsOf(ms)[i] in SlotRows(ms)
  {
    var rows := SlotRows(ms);
    forall i | 0 <= i < |TimeStatsOf(ms)|
      ensures TimeStatsOf(ms)[i].total > 0 && TimeStatsOf(ms)[i] in rows
    {
      FilterMembers(rows, Played, TimeStatsOf(ms)[i]);
    }
  }
}
