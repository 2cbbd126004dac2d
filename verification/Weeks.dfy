/** Weekly signal windows, counted in server-local weeks from the first Monday on. */
module Weeks {
  import opened Ordering
  import opened Episodes
  import opened MonthLedger

  const WEEK := 7 * DAY
  const TARGET := 3
  const MONDAY := 1

  datatype WeekRow = WeekRow(index: nat, startUtc: int, endUtc: int, signals: nat, target: nat, status: Status)

  /** Days since the epoch on the server's clock. */
  function ServerDay(utc: int, offsetMinutes: int): int {
    (utc + offsetMinutes * 60) / DAY
  }

  function ServerDayStart(utc: int, offsetMinutes: int): int {
    ServerDay(utc, offsetMinutes) * DAY - offsetMinutes * 60
  }

  /** Sunday is 0; the epoch day was a Thursday. */
  function Weekday(day: int): int {
    (day + 4) % 7
  }

  function WeeklyCountingStart(first: EpisodeValue): int {
    var seconds := Seconds(first.firstEntryMsc);
    var day := Weekday(ServerDay(seconds, first.offsetMinutes));
    var dayStart := ServerDayStart(seconds, first.offsetMinutes);
    if day == MONDAY then dayStart else dayStart + (8 - day) % 7 * DAY
  }

  /** Monday, 5 January 1970. */
  const EPOCH_MONDAY := 4

  /** Counting starts at a server-local Monday midnight, the first one from the day of the first entry on. */
  lemma CountingStartsOnFirstMonday(first: EpisodeValue)
    ensures
      var start := WeeklyCountingStart(first);
      var dayStart := ServerDayStart(Seconds(first.firstEntryMsc), first.offsetMinutes);
      && start == ServerDayStart(start, first.offsetMinutes)
      && (ServerDay(start, first.offsetMinutes) - EPOCH_MONDAY) % 7 == 0
      && dayStart <= start < dayStart + 7 * DAY
      && dayStart <= Seconds(first.firstEntryMsc) < dayStart + DAY
  {
    var seconds := Seconds(first.firstEntryMsc);
    var day := ServerDay(seconds, first.offsetMinutes);
    var wait := if Weekday(day) == MONDAY then 0 else (8 - Weekday(day)) % 7;
    var start := WeeklyCountingStart(first);
    assert start + first.offsetMinutes * 60 == (day + wait) * DAY;
    assert ServerDay(start, first.offsetMinutes) == day + wait;
  }

  /** How many episodes were entered in [from, to). */
  function EntriesIn(eps: seq<EpisodeValue>, from: int, to: int): nat {
    if eps == [] then 0
    else
      EntriesIn(eps[..|eps| - 1], from, to)
      + if Within(Seconds(eps[|eps| - 1].firstEntryMsc), from, to) then 1 else 0
  }

  lemma {:induction false} EntriesSplit(eps: seq<EpisodeValue>, from: int, mid: int, to: int)
    requires from <= mid <= to
    ensures EntriesIn(eps, from, to) == EntriesIn(eps, from, mid) + EntriesIn(eps, mid, to)
  {
    if eps != [] { EntriesSplit(eps[..|eps| - 1], from, mid, to); }
  }

  /** An entry from `start` on lies in exactly the week its rounded-down distance names. */
  lemma WeekOfEntry(at: int, start: int, k: nat)
    requires at >= start
    ensures Within(at, start + k * WEEK, start + (k + 1) * WEEK) <==> k == (at - start) / WEEK
  {
  }

  predicate EntersBefore(a: EpisodeValue, b: EpisodeValue) { a.firstEntryMsc <= b.firstEntryMsc }

  /** The episode the weeks are anchored to is one entered no later than any other. */
  lemma AnchorIsEarliest(eps: seq<EpisodeValue>, e: EpisodeValue)
    requires e in eps
    ensures var sorted := StableSort(eps, EntersBefore); sorted[0] in eps && EntersBefore(sorted[0], e)
  {
    var sorted := StableSort(eps, EntersBefore);
    StableSortSorted(eps, EntersBefore);
    SameMembers(eps, sorted, e);
    SameMembers(eps, sorted, sorted[0]);
  }

  ghost predicate WeekAt(row: WeekRow, k: nat, start: int, eps: seq<EpisodeValue>, now: int) {
    && row.index == k && row.target == TARGET
    && row.startUtc == start + k * WEEK && row.endUtc == start + (k + 1) * WEEK
    && row.signals == EntriesIn(eps, row.startUtc, row.endUtc)
    && (row.status == InProgress <==> now < row.endUtc)
    && (row.status == Pass <==> now >= row.endUtc && row.signals >= TARGET)
    && (row.status == Fail <==> now >= row.endUtc && row.signals < TARGET)
  }

  ghost predicate WeeksFrom(rows: seq<WeekRow>, start: int, eps: seq<EpisodeValue>, now: int) {
    forall k :: 0 <= k < |rows| ==> WeekAt(rows[k], k, start, eps, now)
  }

  /** The windows run from the counting start to the one that holds `now`. */
  method BuildWeeks(eps: seq<EpisodeValue>, now: int) returns (rows: seq<WeekRow>)
    ensures eps == [] ==> rows == []
    ensures eps != [] ==>
      var start := WeeklyCountingStart(StableSort(eps, EntersBefore)[0]);
      && WeeksFrom(rows, start, eps, now)
      && (now < start ==> rows == [])
      && (now >= start ==> rows != [] && rows[|rows| - 1].startUtc <= now < rows[|rows| - 1].endUtc)
  {
    hide WeeklyCountingStart, StableSort;
    if eps == [] {
      return [];
    }
    var start := WeeklyCountingStart(StableSort(eps, EntersBefore)[0]);
    if now < start {
      return [];
    }
    var total := (now - start) / WEEK + 1;
    var signals := CountSignals(eps, start, total);
    rows := [];
    var k := 0;
    while k < total
      invariant 0 <= k <= total && |rows| == k
      invariant WeeksFrom(rows, start, eps, now)
    {
      hide EntriesIn;
      var end := start + (k + 1) * WEEK;
      var status := if now < end then InProgress else if signals[k] >= TARGET then Pass else Fail;
      rows := rows + [WeekRow(k, start + k * WEEK, end, signals[k], TARGET, status)];
      k := k + 1;
    }
    LastWeek(start, now);
    assert WeekAt(rows[total - 1], total - 1, start, eps, now);
  }

  lemma LastWeek(start: int, now: int)
    requires now >= start
    ensures start + (now - start) / WEEK * WEEK <= now < start + ((now - start) / WEEK + 1) * WEEK
  {
  }

  method CountSignals(eps: seq<EpisodeValue>, start: int, total: nat) returns (signals: array<nat>)
    ensures fresh(signals) && signals.Length == total
    ensures forall k :: 0 <= k < total ==> signals[k] == EntriesIn(eps, start + k * WEEK, start + (k + 1) * WEEK)
  {
    signals := new nat[total](_ => 0);
    var i := 0;
    while i < |eps|
      invariant 0 <= i <= |eps|
      invariant forall k :: 0 <= k < total ==> signals[k] == EntriesIn(eps[..i], start + k * WEEK, start + (k + 1) * WEEK)
    {
      assert eps[..i + 1][..i] == eps[..i];
      var at := Seconds(eps[i].firstEntryMsc);
      if at >= start {
        forall k: nat ensures Within(at, start + k * WEEK, start + (k + 1) * WEEK) <==> k == (at - start) / WEEK {
          WeekOfEntry(at, start, k);
        }
        var index := (at - start) / WEEK;
        if index < total {
          signals[index] := signals[index] + 1;
        }
      }
      i := i + 1;
    }
    assert eps[..i] == eps;
  }

  function TotalSignals(rows: seq<WeekRow>): nat {
    if rows == [] then 0 else TotalSignals(rows[..|rows| - 1]) + rows[|rows| - 1].signals
  }

  /** Windows are contiguous and disjoint, and each entry of the span falls in exactly one of them. */
  lemma WeeksPartitionSpan(rows: seq<WeekRow>, start: int, eps: seq<EpisodeValue>, now: int, at: int)
    requires WeeksFrom(rows, start, eps, now) && start <= at < start + |rows| * WEEK
    ensures forall k :: 0 < k < |rows| ==> rows[k].startUtc == rows[k - 1].endUtc
    ensures exists k :: 0 <= k < |rows| && Within(at, rows[k].startUtc, rows[k].endUtc)
    ensures forall i, j | 0 <= i < |rows| && 0 <= j < |rows| ::
      Within(at, rows[i].startUtc, rows[i].endUtc) && Within(at, rows[j].startUtc, rows[j].endUtc) ==> i == j
  {
    var k := (at - start) / WEEK;
    WeekOfEntry(at, start, k);
    assert WeekAt(rows[k], k, start, eps, now);
    assert Within(at, rows[k].startUtc, rows[k].endUtc);
    forall i | 0 <= i < |rows| && Within(at, rows[i].startUtc, rows[i].endUtc) ensures i == k {
      WeekOfEntry(at, start, i);
    }
  }

  /** The signal counts add up to the number of episodes entered in the span. */
  lemma {:induction false} SignalsSumToEntries(rows: seq<WeekRow>, start: int, eps: seq<EpisodeValue>, now: int)
    requires WeeksFrom(rows, start, eps, now)
    ensures TotalSignals(rows) == EntriesIn(eps, start, start + |rows| * WEEK)
  {
    if rows == [] {
      NoEntriesInEmptyWindow(eps, start);
    } else {
      var k := |rows| - 1;
      SignalsSumToEntries(rows[..k], start, eps, now);
      EntriesSplit(eps, start, start + k * WEEK, start + (k + 1) * WEEK);
    }
  }

  lemma {:induction false} NoEntriesInEmptyWindow(eps: seq<EpisodeValue>, at: int)
    ensures EntriesIn(eps, at, at) == 0
  {
    if eps != [] { NoEntriesInEmptyWindow(eps[..|eps| - 1], at); }
  }
}
