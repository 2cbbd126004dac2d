/** What the rules say about deals and episodes, with every window, limit and comparison written out. */
module RuleMeaning {
  import opened Ordering
  import opened Episodes
  import opened EpisodeDeals
  import opened MonthLedger
  import opened Weeks
  import opened Sessions
  import opened Drawdown

  // ---- Repeated signals ----

  /** Milliseconds on the server's clock. */
  function ServerTime(e: EpisodeValue): int {
    e.firstEntryMsc + e.offsetMinutes * 60_000
  }

  function EntryDay(e: EpisodeValue): int {
    ServerTime(e) / 86_400_000
  }

  /** The session an entry falls into: 1 from two to eleven, 2 until 18:00 (winter 19:00), 3 until 23:00 (winter midnight). */
  function SessionOf(e: EpisodeValue, summer: int -> bool): nat {
    var minute := ServerTime(e) % 86_400_000 / 60_000;
    if summer(EntryDay(e)) then
      (if minute < 120 || minute >= 1380 then 0 else if minute < 660 then 1 else if minute < 1080 then 2 else 3)
    else
      (if minute < 120 then 0 else if minute < 660 then 1 else if minute < 1140 then 2 else 3)
  }

  predicate InMonth(e: EpisodeValue, start: int, month: int) {
    month < 0
    || (start > 0 && start * 1000 + month * 2_592_000_000 <= e.firstEntryMsc < start * 1000 + (month + 1) * 2_592_000_000)
  }

  ghost predicate EnteredFirst(a: EpisodeValue, b: EpisodeValue) {
    || a.firstEntryMsc < b.firstEntryMsc
    || (a.firstEntryMsc == b.firstEntryMsc && Ascends(UnitsOf(a.openingDealTicket), UnitsOf(b.openingDealTicket)))
  }

  predicate SameProductAndSession(a: EpisodeValue, b: EpisodeValue, summer: int -> bool) {
    a.canonicalSymbol == b.canonicalSymbol && EntryDay(a) == EntryDay(b) && SessionOf(a, summer) == SessionOf(b, summer)
  }

  lemma SlotMeans(e: EpisodeValue, summer: int -> bool)
    ensures var s := SlotOf(e, summer);
      && s.symbol == e.canonicalSymbol && s.day == EntryDay(e)
      && (s.session == Outside <==> SessionOf(e, summer) == 0) && (s.session == Asia <==> SessionOf(e, summer) == 1)
      && (s.session == Europe <==> SessionOf(e, summer) == 2) && (s.session == Us <==> SessionOf(e, summer) == 3)
  {
    EffectiveSessions(LocalMinute(e.firstEntryMsc, e.offsetMinutes), summer(EntryDay(e)));
  }

  lemma MonthMeans(e: EpisodeValue, start: int, month: int)
    ensures Selected(e, start, month) <==> InMonth(e, start, month)
  {
    if start > 0 && month >= 0 { WholeMonths(e.firstEntryMsc, start, month); }
  }

  lemma WholeMonths(at: int, start: int, month: int)
    ensures (at / 1000 - start) / 2_592_000 == month
      <==> start * 1000 + month * 2_592_000_000 <= at < start * 1000 + (month + 1) * 2_592_000_000
  {
    var q := (at / 1000 - start) / 2_592_000;
    assert q * 2_592_000 <= at / 1000 - start < (q + 1) * 2_592_000;
  }

  /** A counted signal: it lies in the month and in a session, and an earlier one of the month has its product, its server
      day and its session. */
  ghost predicate IsRepeat(eps: seq<EpisodeValue>, summer: int -> bool, start: int, month: int, i: nat) {
    && i < |eps| && InMonth(eps[i], start, month) && SessionOf(eps[i], summer) != 0
    && exists j :: 0 <= j < |eps| && j != i && InMonth(eps[j], start, month)
                   && EnteredFirst(eps[j], eps[i]) && SameProductAndSession(eps[j], eps[i], summer)
  }

  lemma PrecedesMeans(eps: seq<EpisodeValue>, summer: int -> bool, start: int, month: int, j: nat, i: nat)
    requires i < |eps| && j < |eps|
    ensures Precedes(eps, summer, start, month, j, i)
      <==> j != i && InMonth(eps[j], start, month) && EnteredFirst(eps[j], eps[i]) && SameProductAndSession(eps[j], eps[i], summer)
  {
    hide SlotOf, SessionOf, Selected, InMonth, Less, EntryDay, UnitsOf;
    SlotMeans(eps[i], summer);
    SlotMeans(eps[j], summer);
    MonthMeans(eps[j], start, month);
    LessIsByUnits(eps[j].openingDealTicket, eps[i].openingDealTicket);
  }

  /** The signals that the fifth rule counts. */
  lemma RepeatsAre(eps: seq<EpisodeValue>, summer: int -> bool, start: int, month: int, i: nat)
    ensures i in Repeats(eps, summer, start, month) <==> IsRepeat(eps, summer, start, month, i)
  {
    hide SlotOf, Selected, InMonth, Precedes, EnteredFirst, SameProductAndSession, SessionOf;
    if i < |eps| {
      SlotMeans(eps[i], summer);
      MonthMeans(eps[i], start, month);
      forall j: nat | j < |eps|
        ensures Precedes(eps, summer, start, month, j, i)
          <==> j != i && InMonth(eps[j], start, month) && EnteredFirst(eps[j], eps[i]) && SameProductAndSession(eps[j], eps[i], summer)
      {
        PrecedesMeans(eps, summer, start, month, j, i);
      }
    }
  }

  // ---- Short holds ----

  predicate ClosedEarly(e: EpisodeValue) {
    !e.open && e.finalCloseMsc - e.firstEntryMsc < 900_000
  }

  /** The sixth rule: closed within a quarter of an hour is a violation unless a stop or target was more than thirty pips away,
      and cannot be told where the evidence has gaps; an open episode is fine after a quarter of an hour. */
  lemma C6Says(e: EpisodeValue, nowMsc: int)
    ensures C6EpisodeStatus(e, nowMsc) == Fail <==> ClosedEarly(e) && e.maxSltpDistancePips <= 30.0 && e.sltpEvidenceComplete
    ensures C6EpisodeStatus(e, nowMsc) == NotVerifiable
      <==> ClosedEarly(e) && e.maxSltpDistancePips <= 30.0 && !e.sltpEvidenceComplete
    ensures C6EpisodeStatus(e, nowMsc) == InProgress <==> e.open && nowMsc - e.firstEntryMsc < 900_000
    ensures C6EpisodeStatus(e, nowMsc) != InsufficientData
  {
  }

  /** The size of a pip as the deal's product tells it; none for what is no currency pair. */
  function Pip(d: Deal): real {
    if d.pipSizeOverride > 0.0 then d.pipSizeOverride
    else if !d.forexCalc || |d.base| != 3 || |d.quote| != 3 || d.point <= 0.0 then 0.0
    else if d.digits in {3, 5} then 10.0 * d.point
    else d.point
  }

  /** A price more than thirty pips away from the deal's. */
  predicate IsFar(d: Deal, price: real) {
    d.price - price > 30.0 * Pip(d) || price - d.price > 30.0 * Pip(d)
  }

  /** The deal shows a stop or a target more than thirty pips away. */
  predicate ShowsFarStop(d: Deal) {
    d.sltpSnapshotReliable && Pip(d) > 0.0 && ((d.sl > 0.0 && IsFar(d, d.sl)) || (d.tp > 0.0 && IsFar(d, d.tp)))
  }

  lemma FarMeans(d: Deal, price: real)
    requires d.PipSize() > 0.0
    ensures Abs(d.price - price) / d.PipSize() > 30.0 <==> IsFar(d, price)
  {
    var (x, p) := (Abs(d.price - price), d.PipSize());
    assert Pip(d) == p;
    MoreThanThirty(x, p);
  }

  lemma MoreThanThirty(x: real, p: real)
    requires p > 0.0
    ensures x / p > 30.0 <==> x > 30.0 * p
  {
    var q := x / p;
    assert q * p == x;
    TimesPositive(q, 30.0, p);
  }

  lemma TimesPositive(q: real, c: real, p: real)
    requires p > 0.0
    ensures q > c <==> q * p > c * p
  {
    if q > c { assert (q - c) * p > 0.0; }
    if q <= c { assert (c - q) * p >= 0.0; }
  }

  lemma ObservedFar(seen: real, d: Deal)
    ensures ObservedPips(seen, d) > 30.0 <==> seen > 30.0 || ShowsFarStop(d)
  {
    if d.sltpSnapshotReliable && d.PipSize() > 0.0 {
      FarMeans(d, d.sl);
      FarMeans(d, d.tp);
    }
  }

  lemma {:induction false} WidestFar(deals: seq<Deal>, own: seq<nat>)
    requires forall i :: 0 <= i < |own| ==> own[i] < |deals|
    ensures Widest(deals, own) > 30.0 <==> exists i :: 0 <= i < |own| && ShowsFarStop(deals[own[i]])
  {
    hide ObservedPips, ShowsFarStop;
    if own != [] {
      var n := |own| - 1;
      WidestFar(deals, own[..n]);
      ObservedFar(Widest(deals, own[..n]), deals[own[n]]);
      assert forall i :: 0 <= i < n ==> own[..n][i] == own[i];
    }
  }

  /** An episode of a deal stream violates the sixth rule exactly when it is closed, its last deal came within a quarter of
      an hour of its first, none of its deals shows a stop or target more than thirty pips away, and all have complete evidence. */
  lemma ShortHoldFailsIff(deals: seq<Deal>, k: nat, nowMsc: int)
    requires (forall d :: d in deals ==> d.volume >= 0.0) && k < |Run(deals)|
    ensures
      var own := Own(deals, k);
      && own != []
      && (C6EpisodeStatus(Run(deals)[k], nowMsc) == Fail <==>
            && !Run(deals)[k].open && deals[own[|own| - 1]].timeMsc - deals[own[0]].timeMsc < 900_000
            && (forall i :: 0 <= i < |own| ==> !ShowsFarStop(deals[own[i]]) && deals[own[i]].sltpTimelineComplete))
  {
    hide Run, Own, Widest, NetVolume, Profit, ShowsFarStop, C6EpisodeStatus;
    EpisodeSumsItsDeals(deals, k);
    C6Says(Run(deals)[k], nowMsc);
    WidestFar(deals, Own(deals, k));
  }

  /** The violations that a month counts. */
  lemma C6FailuresAre(eps: seq<EpisodeValue>, start: int, month: nat, nowMsc: int, i: nat)
    ensures i in C6Failures(eps, start, month, nowMsc) <==>
      && i < |eps| && InMonth(eps[i], start, month)
      && ClosedEarly(eps[i]) && eps[i].maxSltpDistancePips <= 30.0 && eps[i].sltpEvidenceComplete
  {
    hide InMonth, Selected, C6EpisodeStatus, ClosedEarly;
    if i < |eps| {
      C6Says(eps[i], nowMsc);
      MonthMeans(eps[i], start, month);
      SelectedMeans(eps[i], start, month);
    }
  }

  lemma SelectedMeans(e: EpisodeValue, start: int, month: nat)
    ensures Selected(e, start, month) <==> TradingMonth(e, start) == month
  {
  }

  // ---- Weeks ----

  /** How many episodes were entered between two times. */
  function EnteredBetween(eps: seq<EpisodeValue>, fromMsc: int, toMsc: int): set<nat> {
    set i | 0 <= i < |eps| && fromMsc <= eps[i].firstEntryMsc < toMsc
  }

  lemma {:induction false} EntriesAre(eps: seq<EpisodeValue>, from: int, to: int)
    ensures EntriesIn(eps, from, to) == |EnteredBetween(eps, from * 1000, to * 1000)|
  {
    if eps != [] {
      var n := |eps| - 1;
      EntriesAre(eps[..n], from, to);
      EnteredGrow(eps, from * 1000, to * 1000);
      hide EnteredBetween;
    }
  }

  lemma EnteredGrow(eps: seq<EpisodeValue>, fromMsc: int, toMsc: int)
    requires eps != []
    ensures
      var n := |eps| - 1;
      EnteredBetween(eps, fromMsc, toMsc)
      == EnteredBetween(eps[..n], fromMsc, toMsc) + (if fromMsc <= eps[n].firstEntryMsc < toMsc then {n} else {})
      && n !in EnteredBetween(eps[..n], fromMsc, toMsc)
  {
    assert forall i :: 0 <= i < |eps| - 1 ==> eps[..|eps| - 1][i] == eps[i];
  }

  /** A row of the weekly table: seven days, the entries in them, and three of them are enough. */
  ghost predicate WeekSays(row: WeekRow, k: nat, start: int, eps: seq<EpisodeValue>, now: int) {
    && row.index == k && row.target == 3 && row.startUtc == start + k * 604_800 && row.endUtc == row.startUtc + 604_800
    && row.signals == |EnteredBetween(eps, row.startUtc * 1000, row.endUtc * 1000)|
    && row.status == (if now < row.endUtc then InProgress else if row.signals >= 3 then Pass else Fail)
  }

  lemma WeekMeans(row: WeekRow, k: nat, start: int, eps: seq<EpisodeValue>, now: int)
    requires WeekAt(row, k, start, eps, now)
    ensures WeekSays(row, k, start, eps, now)
  {
    EntriesAre(eps, row.startUtc, row.endUtc);
    hide EntriesIn, EnteredBetween;
  }

  /** The weekly table starts on the server's first Monday midnight from the day of the first entry on, and goes up to now. */
  lemma WeeksSay(eps: seq<EpisodeValue>, now: int, rows: seq<WeekRow>, first: EpisodeValue)
    requires eps != [] && first == StableSort(eps, EntersBefore)[0]
    requires WeeksFrom(rows, WeeklyCountingStart(first), eps, now)
    ensures forall e :: e in eps ==> first.firstEntryMsc <= e.firstEntryMsc
    ensures exists k :: 0 <= k < |eps| && eps[k] == first && forall j :: 0 <= j < k ==> first.firstEntryMsc < eps[j].firstEntryMsc
    ensures
      var start := WeeklyCountingStart(first);
      var local := first.firstEntryMsc / 1000 + first.offsetMinutes * 60;
      && (start + first.offsetMinutes * 60 - 345_600) % 604_800 == 0
      && local - local % 86_400 <= start + first.offsetMinutes * 60 < local - local % 86_400 + 604_800
      && forall k :: 0 <= k < |rows| ==> WeekSays(rows[k], k, start, eps, now)
  {
    hide StableSort, WeekAt, WeekSays;
    forall e | e in eps ensures first.firstEntryMsc <= e.firstEntryMsc { AnchorIsEarliest(eps, e); }
    var k := AnchorIsFirst(eps, first);
    MondayMidnight(first);
    forall k | 0 <= k < |rows| ensures WeekSays(rows[k], k, WeeklyCountingStart(first), eps, now) {
      WeekMeans(rows[k], k, WeeklyCountingStart(first), eps, now);
    }
  }

  /** Of several earliest entries the first one given anchors the table. */
  lemma AnchorIsFirst(eps: seq<EpisodeValue>, first: EpisodeValue) returns (k: nat)
    requires eps != [] && first == StableSort(eps, EntersBefore)[0]
    ensures k < |eps| && eps[k] == first && forall j :: 0 <= j < k ==> first.firstEntryMsc < eps[j].firstEntryMsc
  {
    StableSortKeepsTies(eps, EntersBefore, first);
    k := FirstTie(eps, first);
    forall j | 0 <= j < k ensures first.firstEntryMsc < eps[j].firstEntryMsc { AnchorIsEarliest(eps, eps[j]); }
  }

  lemma {:induction false} FirstTie(eps: seq<EpisodeValue>, z: EpisodeValue) returns (k: nat)
    requires Ties(eps, EntersBefore, z) != []
    ensures k < |eps| && eps[k] == Ties(eps, EntersBefore, z)[0]
    ensures forall j :: 0 <= j < k ==> eps[j].firstEntryMsc != z.firstEntryMsc
  {
    if eps[0].firstEntryMsc == z.firstEntryMsc {
      k := 0;
    } else {
      k := FirstTie(eps[1..], z);
      k := k + 1;
    }
  }

  lemma MondayMidnight(first: EpisodeValue)
    ensures
      var start := WeeklyCountingStart(first);
      var local := first.firstEntryMsc / 1000 + first.offsetMinutes * 60;
      && (start + first.offsetMinutes * 60 - 345_600) % 604_800 == 0
      && local - local % 86_400 <= start + first.offsetMinutes * 60 < local - local % 86_400 + 604_800
  {
    CountingStartsOnFirstMonday(first);
    var start := WeeklyCountingStart(first);
    hide WeeklyCountingStart;
    var days := (start + first.offsetMinutes * 60) / 86_400;
    assert start + first.offsetMinutes * 60 == days * 86_400;
    var weeks := (days - 4) / 7;
    assert days == 4 + weeks * 7;
    assert start + first.offsetMinutes * 60 - 345_600 == weeks * 604_800;
  }

  // ---- Drawdown ----

  /** The samples of one time, in their order. */
  function SampledAt(samples: seq<Sample>, at: int): seq<Sample> {
    if samples == [] then [] else (if samples[0].atUtc == at then [samples[0]] else []) + SampledAt(samples[1..], at)
  }

  lemma {:induction false} TiesAreSampledAt(samples: seq<Sample>, z: Sample)
    ensures Ties(samples, SampledBefore, z) == SampledAt(samples, z.atUtc)
  {
    if samples != [] { TiesAreSampledAt(samples[1..], z); }
  }

  /** The scan sees all samples in the order of their times, and those of one time as they were given. */
  lemma SamplesInOrder(samples: seq<Sample>, at: int)
    ensures
      var ps := StableSort(samples, SampledBefore);
      && multiset(ps) == multiset(samples) && (forall i, j :: 0 <= i < j < |ps| ==> ps[i].atUtc <= ps[j].atUtc)
      && SampledAt(ps, at) == SampledAt(samples, at)
  {
    var (ps, z) := (StableSort(samples, SampledBefore), Sample(at, 0.0, 0.0));
    StableSortSorted(samples, SampledBefore);
    StableSortKeepsTies(samples, SampledBefore, z);
    TiesAreSampledAt(samples, z);
    TiesAreSampledAt(ps, z);
  }

  /** The equity lies at least this many percent below a positive level. */
  predicate Below(level: real, equity: real, percent: real) {
    level > 0.0 && (level - equity) * 100.0 >= percent * level
  }

  lemma FallMeans(level: real, equity: real, percent: real)
    requires percent > 0.0
    ensures Fall(level, equity) >= percent <==> Below(level, equity, percent)
  {
    if level > 0.0 {
      var q := (level - equity) / level;
      assert q * level == level - equity;
      assert q * 100.0 >= percent <==> q * 100.0 * level >= percent * level;
    }
  }

  /** The drawdown report in the samples' own numbers: it fails exactly when the equity of some sample lies two percent or more
      below its balance, needs two samples otherwise, and passes when these span a year; the floating loss is the largest one,
      observed at the last sample that shows it. */
  lemma FddSays(samples: seq<Sample>, r: Report, percent: real)
    requires r.Report? && percent > 0.0 && Summarises(r, StableSort(samples, SampledBefore))
    ensures
      var ps := StableSort(samples, SampledBefore);
      && (r.status == Fail <==> exists k :: 0 <= k < |ps| && Below(ps[k].balance, ps[k].equity, 2.0))
      && (r.status == InsufficientData <==> r.status != Fail && |ps| < 2)
      && (r.status == Pass <==> r.status != Fail && |ps| >= 2 && ps[|ps| - 1].atUtc - ps[0].atUtc >= 31_536_000)
      && (r.maxFloating >= percent <==> exists k :: 0 <= k < |ps| && Below(ps[k].balance, ps[k].equity, percent))
      && (r.maxFloating >= percent ==>
            exists k :: 0 <= k < |ps| && r.observedAt == ps[k].atUtc && Below(ps[k].balance, ps[k].equity, percent))
  {
    hide StableSort, Below, Fall, AttainedByPair, BoundsPairs;
    var ps := StableSort(samples, SampledBefore);
    forall k | 0 <= k < |ps|
      ensures Floating(ps[k]) >= 2.0 <==> Below(ps[k].balance, ps[k].equity, 2.0)
      ensures Floating(ps[k]) >= percent <==> Below(ps[k].balance, ps[k].equity, percent)
    {
      FallMeans(ps[k].balance, ps[k].equity, 2.0);
      FallMeans(ps[k].balance, ps[k].equity, percent);
    }
    var w :| 0 <= w < |ps| && LastWorst(ps, |ps|, w, r.maxFloating) && r.observedAt == ps[w].atUtc;
  }
}
