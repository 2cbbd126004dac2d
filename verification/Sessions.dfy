/** Trading sessions, repeated signals per session, short holds, and the verdict built from them. */
module Sessions {
  import opened Ordering
  import opened Episodes
  import opened MonthLedger

  datatype Session = Asia | Europe | Us | Outside

  const MINUTE_MSC := 60_000
  const DAY_MSC := DAY * 1000

  function LocalDay(timeMsc: int, offsetMinutes: int): int {
    (timeMsc + offsetMinutes * MINUTE_MSC) / DAY_MSC
  }

  function LocalMinute(timeMsc: int, offsetMinutes: int): int {
    (timeMsc + offsetMinutes * MINUTE_MSC) % DAY_MSC / MINUTE_MSC
  }

  /** The engine's cascade of windows; the first one that matches wins. */
  function SessionAt(minute: int, summer: bool): Session {
    if 2 * 60 <= minute < 11 * 60 then Asia
    else if summer && 9 * 60 <= minute < 18 * 60 then Europe
    else if !summer && 10 * 60 <= minute < 19 * 60 then Europe
    else if summer && 14 * 60 <= minute < 23 * 60 then Us
    else if !summer && 15 * 60 <= minute < 24 * 60 then Us
    else Outside
  }

  /** The overlapping windows resolve to disjoint ones: only the first two hours of a day, and in summer
      the last one, belong to no session. */
  lemma EffectiveSessions(minute: int, summer: bool)
    requires 0 <= minute < 24 * 60
    ensures SessionAt(minute, summer) == Asia <==> 2 * 60 <= minute < 11 * 60
    ensures SessionAt(minute, summer) == Europe <==> 11 * 60 <= minute < (if summer then 18 * 60 else 19 * 60)
    ensures SessionAt(minute, summer) == Us <==> (if summer then 18 * 60 <= minute < 23 * 60 else 19 * 60 <= minute)
    ensures SessionAt(minute, summer) == Outside <==> minute < 2 * 60 || (summer && minute >= 23 * 60)
  {
  }

  /** One signal slot. `summer` tells which server days fall in April to October. */
  datatype Slot = Slot(symbol: string, session: Session, day: int)

  function SlotOf(e: EpisodeValue, summer: int -> bool): Slot {
    var day := LocalDay(e.firstEntryMsc, e.offsetMinutes);
    Slot(e.canonicalSymbol, SessionAt(LocalMinute(e.firstEntryMsc, e.offsetMinutes), summer(day)), day)
  }

  function TradingMonth(e: EpisodeValue, start: int): int {
    if start > 0 then (Seconds(e.firstEntryMsc) - start) / MONTH else -1
  }

  /** A negative month selects every episode. */
  predicate Selected(e: EpisodeValue, start: int, month: int) {
    month < 0 || TradingMonth(e, start) == month
  }

  predicate OpenedBefore(a: EpisodeValue, b: EpisodeValue) {
    a.firstEntryMsc < b.firstEntryMsc || (a.firstEntryMsc == b.firstEntryMsc && Less(a.openingDealTicket, b.openingDealTicket))
  }

  predicate Counted(eps: seq<EpisodeValue>, summer: int -> bool, start: int, month: int, i: nat)
    requires i < |eps|
  {
    Selected(eps[i], start, month) && SlotOf(eps[i], summer).session != Outside
  }

  /** The check's inner test: `j` is an earlier selected episode in the slot of `i`. */
  predicate Precedes(eps: seq<EpisodeValue>, summer: int -> bool, start: int, month: int, j: nat, i: nat)
    requires i < |eps| && j < |eps|
  {
    j != i && Selected(eps[j], start, month) && OpenedBefore(eps[j], eps[i]) && SlotOf(eps[j], summer) == SlotOf(eps[i], summer)
  }

  predicate Repeated(eps: seq<EpisodeValue>, summer: int -> bool, start: int, month: int, i: nat)
    requires i < |eps|
  {
    Counted(eps, summer, start, month, i) && exists j :: 0 <= j < |eps| && Precedes(eps, summer, start, month, j, i)
  }

  function Repeats(eps: seq<EpisodeValue>, summer: int -> bool, start: int, month: int): set<nat> {
    RepeatsBelow(eps, summer, start, month, |eps|)
  }

  function RepeatsBelow(eps: seq<EpisodeValue>, summer: int -> bool, start: int, month: int, n: nat): set<nat>
    requires n <= |eps|
  {
    set i | 0 <= i < n && Repeated(eps, summer, start, month, i)
  }

  lemma RepeatsGrow(eps: seq<EpisodeValue>, summer: int -> bool, start: int, month: int, n: nat)
    requires n < |eps|
    ensures |RepeatsBelow(eps, summer, start, month, n + 1)|
         == |RepeatsBelow(eps, summer, start, month, n)| + if Repeated(eps, summer, start, month, n) then 1 else 0
  {
    hide Repeated;
    var before := RepeatsBelow(eps, summer, start, month, n);
    assert RepeatsBelow(eps, summer, start, month, n + 1) == if Repeated(eps, summer, start, month, n) then before + {n} else before;
  }

  function InSession(eps: seq<EpisodeValue>, summer: int -> bool, start: int, month: int): set<nat> {
    set i | 0 <= i < |eps| && Counted(eps, summer, start, month, i)
  }

  function Slots(eps: seq<EpisodeValue>, summer: int -> bool, start: int, month: int): set<Slot> {
    set i | i in InSession(eps, summer, start, month) :: SlotOf(eps[i], summer)
  }

  /** Counts the selected in-session episodes that some earlier one shares a slot with. */
  method C5Occurrences(eps: seq<EpisodeValue>, summer: int -> bool, start: int, month: int) returns (count: nat)
    ensures count == |Repeats(eps, summer, start, month)|
  {
    count := 0;
    var i := 0;
    while i < |eps|
      invariant 0 <= i <= |eps| && count == |RepeatsBelow(eps, summer, start, month, i)|
    {
      hide RepeatsBelow, Precedes;
      RepeatsGrow(eps, summer, start, month, i);
      if Selected(eps[i], start, month) && SlotOf(eps[i], summer).session != Outside {
        var earlier := EarlierInSlot(eps, summer, start, month, i);
        if earlier {
          count := count + 1;
        }
      }
      i := i + 1;
    }
  }

  method EarlierInSlot(eps: seq<EpisodeValue>, summer: int -> bool, start: int, month: int, i: nat) returns (found: bool)
    requires i < |eps|
    ensures found <==> exists j :: 0 <= j < |eps| && Precedes(eps, summer, start, month, j, i)
  {
    found := false;
    var j := 0;
    while j < |eps| && !found
      invariant 0 <= j <= |eps|
      invariant found <==> exists k :: 0 <= k < j && Precedes(eps, summer, start, month, k, i)
    {
      found := Precedes(eps, summer, start, month, j, i);
      j := j + 1;
    }
  }

  ghost predicate DistinctOpenings(eps: seq<EpisodeValue>) {
    forall i, j :: 0 <= i < j < |eps| ==>
      eps[i].firstEntryMsc != eps[j].firstEntryMsc || eps[i].openingDealTicket != eps[j].openingDealTicket
  }

  lemma OpeningsOrdered(a: EpisodeValue, b: EpisodeValue)
    ensures !(OpenedBefore(a, b) && OpenedBefore(b, a))
    ensures OpenedBefore(a, b) || OpenedBefore(b, a)
         || (a.firstEntryMsc == b.firstEntryMsc && a.openingDealTicket == b.openingDealTicket)
  {
    LessTotal(a.openingDealTicket, b.openingDealTicket);
  }

  lemma OpeningsTransitive(a: EpisodeValue, b: EpisodeValue, c: EpisodeValue)
    requires OpenedBefore(a, b) && OpenedBefore(b, c)
    ensures OpenedBefore(a, c)
  {
    if a.firstEntryMsc == b.firstEntryMsc == c.firstEntryMsc {
      LessTransitive(a.openingDealTicket, b.openingDealTicket, c.openingDealTicket);
    }
  }

  /** Within any non-empty group of episodes one opened before all the others. */
  lemma {:induction false} FirstOf(eps: seq<EpisodeValue>, group: set<nat>) returns (first: nat)
    requires group != {} && forall i :: i in group ==> i < |eps|
    requires DistinctOpenings(eps)
    ensures first in group && forall i :: i in group && i != first ==> OpenedBefore(eps[first], eps[i])
    decreases group
  {
    var x :| x in group;
    if group == {x} {
      return x;
    }
    var best := FirstOf(eps, group - {x});
    OpeningsOrdered(eps[x], eps[best]);
    if OpenedBefore(eps[best], eps[x]) {
      return best;
    }
    forall i | i in group && i != x && i != best ensures OpenedBefore(eps[x], eps[i]) {
      OpeningsTransitive(eps[x], eps[best], eps[i]);
    }
    first := x;
  }

  lemma {:induction false} InjectiveImageSize(items: set<nat>, eps: seq<EpisodeValue>, summer: int -> bool)
    requires forall i :: i in items ==> i < |eps|
    requires forall i, j :: i in items && j in items && SlotOf(eps[i], summer) == SlotOf(eps[j], summer) ==> i == j
    ensures |set i | i in items :: SlotOf(eps[i], summer)| == |items|
    decreases items
  {
    hide SlotOf;
    if items != {} {
      var x :| x in items;
      InjectiveImageSize(items - {x}, eps, summer);
      var rest := set i | i in items - {x} :: SlotOf(eps[i], summer);
      assert (set i | i in items :: SlotOf(eps[i], summer)) == rest + {SlotOf(eps[x], summer)};
    }
  }

  /** The counted episodes that open their slot. */
  function Openers(eps: seq<EpisodeValue>, summer: int -> bool, start: int, month: int): set<nat> {
    InSession(eps, summer, start, month) - Repeats(eps, summer, start, month)
  }

  lemma OpenersHaveDistinctSlots(eps: seq<EpisodeValue>, summer: int -> bool, start: int, month: int, i: nat, j: nat)
    requires DistinctOpenings(eps)
    requires i in Openers(eps, summer, start, month) && j in Openers(eps, summer, start, month)
    requires SlotOf(eps[i], summer) == SlotOf(eps[j], summer)
    ensures i == j
  {
    hide SlotOf, OpenedBefore;
    OpeningsOrdered(eps[i], eps[j]);
    assert !Precedes(eps, summer, start, month, i, j) && !Precedes(eps, summer, start, month, j, i);
  }

  lemma SlotHasOpener(eps: seq<EpisodeValue>, summer: int -> bool, start: int, month: int, member: nat) returns (opener: nat)
    requires DistinctOpenings(eps) && member in InSession(eps, summer, start, month)
    ensures opener in Openers(eps, summer, start, month) && SlotOf(eps[opener], summer) == SlotOf(eps[member], summer)
  {
    hide SlotOf, OpenedBefore;
    var group := set i | i in InSession(eps, summer, start, month) && SlotOf(eps[i], summer) == SlotOf(eps[member], summer);
    assert member in group;
    opener := FirstOf(eps, group);
    forall j | 0 <= j < |eps| && Precedes(eps, summer, start, month, j, opener) ensures false {
      assert j in group;
      OpeningsOrdered(eps[opener], eps[j]);
    }
  }

  /** The number of violations is the number of in-session episodes minus the number of slots they fill,
      whenever no two episodes share both the opening time and the ticket. */
  lemma RepeatsAreMembersMinusSlots(eps: seq<EpisodeValue>, summer: int -> bool, start: int, month: int)
    requires DistinctOpenings(eps)
    ensures |Repeats(eps, summer, start, month)|
         == |InSession(eps, summer, start, month)| - |Slots(eps, summer, start, month)|
  {
    hide SlotOf, OpenedBefore, Precedes;
    var members := InSession(eps, summer, start, month);
    var openers := Openers(eps, summer, start, month);
    assert Repeats(eps, summer, start, month) <= members;
    assert |openers| == |members| - |Repeats(eps, summer, start, month)|;
    forall i, j | i in openers && j in openers && SlotOf(eps[i], summer) == SlotOf(eps[j], summer) ensures i == j {
      OpenersHaveDistinctSlots(eps, summer, start, month, i, j);
    }
    InjectiveImageSize(openers, eps, summer);
    var image := set i | i in openers :: SlotOf(eps[i], summer);
    forall member | member in members ensures SlotOf(eps[member], summer) in image {
      var opener := SlotHasOpener(eps, summer, start, month, member);
    }
    assert image == Slots(eps, summer, start, month);
  }

  // ---- Why openings are distinct ----

  /** No deal is listed twice, and no two share time and ticket. */
  ghost predicate DistinctDeals(deals: seq<Deal>) {
    && (forall d :: d in deals ==> multiset(deals)[d] == 1)
    && (forall a, b :: a in deals && b in deals && a != b ==> a.timeMsc != b.timeMsc || a.ticket != b.ticket)
  }

  lemma DistinctPrefix(deals: seq<Deal>)
    requires deals != [] && DistinctDeals(deals)
    ensures
      var n := |deals| - 1;
      DistinctDeals(deals[..n]) && forall o :: o in deals[..n] ==> o.timeMsc != deals[n].timeMsc || o.ticket != deals[n].ticket
  {
    var n := |deals| - 1;
    assert deals == deals[..n] + [deals[n]];
    assert multiset(deals) == multiset(deals[..n]) + multiset{deals[n]};
    forall d | d in deals[..n] ensures multiset(deals[..n])[d] == 1 && d != deals[n] {
      assert d in deals && d in multiset(deals[..n]);
    }
  }

  /** A deal leaves the openings of the episodes there are, and opens at most one with its own time and ticket. */
  lemma ApplyKeepsOpenings(eps: seq<EpisodeValue>, d: Deal)
    ensures |eps| <= |Apply(eps, d)| <= |eps| + 1
    ensures forall k :: 0 <= k < |eps| ==>
      Apply(eps, d)[k].firstEntryMsc == eps[k].firstEntryMsc && Apply(eps, d)[k].openingDealTicket == eps[k].openingDealTicket
    ensures |Apply(eps, d)| > |eps| ==>
      Apply(eps, d)[|eps|].firstEntryMsc == d.timeMsc && Apply(eps, d)[|eps|].openingDealTicket == d.ticket
  {
    hide Weighted, ObservedPips, SameOrder, Noted;
  }

  /** Episodes made of distinct deals have distinct openings. */
  lemma {:induction false} OpeningsAreDistinct(deals: seq<Deal>)
    requires DistinctDeals(deals) && forall d :: d in deals ==> d.volume >= 0.0
    ensures DistinctOpenings(Run(deals))
  {
    hide DistinctDeals, OpenedBy, Apply;
    if deals != [] {
      var n := |deals| - 1;
      var before, after := Run(deals[..n]), Run(deals);
      DistinctPrefix(deals);
      OpeningsAreDistinct(deals[..n]);
      ApplyKeepsOpenings(before, deals[n]);
      forall i, j | 0 <= i < j < |after|
        ensures after[i].firstEntryMsc != after[j].firstEntryMsc || after[i].openingDealTicket != after[j].openingDealTicket
      {
        if j == |before| { OpenedByAnother(deals, i); }
      }
    }
  }

  lemma OpenedByAnother(deals: seq<Deal>, i: nat)
    requires deals != [] && DistinctDeals(deals) && forall d :: d in deals ==> d.volume >= 0.0
    requires i < |Run(deals[..|deals| - 1])|
    ensures
      var (e, d) := (Run(deals[..|deals| - 1])[i], deals[|deals| - 1]);
      e.firstEntryMsc != d.timeMsc || e.openingDealTicket != d.ticket
  {
    DistinctPrefix(deals);
    hide Run, DistinctDeals;
    var o := EveryEpisodeHasItsOpener(deals[..|deals| - 1], i);
  }

  /** So for the history made of distinct deals, the violations are the in-session episodes minus the slots they fill. */
  lemma HistoryRepeats(deals: seq<Deal>, summer: int -> bool, start: int, month: int)
    requires DistinctDeals(deals) && forall d :: d in deals ==> d.volume >= 0.0
    ensures
      var eps := Run(StableSort(deals, Earlier));
      |Repeats(eps, summer, start, month)| == |InSession(eps, summer, start, month)| - |Slots(eps, summer, start, month)|
  {
    var sorted := StableSort(deals, Earlier);
    forall d ensures d in sorted <==> d in deals {
      SameMembers(deals, sorted, d);
    }
    hide Run, Repeats, InSession, Slots, StableSort;
    OpeningsAreDistinct(sorted);
    RepeatsAreMembersMinusSlots(Run(sorted), summer, start, month);
  }

  /** A month never has more repeats than the whole history. */
  lemma MonthRepeatsAreRepeats(eps: seq<EpisodeValue>, summer: int -> bool, start: int, month: int)
    ensures Repeats(eps, summer, start, month) <= Repeats(eps, summer, start, -1)
    ensures |Repeats(eps, summer, start, month)| <= |Repeats(eps, summer, start, -1)|
  {
    forall i | i in Repeats(eps, summer, start, month) ensures i in Repeats(eps, summer, start, -1) {
      var j :| 0 <= j < |eps| && Precedes(eps, summer, start, month, j, i);
      assert Precedes(eps, summer, start, -1, j, i);
    }
    SubsetSize(Repeats(eps, summer, start, month), Repeats(eps, summer, start, -1));
  }

  lemma SubsetSize(a: set<nat>, b: set<nat>)
    requires a <= b
    ensures |a| <= |b|
  {
    assert b == a + (b - a);
  }

  // ---- Short holds and the verdict ----

  const MIN_HOLD := 15 * 60
  const MIN_PIPS: real := 30.0

  function HoldingSeconds(e: EpisodeValue, nowMsc: int): int {
    var held := Seconds((if e.open then nowMsc else e.finalCloseMsc) - e.firstEntryMsc);
    if held > 0 then held else 0
  }

  function C6EpisodeStatus(e: EpisodeValue, nowMsc: int): Status {
    var hold := HoldingSeconds(e, nowMsc);
    if e.open then (if hold >= MIN_HOLD then Pass else InProgress)
    else if hold >= MIN_HOLD || e.maxSltpDistancePips > MIN_PIPS then Pass
    else if e.sltpEvidenceComplete then Fail else NotVerifiable
  }

  function C6Failures(eps: seq<EpisodeValue>, start: int, month: int, nowMsc: int): set<nat> {
    set i | 0 <= i < |eps| && TradingMonth(eps[i], start) == month && C6EpisodeStatus(eps[i], nowMsc) == Fail
  }

  function C5Status(repeats: nat, eps: seq<EpisodeValue>, summer: int -> bool, historyComplete: bool, horizon: bool): Status {
    if repeats > 0 then Fail
    else if eps == [] then InProgress
    else if exists i :: 0 <= i < |eps| && SlotOf(eps[i], summer).session == Outside then NotVerifiable
    else if !historyComplete then InsufficientData
    else if horizon then Pass else InProgress
  }

  predicate SomeC6(eps: seq<EpisodeValue>, nowMsc: int, status: Status) {
    exists i :: 0 <= i < |eps| && C6EpisodeStatus(eps[i], nowMsc) == status
  }

  function C6Status(eps: seq<EpisodeValue>, nowMsc: int, horizon: bool): Status {
    if SomeC6(eps, nowMsc, Fail) then Fail
    else if eps == [] then InProgress
    else if SomeC6(eps, nowMsc, NotVerifiable) then NotVerifiable
    else if SomeC6(eps, nowMsc, InProgress) || !horizon then InProgress
    else Pass
  }

  datatype Overall = Violation | Insufficient | Tracking | Clear
  datatype Risk = Yes | No | Unknown

  function OverallOf(rules: seq<Status>): Overall {
    if Fail in rules then Violation
    else if InsufficientData in rules || NotVerifiable in rules then Insufficient
    else if InProgress in rules then Tracking
    else Clear
  }

  /** The risk part of the profile; `others` are the statuses of the decision rules besides C5 and C6. */
  method AssessRisk(eps: seq<EpisodeValue>, summer: int -> bool, start: int, now: int, others: seq<Status>,
                    historyComplete: bool, horizon: bool)
    returns (overall: Overall, risk: Risk, c5Month: nat, c6Month: nat)
    ensures risk == Yes ==> overall == Violation
    ensures risk == Yes <==> c5Month + c6Month >= 3
    ensures start > 0 ==>
      var month := if now >= start then (now - start) / MONTH else 0;
      c5Month == |Repeats(eps, summer, start, month)| && c6Month == |C6Failures(eps, start, month, now * 1000)|
    ensures start <= 0 ==> c5Month == c6Month == 0
    ensures overall == Violation <==>
      Fail in others || Repeats(eps, summer, start, -1) != {} || SomeC6(eps, now * 1000, Fail)
    ensures overall == Insufficient <==>
      && overall != Violation
      && (InsufficientData in others || NotVerifiable in others
          || (eps != [] && (!historyComplete || SomeOutside(eps, summer) || SomeC6(eps, now * 1000, NotVerifiable))))
    ensures overall == Clear <==>
      && overall != Violation && overall != Insufficient
      && eps != [] && horizon && !SomeC6(eps, now * 1000, InProgress) && forall s :: s in others ==> s == Pass
    ensures risk == No <==>
      c5Month + c6Month < 3 && historyComplete && (eps == [] || SomeC6(eps, now * 1000, Fail) || !SomeC6(eps, now * 1000, NotVerifiable))
  {
    hide C5Status, C6Status, OverallOf, SomeC6, SomeOutside, C6Failures, Repeats;
    var c5Count := C5Occurrences(eps, summer, start, -1);
    var c5 := C5Status(c5Count, eps, summer, historyComplete, horizon);
    var c6 := C6Status(eps, now * 1000, horizon);
    overall := OverallOf(others + [c5, c6]);
    var elapsed := if now >= start then (now - start) / MONTH else 0;
    var currentMonth := if start > 0 then elapsed else -1;
    c5Month, c6Month := 0, 0;
    if currentMonth >= 0 {
      c5Month := C5Occurrences(eps, summer, start, currentMonth);
      c6Month := |C6Failures(eps, start, currentMonth, now * 1000)|;
      MonthRepeatsAreRepeats(eps, summer, start, currentMonth);
    }
    var countersComplete := historyComplete && c6 != NotVerifiable && c6 != InsufficientData;
    risk := if c5Month >= 3 || c6Month >= 3 || c5Month + c6Month >= 3 then Yes else if countersComplete then No else Unknown;
    C5Means(c5Count, Repeats(eps, summer, start, -1), eps, summer, historyComplete, horizon);
    C6Means(eps, now * 1000, horizon);
    C6FailsIfCounted(eps, start, currentMonth, now * 1000, horizon);
    OverallMeans(others, c5, c6);
  }

  /** Some entry lies in no session. */
  predicate SomeOutside(eps: seq<EpisodeValue>, summer: int -> bool) {
    exists i :: 0 <= i < |eps| && SlotOf(eps[i], summer).session == Outside
  }

  lemma C5Means(count: nat, repeats: set<nat>, eps: seq<EpisodeValue>, summer: int -> bool, historyComplete: bool, horizon: bool)
    requires count == |repeats|
    ensures C5Status(count, eps, summer, historyComplete, horizon) == Fail <==> repeats != {}
    ensures
      var c5 := C5Status(count, eps, summer, historyComplete, horizon);
      && (c5 in {InsufficientData, NotVerifiable} <==> repeats == {} && eps != [] && (!historyComplete || SomeOutside(eps, summer)))
      && (c5 == Pass <==> repeats == {} && eps != [] && historyComplete && !SomeOutside(eps, summer) && horizon)
  {
    hide SlotOf;
    if repeats != {} {
      var i :| i in repeats;
      assert repeats == repeats - {i} + {i};
    }
  }

  lemma C6FailsIfCounted(eps: seq<EpisodeValue>, start: int, month: int, nowMsc: int, horizon: bool)
    ensures |C6Failures(eps, start, month, nowMsc)| > 0 ==> SomeC6(eps, nowMsc, Fail)
  {
    hide TradingMonth, C6EpisodeStatus;
    if |C6Failures(eps, start, month, nowMsc)| > 0 {
      var i :| i in C6Failures(eps, start, month, nowMsc);
      assert C6EpisodeStatus(eps[i], nowMsc) == Fail;
    }
  }

  lemma C6Means(eps: seq<EpisodeValue>, nowMsc: int, horizon: bool)
    ensures
      var c6 := C6Status(eps, nowMsc, horizon);
      && (c6 == Fail <==> SomeC6(eps, nowMsc, Fail)) && c6 != InsufficientData
      && (c6 == NotVerifiable <==> eps != [] && !SomeC6(eps, nowMsc, Fail) && SomeC6(eps, nowMsc, NotVerifiable))
      && (c6 == Pass <==> eps != [] && !SomeC6(eps, nowMsc, Fail) && !SomeC6(eps, nowMsc, NotVerifiable)
                          && !SomeC6(eps, nowMsc, InProgress) && horizon)
  {
    hide C6EpisodeStatus;
  }

  lemma OverallMeans(others: seq<Status>, c5: Status, c6: Status)
    ensures OverallOf(others + [c5, c6]) == Violation <==> Fail in others || c5 == Fail || c6 == Fail
    ensures
      var undecided := {InsufficientData, NotVerifiable};
      OverallOf(others + [c5, c6]) == Insufficient <==>
        && OverallOf(others + [c5, c6]) != Violation
        && (InsufficientData in others || NotVerifiable in others || c5 in undecided || c6 in undecided)
    ensures OverallOf(others + [c5, c6]) == Clear <==> c5 == Pass && c6 == Pass && forall s :: s in others ==> s == Pass
  {
    var rules := others + [c5, c6];
    assert c5 in rules && c6 in rules;
    assert forall s :: s in others ==> s in rules;
  }
}
