/** From the deal stream to the reconciled ledger. */
module History {
  import opened Ordering
  import opened Episodes
  import opened MonthLedger

  function EarliestEntry(eps: seq<EpisodeValue>): (m: int)
    requires eps != []
    ensures forall e :: e in eps ==> m <= e.firstEntryMsc
    ensures exists e :: e in eps && m == e.firstEntryMsc
  {
    var last := eps[|eps| - 1];
    if |eps| == 1 then last.firstEntryMsc
    else
      var m := EarliestEntry(eps[..|eps| - 1]);
      assert forall e :: e in eps ==> e in eps[..|eps| - 1] || e == last;
      if last.firstEntryMsc < m then last.firstEntryMsc else m
  }

  /** `firstEpisodeStart`: zero where there is no episode. */
  function ProgramStart(eps: seq<EpisodeValue>): int {
    if eps == [] then 0 else Seconds(EarliestEntry(eps))
  }

  /** The episodes `normalizeEpisodes` makes of a deal stream. */
  function EpisodesOf(deals: seq<Deal>): seq<EpisodeValue> {
    Run(StableSort(deals, Earlier))
  }

  function SettledProfit(eps: seq<EpisodeValue>): real {
    if eps == [] then 0.0
    else SettledProfit(eps[..|eps| - 1]) + if Settled(eps[|eps| - 1]) then eps[|eps| - 1].netProfit else 0.0
  }

  lemma {:induction false} AllTradingInside(eps: seq<EpisodeValue>, from: int, to: int)
    requires forall e :: e in eps && Settled(e) ==> Within(Seconds(e.finalCloseMsc), from, to)
    ensures TradingIn(eps, from, to) == SettledProfit(eps)
  {
    if eps != [] {
      assert eps[|eps| - 1] in eps;
      AllTradingInside(eps[..|eps| - 1], from, to);
    }
  }

  /** No episode of the history opens or closes after the last deal, and none closes before it opened. */
  lemma HistoryIsDated(deals: seq<Deal>, now: int)
    requires forall d :: d in deals ==> d.volume >= 0.0 && Seconds(d.timeMsc) <= now
    ensures forall e :: e in EpisodesOf(deals) ==> Seconds(e.firstEntryMsc) <= now
    ensures forall e :: e in EpisodesOf(deals) && Settled(e) ==>
      Seconds(e.firstEntryMsc) <= Seconds(e.finalCloseMsc) <= now
  {
    hide Run, StableSort;
    var sorted := StableSort(deals, Earlier);
    EarlierIsPreorder();
    StableSortSorted(deals, Earlier);
    forall d ensures d in sorted <==> d in deals { SameMembers(sorted, deals, d); }
    if sorted == [] {
      NoDealsNoEpisodes();
    } else {
      EpisodesStaySound(sorted);
      var latest := sorted[|sorted| - 1].timeMsc;
      assert sorted[|sorted| - 1] in sorted;
      forall e | e in EpisodesOf(deals)
        ensures e.firstEntryMsc <= latest && (Settled(e) ==> e.firstEntryMsc <= e.finalCloseMsc <= latest)
      {
        var i :| 0 <= i < |Run(sorted)| && Run(sorted)[i] == e;
        assert Sound(Run(sorted)[i], latest);
      }
    }
  }

  lemma NoDealsNoEpisodes()
    ensures Run([]) == []
  {
  }

  /** For any deal stream and properly signed flows, none of them later than now: every settled episode falls into one
      of the months, and the chain of months ends at the reported balance exactly when the opening balance that
      settled profit and flows leave over was not raised to its floor. */
  lemma HistoryReconciles(deals: seq<Deal>, flows: seq<CashFlow>, balance: real, now: int)
    requires forall d :: d in deals ==> d.volume >= 0.0 && Seconds(d.timeMsc) <= now
    requires forall f :: f in flows && f.kind == Deposit ==> f.amount >= 0.0
    requires forall f :: f in flows && f.kind == Withdrawal ==> f.amount <= 0.0
    requires forall f :: f in flows ==> Seconds(f.timeMsc) <= now
    requires ProgramStart(EpisodesOf(deals)) > 0
    ensures
      var eps := EpisodesOf(deals);
      var start := ProgramStart(eps);
      var months := CompletedMonths(start, now) + 1;
      var raw := balance - SettledProfit(eps) - AmountsSince(flows, start);
      && TradingIn(eps, start, start + months * MONTH) == SettledProfit(eps)
      && (BalanceAfter(Max(FLOOR_BALANCE, raw), eps, flows, start, months) == balance <==> raw >= FLOOR_BALANCE)
  {
    hide EpisodesOf;
    var eps := EpisodesOf(deals);
    HistoryIsDated(deals, now);
    var start := ProgramStart(eps);
    var first :| first in eps && EarliestEntry(eps) == first.firstEntryMsc;
    assert start == Seconds(first.firstEntryMsc) <= now;
    var months := CompletedMonths(start, now) + 1;
    var end := start + months * MONTH;
    LedgerReconciles(balance, flows, eps, start, now);
    AllTradingInside(eps, start, end);
    TradingIsDifference(eps, start, end);
    NothingAfter([], eps, end);
  }
}
