/** The ledger of months in plain sums: times in milliseconds, amounts by their sign, and every window written out. */
module LedgerMeaning {
  import opened Episodes
  import opened MonthLedger
  import opened History

  function Sum(terms: seq<real>): real {
    if terms == [] then 0.0 else Sum(terms[..|terms| - 1]) + terms[|terms| - 1]
  }

  predicate ClosedIn(e: EpisodeValue, fromMsc: int, toMsc: int) {
    !e.open && 0 < e.finalCloseMsc && fromMsc <= e.finalCloseMsc < toMsc
  }

  predicate ClosedSince(e: EpisodeValue, fromMsc: int) {
    !e.open && 0 < e.finalCloseMsc && fromMsc <= e.finalCloseMsc
  }

  predicate BookedIn(f: CashFlow, fromMsc: int, toMsc: int) {
    fromMsc <= f.timeMsc < toMsc
  }

  /** The profit of the episodes closed in a window. */
  function Trading(eps: seq<EpisodeValue>, fromMsc: int, toMsc: int): real {
    Sum(seq(|eps|, i requires 0 <= i < |eps| => if ClosedIn(eps[i], fromMsc, toMsc) then eps[i].netProfit else 0.0))
  }

  function ProfitSince(eps: seq<EpisodeValue>, fromMsc: int): real {
    Sum(seq(|eps|, i requires 0 <= i < |eps| => if ClosedSince(eps[i], fromMsc) then eps[i].netProfit else 0.0))
  }

  /** The positive deposits of a window. */
  function Deposits(flows: seq<CashFlow>, fromMsc: int, toMsc: int): real {
    Sum(seq(|flows|, i requires 0 <= i < |flows| =>
      if BookedIn(flows[i], fromMsc, toMsc) && flows[i].kind == Deposit && flows[i].amount > 0.0 then flows[i].amount else 0.0))
  }

  /** The withdrawals of a window, whatever their sign, as amounts taken out. */
  function Withdrawals(flows: seq<CashFlow>, fromMsc: int, toMsc: int): real {
    Sum(seq(|flows|, i requires 0 <= i < |flows| =>
      if BookedIn(flows[i], fromMsc, toMsc) && flows[i].kind == Withdrawal
      then (if flows[i].amount < 0.0 then -flows[i].amount else flows[i].amount) else 0.0))
  }

  function Others(flows: seq<CashFlow>, fromMsc: int, toMsc: int): real {
    Sum(seq(|flows|, i requires 0 <= i < |flows| =>
      if BookedIn(flows[i], fromMsc, toMsc) && flows[i].kind == OtherFlow then flows[i].amount else 0.0))
  }

  function BookedSince(flows: seq<CashFlow>, fromMsc: int): real {
    Sum(seq(|flows|, i requires 0 <= i < |flows| => if flows[i].timeMsc >= fromMsc then flows[i].amount else 0.0))
  }

  // ---- The engine's sums are these ----

  lemma SumGrows(terms: seq<real>, shorter: seq<real>, last: real)
    requires terms == shorter + [last]
    ensures Sum(terms) == Sum(shorter) + last
  {
    assert terms[..|terms| - 1] == shorter;
  }

  lemma TradingIs(eps: seq<EpisodeValue>, from: int, to: int)
    ensures TradingIn(eps, from, to) == Trading(eps, from * 1000, to * 1000)
    ensures TradingSince(eps, from) == ProfitSince(eps, from * 1000)
  {
    TradingInIs(eps, from, to);
    TradingSinceIs(eps, from);
  }

  lemma {:induction false} TradingInIs(eps: seq<EpisodeValue>, from: int, to: int)
    ensures TradingIn(eps, from, to) == Trading(eps, from * 1000, to * 1000)
  {
    if eps != [] {
      var n := |eps| - 1;
      TradingInIs(eps[..n], from, to);
      var (a, b) := (from * 1000, to * 1000);
      SumGrows(seq(|eps|, i requires 0 <= i < |eps| => if ClosedIn(eps[i], a, b) then eps[i].netProfit else 0.0),
               seq(n, i requires 0 <= i < n => if ClosedIn(eps[..n][i], a, b) then eps[..n][i].netProfit else 0.0),
               if ClosedIn(eps[n], a, b) then eps[n].netProfit else 0.0);
    }
  }

  lemma {:induction false} TradingSinceIs(eps: seq<EpisodeValue>, from: int)
    ensures TradingSince(eps, from) == ProfitSince(eps, from * 1000)
  {
    if eps != [] {
      var n := |eps| - 1;
      TradingSinceIs(eps[..n], from);
      var a := from * 1000;
      SumGrows(seq(|eps|, i requires 0 <= i < |eps| => if ClosedSince(eps[i], a) then eps[i].netProfit else 0.0),
               seq(n, i requires 0 <= i < n => if ClosedSince(eps[..n][i], a) then eps[..n][i].netProfit else 0.0),
               if ClosedSince(eps[n], a) then eps[n].netProfit else 0.0);
    }
  }

  lemma {:induction false} AmountsAre(flows: seq<CashFlow>, from: int)
    ensures AmountsSince(flows, from) == BookedSince(flows, from * 1000)
  {
    if flows != [] {
      var n := |flows| - 1;
      AmountsAre(flows[..n], from);
      SumGrows(seq(|flows|, i requires 0 <= i < |flows| => if flows[i].timeMsc >= from * 1000 then flows[i].amount else 0.0),
               seq(n, i requires 0 <= i < n => if flows[..n][i].timeMsc >= from * 1000 then flows[..n][i].amount else 0.0),
               if flows[n].timeMsc >= from * 1000 then flows[n].amount else 0.0);
    }
  }

  lemma {:induction false} DepositsAre(flows: seq<CashFlow>, from: int, to: int)
    ensures KindIn(flows, Deposit, from, to) == Deposits(flows, from * 1000, to * 1000)
  {
    if flows != [] {
      var n := |flows| - 1;
      DepositsAre(flows[..n], from, to);
      var (a, b, f) := (from * 1000, to * 1000, flows[n]);
      SumGrows(seq(|flows|, i requires 0 <= i < |flows| =>
                 if BookedIn(flows[i], a, b) && flows[i].kind == Deposit && flows[i].amount > 0.0 then flows[i].amount else 0.0),
               seq(n, i requires 0 <= i < n =>
                 if BookedIn(flows[..n][i], a, b) && flows[..n][i].kind == Deposit && flows[..n][i].amount > 0.0 then flows[..n][i].amount else 0.0),
               if BookedIn(f, a, b) && f.kind == Deposit && f.amount > 0.0 then f.amount else 0.0);
    }
  }

  lemma {:induction false} WithdrawalsAre(flows: seq<CashFlow>, from: int, to: int)
    ensures KindIn(flows, Withdrawal, from, to) == Withdrawals(flows, from * 1000, to * 1000)
  {
    if flows != [] {
      var n := |flows| - 1;
      WithdrawalsAre(flows[..n], from, to);
      var (a, b, f) := (from * 1000, to * 1000, flows[n]);
      SumGrows(seq(|flows|, i requires 0 <= i < |flows| =>
                 if BookedIn(flows[i], a, b) && flows[i].kind == Withdrawal
                 then (if flows[i].amount < 0.0 then -flows[i].amount else flows[i].amount) else 0.0),
               seq(n, i requires 0 <= i < n =>
                 if BookedIn(flows[..n][i], a, b) && flows[..n][i].kind == Withdrawal
                 then (if flows[..n][i].amount < 0.0 then -flows[..n][i].amount else flows[..n][i].amount) else 0.0),
               if BookedIn(f, a, b) && f.kind == Withdrawal then (if f.amount < 0.0 then -f.amount else f.amount) else 0.0);
    }
  }

  lemma {:induction false} OthersAre(flows: seq<CashFlow>, from: int, to: int)
    ensures KindIn(flows, OtherFlow, from, to) == Others(flows, from * 1000, to * 1000)
  {
    if flows != [] {
      var n := |flows| - 1;
      OthersAre(flows[..n], from, to);
      var (a, b, f) := (from * 1000, to * 1000, flows[n]);
      SumGrows(seq(|flows|, i requires 0 <= i < |flows| =>
                 if BookedIn(flows[i], a, b) && flows[i].kind == OtherFlow then flows[i].amount else 0.0),
               seq(n, i requires 0 <= i < n =>
                 if BookedIn(flows[..n][i], a, b) && flows[..n][i].kind == OtherFlow then flows[..n][i].amount else 0.0),
               if BookedIn(f, a, b) && f.kind == OtherFlow then f.amount else 0.0);
    }
  }

  // ---- The rows ----

  /** One row of the ledger, for a window of thirty days. */
  ghost predicate RowSays(row: MonthRow, eps: seq<EpisodeValue>, flows: seq<CashFlow>, now: int) {
    var (a, b) := (row.startUtc * 1000, row.endUtc * 1000);
    && row.endUtc == row.startUtc + 2_592_000
    && row.tradingNetPL == Trading(eps, a, b)
    && row.deposits == Deposits(flows, a, b) && row.withdrawals == Withdrawals(flows, a, b)
    && (row.openingBalance > 0.0 ==> row.adjustedReturnPct == row.tradingNetPL / row.openingBalance * 100.0)
    && (row.openingBalance <= 0.0 ==> row.adjustedReturnPct == 0.0)
    && row.status == (if now < row.endUtc then InProgress else if row.adjustedReturnPct >= 1.0 then Pass else Fail)
  }

  /** How the balance moves on behind a row. */
  ghost predicate CarriesOn(row: MonthRow, after: real, flows: seq<CashFlow>) {
    after == row.openingBalance + row.tradingNetPL + row.deposits - row.withdrawals
             + Others(flows, row.startUtc * 1000, row.endUtc * 1000)
  }

  /** The rows that the engine's loop builds, in plain sums: contiguous windows of thirty days from the program start to now;
      the first one opens with the reported balance less everything booked since, but not below a cent; each further one with
      the balance that the one before leaves. */
  lemma MonthsSay(balance: real, flows: seq<CashFlow>, eps: seq<EpisodeValue>, start: int, now: int, rows: seq<MonthRow>, closing: real)
    requires start > 0 && |rows| == CompletedMonths(start, now) + 1
    requires
      var opening := Max(FLOOR_BALANCE, balance - Delta(eps, flows, start));
      (forall k :: 0 <= k < |rows| ==> RowAt(rows[k], k, opening, eps, flows, start, now))
      && closing == BalanceAfter(opening, eps, flows, start, |rows|)
    ensures if now <= start then |rows| == 1 else start + (|rows| - 1) * 2_592_000 <= now < start + |rows| * 2_592_000
    ensures forall k :: 0 <= k < |rows| ==> rows[k].index == k && rows[k].startUtc == start + k * 2_592_000 && RowSays(rows[k], eps, flows, now)
    ensures
      var left := balance - ProfitSince(eps, start * 1000) - BookedSince(flows, start * 1000);
      rows[0].openingBalance == if left > 0.01 then left else 0.01
    ensures forall k :: 0 <= k < |rows| - 1 ==> CarriesOn(rows[k], rows[k + 1].openingBalance, flows)
    ensures CarriesOn(rows[|rows| - 1], closing, flows)
  {
    hide BalanceAfter, TradingIn, KindIn, CashIn, TradingSince, AmountsSince, Trading, Deposits, Withdrawals, Others;
    hide ProfitSince, BookedSince;
    var opening := Max(FLOOR_BALANCE, balance - Delta(eps, flows, start));
    forall k | 0 <= k < |rows|
      ensures rows[k].index == k && rows[k].startUtc == start + k * 2_592_000 && RowSays(rows[k], eps, flows, now)
      ensures CarriesOn(rows[k], BalanceAfter(opening, eps, flows, start, k + 1), flows)
    {
      RowMeans(rows[k], k, opening, eps, flows, start, now);
    }
    FirstOpening(opening, eps, flows, start);
    TradingIs(eps, start, start);
    AmountsAre(flows, start);
  }

  lemma RowMeans(row: MonthRow, k: nat, opening: real, eps: seq<EpisodeValue>, flows: seq<CashFlow>, start: int, now: int)
    requires RowAt(row, k, opening, eps, flows, start, now)
    ensures row.startUtc == start + k * 2_592_000 && RowSays(row, eps, flows, now)
    ensures CarriesOn(row, BalanceAfter(opening, eps, flows, start, k + 1), flows)
  {
    hide BalanceAfter, TradingIn, KindIn, CashIn, Trading, Deposits, Withdrawals, Others;
    TradingIs(eps, row.startUtc, row.endUtc);
    DepositsAre(flows, row.startUtc, row.endUtc);
    WithdrawalsAre(flows, row.startUtc, row.endUtc);
    OthersAre(flows, row.startUtc, row.endUtc);
    KindsMakeCash(flows, row.startUtc, row.endUtc);
    BalanceAdvances(opening, eps, flows, start, k);
    Percent(row);
  }

  lemma Percent(row: MonthRow)
    requires row.openingBalance > 0.0 ==> row.adjustedReturnPct * row.openingBalance == row.tradingNetPL * 100.0
    ensures row.openingBalance > 0.0 ==> row.adjustedReturnPct == row.tradingNetPL / row.openingBalance * 100.0
  {
    if row.openingBalance > 0.0 { Divide(row.adjustedReturnPct, row.openingBalance, row.tradingNetPL); }
  }

  lemma Divide(p: real, b: real, t: real)
    requires b > 0.0 && p * b == t * 100.0
    ensures p == t / b * 100.0
  {
    assert p == p * b / b == t * 100.0 / b;
  }

  lemma FirstOpening(opening: real, eps: seq<EpisodeValue>, flows: seq<CashFlow>, start: int)
    ensures BalanceAfter(opening, eps, flows, start, 0) == opening
  {
    NothingInEmptyWindow(eps, flows, start);
  }

  // ---- The history as a whole ----

  /** The program starts with the second in which the first episode was entered. */
  lemma ProgramStartsWithFirstEntry(eps: seq<EpisodeValue>)
    requires eps != []
    ensures forall e :: e in eps ==> ProgramStart(eps) * 1000 <= e.firstEntryMsc
    ensures exists e :: e in eps && e.firstEntryMsc < ProgramStart(eps) * 1000 + 1000
  {
    var m := EarliestEntry(eps);
    assert exists e :: e in eps && m == e.firstEntryMsc;
  }

  /** The settled profit is that of all closed episodes. */
  lemma {:induction false} SettledProfitIs(eps: seq<EpisodeValue>)
    ensures SettledProfit(eps) == Sum(seq(|eps|, i requires 0 <= i < |eps| => if !eps[i].open && eps[i].finalCloseMsc > 0 then eps[i].netProfit else 0.0))
  {
    if eps != [] {
      var n := |eps| - 1;
      SettledProfitIs(eps[..n]);
      SumGrows(seq(|eps|, i requires 0 <= i < |eps| => if !eps[i].open && eps[i].finalCloseMsc > 0 then eps[i].netProfit else 0.0),
               seq(n, i requires 0 <= i < n => if !eps[..n][i].open && eps[..n][i].finalCloseMsc > 0 then eps[..n][i].netProfit else 0.0),
               if !eps[n].open && eps[n].finalCloseMsc > 0 then eps[n].netProfit else 0.0);
    }
  }
}
