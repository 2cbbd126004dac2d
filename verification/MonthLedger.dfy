/** The chain of 30-day balance ledgers and the opening balance it starts from. */
module MonthLedger {
  import opened Episodes

  const DAY := 86_400
  const MONTH := 30 * DAY
  const FLOOR_BALANCE: real := 0.01

  datatype CashKind = Deposit | Withdrawal | OtherFlow
  datatype CashFlow = CashFlow(timeMsc: int, amount: real, kind: CashKind)
  datatype Status = Pass | Fail | InProgress | InsufficientData | NotVerifiable
  datatype Totals = Totals(deposits: real, withdrawals: real, other: real)
  datatype MonthRow = MonthRow(
    index: nat, startUtc: int, endUtc: int, openingBalance: real, tradingNetPL: real,
    deposits: real, withdrawals: real, adjustedReturnPct: real, status: Status)

  /** `Math.floor(msc / 1000)`: Dafny's division by a positive number is the floor. */
  function Seconds(msc: int): int { msc / 1000 }

  predicate Settled(e: EpisodeValue) { !e.open && e.finalCloseMsc > 0 }

  predicate Within(at: int, from: int, to: int) { from <= at < to }

  // ---- Window sums: what happened in [from, to) ----

  function TradingIn(eps: seq<EpisodeValue>, from: int, to: int): real {
    if eps == [] then 0.0
    else
      var e := eps[|eps| - 1];
      TradingIn(eps[..|eps| - 1], from, to)
      + if Settled(e) && Within(Seconds(e.finalCloseMsc), from, to) then e.netProfit else 0.0
  }

  /** What one flow adds to the chained balance. */
  function Effect(f: CashFlow): real {
    match f.kind
    case Deposit => Max(0.0, f.amount)
    case Withdrawal => -Abs(f.amount)
    case OtherFlow => f.amount
  }

  function CashIn(flows: seq<CashFlow>, from: int, to: int): real {
    if flows == [] then 0.0
    else
      var f := flows[|flows| - 1];
      CashIn(flows[..|flows| - 1], from, to) + if Within(Seconds(f.timeMsc), from, to) then Effect(f) else 0.0
  }

  /** What the flows of one kind come to in a window: deposits and withdrawals as positive amounts. */
  function KindIn(flows: seq<CashFlow>, kind: CashKind, from: int, to: int): real {
    if flows == [] then 0.0
    else
      var f := flows[|flows| - 1];
      KindIn(flows[..|flows| - 1], kind, from, to)
      + if f.kind == kind && Within(Seconds(f.timeMsc), from, to) then (if kind == Withdrawal then -Effect(f) else Effect(f)) else 0.0
  }

  lemma {:induction false} KindsMakeCash(flows: seq<CashFlow>, from: int, to: int)
    ensures KindIn(flows, Deposit, from, to) - KindIn(flows, Withdrawal, from, to) + KindIn(flows, OtherFlow, from, to)
         == CashIn(flows, from, to)
  {
    if flows != [] { KindsMakeCash(flows[..|flows| - 1], from, to); }
  }

  /** The chained balance `months` windows after the program start, given the opening one. */
  function BalanceAfter(opening: real, eps: seq<EpisodeValue>, flows: seq<CashFlow>, start: int, months: nat): real {
    var end := start + months * MONTH;
    opening + TradingIn(eps, start, end) + CashIn(flows, start, end)
  }

  lemma {:induction false} TradingSplits(eps: seq<EpisodeValue>, from: int, mid: int, to: int)
    requires from <= mid <= to
    ensures TradingIn(eps, from, to) == TradingIn(eps, from, mid) + TradingIn(eps, mid, to)
  {
    if eps != [] { TradingSplits(eps[..|eps| - 1], from, mid, to); }
  }

  lemma {:induction false} CashSplits(flows: seq<CashFlow>, from: int, mid: int, to: int)
    requires from <= mid <= to
    ensures CashIn(flows, from, to) == CashIn(flows, from, mid) + CashIn(flows, mid, to)
  {
    if flows != [] { CashSplits(flows[..|flows| - 1], from, mid, to); }
  }

  lemma {:induction false} NothingInEmptyWindow(eps: seq<EpisodeValue>, flows: seq<CashFlow>, at: int)
    ensures TradingIn(eps, at, at) == 0.0 && CashIn(flows, at, at) == 0.0
  {
    if eps != [] { NothingInEmptyWindow(eps[..|eps| - 1], flows, at); }
    else if flows != [] { NothingInEmptyWindow(eps, flows[..|flows| - 1], at); }
  }

  // ---- The engine's loops ----

  /** Whole 30-day windows between the program start and now. */
  function CompletedMonths(start: int, now: int): (n: nat)
    ensures start > 0 && now > start ==> start + n * MONTH <= now < start + (n + 1) * MONTH
  {
    if start <= 0 || now <= start then 0 else (now - start) / MONTH
  }

  /** Everything after the program start that moved the balance, as the reconstruction sums it. */
  function Delta(eps: seq<EpisodeValue>, flows: seq<CashFlow>, start: int): real {
    TradingSince(eps, start) + AmountsSince(flows, start)
  }

  function TradingSince(eps: seq<EpisodeValue>, start: int): real {
    if eps == [] then 0.0
    else
      var e := eps[|eps| - 1];
      TradingSince(eps[..|eps| - 1], start)
      + if Settled(e) && Seconds(e.finalCloseMsc) >= start then e.netProfit else 0.0
  }

  function AmountsSince(flows: seq<CashFlow>, start: int): real {
    if flows == [] then 0.0
    else
      var f := flows[|flows| - 1];
      AmountsSince(flows[..|flows| - 1], start) + if Seconds(f.timeMsc) >= start then f.amount else 0.0
  }

  method ReconstructOpeningBalance(balance: real, flows: seq<CashFlow>, eps: seq<EpisodeValue>, start: int) returns (opening: real)
    ensures start <= 0 ==> opening == balance
    ensures start > 0 ==> opening == Max(FLOOR_BALANCE, balance - Delta(eps, flows, start))
  {
    if start <= 0 {
      return balance;
    }
    var delta := 0.0;
    var i := 0;
    while i < |eps|
      invariant 0 <= i <= |eps|
      invariant delta == TradingSince(eps[..i], start)
    {
      assert eps[..i + 1][..i] == eps[..i];
      if !eps[i].open && eps[i].finalCloseMsc > 0 && Seconds(eps[i].finalCloseMsc) >= start {
        delta := delta + eps[i].netProfit;
      }
      i := i + 1;
    }
    assert eps[..i] == eps;
    var j := 0;
    while j < |flows|
      invariant 0 <= j <= |flows|
      invariant delta == TradingSince(eps, start) + AmountsSince(flows[..j], start)
    {
      assert flows[..j + 1][..j] == flows[..j];
      if Seconds(flows[j].timeMsc) >= start {
        delta := delta + flows[j].amount;
      }
      j := j + 1;
    }
    assert flows[..j] == flows;
    opening := Max(FLOOR_BALANCE, balance - delta);
  }

  method TradingNetPL(eps: seq<EpisodeValue>, from: int, to: int) returns (sum: real)
    ensures sum == TradingIn(eps, from, to)
  {
    sum := 0.0;
    var i := 0;
    while i < |eps|
      invariant 0 <= i <= |eps|
      invariant sum == TradingIn(eps[..i], from, to)
    {
      assert eps[..i + 1][..i] == eps[..i];
      if !eps[i].open && eps[i].finalCloseMsc > 0 {
        var close := Seconds(eps[i].finalCloseMsc);
        sum := if from <= close < to then sum + eps[i].netProfit else sum;
      }
      i := i + 1;
    }
    assert eps[..i] == eps;
  }

  /** The withdrawal total takes `Math.abs(Math.min(0, amount) || amount)`, which is the absolute amount. */
  method CashFlowTotals(flows: seq<CashFlow>, from: int, to: int) returns (t: Totals)
    ensures t.deposits == KindIn(flows, Deposit, from, to) && t.deposits >= 0.0
    ensures t.withdrawals == KindIn(flows, Withdrawal, from, to) && t.withdrawals >= 0.0
    ensures t.other == KindIn(flows, OtherFlow, from, to)
  {
    var deposits, withdrawals, other := 0.0, 0.0, 0.0;
    var i := 0;
    while i < |flows|
      invariant 0 <= i <= |flows|
      invariant deposits == KindIn(flows[..i], Deposit, from, to) && deposits >= 0.0
      invariant withdrawals == KindIn(flows[..i], Withdrawal, from, to) && withdrawals >= 0.0
      invariant other == KindIn(flows[..i], OtherFlow, from, to)
    {
      assert flows[..i + 1][..i] == flows[..i];
      var f := flows[i];
      if from <= Seconds(f.timeMsc) < to {
        if f.kind == Deposit {
          deposits := deposits + Max(0.0, f.amount);
        } else if f.kind == Withdrawal {
          var negative := Min(0.0, f.amount);
          withdrawals := withdrawals + Abs(if negative != 0.0 then negative else f.amount);
        } else {
          other := other + f.amount;
        }
      }
      i := i + 1;
    }
    assert flows[..i] == flows;
    t := Totals(deposits, withdrawals, other);
  }

  ghost predicate RowAt(row: MonthRow, k: nat, opening: real, eps: seq<EpisodeValue>, flows: seq<CashFlow>, start: int, now: int) {
    && row.index == k
    && row.startUtc == start + k * MONTH && row.endUtc == row.startUtc + MONTH
    && row.openingBalance == BalanceAfter(opening, eps, flows, start, k)
    && row.tradingNetPL == TradingIn(eps, row.startUtc, row.endUtc)
    && row.deposits == KindIn(flows, Deposit, row.startUtc, row.endUtc)
    && row.withdrawals == KindIn(flows, Withdrawal, row.startUtc, row.endUtc)
    && (row.openingBalance > 0.0 ==> row.adjustedReturnPct * row.openingBalance == row.tradingNetPL * 100.0)
    && (row.openingBalance <= 0.0 ==> row.adjustedReturnPct == 0.0)
    && (row.status == InProgress <==> now < row.endUtc)
    && (row.status == Pass <==> now >= row.endUtc && row.adjustedReturnPct >= 1.0)
    && (row.status == Fail <==> now >= row.endUtc && row.adjustedReturnPct < 1.0)
  }

  lemma BalanceAdvances(opening: real, eps: seq<EpisodeValue>, flows: seq<CashFlow>, start: int, k: nat)
    ensures BalanceAfter(opening, eps, flows, start, k + 1)
         == BalanceAfter(opening, eps, flows, start, k)
            + TradingIn(eps, start + k * MONTH, start + (k + 1) * MONTH)
            + CashIn(flows, start + k * MONTH, start + (k + 1) * MONTH)
  {
    TradingSplits(eps, start, start + k * MONTH, start + (k + 1) * MONTH);
    CashSplits(flows, start, start + k * MONTH, start + (k + 1) * MONTH);
  }

  lemma PercentOf(part: real, whole: real)
    requires whole > 0.0
    ensures part / whole * 100.0 * whole == part * 100.0
  {
    assert part / whole * whole == part;
  }

  /** What the loop writes down is the row of that month. */
  lemma RowIsRight(row: MonthRow, opening: real, eps: seq<EpisodeValue>, flows: seq<CashFlow>, start: int, now: int)
    requires row.startUtc == start + row.index * MONTH && row.endUtc == row.startUtc + MONTH
    requires row.openingBalance == BalanceAfter(opening, eps, flows, start, row.index)
    requires row.tradingNetPL == TradingIn(eps, row.startUtc, row.endUtc)
    requires row.deposits == KindIn(flows, Deposit, row.startUtc, row.endUtc)
    requires row.withdrawals == KindIn(flows, Withdrawal, row.startUtc, row.endUtc)
    requires row.adjustedReturnPct == if row.openingBalance > 0.0 then row.tradingNetPL / row.openingBalance * 100.0 else 0.0
    requires row.status == if now < row.endUtc then InProgress else if row.adjustedReturnPct >= 1.0 then Pass else Fail
    ensures RowAt(row, row.index, opening, eps, flows, start, now)
  {
    hide BalanceAfter, TradingIn, KindIn;
    if row.openingBalance > 0.0 { PercentOf(row.tradingNetPL, row.openingBalance); }
  }

  /** Each row opens with the balance that every earlier window's profit and cash flows lead to;
      `closing` is the balance the loop carries out of the last window. */
  method BuildMonths(balance: real, flows: seq<CashFlow>, eps: seq<EpisodeValue>, start: int, now: int)
    returns (rows: seq<MonthRow>, closing: real)
    ensures start <= 0 ==> rows == []
    ensures start > 0 ==>
      var opening := Max(FLOOR_BALANCE, balance - Delta(eps, flows, start));
      && |rows| == CompletedMonths(start, now) + 1
      && (forall k :: 0 <= k < |rows| ==> RowAt(rows[k], k, opening, eps, flows, start, now))
      && closing == BalanceAfter(opening, eps, flows, start, |rows|)
  {
    rows, closing := [], balance;
    if start <= 0 {
      return;
    }
    var count := CompletedMonths(start, now) + 1;
    var opening := ReconstructOpeningBalance(balance, flows, eps, start);
    closing := opening;
    NothingInEmptyWindow(eps, flows, start);
    var index: nat := 0;
    while index < count
      invariant index <= count && |rows| == index
      invariant closing == BalanceAfter(opening, eps, flows, start, index)
      invariant forall k :: 0 <= k < index ==> RowAt(rows[k], k, opening, eps, flows, start, now)
    {
      hide RowAt, BalanceAfter, TradingIn, CashIn, KindIn;
      var startUtc := start + index * MONTH;
      var endUtc := startUtc + MONTH;
      var net := TradingNetPL(eps, startUtc, endUtc);
      var cash := CashFlowTotals(flows, startUtc, endUtc);
      var pct := if closing > 0.0 then net / closing * 100.0 else 0.0;
      var status := if now < endUtc then InProgress else if pct >= 1.0 then Pass else Fail;
      var row := MonthRow(index, startUtc, endUtc, closing, net, cash.deposits, cash.withdrawals, pct, status);
      RowIsRight(row, opening, eps, flows, start, now);
      KindsMakeCash(flows, startUtc, endUtc);
      BalanceAdvances(opening, eps, flows, start, index);
      rows := rows + [row];
      closing := closing + net + cash.deposits - cash.withdrawals + cash.other;
      index := index + 1;
    }
  }

  // ---- Reconciliation ----

  /** How far a flow's chained effect is from its signed amount: a negative deposit is ignored and a
      positive withdrawal is taken off twice. */
  function Drift(f: CashFlow): real {
    match f.kind
    case Deposit => Max(0.0, -f.amount)
    case Withdrawal => -2.0 * Max(0.0, f.amount)
    case OtherFlow => 0.0
  }

  function DriftIn(flows: seq<CashFlow>, from: int, to: int): real {
    if flows == [] then 0.0
    else
      var f := flows[|flows| - 1];
      DriftIn(flows[..|flows| - 1], from, to) + if Within(Seconds(f.timeMsc), from, to) then Drift(f) else 0.0
  }

  lemma {:induction false} CashIsAmountPlusDrift(flows: seq<CashFlow>, from: int, to: int)
    requires from <= to
    ensures CashIn(flows, from, to) == AmountsSince(flows, from) - AmountsSince(flows, to) + DriftIn(flows, from, to)
  {
    if flows != [] { CashIsAmountPlusDrift(flows[..|flows| - 1], from, to); }
  }

  lemma {:induction false} TradingIsDifference(eps: seq<EpisodeValue>, from: int, to: int)
    requires from <= to
    ensures TradingIn(eps, from, to) == TradingSince(eps, from) - TradingSince(eps, to)
  {
    if eps != [] { TradingIsDifference(eps[..|eps| - 1], from, to); }
  }

  /** The chain ends at the reported balance plus three explicit residuals, for every input: the amount the
      opening balance was raised to its floor, the drift of wrongly signed flows, and events past the last window. */
  lemma LedgerResidual(balance: real, flows: seq<CashFlow>, eps: seq<EpisodeValue>, start: int, months: nat)
    ensures
      var end := start + months * MONTH;
      var raw := balance - Delta(eps, flows, start);
      BalanceAfter(Max(FLOOR_BALANCE, raw), eps, flows, start, months)
      == balance + (Max(FLOOR_BALANCE, raw) - raw) + DriftIn(flows, start, end) - Delta(eps, flows, end)
  {
    var end := start + months * MONTH;
    CashIsAmountPlusDrift(flows, start, end);
    TradingIsDifference(eps, start, end);
  }

  lemma {:induction false} NothingAfter(flows: seq<CashFlow>, eps: seq<EpisodeValue>, end: int)
    requires forall f :: f in flows ==> Seconds(f.timeMsc) < end
    requires forall e :: e in eps && Settled(e) ==> Seconds(e.finalCloseMsc) < end
    ensures Delta(eps, flows, end) == 0.0
  {
    if eps != [] { NothingAfter(flows, eps[..|eps| - 1], end); }
    else if flows != [] { NothingAfter(flows[..|flows| - 1], eps, end); }
  }

  lemma {:induction false} SignedFlowsDoNotDrift(flows: seq<CashFlow>, from: int, to: int)
    requires forall f :: f in flows && f.kind == Deposit ==> f.amount >= 0.0
    requires forall f :: f in flows && f.kind == Withdrawal ==> f.amount <= 0.0
    ensures DriftIn(flows, from, to) == 0.0
  {
    if flows != [] { SignedFlowsDoNotDrift(flows[..|flows| - 1], from, to); }
  }

  /** With properly signed flows and no event later than now, the chain over every month ends at the
      reported balance exactly when the reconstructed opening balance was not raised to its floor. */
  lemma LedgerReconciles(balance: real, flows: seq<CashFlow>, eps: seq<EpisodeValue>, start: int, now: int)
    requires 0 < start <= now
    requires forall f :: f in flows && f.kind == Deposit ==> f.amount >= 0.0
    requires forall f :: f in flows && f.kind == Withdrawal ==> f.amount <= 0.0
    requires forall f :: f in flows ==> Seconds(f.timeMsc) <= now
    requires forall e :: e in eps && Settled(e) ==> Seconds(e.finalCloseMsc) <= now
    ensures
      var raw := balance - Delta(eps, flows, start);
      BalanceAfter(Max(FLOOR_BALANCE, raw), eps, flows, start, CompletedMonths(start, now) + 1) == balance
      <==> raw >= FLOOR_BALANCE
  {
    var months := CompletedMonths(start, now) + 1;
    LedgerResidual(balance, flows, eps, start, months);
    SignedFlowsDoNotDrift(flows, start, start + months * MONTH);
    NothingAfter(flows, eps, start + months * MONTH);
  }

  /** For flows of any sign and no event later than now, the chain ends at the reported balance exactly when the raise to
      the floor and the drift of the wrongly signed flows cancel; unraised, that is when the negative deposits make up for
      twice the positive withdrawals. */
  lemma LedgerKeepsBalanceIff(balance: real, flows: seq<CashFlow>, eps: seq<EpisodeValue>, start: int, now: int)
    requires 0 < start <= now
    requires forall f :: f in flows ==> Seconds(f.timeMsc) <= now
    requires forall e :: e in eps && Settled(e) ==> Seconds(e.finalCloseMsc) <= now
    ensures
      var raw := balance - Delta(eps, flows, start);
      var months := CompletedMonths(start, now) + 1;
      && (BalanceAfter(Max(FLOOR_BALANCE, raw), eps, flows, start, months) == balance
          <==> Max(FLOOR_BALANCE, raw) - raw + DriftIn(flows, start, start + months * MONTH) == 0.0)
      && (raw >= FLOOR_BALANCE ==>
            (BalanceAfter(Max(FLOOR_BALANCE, raw), eps, flows, start, months) == balance
             <==> NegativeDeposits(flows, start, start + months * MONTH)
                  == 2.0 * PositiveWithdrawals(flows, start, start + months * MONTH)))
  {
    hide BalanceAfter, DriftIn, Delta, NegativeDeposits, PositiveWithdrawals;
    var end := start + (CompletedMonths(start, now) + 1) * MONTH;
    LedgerResidual(balance, flows, eps, start, CompletedMonths(start, now) + 1);
    NothingAfter(flows, eps, end);
    DriftIsWrongSigns(flows, start, end);
  }

  function NegativeDeposits(flows: seq<CashFlow>, from: int, to: int): real {
    if flows == [] then 0.0
    else
      var f := flows[|flows| - 1];
      NegativeDeposits(flows[..|flows| - 1], from, to)
      + if Within(Seconds(f.timeMsc), from, to) && f.kind == Deposit && f.amount < 0.0 then -f.amount else 0.0
  }

  function PositiveWithdrawals(flows: seq<CashFlow>, from: int, to: int): real {
    if flows == [] then 0.0
    else
      var f := flows[|flows| - 1];
      PositiveWithdrawals(flows[..|flows| - 1], from, to)
      + if Within(Seconds(f.timeMsc), from, to) && f.kind == Withdrawal && f.amount > 0.0 then f.amount else 0.0
  }

  lemma {:induction false} DriftIsWrongSigns(flows: seq<CashFlow>, from: int, to: int)
    ensures DriftIn(flows, from, to) == NegativeDeposits(flows, from, to) - 2.0 * PositiveWithdrawals(flows, from, to)
  {
    if flows != [] { DriftIsWrongSigns(flows[..|flows| - 1], from, to); }
  }

  /** A positive amount booked as a withdrawal breaks the chain by twice that amount. */
  lemma PositiveWithdrawalBreaksChain(amount: real, start: int)
    requires amount > 0.0 && start > 0
    ensures
      var flows := [CashFlow(start * 1000, amount, Withdrawal)];
      BalanceAfter(Max(FLOOR_BALANCE, 1000.0 + amount - Delta([], flows, start)), [], flows, start, 1)
      == 1000.0 + amount - 2.0 * amount
  {
    var flows := [CashFlow(start * 1000, amount, Withdrawal)];
    LedgerResidual(1000.0 + amount, flows, [], start, 1);
    assert flows[..0] == [];
    assert AmountsSince(flows, start) == amount;
    assert AmountsSince(flows, start + MONTH) == 0.0;
  }
}
