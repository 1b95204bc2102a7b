/** The dashboard's time windows. A clock reading is split into the start
    of the current local day, the start of the first day of the current
    month, and the time elapsed since midnight; calendar arithmetic itself
    is not modelled. */
module Clock {
  import opened Types
  import opened Store
  import Seqs
  import Ledger

  const DayMs := 86_400_000

  datatype Reading = Reading(dayStart: int, monthStart: int, timeOfDay: int)

  predicate Valid(c: Reading)
  {
    0 <= c.timeOfDay < DayMs && c.monthStart <= c.dayStart
  }

  /** The current instant. */
  function Now(c: Reading): int
  {
    c.dayStart + c.timeOfDay
  }

  /** The start of the current day: midnight today. */
  function TodayThreshold(c: Reading): int
  {
    c.dayStart
  }

  /** The month threshold as the dashboard computes it: day 1 of the month,
      but at the current time of day. */
  function MonthThresholdAsWritten(c: Reading): int
  {
    c.monthStart + c.timeOfDay
  }

  /** The evidently intended month window: from midnight of day 1. */
  function MonthThreshold(c: Reading): int
  {
    c.monthStart
  }

  function StatsAsWritten(s: Snapshot, c: Reading): Stats
  {
    DashboardStats(s, TodayThreshold(c), MonthThresholdAsWritten(c))
  }

  function StatsAt(s: Snapshot, c: Reading): Stats
  {
    DashboardStats(s, TodayThreshold(c), MonthThreshold(c))
  }

  /** As written, on the first of the month a sale made before the current
      time of day is in "sales today" but missing from "sales this month". */
  lemma AsWrittenMonthMissesEarlierSales()
    ensures var c := Reading(0, 0, 3_600_000);
            var s := InitialSnapshot.(sales := [Sale("v1", "c1", [], 100.0, Pix, 1, 1_000)]);
            && Valid(c)
            && StatsAsWritten(s, c).salesToday == 100.0
            && StatsAsWritten(s, c).salesMonth == 0.0
  {
    var c := Reading(0, 0, 3_600_000);
    var sale := Sale("v1", "c1", [], 100.0, Pix, 1, 1_000);
    assert Seqs.Filter([sale], CreatedSince(TodayThreshold(c))) == [sale];
    assert Seqs.Filter([sale], CreatedSince(MonthThresholdAsWritten(c))) == [];
  }

  /** With the month window starting at midnight of day 1, every sale of
      today is a sale of this month, so (for non-negative totals) sales
      today never exceed sales this month. */
  lemma TodayWithinMonth(s: Snapshot, c: Reading)
    requires Valid(c)
    requires forall j :: 0 <= j < |s.sales| ==> s.sales[j].total >= 0.0
    ensures StatsAt(s, c).salesToday <= StatsAt(s, c).salesMonth
  {
    Seqs.SumFilterMono(s.sales, CreatedSince(TodayThreshold(c)), CreatedSince(MonthThreshold(c)), SaleTotal);
  }

  /** A sale recorded now is counted in both windows, whichever month
      threshold is used. */
  lemma NewSaleInBothWindows(s: Snapshot, req: SaleRequest, saleId: Id, insIds: seq<Id>,
                             addMonths: (int, int) -> int, c: Reading)
    requires Valid(c) && |insIds| == InstallmentCount(req)
    ensures var r := CreateSale(s, req, saleId, insIds, Now(c), addMonths);
            && StatsAt(r, c).salesToday == StatsAt(s, c).salesToday + req.total
            && StatsAt(r, c).salesMonth == StatsAt(s, c).salesMonth + req.total
            && StatsAsWritten(r, c).salesMonth == StatsAsWritten(s, c).salesMonth + req.total
  {
    Ledger.SalesSinceAfterSale(s, req, saleId, insIds, Now(c), addMonths, TodayThreshold(c));
    Ledger.SalesSinceAfterSale(s, req, saleId, insIds, Now(c), addMonths, MonthThreshold(c));
    Ledger.SalesSinceAfterSale(s, req, saleId, insIds, Now(c), addMonths, MonthThresholdAsWritten(c));
  }
}
