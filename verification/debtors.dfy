/** The receivables screen: every unpaid installment, earliest due date
    first, each tagged overdue ("vencida") or pending against the start of
    the current day. */
module Debtors {
  import opened Types
  import Seqs
  import Store

  function ByDueDate(): (Installment, Installment) -> bool
  {
    (a: Installment, b: Installment) => a.dueDate <= b.dueDate
  }

  lemma ByDueDateIsTotalPreorder()
    ensures Seqs.TotalPreorder(ByDueDate())
  {
  }

  /** The unpaid installments, ordered by due date. */
  function Pending(installments: seq<Installment>): seq<Installment>
  {
    Seqs.SortBy(Seqs.Filter(installments, Store.Unpaid), ByDueDate())
  }

  /** The list is ordered by due date, holds only unpaid installments, and
      holds each unpaid installment as often as the ledger does. */
  lemma PendingIsSortedUnpaid(installments: seq<Installment>)
    ensures Seqs.SortedBy(Pending(installments), ByDueDate())
    ensures multiset(Pending(installments)) == multiset(Seqs.Filter(installments, Store.Unpaid))
    ensures forall k :: 0 <= k < |Pending(installments)| ==>
              Pending(installments)[k] in installments && !IsPaid(Pending(installments)[k])
    ensures forall i :: 0 <= i < |installments| && !IsPaid(installments[i]) ==>
              installments[i] in Pending(installments)
  {
    var unpaid := Seqs.Filter(installments, Store.Unpaid);
    var pending := Pending(installments);
    ByDueDateIsTotalPreorder();
    Seqs.SortBySorted(unpaid, ByDueDate());
    forall k | 0 <= k < |pending|
      ensures pending[k] in installments && !IsPaid(pending[k])
    {
      assert pending[k] in multiset(unpaid);
      assert pending[k] in unpaid;
    }
    forall i | 0 <= i < |installments| && !IsPaid(installments[i])
      ensures installments[i] in pending
    {
      assert installments[i] in unpaid;
      assert installments[i] in multiset(pending);
    }
  }

  /** Once an installment is paid (at a non-zero time) it leaves the list. */
  lemma PaidLeavesPending(s: Snapshot, id: Id, now: int)
    requires now != 0
    ensures forall k :: 0 <= k < |Pending(Store.MarkInstallmentAsPaid(s, id, now).installments)| ==>
              Pending(Store.MarkInstallmentAsPaid(s, id, now).installments)[k].id != id
  {
    var r := Store.MarkInstallmentAsPaid(s, id, now);
    PendingIsSortedUnpaid(r.installments);
  }

  /** The tag on each card. */
  datatype DueTag = Vencida | NotYet
  {
    function Text(): string
    {
      match this
      case Vencida => "vencida"
      case NotYet => "pendente"
    }
  }

  /** getOverdueStatus: overdue when due strictly before the start of the
      current day (`todayStart`). */
  function OverdueStatus(dueDate: int, todayStart: int): (r: DueTag)
    ensures r == Vencida <==> dueDate < todayStart
  {
    if dueDate < todayStart then Vencida else NotYet
  }

  /** A card tagged "vencida" belongs to a customer the store classifies as
      devedor, since the store compares against the current instant, which
      is never before the start of the day. */
  lemma VencidaMeansDevedor(s: Snapshot, customerId: Id, i: nat, todayStart: int, now: int)
    requires i < |s.installments| && !IsPaid(s.installments[i])
    requires Store.BelongsTo(s, customerId, s.installments[i])
    requires todayStart <= now
    requires OverdueStatus(s.installments[i].dueDate, todayStart) == Vencida
    ensures Store.CustomerStatus(s, customerId, now) == Devedor
  {
    assert Store.Overdue(s.installments[i], now);
  }

  /** The converse fails: an installment due earlier today is tagged
      "pendente" here while the store already calls its customer devedor. */
  lemma DueEarlierTodayIsNotVencida()
    ensures var sale := Sale("s", "c", [], 10.0, Pix, 1, 0);
            var ins := Installment("i", "s", 1, 10.0, 500, Seqs.None);
            var s := Snapshot([], [], [sale], [ins], InitialSnapshot.profile);
            && OverdueStatus(ins.dueDate, 0) == NotYet
            && Store.CustomerStatus(s, "c", 1000) == Devedor
  {
    var sale := Sale("s", "c", [], 10.0, Pix, 1, 0);
    var ins := Installment("i", "s", 1, 10.0, 500, Seqs.None);
    var s := Snapshot([], [], [sale], [ins], InitialSnapshot.profile);
    assert Store.SaleMatches("s")(sale);
    assert Store.SaleOf(s, ins) == Seqs.Some(sale);
    assert Store.BelongsTo(s, "c", s.installments[0]);
    assert Store.Overdue(s.installments[0], 1000);
  }

  /** The counter above the list: singular exactly for one item. */
  function CounterLabel(n: nat): (r: string)
    ensures r == "pendência" <==> n == 1
    ensures r == "pendência" || r == "pendências"
  {
    if n == 1 then "pendência" else "pendências"
  }
}
