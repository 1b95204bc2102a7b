/** Cross-record properties of the store: the installment schedule of
    every sale (count, numbering, sum), stock clamping, payment stamps, and
    how each transition moves the status classifier and the aggregates. */
module Ledger {
  import opened Types
  import opened Store
  import Seqs

  // ----- the schedule invariant -----

  function OfSale(saleId: Id): Installment -> bool
  {
    (ins: Installment) => ins.saleId == saleId
  }

  /** The installments that carry this sale id, in snapshot order. */
  function ScheduleOf(xs: seq<Installment>, saleId: Id): seq<Installment>
  {
    Seqs.Filter(xs, OfSale(saleId))
  }

  /** A sale's schedule has one installment per unit of `installments`,
      numbered 1..N in order, and (for N >= 1) sums to the sale total. */
  predicate ScheduleFits(sale: Sale, sched: seq<Installment>)
  {
    && |sched| == (if sale.installments < 0 then 0 else sale.installments)
    && (forall k :: 0 <= k < |sched| ==> sched[k].number == k + 1)
    && (sale.installments > 0 ==> Seqs.SumOf(sched, Amount) == sale.total)
  }

  predicate DistinctSaleIds(sales: seq<Sale>)
  {
    forall i, j :: 0 <= i < j < |sales| ==> sales[i].id != sales[j].id
  }

  ghost predicate HasSale(sales: seq<Sale>, saleId: Id)
  {
    exists j :: 0 <= j < |sales| && sales[j].id == saleId
  }

  /** Every installment points at a recorded sale. */
  ghost predicate NoOrphans(s: Snapshot)
  {
    forall i :: 0 <= i < |s.installments| ==> HasSale(s.sales, s.installments[i].saleId)
  }

  ghost predicate Consistent(s: Snapshot)
  {
    && DistinctSaleIds(s.sales)
    && NoOrphans(s)
    && forall j :: 0 <= j < |s.sales| ==> ScheduleFits(s.sales[j], ScheduleOf(s.installments, s.sales[j].id))
  }

  /** A sale id that neither a sale nor an installment uses yet. */
  predicate FreshSaleId(s: Snapshot, saleId: Id)
  {
    && (forall j :: 0 <= j < |s.sales| ==> s.sales[j].id != saleId)
    && (forall i :: 0 <= i < |s.installments| ==> s.installments[i].saleId != saleId)
  }

  lemma InitialConsistent()
    ensures Consistent(InitialSnapshot)
  {
  }

  /** The installments createSale appends, i.e. the suffix after the old ones. */
  function NewInstallments(s: Snapshot, r: Snapshot): seq<Installment>
    requires |s.installments| <= |r.installments|
  {
    r.installments[|s.installments|..]
  }

  /** N equal amounts total/N add up to the trusted sale total, exactly. */
  lemma ScheduleSumsToTotal(s: Snapshot, req: SaleRequest, saleId: Id, insIds: seq<Id>,
                                              now: int, addMonths: (int, int) -> int)
    requires |insIds| == InstallmentCount(req)
    requires req.installments >= 1
    ensures var r := CreateSale(s, req, saleId, insIds, now, addMonths);
            Seqs.SumOf(NewInstallments(s, r), Amount) == req.total
  {
    var r := CreateSale(s, req, saleId, insIds, now, addMonths);
    var added := NewInstallments(s, r);
    var n := req.installments as real;
    var a := req.total / n;
    forall k | 0 <= k < |added|
      ensures Amount(added[k]) == a
    {
      assert added[k] == r.installments[|s.installments| + k];
    }
    Seqs.SumConstant(added, Amount, a);
    assert |added| as real == n;
    assert n * a == req.total;
  }

  /** Appending installments of another sale leaves a sale's schedule as it was. */
  lemma AppendOtherSchedule(xs: seq<Installment>, added: seq<Installment>, saleId: Id, otherId: Id)
    requires saleId != otherId
    requires forall k :: 0 <= k < |added| ==> added[k].saleId == otherId
    ensures ScheduleOf(xs + added, saleId) == ScheduleOf(xs, saleId)
  {
    Seqs.FilterAppend(xs, added, OfSale(saleId));
    Seqs.FilterNone(added, OfSale(saleId));
  }

  /** A fresh sale's schedule is exactly the installments appended for it. */
  lemma AppendOwnSchedule(xs: seq<Installment>, added: seq<Installment>, saleId: Id)
    requires forall i :: 0 <= i < |xs| ==> xs[i].saleId != saleId
    requires forall k :: 0 <= k < |added| ==> added[k].saleId == saleId
    ensures ScheduleOf(xs + added, saleId) == added
  {
    Seqs.FilterAppend(xs, added, OfSale(saleId));
    Seqs.FilterNone(xs, OfSale(saleId));
    Seqs.FilterAll(added, OfSale(saleId));
  }

  /** Appending one sale with a fresh id together with exactly its
      fitting schedule keeps the ledger consistent. */
  lemma AppendSaleKeepsConsistent(s: Snapshot, r: Snapshot, sale: Sale, added: seq<Installment>)
    requires Consistent(s)
    requires r.sales == s.sales + [sale] && r.installments == s.installments + added
    requires FreshSaleId(s, sale.id)
    requires forall k :: 0 <= k < |added| ==> added[k].saleId == sale.id
    requires ScheduleFits(sale, added)
    ensures Consistent(r)
  {
    forall j | 0 <= j < |r.sales|
      ensures ScheduleFits(r.sales[j], ScheduleOf(r.installments, r.sales[j].id))
    {
      AppendedScheduleFits(s, r, sale, added, j);
    }
    AppendSaleNoOrphans(s, r, sale, added);
  }

  lemma AppendedScheduleFits(s: Snapshot, r: Snapshot, sale: Sale, added: seq<Installment>, j: nat)
    requires Consistent(s)
    requires r.sales == s.sales + [sale] && r.installments == s.installments + added
    requires FreshSaleId(s, sale.id)
    requires forall k :: 0 <= k < |added| ==> added[k].saleId == sale.id
    requires ScheduleFits(sale, added)
    requires j < |r.sales|
    ensures ScheduleFits(r.sales[j], ScheduleOf(r.installments, r.sales[j].id))
  {
    if j < |s.sales| {
      assert r.sales[j] == s.sales[j];
      AppendOtherSchedule(s.installments, added, s.sales[j].id, sale.id);
    } else {
      assert r.sales[j] == sale;
      AppendOwnSchedule(s.installments, added, sale.id);
    }
  }

  lemma AppendSaleNoOrphans(s: Snapshot, r: Snapshot, sale: Sale, added: seq<Installment>)
    requires NoOrphans(s)
    requires r.sales == s.sales + [sale] && r.installments == s.installments + added
    requires forall k :: 0 <= k < |added| ==> added[k].saleId == sale.id
    ensures NoOrphans(r)
  {
    forall i | 0 <= i < |r.installments|
      ensures HasSale(r.sales, r.installments[i].saleId)
    {
      if i < |s.installments| {
        assert r.installments[i] == s.installments[i];
        var j :| 0 <= j < |s.sales| && s.sales[j].id == s.installments[i].saleId;
        assert r.sales[j] == s.sales[j];
      } else {
        assert r.installments[i] == added[i - |s.installments|];
        assert r.sales[|s.sales|] == sale;
      }
    }
  }

  lemma CreateSaleKeepsConsistent(s: Snapshot, req: SaleRequest, saleId: Id, insIds: seq<Id>,
                                   now: int, addMonths: (int, int) -> int)
    requires |insIds| == InstallmentCount(req)
    requires Consistent(s) && FreshSaleId(s, saleId)
    ensures Consistent(CreateSale(s, req, saleId, insIds, now, addMonths))
  {
    var r := CreateSale(s, req, saleId, insIds, now, addMonths);
    NewScheduleFits(s, req, saleId, insIds, now, addMonths);
    AppendSaleKeepsConsistent(s, r, r.sales[|s.sales|], NewInstallments(s, r));
  }

  /** What createSale appends is the new sale and a schedule that fits it. */
  lemma NewScheduleFits(s: Snapshot, req: SaleRequest, saleId: Id, insIds: seq<Id>,
                        now: int, addMonths: (int, int) -> int)
    requires |insIds| == InstallmentCount(req)
    ensures var r := CreateSale(s, req, saleId, insIds, now, addMonths);
            && r.sales == s.sales + [r.sales[|s.sales|]] && r.sales[|s.sales|].id == saleId
            && r.installments == s.installments + NewInstallments(s, r)
            && (forall k :: 0 <= k < |NewInstallments(s, r)| ==> NewInstallments(s, r)[k].saleId == saleId)
            && ScheduleFits(r.sales[|s.sales|], NewInstallments(s, r))
  {
    var r := CreateSale(s, req, saleId, insIds, now, addMonths);
    var added := NewInstallments(s, r);
    assert r.installments == s.installments + added;
    assert forall k :: 0 <= k < |added| ==> added[k] == r.installments[|s.installments| + k];
    if req.installments > 0 {
      ScheduleSumsToTotal(s, req, saleId, insIds, now, addMonths);
    }
  }

  /** Two installment lists that agree on sale id, number and amount at
      every position. */
  predicate SameTerms(a: seq<Installment>, b: seq<Installment>)
  {
    && |a| == |b|
    && forall k :: 0 <= k < |a| ==>
         a[k].saleId == b[k].saleId && a[k].number == b[k].number && a[k].amount == b[k].amount
  }

  lemma SameTermsSchedule(a: seq<Installment>, b: seq<Installment>, saleId: Id)
    requires SameTerms(a, b)
    ensures SameTerms(ScheduleOf(a, saleId), ScheduleOf(b, saleId))
    ensures Seqs.SumOf(ScheduleOf(a, saleId), Amount) == Seqs.SumOf(ScheduleOf(b, saleId), Amount)
  {
    SameTermsFilter(a, b, saleId);
    SameTermsSum(ScheduleOf(a, saleId), ScheduleOf(b, saleId));
  }

  lemma {:induction false} SameTermsFilter(a: seq<Installment>, b: seq<Installment>, saleId: Id)
    requires SameTerms(a, b)
    ensures SameTerms(ScheduleOf(a, saleId), ScheduleOf(b, saleId))
    decreases |a|
  {
    if a != [] {
      assert SameTerms(a[1..], b[1..]) by {
        assert forall k :: 0 <= k < |a| - 1 ==> a[1..][k] == a[k + 1] && b[1..][k] == b[k + 1];
      }
      SameTermsFilter(a[1..], b[1..], saleId);
      var ra := ScheduleOf(a[1..], saleId);
      var rb := ScheduleOf(b[1..], saleId);
      if a[0].saleId == saleId {
        assert ScheduleOf(a, saleId) == [a[0]] + ra;
        assert ScheduleOf(b, saleId) == [b[0]] + rb;
        SameTermsCons(a[0], b[0], ra, rb);
      } else {
        assert ScheduleOf(a, saleId) == ra;
        assert ScheduleOf(b, saleId) == rb;
      }
    }
  }

  lemma SameTermsCons(x: Installment, y: Installment, xs: seq<Installment>, ys: seq<Installment>)
    requires x.saleId == y.saleId && x.number == y.number && x.amount == y.amount
    requires SameTerms(xs, ys)
    ensures SameTerms([x] + xs, [y] + ys)
  {
    forall k | 0 < k < |xs| + 1
      ensures ([x] + xs)[k] == xs[k - 1] && ([y] + ys)[k] == ys[k - 1]
    {
    }
  }

  lemma {:induction false} SameTermsSum(a: seq<Installment>, b: seq<Installment>)
    requires SameTerms(a, b)
    ensures Seqs.SumOf(a, Amount) == Seqs.SumOf(b, Amount)
    decreases |a|
  {
    if a != [] {
      assert SameTerms(a[1..], b[1..]) by {
        assert forall k :: 0 <= k < |a| - 1 ==> a[1..][k] == a[k + 1] && b[1..][k] == b[k + 1];
      }
      SameTermsSum(a[1..], b[1..]);
    }
  }

  lemma MarkPaidKeepsConsistent(s: Snapshot, installmentId: Id, now: int)
    requires Consistent(s)
    ensures Consistent(MarkInstallmentAsPaid(s, installmentId, now))
  {
    var r := MarkInstallmentAsPaid(s, installmentId, now);
    assert SameTerms(s.installments, r.installments);
    forall j | 0 <= j < |r.sales|
      ensures ScheduleFits(r.sales[j], ScheduleOf(r.installments, r.sales[j].id))
    {
      SameTermsSchedule(s.installments, r.installments, r.sales[j].id);
    }
    forall i | 0 <= i < |r.installments|
      ensures HasSale(r.sales, r.installments[i].saleId)
    {
      assert r.installments[i].saleId == s.installments[i].saleId;
    }
  }

  /** The transitions that do not touch sales or installments keep the
      invariant trivially. */
  lemma OtherUpdatesKeepConsistent(s: Snapshot, c: CustomerData, p: ProductData, id: Id, now: int,
                                   delta: int, profile: Profile)
    requires Consistent(s)
    ensures Consistent(AddCustomer(s, c, id, now).0)
    ensures Consistent(AddProduct(s, p, id))
    ensures Consistent(UpdateProductStock(s, id, delta))
    ensures Consistent(UpdateProfile(s, profile))
  {
    SameLedgerConsistent(s, AddCustomer(s, c, id, now).0);
    SameLedgerConsistent(s, AddProduct(s, p, id));
    SameLedgerConsistent(s, UpdateProductStock(s, id, delta));
    SameLedgerConsistent(s, UpdateProfile(s, profile));
  }

  lemma SameLedgerConsistent(s: Snapshot, r: Snapshot)
    requires Consistent(s)
    requires r.sales == s.sales && r.installments == s.installments
    ensures Consistent(r)
  {
    assert DistinctSaleIds(r.sales);
    forall j | 0 <= j < |r.sales|
      ensures ScheduleFits(r.sales[j], ScheduleOf(r.installments, r.sales[j].id))
    {
      assert r.sales[j] == s.sales[j];
    }
    forall i | 0 <= i < |r.installments|
      ensures HasSale(r.sales, r.installments[i].saleId)
    {
      assert r.installments[i] == s.installments[i];
      var j :| 0 <= j < |s.sales| && s.sales[j].id == s.installments[i].saleId;
      assert r.sales[j] == s.sales[j];
    }
  }

  // ----- stock -----

  predicate StockNonNegative(products: seq<Product>)
  {
    forall i :: 0 <= i < |products| ==> products[i].stock >= 0
  }

  /** Clamping keeps every stock at or above zero; addProduct only does so
      when the submitted stock is not negative, which the form does not check. */
  lemma StockStaysNonNegative(s: Snapshot, req: SaleRequest, saleId: Id, insIds: seq<Id>, now: int,
                              addMonths: (int, int) -> int, productId: Id, delta: int,
                              data: ProductData, newId: Id)
    requires |insIds| == InstallmentCount(req)
    requires StockNonNegative(s.products)
    ensures StockNonNegative(CreateSale(s, req, saleId, insIds, now, addMonths).products)
    ensures StockNonNegative(UpdateProductStock(s, productId, delta).products)
    ensures data.stock >= 0 <==> StockNonNegative(AddProduct(s, data, newId).products)
  {
    var r := AddProduct(s, data, newId);
    assert r.products[|s.products|].stock == data.stock;
  }

  /** An id no product carries leaves the snapshot as it was. */
  lemma UnknownProductIsNoOp(s: Snapshot, productId: Id, delta: int)
    requires forall i :: 0 <= i < |s.products| ==> s.products[i].id != productId
    ensures UpdateProductStock(s, productId, delta) == s
  {
    var r := UpdateProductStock(s, productId, delta);
    assert r.products == s.products;
  }

  /** Two sales touching one product leave max(0, stock - q1 - q2), as if
      the quantities had been taken together. */
  lemma TwoSalesStock(s: Snapshot, req1: SaleRequest, req2: SaleRequest, id1: Id, id2: Id,
                      ids1: seq<Id>, ids2: seq<Id>, t1: int, t2: int,
                      addMonths: (int, int) -> int, i: nat, it1: SaleItem, it2: SaleItem)
    requires |ids1| == InstallmentCount(req1) && |ids2| == InstallmentCount(req2)
    requires i < |s.products|
    requires ItemFor(req1.items, s.products[i].id) == Seqs.Some(it1) && it1.quantity >= 0
    requires ItemFor(req2.items, s.products[i].id) == Seqs.Some(it2) && it2.quantity >= 0
    ensures var r := CreateSale(CreateSale(s, req1, id1, ids1, t1, addMonths), req2, id2, ids2, t2, addMonths);
            r.products[i].stock == Max0(s.products[i].stock - (it1.quantity + it2.quantity))
  {
    var m := CreateSale(s, req1, id1, ids1, t1, addMonths);
    assert m.products[i].id == s.products[i].id;
  }

  // ----- payments -----

  /** markInstallmentAsPaid on an id nothing carries changes nothing. */
  lemma UnknownInstallmentIsNoOp(s: Snapshot, installmentId: Id, now: int)
    requires forall i :: 0 <= i < |s.installments| ==> s.installments[i].id != installmentId
    ensures MarkInstallmentAsPaid(s, installmentId, now) == s
  {
    var r := MarkInstallmentAsPaid(s, installmentId, now);
    assert r.installments == s.installments;
  }

  /** With a non-zero clock the target becomes paid, and nothing paid
      becomes unpaid. */
  lemma PaymentIsMonotone(s: Snapshot, installmentId: Id, now: int)
    requires now != 0
    ensures var r := MarkInstallmentAsPaid(s, installmentId, now);
            forall i :: 0 <= i < |s.installments| ==>
              (IsPaid(s.installments[i]) ==> IsPaid(r.installments[i]))
              && (s.installments[i].id == installmentId ==> IsPaid(r.installments[i]))
  {
  }

  /** Paying twice is not idempotent: the second stamp replaces the first. */
  lemma SecondPaymentOverwrites(s: Snapshot, installmentId: Id, t1: int, t2: int)
    ensures MarkInstallmentAsPaid(MarkInstallmentAsPaid(s, installmentId, t1), installmentId, t2)
            == MarkInstallmentAsPaid(s, installmentId, t2)
  {
    var a := MarkInstallmentAsPaid(MarkInstallmentAsPaid(s, installmentId, t1), installmentId, t2);
    var b := MarkInstallmentAsPaid(s, installmentId, t2);
    assert a.installments == b.installments;
  }

  // ----- the status classifier across transitions -----

  /** A customer none of whose sales exist is "em dia". */
  lemma NoSalesIsEmDia(s: Snapshot, customerId: Id, now: int)
    requires forall j :: 0 <= j < |s.sales| ==> s.sales[j].customerId != customerId
    ensures CustomerStatus(s, customerId, now) == EmDia
  {
    forall i | 0 <= i < |s.installments|
      ensures !BelongsTo(s, customerId, s.installments[i])
    {
    }
  }

  /** One overdue installment outweighs any number of merely pending ones. */
  lemma OverdueWins(s: Snapshot, customerId: Id, now: int, i: nat, j: nat)
    requires i < |s.installments| && j < |s.installments|
    requires BelongsTo(s, customerId, s.installments[i]) && Overdue(s.installments[i], now)
    requires BelongsTo(s, customerId, s.installments[j]) && !IsPaid(s.installments[j])
    requires s.installments[j].dueDate >= now
    ensures CustomerStatus(s, customerId, now) == Devedor
  {
  }

  /** After a added sale, old installments still resolve to the same sale. */
  lemma SaleLookupStable(s: Snapshot, r: Snapshot, sale: Sale, ins: Installment)
    requires r.sales == s.sales + [sale]
    requires ins.saleId != sale.id
    ensures SaleOf(r, ins) == SaleOf(s, ins)
  {
    Seqs.FindAppend(s.sales, [sale], SaleMatches(ins.saleId));
  }

  /** A sale with at least one installment makes its customer at least
      "pendente"; if nothing was overdue and every new due date is at or
      after the moment of the check, exactly "pendente". */
  lemma StatusAfterSale(s: Snapshot, req: SaleRequest, saleId: Id, insIds: seq<Id>,
                                          now: int, addMonths: (int, int) -> int, at: int)
    requires |insIds| == InstallmentCount(req) && req.installments >= 1
    requires FreshSaleId(s, saleId)
    ensures var r := CreateSale(s, req, saleId, insIds, now, addMonths);
            CustomerStatus(r, req.customerId, at) != EmDia
    ensures var r := CreateSale(s, req, saleId, insIds, now, addMonths);
            !HasOverdue(s, req.customerId, at)
            && (forall k :: 1 <= k <= req.installments ==> addMonths(now, k) >= at)
            ==> CustomerStatus(r, req.customerId, at) == Pendente
  {
    var r := CreateSale(s, req, saleId, insIds, now, addMonths);
    FirstNewInstallmentOpen(s, req, saleId, insIds, now, addMonths);
    assert !HasOverdue(s, req.customerId, at)
           && (forall k :: 1 <= k <= req.installments ==> addMonths(now, k) >= at)
           ==> !HasOverdue(r, req.customerId, at)
      by {
        if !HasOverdue(s, req.customerId, at)
           && (forall k :: 1 <= k <= req.installments ==> addMonths(now, k) >= at) {
          NoNewOverdue(s, req, saleId, insIds, now, addMonths, at);
        }
      }
  }

  /** The first installment of a new sale is unpaid and belongs to its customer. */
  lemma FirstNewInstallmentOpen(s: Snapshot, req: SaleRequest, saleId: Id, insIds: seq<Id>,
                                now: int, addMonths: (int, int) -> int)
    requires |insIds| == InstallmentCount(req) && req.installments >= 1
    requires FreshSaleId(s, saleId)
    ensures var r := CreateSale(s, req, saleId, insIds, now, addMonths);
            |s.installments| < |r.installments|
            && BelongsTo(r, req.customerId, r.installments[|s.installments|])
            && !IsPaid(r.installments[|s.installments|])
  {
    var r := CreateSale(s, req, saleId, insIds, now, addMonths);
    var sale := r.sales[|s.sales|];
    Seqs.FindAppend(s.sales, [sale], SaleMatches(saleId));
    assert Seqs.Find([sale], SaleMatches(saleId)) == Seqs.Some(sale);
    assert SaleOf(r, r.installments[|s.installments|]) == Seqs.Some(sale);
  }

  /** A sale whose due dates are all at or after `at` adds no overdue
      installment. */
  lemma NoNewOverdue(s: Snapshot, req: SaleRequest, saleId: Id, insIds: seq<Id>,
                     now: int, addMonths: (int, int) -> int, at: int)
    requires |insIds| == InstallmentCount(req)
    requires FreshSaleId(s, saleId)
    requires !HasOverdue(s, req.customerId, at)
    requires forall k :: 1 <= k <= req.installments ==> addMonths(now, k) >= at
    ensures !HasOverdue(CreateSale(s, req, saleId, insIds, now, addMonths), req.customerId, at)
  {
    NewDueDates(s, req, saleId, insIds, now, addMonths, at);
    var r := CreateSale(s, req, saleId, insIds, now, addMonths);
    AppendedNotOverdue(s, r, r.sales[|s.sales|], req.customerId, at);
  }

  /** Every installment a sale adds falls due at one of its month offsets. */
  lemma NewDueDates(s: Snapshot, req: SaleRequest, saleId: Id, insIds: seq<Id>,
                    now: int, addMonths: (int, int) -> int, at: int)
    requires |insIds| == InstallmentCount(req)
    requires forall k :: 1 <= k <= req.installments ==> addMonths(now, k) >= at
    ensures var r := CreateSale(s, req, saleId, insIds, now, addMonths);
            forall k :: |s.installments| <= k < |r.installments| ==> r.installments[k].dueDate >= at
  {
    var r := CreateSale(s, req, saleId, insIds, now, addMonths);
    var n := |s.installments|;
    forall k | n <= k < |r.installments|
      ensures r.installments[k].dueDate >= at
    {
      var j := k - n;
      assert n + j == k && 0 <= j < InstallmentCount(req);
      assert 1 <= j + 1 <= req.installments;
    }
  }

  /** Appending a sale and installments due no earlier than `at` keeps a
      customer free of overdue installments. */
  lemma AppendedNotOverdue(s: Snapshot, r: Snapshot, sale: Sale, customerId: Id, at: int)
    requires r.sales == s.sales + [sale]
    requires |s.installments| <= |r.installments| && r.installments[..|s.installments|] == s.installments
    requires forall i :: 0 <= i < |s.installments| ==> s.installments[i].saleId != sale.id
    requires forall k :: |s.installments| <= k < |r.installments| ==> r.installments[k].dueDate >= at
    requires !HasOverdue(s, customerId, at)
    ensures !HasOverdue(r, customerId, at)
  {
    var n := |s.installments|;
    forall i | 0 <= i < |r.installments| && BelongsTo(r, customerId, r.installments[i])
      ensures !Overdue(r.installments[i], at)
    {
      if i < n {
        assert r.installments[i] == s.installments[i];
        SaleLookupStable(s, r, sale, s.installments[i]);
      }
    }
  }

  /** Recording a payment (at a non-zero time) never worsens a status. */
  lemma StatusAfterPayment(s: Snapshot, installmentId: Id, now: int, customerId: Id, at: int)
    requires now != 0
    ensures CustomerStatus(MarkInstallmentAsPaid(s, installmentId, now), customerId, at).Rank()
            <= CustomerStatus(s, customerId, at).Rank()
  {
    var r := MarkInstallmentAsPaid(s, installmentId, now);
    assert r.sales == s.sales;
    forall i | 0 <= i < |s.installments|
      ensures BelongsTo(r, customerId, r.installments[i]) == BelongsTo(s, customerId, s.installments[i])
      ensures Overdue(r.installments[i], at) ==> Overdue(s.installments[i], at)
      ensures !IsPaid(r.installments[i]) ==> !IsPaid(s.installments[i])
    {
      assert r.installments[i].saleId == s.installments[i].saleId;
    }
  }

  /** A freshly registered customer (id unused by any sale) is "em dia". */
  lemma NewCustomerIsEmDia(s: Snapshot, data: CustomerData, id: Id, now: int, at: int)
    requires forall j :: 0 <= j < |s.sales| ==> s.sales[j].customerId != id
    ensures var (r, c) := AddCustomer(s, data, id, now);
            c.id == id && r.customers == s.customers + [c]
            && CustomerStatus(r, id, at) == EmDia
            && DashboardStats(r, at, at).activeCustomers == |s.customers| + 1
  {
    var (r, c) := AddCustomer(s, data, id, now);
    NoSalesIsEmDia(r, id, at);
  }

  // ----- the aggregates across transitions -----

  /** A sale with installments adds its whole total to the receivable; one
      without installments adds nothing. */
  lemma ReceivableAfterSale(s: Snapshot, req: SaleRequest, saleId: Id, insIds: seq<Id>,
                                              now: int, addMonths: (int, int) -> int)
    requires |insIds| == InstallmentCount(req)
    ensures var r := CreateSale(s, req, saleId, insIds, now, addMonths);
            Receivable(r.installments)
            == Receivable(s.installments) + (if req.installments >= 1 then req.total else 0.0)
  {
    var r := CreateSale(s, req, saleId, insIds, now, addMonths);
    var added := NewInstallments(s, r);
    assert r.installments == s.installments + added;
    assert forall k :: 0 <= k < |added| ==> added[k] == r.installments[|s.installments| + k];
    Seqs.FilterAppend(s.installments, added, Unpaid);
    Seqs.FilterAll(added, Unpaid);
    Seqs.SumAppend(Seqs.Filter(s.installments, Unpaid), added, Amount);
    if req.installments >= 1 {
      ScheduleSumsToTotal(s, req, saleId, insIds, now, addMonths);
    } else {
      assert added == [];
    }
  }

  function UnpaidWithId(id: Id): Installment -> bool
  {
    (ins: Installment) => ins.id == id && !IsPaid(ins)
  }

  /** Paying (at a non-zero time) removes from the receivable exactly the
      amounts of the unpaid installments with that id. */
  lemma {:induction false} ReceivableAfterPaymentSeq(xs: seq<Installment>, ys: seq<Installment>,
                                                    installmentId: Id, now: int)
    requires now != 0
    requires |ys| == |xs|
    requires forall i :: 0 <= i < |xs| ==>
               ys[i] == (if xs[i].id == installmentId then xs[i].(paidAt := Seqs.Some(now)) else xs[i])
    ensures Receivable(ys) + Seqs.SumOf(Seqs.Filter(xs, UnpaidWithId(installmentId)), Amount)
            == Receivable(xs)
    decreases |xs|
  {
    if xs != [] {
      ReceivableAfterPaymentSeq(xs[1..], ys[1..], installmentId, now);
      Seqs.SumFilterCons(xs, Unpaid, Amount);
      Seqs.SumFilterCons(ys, Unpaid, Amount);
      Seqs.SumFilterCons(xs, UnpaidWithId(installmentId), Amount);
    }
  }

  /** The scenario form: paying the one unpaid installment with a given id
      lowers the receivable by its amount. */
  lemma ReceivableAfterPayment(s: Snapshot, k: nat, now: int)
    requires now != 0 && k < |s.installments| && !IsPaid(s.installments[k])
    requires forall i :: 0 <= i < |s.installments| && i != k ==> s.installments[i].id != s.installments[k].id
    ensures Receivable(MarkInstallmentAsPaid(s, s.installments[k].id, now).installments)
            == Receivable(s.installments) - s.installments[k].amount
  {
    var xs := s.installments;
    var id := xs[k].id;
    var r := MarkInstallmentAsPaid(s, id, now);
    ReceivableAfterPaymentSeq(xs, r.installments, id, now);
    Seqs.SumFilterSingle(xs, UnpaidWithId(id), Amount, k);
  }

  /** A new sale adds its total to every sales window it falls into. */
  lemma SalesSinceAfterSale(s: Snapshot, req: SaleRequest, saleId: Id, insIds: seq<Id>,
                                              now: int, addMonths: (int, int) -> int, from: int)
    requires |insIds| == InstallmentCount(req)
    ensures var r := CreateSale(s, req, saleId, insIds, now, addMonths);
            SalesSince(r.sales, from)
            == SalesSince(s.sales, from) + (if now >= from then req.total else 0.0)
  {
    var r := CreateSale(s, req, saleId, insIds, now, addMonths);
    var sale := r.sales[|s.sales|];
    Seqs.FilterAppend(s.sales, [sale], CreatedSince(from));
    Seqs.SumAppend(Seqs.Filter(s.sales, CreatedSince(from)), Seqs.Filter([sale], CreatedSince(from)), SaleTotal);
    if now >= from {
      assert Seqs.Filter([sale], CreatedSince(from)) == [sale];
    } else {
      assert Seqs.Filter([sale], CreatedSince(from)) == [];
    }
  }
}
