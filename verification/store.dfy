/** The ledger store: every update is a pure Snapshot -> Snapshot function,
    and the status classifier and dashboard aggregates read one snapshot.
    Generated ids, the clock and the calendar are parameters. */
module Store {
  import opened Types
  import Seqs

  /** x floored at 0. */
  function Max0(x: int): (r: int)
    ensures r >= 0 && r >= x
    ensures r == x || r == 0
  {
    if x < 0 then 0 else x
  }

  // ----- transitions -----

  /** addCustomer: appends the new customer and returns it too. */
  function AddCustomer(s: Snapshot, data: CustomerData, id: Id, now: int): (r: (Snapshot, Customer))
    ensures r.0.customers == s.customers + [r.1]
    ensures r.1.id == id && r.1.name == data.name && r.1.phone == data.phone && r.1.createdAt == now
    ensures r.0.(customers := s.customers) == s
  {
    var c := Customer(id, data.name, data.phone, now);
    (s.(customers := s.customers + [c]), c)
  }

  /** addProduct: appends the new product. */
  function AddProduct(s: Snapshot, data: ProductData, id: Id): (r: Snapshot)
    ensures |r.products| == |s.products| + 1 && r.products[..|s.products|] == s.products
    ensures var p := r.products[|s.products|];
            && p.id == id && p.name == data.name && p.category == data.category
            && p.price == data.price && p.stock == data.stock && p.minStock == data.minStock
    ensures r.(products := s.products) == s
  {
    var p := Product(id, data.name, data.category, data.price, data.stock, data.minStock);
    var r := s.(products := s.products + [p]);
    assert r.products[..|s.products|] == s.products;
    r
  }

  /** updateProductStock: clamped stock change of every product with that id. */
  function UpdateProductStock(s: Snapshot, productId: Id, delta: int): (r: Snapshot)
    ensures |r.products| == |s.products|
    ensures forall i :: 0 <= i < |s.products| && s.products[i].id == productId ==>
              r.products[i] == s.products[i].(stock := Max0(s.products[i].stock + delta))
    ensures forall i :: 0 <= i < |s.products| && s.products[i].id != productId ==>
              r.products[i] == s.products[i]
    ensures r.(products := s.products) == s
  {
    var ps := s.products;
    s.(products := seq(|ps|, i requires 0 <= i < |ps| =>
                     if ps[i].id == productId then ps[i].(stock := Max0(ps[i].stock + delta))
                     else ps[i]))
  }

  /** The number of installments the generation loop `for i = 1 .. N` makes. */
  function InstallmentCount(req: SaleRequest): nat
  {
    if req.installments < 0 then 0 else req.installments
  }

  predicate ItemIs(pid: Id, it: SaleItem)
  {
    it.productId == pid
  }

  function ItemMatches(pid: Id): SaleItem -> bool
  {
    (it: SaleItem) => ItemIs(pid, it)
  }

  /** The first sale item naming the product, if any. */
  function ItemFor(items: seq<SaleItem>, pid: Id): Seqs.Option<SaleItem>
  {
    Seqs.Find(items, ItemMatches(pid))
  }

  /** The product after a sale: decremented by the first item that names it,
      floored at 0, or left alone when no item names it. */
  function AfterSale(p: Product, items: seq<SaleItem>): Product
  {
    match ItemFor(items, p.id)
    case Some(it) => p.(stock := Max0(p.stock - it.quantity))
    case None => p
  }

  /** The catalogue after a sale: every product keeps its position and all
      its fields but stock, and loses the quantity of the first item naming
      it, floored at 0. */
  function ProductsAfterSale(ps: seq<Product>, items: seq<SaleItem>): (r: seq<Product>)
    ensures |r| == |ps|
    ensures forall i :: 0 <= i < |ps| ==>
              r[i] == ps[i].(stock := r[i].stock)
              && r[i].stock == (match ItemFor(items, ps[i].id)
                                case Some(it) => Max0(ps[i].stock - it.quantity)
                                case None => ps[i].stock)
  {
    seq(|ps|, i requires 0 <= i < |ps| => AfterSale(ps[i], items))
  }

  /** The generated installments 1..N, all of the same amount, due k calendar
      months after `now`; `addMonths` stands for Date.setMonth. */
  function Schedule(saleId: Id, insIds: seq<Id>, amount: real, now: int,
                    addMonths: (int, int) -> int): (r: seq<Installment>)
    ensures |r| == |insIds|
    ensures forall k :: 0 <= k < |insIds| ==>
              && r[k].id == insIds[k] && r[k].saleId == saleId && r[k].number == k + 1
              && r[k].amount == amount && r[k].dueDate == addMonths(now, k + 1) && !IsPaid(r[k])
  {
    seq(|insIds|, k requires 0 <= k < |insIds| =>
      Installment(insIds[k], saleId, k + 1, amount, addMonths(now, k + 1), Seqs.None))
  }

  /** createSale: one atomic transition that appends the sale, appends its
      installment schedule and decrements stock. `saleId` and `insIds` are
      the fresh ids, `now` the clock reading. */
  function CreateSale(s: Snapshot, req: SaleRequest, saleId: Id, insIds: seq<Id>, now: int,
                      addMonths: (int, int) -> int): (r: Snapshot)
    requires |insIds| == InstallmentCount(req)
    ensures r.sales == s.sales + [Sale(saleId, req.customerId, req.items, req.total,
                                       req.paymentMethod, req.installments, now)]
    ensures |r.installments| == |s.installments| + InstallmentCount(req)
    ensures r.installments[..|s.installments|] == s.installments
    ensures forall k :: 0 <= k < InstallmentCount(req) ==>
              var ins := r.installments[|s.installments| + k];
              && ins.id == insIds[k] && ins.saleId == saleId && ins.number == k + 1
              && ins.amount == req.total / req.installments as real
              && ins.dueDate == addMonths(now, k + 1) && !IsPaid(ins)
    ensures |r.products| == |s.products|
    ensures forall i :: 0 <= i < |s.products| ==>
              r.products[i] == s.products[i].(stock := r.products[i].stock)
              && r.products[i].stock == (match ItemFor(req.items, s.products[i].id)
                                         case Some(it) => Max0(s.products[i].stock - it.quantity)
                                         case None => s.products[i].stock)
    ensures r.customers == s.customers && r.profile == s.profile
  {
    var sale := Sale(saleId, req.customerId, req.items, req.total, req.paymentMethod,
                     req.installments, now);
    var amount := if req.installments > 0 then req.total / req.installments as real else 0.0;
    var schedule := Schedule(saleId, insIds, amount, now, addMonths);
    var r := Snapshot(s.customers,
                      ProductsAfterSale(s.products, req.items),
                      s.sales + [sale],
                      s.installments + schedule,
                      s.profile);
    assert r.installments[..|s.installments|] == s.installments;
    r
  }

  /** markInstallmentAsPaid: stamps `now` on every installment with that id,
      whether or not it was already paid. */
  function MarkInstallmentAsPaid(s: Snapshot, installmentId: Id, now: int): (r: Snapshot)
    ensures |r.installments| == |s.installments|
    ensures forall i :: 0 <= i < |s.installments| ==>
              r.installments[i] == (if s.installments[i].id == installmentId
                                    then s.installments[i].(paidAt := Seqs.Some(now))
                                    else s.installments[i])
    ensures r.(installments := s.installments) == s
  {
    var xs := s.installments;
    s.(installments := seq(|xs|, i requires 0 <= i < |xs| =>
                         if xs[i].id == installmentId then xs[i].(paidAt := Seqs.Some(now))
                         else xs[i]))
  }

  /** updateProfile: replaces the profile as a whole. */
  function UpdateProfile(s: Snapshot, profile: Profile): (r: Snapshot)
    ensures r.profile == profile
    ensures r.(profile := s.profile) == s
  {
    s.(profile := profile)
  }

  // ----- status classifier -----

  predicate SaleIs(id: Id, sl: Sale)
  {
    sl.id == id
  }

  function SaleMatches(id: Id): Sale -> bool
  {
    (sl: Sale) => SaleIs(id, sl)
  }

  /** The first sale whose id is the installment's sale id, if any. */
  function SaleOf(s: Snapshot, ins: Installment): Seqs.Option<Sale>
  {
    Seqs.Find(s.sales, SaleMatches(ins.saleId))
  }

  /** The installment's sale, as found by the store, is the customer's. */
  predicate BelongsTo(s: Snapshot, customerId: Id, ins: Installment)
  {
    var sale := SaleOf(s, ins);
    sale.Some? && sale.value.customerId == customerId
  }

  function BelongsToCustomer(s: Snapshot, customerId: Id): Installment -> bool
  {
    (ins: Installment) => BelongsTo(s, customerId, ins)
  }

  function CustomerInstallments(s: Snapshot, customerId: Id): seq<Installment>
  {
    Seqs.Filter(s.installments, BelongsToCustomer(s, customerId))
  }

  /** Unpaid and due strictly before `now` (not before the start of the day). */
  predicate Overdue(ins: Installment, now: int)
  {
    !IsPaid(ins) && ins.dueDate < now
  }

  /** Some installment of the customer is overdue at `now`. */
  ghost predicate HasOverdue(s: Snapshot, customerId: Id, now: int)
  {
    exists i :: 0 <= i < |s.installments| && BelongsTo(s, customerId, s.installments[i])
                && Overdue(s.installments[i], now)
  }

  /** Some installment of the customer is unpaid. */
  ghost predicate HasUnpaid(s: Snapshot, customerId: Id)
  {
    exists i :: 0 <= i < |s.installments| && BelongsTo(s, customerId, s.installments[i])
                && !IsPaid(s.installments[i])
  }

  /** getCustomerStatus with precedence devedor > pendente > em dia. */
  function CustomerStatus(s: Snapshot, customerId: Id, now: int): (r: Status)
    ensures r == Devedor <==> HasOverdue(s, customerId, now)
    ensures r == Pendente <==> HasUnpaid(s, customerId) && !HasOverdue(s, customerId, now)
    ensures r == EmDia <==> !HasUnpaid(s, customerId)
  {
    var mine := CustomerInstallments(s, customerId);
    if exists k | 0 <= k < |mine| :: Overdue(mine[k], now) then Devedor
    else if exists k | 0 <= k < |mine| :: !IsPaid(mine[k]) then Pendente
    else EmDia
  }

  // ----- dashboard aggregates -----

  datatype Stats = Stats(salesToday: real, salesMonth: real, totalReceivable: real,
                         activeCustomers: nat, lowStockItems: nat)

  function CreatedSince(from: int): Sale -> bool
  {
    (sl: Sale) => sl.createdAt >= from
  }

  function SaleTotal(sl: Sale): real
  {
    sl.total
  }

  predicate Unpaid(ins: Installment)
  {
    !IsPaid(ins)
  }

  function Amount(ins: Installment): real
  {
    ins.amount
  }

  /** Σ total over sales created at or after `from`. */
  function SalesSince(sales: seq<Sale>, from: int): real
  {
    Seqs.SumOf(Seqs.Filter(sales, CreatedSince(from)), SaleTotal)
  }

  /** Σ amount over unpaid installments. */
  function Receivable(xs: seq<Installment>): real
  {
    Seqs.SumOf(Seqs.Filter(xs, Unpaid), Amount)
  }

  /** getDashboardStats for the thresholds `today` (start of the current
      day) and `monthFrom` (what the code computes for the month start):
      the totals of the sales created at or after each threshold, the sum of
      the unpaid amounts, the number of customers and the number of products
      at or below their minimum stock. */
  function DashboardStats(s: Snapshot, today: int, monthFrom: int): (r: Stats)
    ensures r.salesToday == Seqs.SumWhere(s.sales, CreatedSince(today), SaleTotal)
    ensures r.salesMonth == Seqs.SumWhere(s.sales, CreatedSince(monthFrom), SaleTotal)
    ensures r.totalReceivable == Seqs.SumWhere(s.installments, Unpaid, Amount)
    ensures r.activeCustomers == |s.customers|
    ensures r.lowStockItems == Seqs.Count(s.products, IsLowStock)
    ensures r.lowStockItems <= |s.products|
    ensures r.lowStockItems == 0 <==> forall i :: 0 <= i < |s.products| ==> !IsLowStock(s.products[i])
  {
    Seqs.SumFilterWhere(s.sales, CreatedSince(today), SaleTotal);
    Seqs.SumFilterWhere(s.sales, CreatedSince(monthFrom), SaleTotal);
    Seqs.SumFilterWhere(s.installments, Unpaid, Amount);
    Seqs.FilterCount(s.products, IsLowStock);
    Seqs.CountZero(s.products, IsLowStock);
    Stats(SalesSince(s.sales, today), SalesSince(s.sales, monthFrom),
          Receivable(s.installments), |s.customers|, |Seqs.Filter(s.products, IsLowStock)|)
  }
}
