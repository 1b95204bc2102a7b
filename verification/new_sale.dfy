/** The new-sale screen: product search, the cart state machine, the
    installment choice and the request handed to createSale. */
module NewSale {
  import opened Types
  import Store
  import Seqs
  import Text
  import Ledger

  type Cart = seq<SaleItem>

  function Subtotal(it: SaleItem): real
  {
    it.unitPrice * it.quantity as real
  }

  /** The cart total: the sum of unit price times quantity over the lines. */
  function CartTotal(cart: Cart): real
  {
    Seqs.SumOf(cart, Subtotal)
  }

  // ----- product search -----

  const AllCategories := "Todos"

  predicate ProductMatches(term: string, category: string, p: Product)
  {
    && Text.Contains(Text.Lower(p.name), Text.Lower(term))
    && (category == AllCategories || p.category == category)
  }

  function ProductFilter(term: string, category: string): Product -> bool
  {
    (p: Product) => ProductMatches(term, category, p)
  }

  /** filteredProducts: the products matching the search term and the
      category chip, in catalogue order. */
  function FilteredProducts(products: seq<Product>, term: string, category: string): (r: seq<Product>)
    ensures forall i :: 0 <= i < |r| ==> r[i] in products && ProductMatches(term, category, r[i])
    ensures forall i :: 0 <= i < |products| && ProductMatches(term, category, products[i]) ==> products[i] in r
  {
    Seqs.Filter(products, ProductFilter(term, category))
  }

  /** An empty search under "Todos" lists the whole catalogue, in order. */
  lemma EmptySearchListsAll(products: seq<Product>)
    ensures FilteredProducts(products, "", AllCategories) == products
  {
    forall i | 0 <= i < |products|
      ensures ProductMatches("", AllCategories, products[i])
    {
      Text.EmptyContained(Text.Lower(products[i].name));
    }
    Seqs.FilterAll(products, ProductFilter("", AllCategories));
  }

  /** The search works item by item, so it keeps catalogue order. */
  lemma FilteredProductsSplit(a: seq<Product>, b: seq<Product>, term: string, category: string)
    ensures FilteredProducts(a + b, term, category)
            == FilteredProducts(a, term, category) + FilteredProducts(b, term, category)
  {
    Seqs.FilterAppend(a, b, ProductFilter(term, category));
  }

  // ----- cart transitions -----

  predicate ProductIs(pid: Id, p: Product)
  {
    p.id == pid
  }

  function ProductMatchesId(pid: Id): Product -> bool
  {
    (p: Product) => ProductIs(pid, p)
  }

  /** The first catalogue product with that id, if any. */
  function ProductFor(products: seq<Product>, pid: Id): Seqs.Option<Product>
  {
    Seqs.Find(products, ProductMatchesId(pid))
  }

  predicate InCart(cart: Cart, pid: Id)
  {
    exists i :: 0 <= i < |cart| && cart[i].productId == pid
  }

  /** One more unit on every line of that product. */
  function Bump(cart: Cart, pid: Id): (r: Cart)
    ensures |r| == |cart|
    ensures forall i :: 0 <= i < |cart| ==>
              && r[i].productId == cart[i].productId && r[i].unitPrice == cart[i].unitPrice
              && r[i].quantity == cart[i].quantity + (if cart[i].productId == pid then 1 else 0)
  {
    seq(|cart|, i requires 0 <= i < |cart| =>
      if cart[i].productId == pid then cart[i].(quantity := cart[i].quantity + 1) else cart[i])
  }

  /** addToCart: one more unit of a product already in the cart while its
      quantity is below stock, or a new line of one unit at the current
      price while stock is positive; otherwise nothing changes. */
  function AddToCart(cart: Cart, product: Product): (r: Cart)
    ensures !InCart(cart, product.id) ==>
              r == (if product.stock > 0 then cart + [SaleItem(product.id, 1, product.price)] else cart)
    ensures InCart(cart, product.id) ==>
              r == (if Store.ItemFor(cart, product.id).value.quantity < product.stock
                    then Bump(cart, product.id) else cart)
  {
    InCartFound(cart, product.id);
    match Store.ItemFor(cart, product.id)
    case Some(existing) =>
      if existing.quantity >= product.stock then cart else Bump(cart, product.id)
    case None =>
      if product.stock <= 0 then cart
      else cart + [SaleItem(product.id, 1, product.price)]
  }

  /** items.find by product id succeeds exactly for products in the cart. */
  lemma InCartFound(cart: Cart, pid: Id)
    ensures InCart(cart, pid) <==> Store.ItemFor(cart, pid).Some?
  {
    if InCart(cart, pid) {
      var k :| 0 <= k < |cart| && cart[k].productId == pid;
      assert Store.ItemMatches(pid)(cart[k]);
    }
  }

  /** updateQuantity: moves the quantity of the lines with that product by
      `delta`, unless the result would drop below 1 or (when the product is
      in the catalogue) exceed its stock. Other lines never change. */
  function UpdateQuantity(cart: Cart, products: seq<Product>, pid: Id, delta: int): (r: Cart)
    ensures |r| == |cart|
    ensures forall i :: 0 <= i < |cart| && cart[i].productId != pid ==> r[i] == cart[i]
    ensures forall i :: 0 <= i < |cart| && cart[i].productId == pid ==>
              var q := cart[i].quantity + delta;
              var p := ProductFor(products, pid);
              if q < 1 || (p.Some? && q > p.value.stock) then r[i] == cart[i]
              else r[i] == cart[i].(quantity := q)
  {
    var p := ProductFor(products, pid);
    seq(|cart|, i requires 0 <= i < |cart| =>
      var it := cart[i];
      if it.productId == pid then
        var q := it.quantity + delta;
        if q < 1 || (p.Some? && q > p.value.stock) then it else it.(quantity := q)
      else it)
  }

  predicate NotProduct(pid: Id, it: SaleItem)
  {
    it.productId != pid
  }

  function KeepOthers(pid: Id): SaleItem -> bool
  {
    (it: SaleItem) => NotProduct(pid, it)
  }

  /** removeFromCart: drops every line of that product, keeping the rest. */
  function RemoveFromCart(cart: Cart, pid: Id): (r: Cart)
    ensures !InCart(r, pid)
    ensures forall i :: 0 <= i < |cart| && cart[i].productId != pid ==> cart[i] in r
    ensures forall i :: 0 <= i < |r| ==> r[i] in cart
  {
    Seqs.Filter(cart, KeepOthers(pid))
  }

  /** Removal looks at each line on its own, so the remaining lines keep
      their order and multiplicity: the result for a concatenation is the
      concatenation of the results, and one line stays exactly when it names
      another product. */
  lemma RemoveKeepsOrder(a: Cart, b: Cart, it: SaleItem, pid: Id)
    ensures RemoveFromCart(a + b, pid) == RemoveFromCart(a, pid) + RemoveFromCart(b, pid)
    ensures RemoveFromCart([it], pid) == (if it.productId != pid then [it] else [])
  {
    Seqs.FilterAppend(a, b, KeepOthers(pid));
  }

  /** The user actions on the cart; ClearAll is the "Limpar Tudo" button. */
  datatype CartAction = Add(product: Product) | Change(productId: Id, delta: int)
                      | Remove(productId: Id) | ClearAll

  function Apply(cart: Cart, products: seq<Product>, a: CartAction): Cart
  {
    match a
    case Add(p) => AddToCart(cart, p)
    case Change(pid, d) => UpdateQuantity(cart, products, pid, d)
    case Remove(pid) => RemoveFromCart(cart, pid)
    case ClearAll => []
  }

  function Run(cart: Cart, products: seq<Product>, actions: seq<CartAction>): Cart
    decreases |actions|
  {
    if actions == [] then cart else Run(Apply(cart, products, actions[0]), products, actions[1..])
  }

  // ----- the cart invariant -----

  predicate DistinctLines(cart: Cart)
  {
    forall i, j :: 0 <= i < j < |cart| ==> cart[i].productId != cart[j].productId
  }

  /** The line names a catalogue product and 1 <= quantity <= its stock. */
  predicate LineValid(products: seq<Product>, it: SaleItem)
  {
    var p := ProductFor(products, it.productId);
    p.Some? && 1 <= it.quantity <= p.value.stock
  }

  /** Every line names a catalogue product, once, with 1 <= quantity <= stock. */
  predicate CartValid(cart: Cart, products: seq<Product>)
  {
    DistinctLines(cart) && forall i :: 0 <= i < |cart| ==> LineValid(products, cart[i])
  }

  /** Adding only ever offers catalogue products. */
  predicate FromCatalogue(products: seq<Product>, a: CartAction)
  {
    a.Add? ==> a.product in products
  }

  /** With distinct ids, find on the catalogue returns the product itself. */
  lemma ProductForMember(products: seq<Product>, p: Product)
    requires DistinctProductIds(products) && p in products
    ensures ProductFor(products, p.id) == Seqs.Some(p)
  {
    var k :| 0 <= k < |products| && products[k] == p;
    Seqs.FindFirst(products, ProductMatchesId(p.id), k);
  }

  /** With distinct lines, find on the cart returns the line at hand. */
  lemma ItemForLine(cart: Cart, k: nat)
    requires DistinctLines(cart) && k < |cart|
    ensures Store.ItemFor(cart, cart[k].productId) == Seqs.Some(cart[k])
  {
    Seqs.FindFirst(cart, Store.ItemMatches(cart[k].productId), k);
  }

  lemma AddKeepsValid(cart: Cart, products: seq<Product>, product: Product)
    requires DistinctProductIds(products) && product in products
    requires CartValid(cart, products)
    ensures CartValid(AddToCart(cart, product), products)
  {
    ProductForMember(products, product);
    if InCart(cart, product.id) {
      BumpKeepsValid(cart, products, product);
    } else if product.stock > 0 {
      assert LineValid(products, SaleItem(product.id, 1, product.price));
      NewLineKeepsValid(cart, products, SaleItem(product.id, 1, product.price));
    }
  }

  /** Bumping the line of a product below its stock keeps the cart valid. */
  lemma BumpKeepsValid(cart: Cart, products: seq<Product>, product: Product)
    requires ProductFor(products, product.id) == Seqs.Some(product)
    requires CartValid(cart, products) && InCart(cart, product.id)
    ensures CartValid(AddToCart(cart, product), products)
  {
    var r := AddToCart(cart, product);
    var k :| 0 <= k < |cart| && cart[k].productId == product.id;
    ItemForLine(cart, k);
    if r != cart {
      forall i | 0 <= i < |r|
        ensures LineValid(products, r[i])
      {
        if cart[i].productId == product.id {
          assert i == k;
        } else {
          assert r[i] == cart[i];
        }
      }
    }
  }

  /** A valid line for a product not yet in the cart keeps the cart valid. */
  lemma NewLineKeepsValid(cart: Cart, products: seq<Product>, line: SaleItem)
    requires CartValid(cart, products) && !InCart(cart, line.productId)
    requires LineValid(products, line)
    ensures CartValid(cart + [line], products)
  {
    var r := cart + [line];
    forall i | 0 <= i < |r|
      ensures LineValid(products, r[i])
    {
      if i < |cart| {
        assert r[i] == cart[i];
      }
    }
  }

  lemma ChangeKeepsValid(cart: Cart, products: seq<Product>, pid: Id, delta: int)
    requires CartValid(cart, products)
    ensures CartValid(UpdateQuantity(cart, products, pid, delta), products)
  {
    var r := UpdateQuantity(cart, products, pid, delta);
    forall i | 0 <= i < |r|
      ensures r[i].productId == cart[i].productId && LineValid(products, r[i])
    {
    }
  }

  lemma RemoveKeepsValid(cart: Cart, products: seq<Product>, pid: Id)
    requires CartValid(cart, products)
    ensures CartValid(RemoveFromCart(cart, pid), products)
  {
    RemoveKeepsDistinct(cart, pid);
  }

  lemma {:induction false} RemoveKeepsDistinct(cart: Cart, pid: Id)
    requires DistinctLines(cart)
    ensures DistinctLines(RemoveFromCart(cart, pid))
    decreases |cart|
  {
    if cart != [] {
      RemoveKeepsDistinct(cart[1..], pid);
      var rest := RemoveFromCart(cart[1..], pid);
      if cart[0].productId != pid {
        assert RemoveFromCart(cart, pid) == [cart[0]] + rest;
        forall j | 0 <= j < |rest|
          ensures rest[j].productId != cart[0].productId
        {
          assert rest[j] in cart[1..];
        }
      } else {
        assert RemoveFromCart(cart, pid) == rest;
      }
    }
  }

  lemma ApplyKeepsValid(cart: Cart, products: seq<Product>, a: CartAction)
    requires DistinctProductIds(products) && FromCatalogue(products, a)
    requires CartValid(cart, products)
    ensures CartValid(Apply(cart, products, a), products)
  {
    match a
    case Add(p) => AddKeepsValid(cart, products, p);
    case Change(pid, d) => ChangeKeepsValid(cart, products, pid, d);
    case Remove(pid) => RemoveKeepsValid(cart, products, pid);
    case ClearAll =>
  }

  /** Any sequence of add / change / remove / clear actions keeps product
      ids distinct and every quantity within 1..stock. */
  lemma {:induction false} RunKeepsValid(cart: Cart, products: seq<Product>, actions: seq<CartAction>)
    requires DistinctProductIds(products)
    requires CartValid(cart, products)
    requires forall k :: 0 <= k < |actions| ==> FromCatalogue(products, actions[k])
    ensures CartValid(Run(cart, products, actions), products)
    decreases |actions|
  {
    if actions != [] {
      ApplyKeepsValid(cart, products, actions[0]);
      RunKeepsValid(Apply(cart, products, actions[0]), products, actions[1..]);
    }
  }

  lemma EmptyCartStaysValid(products: seq<Product>, actions: seq<CartAction>)
    requires DistinctProductIds(products)
    requires forall k :: 0 <= k < |actions| ==> FromCatalogue(products, actions[k])
    ensures CartValid(Run([], products, actions), products)
  {
    RunKeepsValid([], products, actions);
  }

  // ----- the cart total across transitions -----

  lemma {:induction false} TotalOfLines(xs: Cart, ys: Cart, pid: Id, d: real)
    requires |xs| == |ys|
    requires forall i :: 0 <= i < |xs| && xs[i].productId != pid ==> ys[i] == xs[i]
    requires forall i :: 0 <= i < |xs| && xs[i].productId == pid ==> Subtotal(ys[i]) == Subtotal(xs[i]) + d
    requires forall i, j :: 0 <= i < j < |xs| ==> xs[i].productId != xs[j].productId
    ensures CartTotal(ys) == CartTotal(xs) + (if InCart(xs, pid) then d else 0.0)
    decreases |xs|
  {
    if xs != [] {
      TotalOfLines(xs[1..], ys[1..], pid, d);
      if xs[0].productId == pid {
        assert !InCart(xs[1..], pid);
      } else if InCart(xs, pid) {
        var k :| 0 <= k < |xs| && xs[k].productId == pid;
        assert xs[1..][k - 1].productId == pid;
      }
    }
  }

  /** When addToCart does add a unit, the total rises by one unit price:
      the price captured on the line, or the current price for a new line. */
  lemma AddToCartTotal(cart: Cart, product: Product)
    requires DistinctLines(cart)
    ensures var r := AddToCart(cart, product);
            && (r == cart ==> CartTotal(r) == CartTotal(cart))
            && (r != cart && !InCart(cart, product.id) ==> CartTotal(r) == CartTotal(cart) + product.price)
            && (r != cart && InCart(cart, product.id) ==>
                  CartTotal(r) == CartTotal(cart) + Store.ItemFor(cart, product.id).value.unitPrice)
  {
    if InCart(cart, product.id) {
      BumpTotal(cart, product.id);
    } else {
      Seqs.SumAppend(cart, [SaleItem(product.id, 1, product.price)], Subtotal);
    }
  }

  /** Bumping a line adds its captured unit price to the total. */
  lemma BumpTotal(cart: Cart, pid: Id)
    requires DistinctLines(cart) && InCart(cart, pid)
    ensures Store.ItemFor(cart, pid).Some?
    ensures CartTotal(Bump(cart, pid)) == CartTotal(cart) + Store.ItemFor(cart, pid).value.unitPrice
  {
    var k :| 0 <= k < |cart| && cart[k].productId == pid;
    ItemForLine(cart, k);
    var r := Bump(cart, pid);
    forall i | 0 <= i < |cart| && cart[i].productId == pid
      ensures Subtotal(r[i]) == Subtotal(cart[i]) + cart[k].unitPrice
    {
      assert i == k;
      OneMoreUnit(cart[i], r[i]);
    }
    TotalOfLines(cart, r, pid, cart[k].unitPrice);
  }

  lemma OneMoreUnit(a: SaleItem, b: SaleItem)
    requires b.unitPrice == a.unitPrice && b.quantity == a.quantity + 1
    ensures Subtotal(b) == Subtotal(a) + a.unitPrice
  {
  }

  /** A change that goes through moves the total by delta unit prices of
      that line; a refused change leaves the total alone. */
  lemma ChangeTotal(cart: Cart, products: seq<Product>, k: nat, delta: int)
    requires DistinctLines(cart) && k < |cart|
    ensures var r := UpdateQuantity(cart, products, cart[k].productId, delta);
            CartTotal(r) == CartTotal(cart) + (if r[k] == cart[k] then 0.0 else cart[k].unitPrice * delta as real)
  {
    var pid := cart[k].productId;
    var r := UpdateQuantity(cart, products, pid, delta);
    var d := if r[k] == cart[k] then 0.0 else cart[k].unitPrice * delta as real;
    forall i | 0 <= i < |cart| && cart[i].productId == pid
      ensures Subtotal(r[i]) == Subtotal(cart[i]) + d
    {
      assert i == k;
      if r[k] != cart[k] {
        assert r[k].quantity == cart[k].quantity + delta;
        assert (cart[k].quantity + delta) as real == cart[k].quantity as real + delta as real;
      }
    }
    TotalOfLines(cart, r, pid, d);
  }

  /** Removing a product takes exactly its line's subtotal off the total. */
  lemma {:induction false} RemoveTotal(cart: Cart, k: nat)
    requires DistinctLines(cart) && k < |cart|
    ensures CartTotal(RemoveFromCart(cart, cart[k].productId)) == CartTotal(cart) - Subtotal(cart[k])
    decreases |cart|
  {
    var pid := cart[k].productId;
    var rest := cart[1..];
    if k == 0 {
      RemoveHead(cart);
    } else {
      assert rest[k - 1] == cart[k];
      RemoveTotal(rest, k - 1);
      assert RemoveFromCart(cart, pid) == [cart[0]] + RemoveFromCart(rest, pid);
    }
  }

  /** Removing the product of the first line drops exactly that line. */
  lemma RemoveHead(cart: Cart)
    requires DistinctLines(cart) && 0 < |cart|
    ensures RemoveFromCart(cart, cart[0].productId) == cart[1..]
  {
    var pid := cart[0].productId;
    var rest := cart[1..];
    assert forall i :: 0 <= i < |rest| ==> rest[i].productId != pid;
    Seqs.FilterAll(rest, KeepOthers(pid));
  }

  // ----- checkout -----

  /** The installment buttons offer 1..12. */
  type InstallmentChoice = n: int | 1 <= n <= 12 witness 1

  /** handleFinish: the payload passed to createSale. */
  function Checkout(customerId: Id, cart: Cart, pay: PaymentMethod, n: InstallmentChoice): (r: SaleRequest)
    ensures 1 <= r.installments <= 12 && Store.InstallmentCount(r) == n
  {
    SaleRequest(customerId, cart, CartTotal(cart), pay, n)
  }

  /** Checking out a cart produces n installments, n in 1..12, that add up
      to the cart total, and raises the receivable by the cart total. */
  lemma CheckoutSchedule(s: Snapshot, customerId: Id, cart: Cart, pay: PaymentMethod, n: InstallmentChoice,
                         saleId: Id, insIds: seq<Id>, now: int, addMonths: (int, int) -> int)
    requires |insIds| == n
    ensures var r := Store.CreateSale(s, Checkout(customerId, cart, pay, n), saleId, insIds, now, addMonths);
            && |r.installments| == |s.installments| + n
            && Seqs.SumOf(Ledger.NewInstallments(s, r), Store.Amount) == CartTotal(cart)
            && Store.Receivable(r.installments) == Store.Receivable(s.installments) + CartTotal(cart)
  {
    var req := Checkout(customerId, cart, pay, n);
    Ledger.ScheduleSumsToTotal(s, req, saleId, insIds, now, addMonths);
    Ledger.ReceivableAfterSale(s, req, saleId, insIds, now, addMonths);
  }

  /** With distinct cart lines, createSale's items.find picks each product's
      own line, so each product loses exactly its line's quantity (floored
      at 0) and products not in the cart keep their stock. */
  lemma CheckoutStock(s: Snapshot, customerId: Id, cart: Cart, pay: PaymentMethod, n: InstallmentChoice,
                      saleId: Id, insIds: seq<Id>, now: int, addMonths: (int, int) -> int)
    requires |insIds| == n
    requires DistinctLines(cart)
    ensures var r := Store.CreateSale(s, Checkout(customerId, cart, pay, n), saleId, insIds, now, addMonths);
            && (forall i, k :: 0 <= i < |s.products| && 0 <= k < |cart| && cart[k].productId == s.products[i].id ==>
                  r.products[i].stock == Store.Max0(s.products[i].stock - cart[k].quantity))
            && (forall i :: 0 <= i < |s.products| && !InCart(cart, s.products[i].id) ==>
                  r.products[i] == s.products[i])
  {
    var r := Store.CreateSale(s, Checkout(customerId, cart, pay, n), saleId, insIds, now, addMonths);
    forall i, k | 0 <= i < |s.products| && 0 <= k < |cart| && cart[k].productId == s.products[i].id
      ensures r.products[i].stock == Store.Max0(s.products[i].stock - cart[k].quantity)
    {
      ItemForLine(cart, k);
    }
  }
}
