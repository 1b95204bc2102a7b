/** The inventory screen: a name search over the catalogue, the low-stock
    badge, and the form that registers a product. Number parsing
    (parseFloat / parseInt) is passed in. */
module Inventory {
  import opened Types
  import Seqs
  import Text
  import Store

  const Categories: seq<string> :=
    ["Fragrâncias", "Maquiagem", "Cuidados com a Pele", "Cabelo", "Corpo e Banho"]

  /** The product form, every field as typed. */
  datatype ProductForm = ProductForm(name: string, category: string, price: string,
                                     stock: string, minStock: string)

  /** A fresh form: first category, minimum stock "2". */
  const InitialForm := ProductForm("", Categories[0], "", "", "2")

  /** handleSubmit: refuses a form with an empty name, price or stock;
      otherwise adds the product with the parsed numbers and resets the form.
      The minimum stock is not checked and is parsed as typed. */
  function HandleSubmit(s: Snapshot, form: ProductForm, id: Id,
                        parseReal: string -> real, parseInt: string -> int): (r: (Snapshot, ProductForm))
    ensures form.name == "" || form.price == "" || form.stock == "" ==> r == (s, form)
    ensures form.name != "" && form.price != "" && form.stock != "" ==>
              && r.0.products == s.products + [Product(id, form.name, form.category, parseReal(form.price),
                                                       parseInt(form.stock), parseInt(form.minStock))]
              && r.0.(products := s.products) == s
              && r.1 == InitialForm
  {
    if form.name == "" || form.price == "" || form.stock == "" then (s, form)
    else
      var data := ProductData(form.name, form.category, parseReal(form.price),
                              parseInt(form.stock), parseInt(form.minStock));
      (Store.AddProduct(s, data, id), InitialForm)
  }

  predicate NameMatches(term: string, p: Product)
  {
    Text.Contains(Text.Lower(p.name), Text.Lower(term))
  }

  function NameFilter(term: string): Product -> bool
  {
    (p: Product) => NameMatches(term, p)
  }

  /** The products listed for a search term, in catalogue order. */
  function Filtered(products: seq<Product>, term: string): (r: seq<Product>)
    ensures forall k :: 0 <= k < |r| ==> r[k] in products && NameMatches(term, r[k])
    ensures forall i :: 0 <= i < |products| && NameMatches(term, products[i]) ==> products[i] in r
  {
    Seqs.Filter(products, NameFilter(term))
  }

  /** The search looks at each product on its own, so it keeps catalogue
      order and multiplicity. */
  lemma FilteredKeepsOrder(a: seq<Product>, b: seq<Product>, p: Product, term: string)
    ensures Filtered(a + b, term) == Filtered(a, term) + Filtered(b, term)
    ensures Filtered([p], term) == (if NameMatches(term, p) then [p] else [])
  {
    Seqs.FilterAppend(a, b, NameFilter(term));
  }

  lemma EmptySearchListsAll(products: seq<Product>)
    ensures Filtered(products, "") == products
  {
    forall i | 0 <= i < |products|
      ensures NameMatches("", products[i])
    {
      Text.EmptyContained(Text.Lower(products[i].name));
    }
    Seqs.FilterAll(products, NameFilter(""));
  }

  /** Typing more characters never brings a product back. */
  lemma LongerTermNarrows(term: string, more: string, p: Product)
    requires NameMatches(term + more, p)
    ensures NameMatches(term, p)
  {
    Text.LowerAppend(term, more);
    Text.ContainsExtended(Text.Lower(p.name), Text.Lower(term), Text.Lower(more));
  }

  /** The products carrying the "ESTOQUE BAIXO" badge in the listing. */
  function Flagged(products: seq<Product>, term: string): seq<Product>
  {
    Seqs.Filter(Filtered(products, term), IsLowStock)
  }

  /** With no search, the badges shown are exactly the dashboard's
      low-stock count. */
  lemma BadgesMatchDashboard(s: Snapshot, today: int, monthFrom: int)
    ensures |Flagged(s.products, "")| == Store.DashboardStats(s, today, monthFrom).lowStockItems
  {
    EmptySearchListsAll(s.products);
  }

  /** A product added with no more stock than its minimum is flagged at once. */
  lemma SubmittedLowStockIsFlagged(s: Snapshot, form: ProductForm, id: Id,
                                   parseReal: string -> real, parseInt: string -> int)
    requires form.name != "" && form.price != "" && form.stock != ""
    requires parseInt(form.stock) <= parseInt(form.minStock)
    ensures var ps := HandleSubmit(s, form, id, parseReal, parseInt).0.products;
            ps[|ps| - 1] in Flagged(ps, "")
  {
    var ps := HandleSubmit(s, form, id, parseReal, parseInt).0.products;
    EmptySearchListsAll(ps);
    assert IsLowStock(ps[|ps| - 1]);
  }
}
