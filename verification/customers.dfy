/** The customer list screen: an includes-search over name and phone, and
    the form that registers a new customer. */
module Customers {
  import opened Types
  import Seqs
  import Text
  import Store

  /** Case-insensitive on the name, literal on the phone. */
  predicate Matches(term: string, c: Customer)
  {
    Text.Contains(Text.Lower(c.name), Text.Lower(term)) || Text.Contains(c.phone, term)
  }

  function MatchesTerm(term: string): Customer -> bool
  {
    (c: Customer) => Matches(term, c)
  }

  /** The customers shown for a search term, in list order. */
  function Filtered(customers: seq<Customer>, term: string): (r: seq<Customer>)
    ensures forall k :: 0 <= k < |r| ==> r[k] in customers && Matches(term, r[k])
    ensures forall i :: 0 <= i < |customers| && Matches(term, customers[i]) ==> customers[i] in r
  {
    Seqs.Filter(customers, MatchesTerm(term))
  }

  /** The search looks at each customer on its own, so it keeps list order
      and multiplicity: the result for a concatenation is the concatenation
      of the results, and one customer is kept exactly when they match. */
  lemma FilteredKeepsOrder(a: seq<Customer>, b: seq<Customer>, c: Customer, term: string)
    ensures Filtered(a + b, term) == Filtered(a, term) + Filtered(b, term)
    ensures Filtered([c], term) == (if Matches(term, c) then [c] else [])
  {
    Seqs.FilterAppend(a, b, MatchesTerm(term));
  }

  /** The empty search shows every customer, in order. */
  lemma EmptySearchShowsAll(customers: seq<Customer>)
    ensures Filtered(customers, "") == customers
  {
    forall i | 0 <= i < |customers|
      ensures Matches("", customers[i])
    {
      Text.EmptyContained(Text.Lower(customers[i].name));
    }
    Seqs.FilterAll(customers, MatchesTerm(""));
  }

  /** Typing more characters never brings a customer back. */
  lemma LongerTermNarrows(term: string, more: string, c: Customer)
    requires Matches(term + more, c)
    ensures Matches(term, c)
  {
    Text.LowerAppend(term, more);
    if Text.Contains(Text.Lower(c.name), Text.Lower(term + more)) {
      Text.ContainsExtended(Text.Lower(c.name), Text.Lower(term), Text.Lower(more));
    } else {
      Text.ContainsExtended(c.phone, term, more);
    }
  }

  /** The new-customer form. */
  datatype Form = Form(name: string, phone: string)

  const EmptyForm := Form("", "")

  /** handleSubmit: an empty name or phone changes nothing; otherwise the
      customer is added as typed (the phone keeps any mask) and the form is
      cleared. `id` and `now` are the generated id and the clock. */
  function HandleSubmit(s: Snapshot, form: Form, id: Id, now: int): (r: (Snapshot, Form))
    ensures form.name == "" || form.phone == "" ==> r == (s, form)
    ensures form.name != "" && form.phone != "" ==>
              && r.0.customers == s.customers + [Customer(id, form.name, form.phone, now)]
              && r.0.(customers := s.customers) == s
              && r.1 == EmptyForm
  {
    if form.name == "" || form.phone == "" then (s, form)
    else (Store.AddCustomer(s, CustomerData(form.name, form.phone), id, now).0, EmptyForm)
  }

  /** A submitted customer shows up under a search for their own name. */
  lemma SubmittedIsFound(s: Snapshot, form: Form, id: Id, now: int)
    requires form.name != "" && form.phone != ""
    ensures Customer(id, form.name, form.phone, now) in Filtered(HandleSubmit(s, form, id, now).0.customers, form.name)
  {
    var cs := HandleSubmit(s, form, id, now).0.customers;
    var c := Customer(id, form.name, form.phone, now);
    assert cs[|cs| - 1] == c;
    assert Text.OccursAt(Text.Lower(c.name), Text.Lower(form.name), 0);
    assert Matches(form.name, c);
  }
}
