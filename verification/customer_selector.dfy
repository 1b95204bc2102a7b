/** The customer picker of the sale screen: a search that narrows with the
    length of the term, a status filter chip, an alphabetical sort and a
    grouping by initial letter. The status of each customer comes from the
    store's classifier, passed in as `statusOf`. */
module CustomerSelector {
  import opened Types
  import Seqs
  import Text
  import Store

  // ----- name order -----

  /** Code-point lexicographic order on names (the model of localeCompare). */
  predicate NameLe(a: string, b: string)
    decreases |a|
  {
    |a| == 0 || (|b| > 0 && (a[0] < b[0] || (a[0] == b[0] && NameLe(a[1..], b[1..]))))
  }

  lemma {:induction false} NameLeTotal(a: string, b: string)
    ensures NameLe(a, b) || NameLe(b, a)
    decreases |a|
  {
    if |a| > 0 && |b| > 0 && a[0] == b[0] {
      NameLeTotal(a[1..], b[1..]);
    }
  }

  lemma {:induction false} NameLeTransitive(a: string, b: string, c: string)
    requires NameLe(a, b) && NameLe(b, c)
    ensures NameLe(a, c)
    decreases |a|
  {
    if |a| > 0 && a[0] == b[0] && b[0] == c[0] {
      NameLeTransitive(a[1..], b[1..], c[1..]);
    }
  }

  function ByName(): (Customer, Customer) -> bool
  {
    (x: Customer, y: Customer) => NameLe(x.name, y.name)
  }

  /** Comparing by name is a consistent comparator, so the sort is well
      defined and its output is ordered. */
  lemma ByNameIsTotalPreorder()
    ensures Seqs.TotalPreorder(ByName())
  {
    forall x: Customer, y: Customer
      ensures ByName()(x, y) || ByName()(y, x)
    {
      NameLeTotal(x.name, y.name);
    }
    forall x: Customer, y: Customer, z: Customer | ByName()(x, y) && ByName()(y, z)
      ensures ByName()(x, z)
    {
      NameLeTransitive(x.name, y.name, z.name);
    }
  }

  // ----- search and status filter -----

  /** The search term: the typed text lower-cased, with surrounding white
      space removed. */
  function SearchTerm(raw: string): string
  {
    Text.Trim(Text.Lower(raw))
  }

  /** No term keeps everyone; a one-letter term matches the start of the
      name; a longer term matches anywhere in the name or the phone. */
  predicate MatchesSearch(term: string, c: Customer)
  {
    if |term| == 0 then true
    else if |term| == 1 then Text.StartsWith(Text.Lower(c.name), term)
    else Text.Contains(Text.Lower(c.name), term) || Text.Contains(c.phone, term)
  }

  /** The status chip: 'todos' or one of the three labels. */
  datatype StatusFilter = Todos | Only(status: Status)

  predicate MatchesFilter(f: StatusFilter, st: Status)
  {
    f.Todos? || f.status == st
  }

  predicate Selected(term: string, f: StatusFilter, statusOf: Id -> Status, c: Customer)
  {
    MatchesSearch(term, c) && MatchesFilter(f, statusOf(c.id))
  }

  function SelectedBy(term: string, f: StatusFilter, statusOf: Id -> Status): Customer -> bool
  {
    (c: Customer) => Selected(term, f, statusOf, c)
  }

  /** The filtered list, sorted by name. */
  function Sorted(customers: seq<Customer>, raw: string, f: StatusFilter, statusOf: Id -> Status): seq<Customer>
  {
    Seqs.SortBy(Seqs.Filter(customers, SelectedBy(SearchTerm(raw), f, statusOf)), ByName())
  }

  // ----- grouping by initial -----

  /** The group key: the upper-cased first character of the name, or the
      empty string for an empty name. */
  function Initial(c: Customer): (r: string)
    ensures |r| <= 1 && (|r| == 1 <==> c.name != "")
  {
    if c.name == "" then "" else [Text.UpperChar(c.name[0])]
  }

  predicate HasInitialOf(letter: string, c: Customer)
  {
    Initial(c) == letter
  }

  function HasInitial(letter: string): Customer -> bool
  {
    (c: Customer) => HasInitialOf(letter, c)
  }

  /** Adds a customer at the end of the group of their initial, creating the
      group when it is missing. */
  function Push(m: map<string, seq<Customer>>, c: Customer): (r: map<string, seq<Customer>>)
    ensures r.Keys == m.Keys + {Initial(c)}
    ensures r[Initial(c)] == (if Initial(c) in m then m[Initial(c)] else []) + [c]
    ensures forall l :: l in m && l != Initial(c) ==> r[l] == m[l]
  {
    m[Initial(c) := (if Initial(c) in m then m[Initial(c)] else []) + [c]]
  }

  /** The forEach that pushes each customer onto the group of its initial,
      in list order. */
  function Group(cs: seq<Customer>): map<string, seq<Customer>>
    decreases |cs|
  {
    if cs == [] then map[] else Push(Group(cs[..|cs| - 1]), cs[|cs| - 1])
  }

  lemma FilterSnoc(front: seq<Customer>, c: Customer, letter: string)
    ensures Seqs.Filter(front + [c], HasInitial(letter))
            == Seqs.Filter(front, HasInitial(letter)) + (if Initial(c) == letter then [c] else [])
  {
    Seqs.FilterAppend(front, [c], HasInitial(letter));
    assert Seqs.Filter([c], HasInitial(letter)) == (if Initial(c) == letter then [c] else []);
  }

  /** A letter is a key exactly when some customer has that initial. */
  lemma {:induction false} GroupKeys(cs: seq<Customer>, letter: string)
    ensures letter in Group(cs) <==> exists i :: 0 <= i < |cs| && HasInitialOf(letter, cs[i])
    decreases |cs|
  {
    if cs != [] {
      var front := cs[..|cs| - 1];
      GroupKeys(front, letter);
      if letter in Group(front) {
        var i :| 0 <= i < |front| && HasInitialOf(letter, front[i]);
        assert cs[i] == front[i];
      }
      if i :| 0 <= i < |cs| && HasInitialOf(letter, cs[i]) {
        if i < |front| {
          assert front[i] == cs[i];
        }
      }
    }
  }

  /** Each group is the list's customers with that initial, in list order. */
  lemma {:induction false} GroupValues(cs: seq<Customer>, letter: string)
    ensures letter in Group(cs) ==> Group(cs)[letter] == Seqs.Filter(cs, HasInitial(letter))
    decreases |cs|
  {
    if cs != [] {
      var front := cs[..|cs| - 1];
      var c := cs[|cs| - 1];
      GroupValues(front, letter);
      GroupKeys(front, letter);
      assert cs == front + [c];
      FilterSnoc(front, c, letter);
      if letter !in Group(front) && letter == Initial(c) {
        Seqs.FilterNone(front, HasInitial(letter));
      }
    }
  }

  /** The grouped view: what the picker renders under each letter. */
  function Groups(customers: seq<Customer>, raw: string, f: StatusFilter, statusOf: Id -> Status)
    : map<string, seq<Customer>>
  {
    Group(Sorted(customers, raw, f, statusOf))
  }

  /** Every group is ordered by name. */
  lemma GroupIsSorted(customers: seq<Customer>, raw: string, f: StatusFilter,
                      statusOf: Id -> Status, letter: string)
    requires letter in Groups(customers, raw, f, statusOf)
    ensures Seqs.SortedBy(Groups(customers, raw, f, statusOf)[letter], ByName())
  {
    var sorted := Sorted(customers, raw, f, statusOf);
    ByNameIsTotalPreorder();
    Seqs.SortBySorted(Seqs.Filter(customers, SelectedBy(SearchTerm(raw), f, statusOf)), ByName());
    GroupValues(sorted, letter);
    Seqs.FilterKeepsSorted(sorted, HasInitial(letter), ByName());
  }

  /** Whoever is listed under a letter is a customer with that initial who
      passes the search and the status chip. */
  lemma GroupMembersSelected(customers: seq<Customer>, raw: string, f: StatusFilter,
                             statusOf: Id -> Status, letter: string, k: nat)
    requires letter in Groups(customers, raw, f, statusOf)
    requires k < |Groups(customers, raw, f, statusOf)[letter]|
    ensures var c := Groups(customers, raw, f, statusOf)[letter][k];
            c in customers && Selected(SearchTerm(raw), f, statusOf, c) && Initial(c) == letter
  {
    var filtered := Seqs.Filter(customers, SelectedBy(SearchTerm(raw), f, statusOf));
    var sorted := Sorted(customers, raw, f, statusOf);
    GroupValues(sorted, letter);
    var c := Groups(customers, raw, f, statusOf)[letter][k];
    assert c in sorted;
    assert c in multiset(filtered);
    assert c in filtered;
  }

  /** Whoever passes the search and the status chip is listed under their
      initial. */
  lemma SelectedAreListed(customers: seq<Customer>, raw: string, f: StatusFilter,
                          statusOf: Id -> Status, i: nat)
    requires i < |customers| && Selected(SearchTerm(raw), f, statusOf, customers[i])
    ensures Initial(customers[i]) in Groups(customers, raw, f, statusOf)
    ensures customers[i] in Groups(customers, raw, f, statusOf)[Initial(customers[i])]
  {
    var c := customers[i];
    var letter := Initial(c);
    var filtered := Seqs.Filter(customers, SelectedBy(SearchTerm(raw), f, statusOf));
    var sorted := Sorted(customers, raw, f, statusOf);
    assert c in filtered;
    assert c in multiset(sorted);
    var j :| 0 <= j < |sorted| && sorted[j] == c;
    GroupKeys(sorted, letter);
    assert HasInitialOf(letter, sorted[j]);
    GroupValues(sorted, letter);
  }

  /** Typing only white space (or nothing) under 'todos' lists everyone. */
  lemma BlankSearchKeepsAll(customers: seq<Customer>, raw: string, statusOf: Id -> Status)
    requires forall i :: 0 <= i < |raw| ==> Text.IsSpace(raw[i])
    ensures Seqs.Filter(customers, SelectedBy(SearchTerm(raw), Todos, statusOf)) == customers
  {
    var low := Text.Lower(raw);
    assert forall i :: 0 <= i < |low| ==> Text.IsSpace(low[i]);
    assert SearchTerm(raw) == "";
    Seqs.FilterAll(customers, SelectedBy("", Todos, statusOf));
  }

  /** A one-letter term matches exactly the names whose lower-cased first
      character is that letter, and such a match is also a match of the
      letter anywhere in the name. */
  lemma OneLetterIsPrefix(term: string, c: Customer)
    requires |term| == 1
    ensures MatchesSearch(term, c) <==> |c.name| > 0 && Text.LowerChar(c.name[0]) == term[0]
    ensures MatchesSearch(term, c) ==> Text.Contains(Text.Lower(c.name), term)
  {
    var low := Text.Lower(c.name);
    if |c.name| > 0 && Text.LowerChar(c.name[0]) == term[0] {
      assert low[..1] == term;
    }
    if MatchesSearch(term, c) {
      Text.StartsWithContains(low, term);
    }
  }

  /** Because one letter matches only at the start of the name and two
      letters match anywhere, typing a second letter can bring customers in:
      "a" leaves out "Bab", "ab" lists her. */
  lemma SecondLetterCanWiden()
    ensures var c := Customer("1", "Bab", "", 0);
            !MatchesSearch("a", c) && MatchesSearch("ab", c)
  {
    var c := Customer("1", "Bab", "", 0);
    assert Text.Lower(c.name) == "bab";
    assert "bab"[..1][0] != "a"[0];
    assert Text.OccursAt("bab", "ab", 1);
  }

  /** With the store's classifier as `statusOf`, the 'devedor' chip keeps
      exactly the customers with an overdue installment. */
  lemma DevedorChipIsOverdue(s: Snapshot, now: int, c: Customer)
    ensures MatchesFilter(Only(Devedor), Store.CustomerStatus(s, c.id, now))
            <==> Store.HasOverdue(s, c.id, now)
  {
  }

  // ----- status badge -----

  /** getStatusColor: the badge colour of a status label. */
  function StatusColor(status: string): (r: string)
    ensures r in {"rose", "amber", "emerald", "gray"}
  {
    if status == "devedor" then "rose"
    else if status == "pendente" then "amber"
    else if status == "em dia" then "emerald"
    else "gray"
  }

  /** The three statuses get three different colours, none of them the
      fallback grey; any other label is grey. */
  lemma StatusColorsDistinct(a: Status, b: Status, other: string)
    requires other !in {"devedor", "pendente", "em dia"}
    ensures StatusColor(a.Label()) != "gray" && StatusColor(other) == "gray"
    ensures a != b <==> StatusColor(a.Label()) != StatusColor(b.Label())
  {
  }
}
