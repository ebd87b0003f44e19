/** The glossary page (src/app/glossaire/page.tsx): the search, domain and
    letter filters, the grouping of the kept terms by initial, and the
    popular-term links.  The constant term list is a parameter. */
module Glossary {
  import opened Wrappers
  import opened Text
  import opened Seqs

  datatype Term = Term(term: string, slug: string, domain: string, definition: string)

  /** Every term has a non-empty name, as in the page's data; `term.term[0]`
      would throw on an empty one. */
  ghost predicate WellFormed(terms: seq<Term>) {
    forall t :: t in terms ==> t.term != ""
  }

  /** `term.term[0].toUpperCase()` */
  function Initial(t: Term): char
    requires t.term != ""
  {
    ToUpperChar(t.term[0])
  }

  /** The page's filter: the name contains the query ignoring case, the domain
      matches unless it is `'all'`, and the initial matches the selected letter if any. */
  predicate Matches(t: Term, query: string, domain: string, letter: Option<char>)
    requires t.term != ""
  {
    && Contains(ToLower(t.term), ToLower(query))
    && (domain == "all" || t.domain == domain)
    && (letter.None? || Initial(t) == letter.value)
  }

  function TermFilter(query: string, domain: string, letter: Option<char>): Term --> bool {
    (t: Term) requires t.term != "" => Matches(t, query, domain, letter)
  }

  /** `filteredTerms` */
  function FilterTerms(terms: seq<Term>, query: string, domain: string, letter: Option<char>): seq<Term>
    requires WellFormed(terms)
  {
    Filter(terms, TermFilter(query, domain, letter))
  }

  /** A term is kept exactly when it matches all three filters, and the kept
      terms are the glossary's in its own order. */
  lemma FilterTermsSpec(terms: seq<Term>, query: string, domain: string, letter: Option<char>)
    requires WellFormed(terms)
    ensures forall t :: t in FilterTerms(terms, query, domain, letter) <==>
                        t in terms && Matches(t, query, domain, letter)
    ensures IsSubsequence(FilterTerms(terms, query, domain, letter), terms)
    ensures forall t :: t in terms ==>
                        multiset(FilterTerms(terms, query, domain, letter))[t] ==
                        if Matches(t, query, domain, letter) then multiset(terms)[t] else 0
  {
    FilterCounts(terms, TermFilter(query, domain, letter));
    var r := FilterTerms(terms, query, domain, letter);
    forall t | t in terms && Matches(t, query, domain, letter) ensures t in r {
      var i :| 0 <= i < |terms| && terms[i] == t;
    }
  }

  /** With an empty query, domain `'all'` and no letter, every term is kept. */
  lemma NoFilterKeepsAll(terms: seq<Term>)
    requires WellFormed(terms)
    ensures FilterTerms(terms, "", "all", None) == terms
  {
    forall t | t in terms ensures Matches(t, "", "all", None) {
      ContainsEmpty(ToLower(t.term));
    }
    FilterKeepsAll(terms, TermFilter("", "all", None));
  }

  /** The terms of the group keyed by `letter`, in list order. */
  function HasInitial(letter: char): Term --> bool {
    (t: Term) requires t.term != "" => Initial(t) == letter
  }

  /** The group of one initial, in list order. */
  function Group(s: seq<Term>, letter: char): seq<Term>
    requires WellFormed(s)
  {
    Filter(s, HasInitial(letter))
  }

  function Initials(s: seq<Term>): set<char>
    requires WellFormed(s)
  {
    set t | t in s :: Initial(t)
  }

  /** The grouping the page renders, defined directly: one group per initial
      occurring in `s`, holding the terms with that initial in their order in `s`. */
  function Grouping(s: seq<Term>): map<char, seq<Term>>
    requires WellFormed(s)
  {
    map k | k in Initials(s) :: Group(s, k)
  }

  lemma InitialsSnoc(s: seq<Term>, t: Term)
    requires WellFormed(s) && t.term != ""
    ensures WellFormed(s + [t])
    ensures Initials(s + [t]) == Initials(s) + {Initial(t)}
  {
    assert forall x :: x in s + [t] ==> x in s || x == t;
    forall c | c in Initials(s) ensures c in Initials(s + [t]) {
      var x :| x in s && Initial(x) == c;
      assert x in s + [t];
    }
    assert t in s + [t];
  }

  /** One group after appending a term: the old group (empty for a new initial),
      extended by the term exactly when the term has that initial. */
  lemma GroupSnoc(s: seq<Term>, t: Term, c: char)
    requires WellFormed(s) && t.term != ""
    ensures WellFormed(s + [t])
    ensures Group(s + [t], c)
            == (if c in Initials(s) then Group(s, c) else [])
               + (if Initial(t) == c then [t] else [])
  {
    FilterSnoc(s, t, HasInitial(c));
    if c !in Initials(s) {
      forall x | x in s ensures !HasInitial(c)(x) {
        assert Initial(x) in Initials(s);
      }
      FilterDropsAll(s, HasInitial(c));
    }
  }

  lemma GroupingAt(s: seq<Term>, c: char)
    requires WellFormed(s)
    ensures c in Grouping(s) <==> c in Initials(s)
    ensures c in Initials(s) ==> Grouping(s)[c] == Group(s, c)
  {
  }

  /** `groups` holds exactly the groups of `s`. */
  predicate GroupsOf(groups: map<char, seq<Term>>, s: seq<Term>)
    requires WellFormed(s)
  {
    groups.Keys == Initials(s) && forall c :: c in groups ==> groups[c] == Group(s, c)
  }

  /** Pushing a term onto the group of its initial, creating the group if needed,
      turns the groups of `s` into the groups of `s + [t]`. */
  lemma PushTerm(groups: map<char, seq<Term>>, s: seq<Term>, t: Term)
    requires WellFormed(s) && t.term != "" && GroupsOf(groups, s)
    ensures WellFormed(s + [t])
    ensures var k := Initial(t);
            GroupsOf(groups[k := (if k in groups then groups[k] else []) + [t]], s + [t])
  {
    InitialsSnoc(s, t);
    var k := Initial(t);
    var pushed := groups[k := (if k in groups then groups[k] else []) + [t]];
    forall c | c in pushed ensures pushed[c] == Group(s + [t], c) {
      GroupSnoc(s, t, c);
    }
  }

  lemma GroupsOfIsGrouping(groups: map<char, seq<Term>>, s: seq<Term>)
    requires WellFormed(s) && GroupsOf(groups, s)
    ensures groups == Grouping(s)
  {
    forall c ensures c in groups <==> c in Grouping(s)
      ensures c in groups ==> groups[c] == Grouping(s)[c]
    {
      GroupingAt(s, c);
    }
  }

  /** One step of the `reduce`: processing the `i`-th term. */
  lemma PushStep(groups: map<char, seq<Term>>, filtered: seq<Term>, i: nat)
    requires WellFormed(filtered) && i < |filtered|
    requires WellFormed(filtered[..i]) && GroupsOf(groups, filtered[..i])
    ensures filtered[i].term != "" && WellFormed(filtered[..i + 1])
    ensures var t := filtered[i]; var k := Initial(t);
            GroupsOf(groups[k := (if k in groups then groups[k] else []) + [t]], filtered[..i + 1])
  {
    assert filtered[i] in filtered;
    assert filtered[..i + 1] == filtered[..i] + [filtered[i]];
    PushTerm(groups, filtered[..i], filtered[i]);
  }

  /** `groupedTerms`: the `reduce` that pushes each term onto the group of its
      initial, creating the group on first use. */
  method GroupTerms(filtered: seq<Term>) returns (groups: map<char, seq<Term>>)
    requires WellFormed(filtered)
    ensures groups == Grouping(filtered)
  {
    groups := map[];
    for i := 0 to |filtered|
      invariant WellFormed(filtered[..i])
      invariant GroupsOf(groups, filtered[..i])
    {
      PushStep(groups, filtered, i);
      var term := filtered[i];
      var letter := Initial(term);
      if letter !in groups {
        groups := groups[letter := []];
      }
      groups := groups[letter := groups[letter] + [term]];
    }
    assert filtered[..|filtered|] == filtered;
    GroupsOfIsGrouping(groups, filtered);
  }

  /** Every kept term lies in exactly one group, the one of its initial, and each
      group keeps the list's order. */
  lemma GroupingPartitions(s: seq<Term>)
    requires WellFormed(s)
    ensures forall t :: t in s ==> Initial(t) in Grouping(s) && t in Grouping(s)[Initial(t)]
    ensures forall k, t :: k in Grouping(s) && t in Grouping(s)[k] ==> t in s && Initial(t) == k
    ensures forall k :: k in Grouping(s) ==> IsSubsequence(Grouping(s)[k], s) && Grouping(s)[k] != []
    ensures forall k, t :: k in Grouping(s) && t in s ==>
              multiset(Grouping(s)[k])[t] == if Initial(t) == k then multiset(s)[t] else 0
  {
    forall k | k in Grouping(s)
      ensures forall t :: t in s ==> multiset(Grouping(s)[k])[t] == if Initial(t) == k then multiset(s)[t] else 0
    {
      GroupingAt(s, k);
      FilterCounts(s, HasInitial(k));
    }
    forall t | t in s ensures Initial(t) in Grouping(s) && t in Grouping(s)[Initial(t)] {
      var i :| 0 <= i < |s| && s[i] == t;
    }
    forall k | k in Grouping(s) ensures Grouping(s)[k] != [] {
      var t :| t in s && Initial(t) == k;
      var i :| 0 <= i < |s| && s[i] == t;
    }
  }

  /** With a letter selected, that letter is the only group key. */
  lemma LetterSelectedSingleGroup(terms: seq<Term>, query: string, domain: string, letter: char)
    requires WellFormed(terms)
    ensures var f := FilterTerms(terms, query, domain, Some(letter));
            WellFormed(f) && Grouping(f).Keys <= {letter}
  {
  }

  /** "Aucun terme trouvé" is shown exactly when no term was kept. */
  lemma NoTermMessageIffEmpty(s: seq<Term>)
    requires WellFormed(s)
    ensures |Grouping(s)| == 0 <==> s == []
  {
    if s != [] {
      assert Initial(s[0]) in Grouping(s).Keys;
    }
  }

  /** The smallest letter of a non-empty set. */
  ghost function Least(keys: set<char>): (m: char)
    requires keys != {}
    ensures m in keys && forall c :: c in keys ==> m <= c
  {
    var c :| c in keys;
    if keys == {c} then c
    else
      var m := Least(keys - {c});
      assert forall x :: x in keys ==> x == c || x in keys - {c};
      if c <= m then c else m
  }

  /** `Object.keys(groupedTerms).sort()`: the group keys in ascending order. */
  ghost function SortedKeys(keys: set<char>): (r: seq<char>)
    ensures forall i, j :: 0 <= i < j < |r| ==> r[i] < r[j]
    ensures forall c :: c in r <==> c in keys
    ensures |r| == |keys|
    decreases keys
  {
    if keys == {} then []
    else
      var m := Least(keys);
      [m] + SortedKeys(keys - {m})
  }

  function NamedAs(name: string): Term -> bool {
    (t: Term) => t.term == name
  }

  /** A popular name is linked, to the slug of the first term of exactly that
      name, only when such a term exists. */
  function PopularLink(terms: seq<Term>, name: string): (r: Option<string>)
    ensures r.None? <==> forall i :: 0 <= i < |terms| ==> terms[i].term != name
    ensures r.Some? ==> exists i :: 0 <= i < |terms| && terms[i].term == name && terms[i].slug == r.value &&
                                    forall j :: 0 <= j < i ==> terms[j].term != name
  {
    match Find(terms, NamedAs(name))
    case None => None
    case Some(t) => Some(t.slug)
  }
}
