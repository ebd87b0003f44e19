/** The CERFA forms page (src/app/formulaires/page.tsx): the search and
    category filter, the popular selection, and the display conditions of the
    popular section, the heading, the result count and the empty message.
    The form list is a parameter. */
module Forms {
  import opened Text
  import opened Seqs

  /** A form; `popular` is false where the data leaves the flag out. */
  datatype Form = Form(cerfa: string, title: string, category: string, href: string, popular: bool)

  /** The title or the CERFA number contains the query, ignoring case. */
  predicate MatchesSearch(f: Form, query: string) {
    Contains(ToLower(f.title), ToLower(query)) || Contains(ToLower(f.cerfa), ToLower(query))
  }

  predicate Matches(f: Form, query: string, category: string) {
    MatchesSearch(f, query) && (category == "all" || f.category == category)
  }

  function FormFilter(query: string, category: string): Form -> bool {
    (f: Form) => Matches(f, query, category)
  }

  /** `filteredForms` */
  function FilterForms(forms: seq<Form>, query: string, category: string): seq<Form> {
    Filter(forms, FormFilter(query, category))
  }

  /** A form is kept exactly when it matches the search and the category, and
      the kept forms keep the list's order. */
  lemma FilterFormsSpec(forms: seq<Form>, query: string, category: string)
    ensures forall f :: f in FilterForms(forms, query, category) <==>
                        f in forms && Matches(f, query, category)
    ensures IsSubsequence(FilterForms(forms, query, category), forms)
    ensures forall f :: f in forms ==>
                        multiset(FilterForms(forms, query, category))[f] ==
                        if Matches(f, query, category) then multiset(forms)[f] else 0
  {
    FilterCounts(forms, FormFilter(query, category));
    forall f | f in forms && Matches(f, query, category)
      ensures f in FilterForms(forms, query, category)
    {
      var i :| 0 <= i < |forms| && forms[i] == f;
    }
  }

  /** An empty query with category `'all'` keeps every form. */
  lemma NoFilterKeepsAll(forms: seq<Form>)
    ensures FilterForms(forms, "", "all") == forms
  {
    forall f | f in forms ensures Matches(f, "", "all") {
      ContainsEmpty(ToLower(f.title));
    }
    FilterKeepsAll(forms, FormFilter("", "all"));
  }

  function IsPopular(): Form -> bool {
    (f: Form) => f.popular
  }

  /** `popularForms`: taken from the whole list, whatever the filters. */
  function PopularForms(forms: seq<Form>): seq<Form> {
    Filter(forms, IsPopular())
  }

  /** The popular forms are exactly the flagged ones, in list order, and the
      search and category do not change them. */
  lemma PopularFormsSpec(forms: seq<Form>)
    ensures forall f :: f in PopularForms(forms) <==> f in forms && f.popular
    ensures IsSubsequence(PopularForms(forms), forms)
    ensures forall f :: f in forms ==> multiset(PopularForms(forms))[f] == if f.popular then multiset(forms)[f] else 0
  {
    FilterCounts(forms, IsPopular());
    forall f | f in forms && f.popular ensures f in PopularForms(forms) {
      var i :| 0 <= i < |forms| && forms[i] == f;
    }
  }

  /** The popular section and the separator under it. */
  predicate ShowsPopularSection(query: string, category: string) {
    category == "all" && query == ""
  }

  /** While the popular section is shown, the main list holds every form, so
      each popular form appears twice on the page. */
  lemma PopularSectionShowsAll(forms: seq<Form>, query: string, category: string)
    requires ShowsPopularSection(query, category)
    ensures FilterForms(forms, query, category) == forms
  {
    NoFilterKeepsAll(forms);
  }

  /** The heading of the main list. */
  function Heading(category: string): (r: string)
    ensures r == "Tous les formulaires" <==> category == "all"
  {
    if category == "all" then "Tous les formulaires"
    else
      var h := "Formulaires " + category;
      assert h[0] == 'F';
      h
  }

  /** The word after the count of kept forms: `"résultat"`, pluralised past one. */
  function ResultWord(filtered: seq<Form>): (r: string)
    ensures r == "résultats" <==> |filtered| > 1
    ensures r == "résultat" <==> |filtered| <= 1
  {
    "résultat" + PluralSuffix(|filtered|)
  }

  /** "Aucun formulaire trouvé" */
  predicate ShowsEmptyMessage(filtered: seq<Form>) {
    !(|filtered| > 0)
  }

  /** The empty message is shown exactly when no form matches. */
  lemma EmptyMessageIffNoMatch(forms: seq<Form>, query: string, category: string)
    ensures ShowsEmptyMessage(FilterForms(forms, query, category)) <==>
            forall i :: 0 <= i < |forms| ==> !Matches(forms[i], query, category)
  {
    FilterFormsSpec(forms, query, category);
    var r := FilterForms(forms, query, category);
    if r != [] {
      assert r[0] in r;
    }
  }
}
