/** The news page (src/app/actualites/page.tsx): the search and category
    filter, the split into one featured article and the regular grid, and the
    count, empty-result and pagination conditions.  The article list is a parameter. */
module News {
  import opened Wrappers
  import opened Text
  import opened Seqs

  /** An article; `featured` is false where the data leaves the flag out. */
  datatype Article = Article(title: string, excerpt: Option<string>, categorySlug: string,
                             href: string, featured: bool)

  /** The title or, when there is one, the excerpt contains the query, ignoring case. */
  predicate MatchesSearch(a: Article, query: string) {
    || Contains(ToLower(a.title), ToLower(query))
    || (a.excerpt.Some? && Contains(ToLower(a.excerpt.value), ToLower(query)))
  }

  predicate Matches(a: Article, query: string, category: string) {
    MatchesSearch(a, query) && (category == "all" || a.categorySlug == category)
  }

  function ArticleFilter(query: string, category: string): Article -> bool {
    (a: Article) => Matches(a, query, category)
  }

  /** `filteredArticles` */
  function FilterArticles(articles: seq<Article>, query: string, category: string): seq<Article> {
    Filter(articles, ArticleFilter(query, category))
  }

  /** An article is kept exactly when it matches the search and the category,
      and the kept articles keep the list's order. */
  lemma FilterArticlesSpec(articles: seq<Article>, query: string, category: string)
    ensures forall a :: a in FilterArticles(articles, query, category) <==>
                        a in articles && Matches(a, query, category)
    ensures IsSubsequence(FilterArticles(articles, query, category), articles)
    ensures forall a :: a in articles ==>
                        multiset(FilterArticles(articles, query, category))[a] ==
                        if Matches(a, query, category) then multiset(articles)[a] else 0
  {
    FilterCounts(articles, ArticleFilter(query, category));
    forall a | a in articles && Matches(a, query, category)
      ensures a in FilterArticles(articles, query, category)
    {
      var i :| 0 <= i < |articles| && articles[i] == a;
    }
  }

  /** An empty query with category `'all'` keeps every article. */
  lemma NoFilterKeepsAll(articles: seq<Article>)
    ensures FilterArticles(articles, "", "all") == articles
  {
    forall a | a in articles ensures Matches(a, "", "all") {
      ContainsEmpty(ToLower(a.title));
    }
    FilterKeepsAll(articles, ArticleFilter("", "all"));
  }

  function IsFeatured(): Article -> bool {
    (a: Article) => a.featured
  }

  function IsRegular(): Article -> bool {
    (a: Article) => !a.featured
  }

  /** `featuredArticle`: the first flagged article of the filtered list, if any. */
  function FeaturedArticle(filtered: seq<Article>): (r: Option<Article>)
    ensures r.None? <==> forall i :: 0 <= i < |filtered| ==> !filtered[i].featured
    ensures r.Some? ==> exists i :: 0 <= i < |filtered| && filtered[i] == r.value && r.value.featured &&
                                    forall j :: 0 <= j < i ==> !filtered[j].featured
  {
    Find(filtered, IsFeatured())
  }

  /** `regularArticles` */
  function RegularArticles(filtered: seq<Article>): seq<Article> {
    Filter(filtered, IsRegular())
  }

  /** The regular grid is the filtered list without any flagged article, in
      order, and the flagged and regular articles together account for the whole list. */
  lemma RegularArticlesSpec(filtered: seq<Article>)
    ensures forall a :: a in RegularArticles(filtered) <==> a in filtered && !a.featured
    ensures IsSubsequence(RegularArticles(filtered), filtered)
    ensures |RegularArticles(filtered)| + |Filter(filtered, IsFeatured())| == |filtered|
  {
    forall a | a in filtered && !a.featured ensures a in RegularArticles(filtered) {
      var i :| 0 <= i < |filtered| && filtered[i] == a;
    }
    FilterPartition(filtered, IsRegular(), IsFeatured());
  }

  /** The featured slot followed by the grid: what the page shows. */
  function Displayed(filtered: seq<Article>): seq<Article> {
    (match FeaturedArticle(filtered) case Some(a) => [a] case None => []) + RegularArticles(filtered)
  }

  /** An article is shown exactly when it is kept and either unflagged or the
      first flagged one: a second flagged article is shown nowhere. */
  lemma DisplayedSpec(filtered: seq<Article>)
    ensures forall a :: a in Displayed(filtered) <==>
                        a in filtered && (!a.featured || FeaturedArticle(filtered) == Some(a))
  {
    RegularArticlesSpec(filtered);
  }

  /** Counterexample to "every kept article is shown": two flagged articles. */
  lemma SecondFeaturedHidden(a: Article, b: Article)
    requires a.featured && b.featured && a != b
    ensures b in [a, b] && b !in Displayed([a, b])
  {
    DisplayedSpec([a, b]);
    assert FeaturedArticle([a, b]) == Some(a);
  }

  /** "Aucun article trouvé" follows the regular grid only. */
  predicate ShowsNoArticleMessage(filtered: seq<Article>) {
    RegularArticles(filtered) == []
  }

  /** The page-number buttons follow the filtered list. */
  predicate ShowsPagination(filtered: seq<Article>) {
    filtered != []
  }

  /** The "no article" message appears while something is still shown exactly
      when every kept article is flagged: the featured slot then holds an article
      and the pagination is shown beside the message. */
  lemma NoArticleMessageBesideFeatured(filtered: seq<Article>)
    ensures ShowsNoArticleMessage(filtered) && ShowsPagination(filtered) <==>
            filtered != [] && forall i :: 0 <= i < |filtered| ==> filtered[i].featured
    ensures ShowsNoArticleMessage(filtered) && ShowsPagination(filtered) ==> FeaturedArticle(filtered).Some?
  {
    RegularArticlesSpec(filtered);
    if filtered != [] && forall i :: 0 <= i < |filtered| ==> filtered[i].featured {
      FilterDropsAll(filtered, IsRegular());
    }
  }

  /** The word after the count of kept articles: `"article"`, pluralised past one. */
  function CountLabel(filtered: seq<Article>): (r: string)
    ensures r == "article" <==> |filtered| <= 1
    ensures r == "articles" <==> |filtered| > 1
  {
    "article" + PluralSuffix(|filtered|)
  }
}
