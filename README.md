# France Justice UI logic, modelled in Dafny

The site consists of Next.js pages and React components for French legal
guides. Underneath the markup, its behaviour comes down to a few rules:

- **Table of contents.** A scroll-synchronised table of contents finds the active section by a reverse scan over the heading offsets. It also computes a reading-progress percentage and jumps to a section when an entry is clicked.
- **Reading-progress hook.** The tax-reform article has a hook that coalesces scroll events so that at most one animation frame is pending at a time. Its progress bar follows that hook.
- **Open/closed state machines.** These cover the FAQ accordion, the procedure step expanders, the breadcrumb's sibling dropdown, the header's menus and search box, and the search bar's suggestions.
- **List filters.** The glossary filters by name, domain and letter, and groups terms by initial. The news page filters by search and category, and splits off a featured article. The CERFA forms page filters by search and category, and has a popular section.
- **Pure classifications.** The steppers, the comparison table, the timelines and the breadcrumb trail.

Each core source file is one Dafny module. A page's or component's React
state is a `class` whose methods are the event handlers, with `modifies`
clauses and `ensures` that give the whole new state. Pure derivations are
functions, and the properties the code promises are lemmas about them. Each
list filter is one generic `Seqs.Filter`. Each "`x === id ? null : id`"
toggle is `Disclosure.Toggle`, and each "line after every entry but the
last" is `ListLayout.HasConnector`.

The browser is not modelled. Wherever the code asks it something, the model
takes a parameter:

- scroll offsets, heights and `offsetTop`, with `None` for a missing element;
- the handle `requestAnimationFrame` returns;
- which key was pressed;
- whether a mousedown fell inside the search bar.

Animation-frame callbacks, scroll, keydown, click and hover events all become
method calls.

Some consequences of the code are proved:

- **TOC progress.** The `TOC` widget's progress is `min(scrollTop/docHeight*100, 100)`. It has no lower clamp and no guard against a zero scroll range, so the model requires `docHeight > 0`. The guarded, clamped formula belongs only to the article's hook (`ReadingProgress.Progress`).
- **TOC activation.** `TOC` runs its locator on every scroll event, with no frame coalescing. When no heading qualifies, it keeps the previous active id, which starts as `''`. So scrolling back above the first heading leaves the last located entry highlighted, as `TableOfContents.ScrollBackAboveFirstHeading` shows.
- **Second featured article.** On the news page, a second article flagged `featured` is shown neither in the featured slot nor in the grid (`News.SecondFeaturedHidden`). When every kept article is featured, "Aucun article trouvé" appears alongside the featured article and the pagination (`News.NoArticleMessageBesideFeatured`).
- **Categories button.** A mouse click on the header's "Catégories" button is always preceded by its `mouseenter`. The click therefore closes the menu the hover opened (`SiteHeader.HoverThenClick`).
- **Timeline durations.** In the procedure `Timeline`, a duration is drawn on the connector after its step. The last step's duration is therefore never shown (`ProcedureSchema.LastDurationNeverShown`).

## Model

| member | source | states |
|---|---|---|
| Text.ToLower | src/app/glossaire/page.tsx:105 | lower-casing keeps the length and maps every character (ASCII letters only) |
| Text.Contains | src/app/glossaire/page.tsx:105 | `includes`: the needle is a prefix of the text or of one of its tails; `Text.ContainsAt` characterises it by offsets |
| Text.ContainsAt | src/app/glossaire/page.tsx:105 | `includes` holds exactly when the needle occurs at some offset of the text |
| Text.ContainsEmpty | src/app/glossaire/page.tsx:105 | every string includes the empty query |
| Text.TrimStart | src/components/ui/Search.tsx:60 | trimming the front drops a leading run of white space and leaves a suffix that does not start with it |
| Text.TrimEnd | src/components/ui/Search.tsx:60 | trimming the back drops a trailing run of white space and leaves a prefix that does not end with it |
| Text.Trim | src/components/ui/Search.tsx:60 | `trim()`: the result is no longer than the input and neither starts nor ends with white space |
| Text.TrimEmptyIffBlank | src/components/ui/Search.tsx:60 | `trim()` is empty exactly when every character is white space |
| Text.PluralSuffix | src/app/actualites/page.tsx:215 | the plural mark is `'s'` exactly when the count exceeds one, else empty |
| Seqs.Filter | src/app/glossaire/page.tsx:104-109 | the filter result is an order-preserving subsequence holding exactly the elements that pass, each as many times as it occurs in the list |
| Seqs.FilterCounts | src/app/glossaire/page.tsx:104-109 | `filter` keeps every occurrence of an element that passes and none of one that fails |
| Seqs.FilterKeepsAll | src/app/glossaire/page.tsx:104-109 | a filter every element passes returns the list unchanged |
| Seqs.FilterDropsAll | src/app/actualites/page.tsx:151 | a filter every element fails returns nothing |
| Seqs.FilterSnoc | src/app/glossaire/page.tsx:111-116 | filtering a list extended by one element extends the result by that element exactly when it passes |
| Seqs.FilterPartition | src/app/actualites/page.tsx:150-151 | a filter and its complement split the list: their lengths add up to its length |
| Seqs.SubsequenceNoDuplicates | src/components/ui/Accordion.tsx:107-108 | a subsequence of a duplicate-free list is duplicate-free |
| Seqs.SubsequenceMembers | src/components/ui/Accordion.tsx:107-108 | every element of a subsequence is an element of the list |
| Seqs.FirstIndex | src/app/glossaire/page.tsx:299 | the index of the first element satisfying the test, or none exactly when no element does |
| Seqs.Find | src/app/glossaire/page.tsx:299 | `find`: the first element satisfying the test, or none exactly when no element does |
| ListLayout.HasConnector | src/components/ui/ProcedureSchema.tsx:58 | `index < steps.length - 1`: a line follows every entry but the last, as `ListLayout.ConnectorsBetweenEntries` shows |
| ListLayout.Range | src/components/ui/ProcedureSchema.tsx:58 | the index set `[0, n)` and its size `n` |
| ListLayout.ConnectorsBetweenEntries | src/components/ui/ProcedureSchema.tsx:58 | every entry but the last has a line after it, so `count` entries draw `count - 1` lines |
| TableOfContents.LastQualifying | src/components/ui/TOC.tsx:47-57 | the locator returns the last index whose heading exists and is at or above the position, or none exactly when no heading qualifies |
| TableOfContents.LastQualifyingUnique | src/components/ui/TOC.tsx:51-57 | any qualifying index with no qualifying index after it is the locator's answer |
| TableOfContents.LocatorMonotone | src/components/ui/TOC.tsx:49-57 | scrolling further down never moves the active index back, and keeps some heading qualifying |
| TableOfContents.MissingHeadingNeverActive | src/components/ui/TOC.tsx:48-53 | an item whose element is missing is never located |
| TableOfContents.LocatorExample | src/components/ui/TOC.tsx:49-57 | sections at 0, 500 and 1000: `scrollY` 550 locates the second and 0 the first; an empty list locates nothing |
| TableOfContents.TocProgress | src/components/ui/TOC.tsx:42-45 | progress is capped at 100, negative for a negative offset, 100 past the end, and `scrollTop * 100 / docHeight` below the end |
| TableOfContents.TocProgressMonotone | src/components/ui/TOC.tsx:42-45 | progress grows with the scroll offset |
| TableOfContents.DisplayedPercent | src/components/ui/TOC.tsx:127 | the shown percentage is the nearest integer (halves up), within 0..100 for progress in range |
| TableOfContents.ActiveAfter | src/components/ui/TOC.tsx:47-57 | the active id after a scroll: the id of the entry `LastQualifying` finds, or the previous id when none qualifies |
| TableOfContents.IsHighlighted | src/components/ui/TOC.tsx:102-104 | an entry is highlighted exactly when its id is the active id |
| TableOfContents.IsIndented | src/components/ui/TOC.tsx:105-106 | entries of level deeper than 2 are indented |
| TableOfContents.HighlightFollowsLocator | src/components/ui/TOC.tsx:102-104 | with distinct ids, an entry is highlighted exactly when it is the located one |
| TableOfContents.ScrollTarget | src/components/ui/TOC.tsx:66-75 | a click scrolls to `offsetTop - 80`, and does nothing when the element is absent |
| TableOfContents.JumpActivatesSection | src/components/ui/TOC.tsx:66-75 | after jumping to a heading, the locator selects that section or a later one |
| TableOfContents.Toc.constructor | src/components/ui/TOC.tsx:36-37 | the active id starts `''` and the progress 0 |
| TableOfContents.Toc.HandleScroll | src/components/ui/TOC.tsx:40-58 | the reverse scan with `break` sets progress to the capped ratio, and sets the active id to the located item's id or keeps the previous one |
| TableOfContents.ScrollBackAboveFirstHeading | src/components/ui/TOC.tsx:51-57 | scrolling back above every heading keeps the last located entry active |
| TableOfContents.MobileToc.constructor | src/components/ui/TOC.tsx:152 | the drawer starts closed |
| TableOfContents.MobileToc.OpenDrawer | src/components/ui/TOC.tsx:158 | the floating button opens the drawer |
| TableOfContents.MobileToc.ClickBackdrop | src/components/ui/TOC.tsx:171 | the backdrop closes the drawer |
| TableOfContents.MobileToc.ClickItem | src/components/ui/TOC.tsx:195-200 | clicking an entry scrolls only when the element exists and always closes the drawer |
| ReadingProgress.Progress | src/app/actualites/reforme-impots-2026/page.tsx:29-33 | progress lies in [0, 100], is 0 without a scroll range or above the top, 100 past the end, and the ratio in between |
| ReadingProgress.ProgressMonotone | src/app/actualites/reforme-impots-2026/page.tsx:32-33 | progress never decreases as the offset grows |
| ReadingProgress.BarScale | src/app/actualites/reforme-impots-2026/page.tsx:110 | the bar's scale is progress / 100, within [0, 1] for progress in range |
| ReadingProgress.GlowShown | src/app/actualites/reforme-impots-2026/page.tsx:112 | the bar glows exactly when progress exceeds 5 |
| ReadingProgress.ProgressHook.Mount | src/app/actualites/reforme-impots-2026/page.tsx:44-45 | mounting registers the listener and runs one update at once, leaving the hook Idle |
| ReadingProgress.ProgressHook.UpdateProgress | src/app/actualites/reforme-impots-2026/page.tsx:29-35 | an update runs only while the listener is registered; it writes the clamped progress of the metrics it reads and clears `ticking` |
| ReadingProgress.ProgressHook.OnScroll | src/app/actualites/reforme-impots-2026/page.tsx:37-42 | when Idle, a scroll requests one frame, reports `requested` and becomes Pending; when Pending, it requests nothing and changes nothing |
| ReadingProgress.ProgressHook.RunFrame | src/app/actualites/reforme-impots-2026/page.tsx:39 | the frame reads the metrics current when it runs and returns the hook to Idle |
| ReadingProgress.ProgressHook.Unmount | src/app/actualites/reforme-impots-2026/page.tsx:47-50 | teardown removes the listener and cancels exactly when a frame was ever requested; no frame stays queued |
| ReadingProgress.ScrollBurstCoalesces | src/app/actualites/reforme-impots-2026/page.tsx:37-42 | ten scroll events in one interval request one frame, which shows the metrics when it runs |
| Accordion.Toggled | src/components/ui/Accordion.tsx:104-116 | the new `openItems`: in multiple mode the index is removed with `filter` or appended, and in single mode it becomes `[]` or `[index]`; `Accordion.ToggleMembership` gives its meaning |
| Accordion.ToggleMembership | src/components/ui/Accordion.tsx:104-116 | toggling flips the index's membership; in multiple mode other indices keep theirs, in single mode none stays open |
| Accordion.SingleModeAtMostOne | src/components/ui/Accordion.tsx:112-114 | in single mode toggling the open index gives `[]`, any other gives `[index]` |
| Accordion.MultipleModeNoDuplicates | src/components/ui/Accordion.tsx:106-110 | in multiple mode the open list never holds an index twice |
| Accordion.ToggleTwiceRestores | src/components/ui/Accordion.tsx:106-110 | toggling the same index twice restores the set of open indices |
| Accordion.Accordion.constructor | src/components/ui/Accordion.tsx:102 | no item starts open |
| Accordion.Accordion.ToggleItem | src/components/ui/Accordion.tsx:104-116 | `openItems` becomes the toggled list, the toggled item flips, and the open list keeps its no-duplicates and single-mode bounds |
| Accordion.Accordion.IsOpen | src/components/ui/Accordion.tsx:132 | an item renders open exactly when its index is in `openItems` |
| Disclosure.Toggle | src/components/ui/ProcedureSchema.tsx:80 | clicking the open id closes it, and clicking any other id opens that one |
| Disclosure.ToggleOpensOnlyClicked | src/app/procedures/licenciement-economique/page.tsx:392 | after a toggle, only the clicked entry can be open, and it is open exactly when it was closed |
| Glossary.Initial | src/app/glossaire/page.tsx:112 | a term's letter is its first character upper-cased |
| Glossary.Matches | src/app/glossaire/page.tsx:104-108 | the three filter conditions: the name contains the query ignoring case, the domain is `'all'` or equal, and no letter is selected or it is the initial |
| Glossary.FilterTerms | src/app/glossaire/page.tsx:104-109 | `filteredTerms` is the list filtered by `Matches`; `Glossary.FilterTermsSpec` states its meaning |
| Glossary.FilterTermsSpec | src/app/glossaire/page.tsx:104-109 | a term is kept exactly when its name contains the query ignoring case, the domain matches or is `'all'`, and the initial matches any selected letter; the order is kept, each kept as often as it occurs |
| Glossary.NoFilterKeepsAll | src/app/glossaire/page.tsx:105-107 | an empty query, domain `'all'` and no letter keep every term |
| Glossary.Grouping | src/app/glossaire/page.tsx:111-116 | the intended grouping, defined directly: one key per initial of a kept term, mapped to the kept terms with that initial in order; `Glossary.GroupTerms` is proved equal to it |
| Glossary.InitialsSnoc | src/app/glossaire/page.tsx:111-116 | appending a term adds its initial to the set of initials |
| Glossary.GroupSnoc | src/app/glossaire/page.tsx:111-116 | appending a term extends its initial's group by it (a new group when the initial is new), and leaves every other group as it was |
| Glossary.PushTerm | src/app/glossaire/page.tsx:111-116 | pushing a term onto its initial's group, creating the group if needed, turns the groups of a list into the groups of the list extended by that term |
| Glossary.GroupsOfIsGrouping | src/app/glossaire/page.tsx:111-116 | a map whose keys are the initials and whose entries are the per-initial groups is the grouping |
| Glossary.GroupTerms | src/app/glossaire/page.tsx:111-116 | the reduce builds exactly one group per initial, holding the terms with that initial in order |
| Glossary.GroupingPartitions | src/app/glossaire/page.tsx:111-116 | every kept term is in the group of its initial and in no other; groups are non-empty and keep the order; each group holds every term of its initial as often as the list does |
| Glossary.LetterSelectedSingleGroup | src/app/glossaire/page.tsx:107-112 | with a letter selected, that letter is the only group key |
| Glossary.NoTermMessageIffEmpty | src/app/glossaire/page.tsx:275 | "no term found" appears exactly when no term was kept |
| Glossary.Least | src/app/glossaire/page.tsx:225 | the smallest key of a non-empty key set |
| Glossary.SortedKeys | src/app/glossaire/page.tsx:225 | the groups render in strictly ascending key order, each key once |
| Glossary.PopularLink | src/app/glossaire/page.tsx:298-310 | a popular name is linked, to the first exact match's slug, exactly when some term has that name |
| News.Matches | src/app/actualites/page.tsx:142-148 | the title or the present excerpt contains the query ignoring case, and the category is `'all'` or the article's |
| News.MatchesSearch | src/app/actualites/page.tsx:142-145 | the lower-cased title, or the lower-cased excerpt when there is one, contains the lower-cased query; `News.FilterArticlesSpec` states what it selects |
| News.FilterArticles | src/app/actualites/page.tsx:142-148 | `filteredArticles` is the list filtered by `Matches`; `News.FilterArticlesSpec` states its meaning |
| News.FilterArticlesSpec | src/app/actualites/page.tsx:142-148 | an article is kept exactly when its title or present excerpt contains the query ignoring case and the category matches or is `'all'`; the order is kept, each kept as often as it occurs |
| News.NoFilterKeepsAll | src/app/actualites/page.tsx:143-147 | an empty query with category `'all'` keeps every article |
| News.FeaturedArticle | src/app/actualites/page.tsx:150 | the featured slot holds the first flagged kept article, or nothing exactly when none is flagged |
| News.RegularArticles | src/app/actualites/page.tsx:151 | `regularArticles` holds the kept articles not flagged featured; `News.RegularArticlesSpec` states its meaning |
| News.RegularArticlesSpec | src/app/actualites/page.tsx:151 | the grid holds exactly the unflagged kept articles in order, and flagged plus regular add up to the kept list |
| News.Displayed | src/app/actualites/page.tsx:150-151 | what the page shows: the featured slot's article, if any, then the grid; `News.DisplayedSpec` states its meaning |
| News.DisplayedSpec | src/app/actualites/page.tsx:150-151 | an article is shown exactly when it is kept and either unflagged or the first flagged one |
| News.SecondFeaturedHidden | src/app/actualites/page.tsx:150-151 | of two flagged articles, the second is shown nowhere |
| News.ShowsNoArticleMessage | src/app/actualites/page.tsx:285 | "Aucun article trouvé" shows exactly when the grid is empty |
| News.ShowsPagination | src/app/actualites/page.tsx:335 | the pagination shows exactly when some article is kept |
| News.NoArticleMessageBesideFeatured | src/app/actualites/page.tsx:285-335 | the empty-grid message appears alongside the pagination exactly when every kept article is flagged, and then a featured article is shown |
| News.CountLabel | src/app/actualites/page.tsx:215 | the count label says "articles" exactly when more than one article is kept |
| Forms.Matches | src/app/formulaires/page.tsx:128-134 | the title or the CERFA number contains the query ignoring case, and the category is `'all'` or the form's |
| Forms.MatchesSearch | src/app/formulaires/page.tsx:129-131 | the lower-cased title or CERFA number contains the lower-cased query; `Forms.FilterFormsSpec` states what it selects |
| Forms.FilterForms | src/app/formulaires/page.tsx:128-134 | `filteredForms` is the list filtered by `Matches`; `Forms.FilterFormsSpec` states its meaning |
| Forms.FilterFormsSpec | src/app/formulaires/page.tsx:128-134 | a form is kept exactly when its title or CERFA number contains the query ignoring case and the category matches or is `'all'`; the order is kept, each kept as often as it occurs |
| Forms.NoFilterKeepsAll | src/app/formulaires/page.tsx:128-134 | an empty query with category `'all'` keeps every form |
| Forms.PopularForms | src/app/formulaires/page.tsx:136 | `popularForms` holds the forms flagged popular; `Forms.PopularFormsSpec` states its meaning |
| Forms.PopularFormsSpec | src/app/formulaires/page.tsx:136 | the popular forms are exactly the flagged ones in order, each as often as in the list, whatever the filters |
| Forms.ShowsPopularSection | src/app/formulaires/page.tsx:204 | the popular section shows exactly when the category is `'all'` and the query is empty |
| Forms.PopularSectionShowsAll | src/app/formulaires/page.tsx:204-229 | while the popular section shows, the main list holds every form |
| Forms.Heading | src/app/formulaires/page.tsx:251 | the heading is "Tous les formulaires" exactly when the category is `'all'` |
| Forms.ResultWord | src/app/formulaires/page.tsx:254 | "résultat" is pluralised exactly when more than one form is kept |
| Forms.ShowsEmptyMessage | src/app/formulaires/page.tsx:258 | the empty message shows exactly when no form is kept |
| Forms.EmptyMessageIffNoMatch | src/app/formulaires/page.tsx:258-269 | the empty message appears exactly when no form matches |
| SearchBar.Submitted | src/components/ui/Search.tsx:58-62 | `onSearch` receives the untrimmed query exactly when a handler exists and the query is not all white space |
| SearchBar.SearchBar.SuggestionsVisible | src/components/ui/Search.tsx:142 | the dropdown shows exactly when the suggestions flag is set and the query is empty |
| SearchBar.SearchBar.ClearButtonShown | src/components/ui/Search.tsx:125 | the clear button shows exactly when the query is non-empty |
| SearchBar.SearchBar.constructor | src/components/ui/Search.tsx:41-43 | the query starts empty, unfocused, with no suggestions |
| SearchBar.SearchBar.Type | src/components/ui/Search.tsx:117 | typing sets the query and nothing else |
| SearchBar.SearchBar.Submit | src/components/ui/Search.tsx:58-64 | a submit hands the query on under `Submitted`'s rule and always hides the suggestions |
| SearchBar.SearchBar.Focus | src/components/ui/Search.tsx:66-69 | focus sets the focus flag and shows the suggestions |
| SearchBar.SearchBar.Blur | src/components/ui/Search.tsx:71-73 | blur clears the focus flag and leaves the suggestions as they were |
| SearchBar.SearchBar.Clear | src/components/ui/Search.tsx:125-131 | the clear button (only shown for a non-empty query) empties the query and refocuses the input, so the suggestions show |
| SearchBar.SearchBar.PickRecent | src/components/ui/Search.tsx:170-173 | picking a recent search sets the query to it and hides the suggestions |
| SearchBar.SearchBar.PickPopular | src/components/ui/Search.tsx:208 | following a trending link hides the suggestions |
| SearchBar.SearchBar.MouseDown | src/components/ui/Search.tsx:48-51 | a mousedown outside the bar hides the suggestions; nothing else changes |
| SearchBar.TypeThenClear | src/components/ui/Search.tsx:125-142 | the dropdown hides while a query is typed, returns once it is cleared, and an empty submit calls nothing |
| Stepper.StatusOf | src/components/ui/Stepper.tsx:40-41 | step `i` is completed exactly when `i+1 < currentStep`, current exactly when `i+1 == currentStep`, upcoming otherwise |
| Stepper.IsClickable | src/components/ui/Stepper.tsx:42 | `isClickable`: a handler exists and the step is completed or current |
| Stepper.Click | src/components/ui/Stepper.tsx:42-60 | a click reports `i+1` exactly when a handler exists and the step is not in the future |
| Stepper.ViewOf | src/components/ui/Stepper.tsx:39-56 | one step's view: its status, an enabled button exactly for a non-future step when a handler exists, and a connector unless it is last, filled exactly when the step is completed |
| Stepper.StepViews | src/components/ui/Stepper.tsx:39-56 | one view per step: its status, a button enabled exactly for a non-future step when a handler exists, and a connector after every step but the last, filled exactly when the step is completed |
| Stepper.StatusSeqCounts | src/components/ui/Stepper.tsx:40-41 | among `n` steps, `clamp(currentStep-1, 0, n)` are completed and one is current exactly when `currentStep` names a step |
| Stepper.StatusCounts | src/components/ui/Stepper.tsx:40-41 | the rendered stepper has that many completed steps and at most one current step |
| Stepper.FutureNeverClickable | src/components/ui/Stepper.tsx:42-56 | the enabled buttons agree with the click handler: an enabled step reports its number, a disabled one nothing, and no future step is enabled |
| Stepper.LabelAt | src/components/ui/Stepper.tsx:181 | a dot's label shows exactly when the list exists, has an entry there and it is not empty |
| Stepper.DotAt | src/components/ui/Stepper.tsx:166-196 | one dot: number `i+1`, checked when `i+1 < current`, marked current when equal, white text when `i+1 <= current`, its label, and a connector unless last; `Stepper.DotsFollowStepper` relates it to the stepper |
| Stepper.Dots | src/components/ui/Stepper.tsx:166-197 | `ProgressSteps` renders exactly `total` dots (none for a negative total) |
| Stepper.DotsFollowStepper | src/components/ui/Stepper.tsx:171-195 | dot `i` is numbered `i+1`, checked exactly when completed, white unless upcoming, with a connector except the last, filled exactly when completed |
| ComparisonTable.RenderValue | src/components/ui/ComparisonTable.tsx:33-42 | booleans render as a check or a cross, strings unchanged |
| ComparisonTable.HasBadge | src/components/ui/ComparisonTable.tsx:44-57 | a column carries the badge exactly when its side is the winner |
| ComparisonTable.BadgeOnWinnerOnly | src/components/ui/ComparisonTable.tsx:44-57 | no badge without a winner or on `'equal'`; otherwise exactly the winning side has it |
| ComparisonTable.FirstWord | src/components/ui/ComparisonTable.tsx:116 | `split(' ')[0]` is the longest prefix without a space |
| ComparisonTable.FirstWordOfSpaced | src/components/ui/ComparisonTable.tsx:116 | a title `word + " " + rest` contributes `word` |
| ComparisonTable.WinnerColumn | src/components/ui/ComparisonTable.tsx:111-129 | the winner column shows the winning title's first word, a minus exactly on `'equal'`, nothing without a winner |
| ComparisonTable.RowShaded | src/components/ui/ComparisonTable.tsx:95 | odd rows take the grey background |
| ComparisonTable.RowsAlternate | src/components/ui/ComparisonTable.tsx:95 | adjacent rows never share a background |
| SiteHeader.OverflowFor | src/components/layout/Header.tsx:159-164 | the body overflow is `'hidden'` exactly when the mobile menu is open, else `''` |
| SiteHeader.Header.constructor | src/components/layout/Header.tsx:132-136 | everything starts closed and unscrolled, with an empty query |
| SiteHeader.Header.SetMobileMenu | src/components/layout/Header.tsx:159-168 | setting the mobile menu lets the overflow follow it, leaving the rest unchanged |
| SiteHeader.Header.Scroll | src/components/layout/Header.tsx:139-141 | `isScrolled` holds exactly when `scrollY > 20` |
| SiteHeader.Header.KeyDown | src/components/layout/Header.tsx:148-153 | Escape closes the mobile menu and the search box and keeps the mega menu and query; other keys do nothing |
| SiteHeader.Header.OpenSearch | src/components/layout/Header.tsx:278 | the search button opens the search box |
| SiteHeader.Header.TypeSearch | src/components/layout/Header.tsx:248 | typing sets the header's query |
| SiteHeader.Header.CloseSearch | src/components/layout/Header.tsx:262-266 | the X button closes the search box and clears the query |
| SiteHeader.Header.MegaMenuEnter | src/components/layout/Header.tsx:304 | hovering "Catégories" or the panel opens the mega menu |
| SiteHeader.Header.CategoriesClick | src/components/layout/Header.tsx:305 | clicking "Catégories" toggles the mega menu |
| SiteHeader.Header.MegaMenuClose | src/components/layout/Header.tsx:382-438 | leaving the panel or following any of its links closes the mega menu |
| SiteHeader.Header.OpenMobileMenu | src/components/layout/Header.tsx:356 | the menu button opens the mobile menu and locks the page's scroll |
| SiteHeader.Header.CloseMobileMenu | src/components/layout/Header.tsx:465-635 | the backdrop, the close button and every mobile link close the mobile menu and release the scroll |
| SiteHeader.Header.Unmount | src/components/layout/Header.tsx:165-167 | cleanup resets the body overflow |
| SiteHeader.HoverThenClick | src/components/layout/Header.tsx:304-305 | a mouse click on "Catégories", preceded by its hover, leaves the mega menu closed |
| SiteHeader.EscapeKeepsQuery | src/components/layout/Header.tsx:148-153 | Escape keeps the typed query for the reopened box; only the X button clears it |
| ProcedureSchema.ViewOf | src/components/ui/ProcedureSchema.tsx:58-167 | the chevron and full-height content follow the expanded id, the subtitle, duration badge, details, documents, warning and tip show exactly when present, and the line is drawn except after the last step |
| ProcedureSchema.Schema.constructor | src/components/ui/ProcedureSchema.tsx:43 | no step starts expanded |
| ProcedureSchema.Schema.IsExpanded | src/components/ui/ProcedureSchema.tsx:106-124 | a step shows the up chevron and its full-height content exactly when `expandedStep` is its id |
| ProcedureSchema.Schema.ClickStep | src/components/ui/ProcedureSchema.tsx:80 | a click flips the clicked step and, with distinct ids, closes every other step |
| ProcedureSchema.AtMostOneExpanded | src/components/ui/ProcedureSchema.tsx:106-121 | with distinct ids at most one step is expanded |
| ProcedureSchema.TimelineViewOf | src/components/ui/ProcedureSchema.tsx:210-221 | a date shows when present; a connector follows every step but the last and carries the step's duration when present |
| ProcedureSchema.Timeline | src/components/ui/ProcedureSchema.tsx:201-225 | one timeline entry per step |
| ProcedureSchema.LastDurationNeverShown | src/components/ui/ProcedureSchema.tsx:216-221 | the last step's duration is never drawn, and a drawn duration is its own step's |
| Licenciement.Card | src/app/procedures/licenciement-economique/page.tsx:211-264 | a closed card shows nothing; an open one shows the details, and the warning, tip and documents (non-empty list) only when present |
| Licenciement.Page.constructor | src/app/procedures/licenciement-economique/page.tsx:275 | step 1 starts open |
| Licenciement.Page.IsOpen | src/app/procedures/licenciement-economique/page.tsx:391 | a card is open exactly when `openStep` is its step id |
| Licenciement.Page.ToggleStep | src/app/procedures/licenciement-economique/page.tsx:392 | toggling flips the clicked card and leaves every other card closed |
| Licenciement.OpenFlags | src/app/procedures/licenciement-economique/page.tsx:391 | a card is open exactly when `openStep` is its id |
| Licenciement.OpenCards | src/app/procedures/licenciement-economique/page.tsx:391-392 | a fresh page opens only the first card; opening the third leaves only it open |
| Licenciement.RecapViews | src/app/procedures/licenciement-economique/page.tsx:334-362 | a recap entry shows its duration when non-empty and a connector unless it is last |
| Licenciement.RecapShape | src/app/procedures/licenciement-economique/page.tsx:334-362 | on this page every recap entry but "Fin" shows a duration and a connector |
| Breadcrumb.ShowDropdown | src/components/ui/Breadcrumb.tsx:67-69 | the dropdown replaces the last item exactly when it is last and siblings exist and are non-empty |
| Breadcrumb.EntryOf | src/components/ui/Breadcrumb.tsx:67-177 | an item renders as a dropdown button, plain text when it is last, and a link otherwise |
| Breadcrumb.Trail | src/components/ui/Breadcrumb.tsx:49-177 | Home comes first, every item but the last is a link, the last is a dropdown button exactly when siblings exist, else plain text |
| Breadcrumb.TrailShape | src/components/ui/Breadcrumb.tsx:67-69 | Home appears once, only the last entry may be a non-link, and a dropdown only there with siblings |
| Breadcrumb.SiblingViewOf | src/components/ui/Breadcrumb.tsx:128-144 | a sibling is highlighted and arrowed exactly when it is current |
| Breadcrumb.Dropdown.constructor | src/components/ui/Breadcrumb.tsx:40 | the dropdown starts closed |
| Breadcrumb.Dropdown.ClickButton | src/components/ui/Breadcrumb.tsx:79 | the button toggles the dropdown |
| Breadcrumb.Dropdown.ClickBackdrop | src/components/ui/Breadcrumb.tsx:102 | the backdrop closes the dropdown |
| Breadcrumb.Dropdown.ClickSibling | src/components/ui/Breadcrumb.tsx:126 | following a sibling goes to its page and closes the dropdown |
| Breadcrumb.DropdownRoundTrip | src/components/ui/Breadcrumb.tsx:79-126 | two button clicks restore the closed state, and picking a sibling closes it |

## Left out

- The host is not modelled: the DOM, `window`, `requestAnimationFrame`/`cancelAnimationFrame`, `scrollTo`/`scrollIntoView`, the event loop and listener registration. Measurements, frame handles, keys and click targets are parameters, and callbacks are method calls.
- TableOfContents.Toc.HandleScroll: requires `scrollHeight - innerHeight > 0`, as does `TableOfContents.TocProgress`. With no guard, `TOC.tsx` divides by zero for an empty range: the NaN or Infinity results are not modelled. The requires also excludes a negative range, a page shorter than its window. There `TOC.tsx` computes a finite, sign-flipped ratio that the model does not cover.
- The effect in `TOC.tsx` re-subscribes when `items` changes. The model fixes `items` for a widget's lifetime.
- Floating point is modelled as exact reals: both progress divisions, the bar scale and `Math.round`.
- `toLowerCase` and `toUpperCase` map ASCII letters only. Accented letters are not case-folded anywhere: not for glossary initials, and not in the case-insensitive searches of the glossary, news and forms pages, where a query `é` does not match `É`. `trim` treats the ASCII white space, the no-break space and the byte-order mark as white space, but not the other Unicode space separators or line terminators.
- `Object.keys(...).sort()` is modelled as ascending character order, which agrees with JavaScript's UTF-16 order for characters of the Basic Multilingual Plane.
- SearchBar.SearchBar.Clear: models the `focus()` call as running the input's focus handler. The click on the clear button has already moved focus off the input.
- The search bar's `containerRef` is assumed attached, so the click-outside test only asks whether the target lies inside.
- Glossary.WellFormed: every glossary term must have a non-empty name. On an empty name, `term.term[0].toUpperCase()` throws. In src/app/glossaire/page.tsx it does so at line 107 when a letter is selected, and at line 112 when the term is kept. The page's data has no such term, and the model does not cover the throw.
- The constant data arrays (glossary terms, articles, forms and step texts) are parameters. The exceptions are the recap timeline and step ids of the dismissal page, and the search bar's recent searches.
- The news page's `featured`, the forms' `popular` and the breadcrumb's `current` flags are plain booleans, false where the data omits them.
- The React render cycle is not modelled: the effect that writes the body overflow runs synchronously in the handler that changes the mobile menu.
- Styling and animation (framer-motion variants, colours, hover styles), the static content pages, `GlossaryTooltip.tsx` (timers and regular expressions), and Next.js routing, metadata and JSON-LD are not modelled.
- The per-letter and domain selection handlers of the filter pages only set a field, so the model takes the selection as a parameter of the filters.
