# Personal research site: metadata updater, sitemap generator, navigation

This project is a Dafny model of three parts of a researcher's personal web
site:

- **The citation updater** (`scripts/citation_updater.py`) brings the publication list up to date from the
  INSPIRE-HEP literature API. For each stored publication record it tries four searches in order:
  - the stored `inspire_id`;
  - the arXiv links, by the extracted eprint id;
  - the DOI links, by the extracted DOI;
  - the title: a cleaned five-word query, accepting the first hit whose Jaccard word similarity
    exceeds 0.8.

  It normalises the hit into a metadata record and merges that record field by field under a fixed
  policy. It appends a `doi` and an `arxiv` link when the record has none, and counts records that
  changed and records not found. A separate report sums citations and counts records with an id.
- **The sitemap generator** (`scripts/generate_sitemap.py`) is an object holding a list of URL
  entries. Scanning adds the main page and, when present, the CV. The main page takes the date of a
  data file newer than `index.html`. The list becomes a `urlset` element tree, which is serialised
  after the XML declaration and indented by plain text replacement.
- **The navigation manager** (`assets/js/navigation.js`) is an object that marks the link of the
  section in view, computes the scroll target of a clicked fragment link, keeps an "initialised"
  flag, and merges configuration options.

Publication records are `map<string, Value>` over a small JSON value type (`Json`), so absent keys,
truthiness and "every other key is unchanged" are explicit. The literature API is four oracle
functions (`PaperSearch.Api`). The file system is a map from paths to dates (`Sitemap.FileDates`).
The page is the result of the selector queries plus the window geometry (`Navigation.Page`,
`Navigation.Window`). The current time is a parameter.

The citation-updater functions are pure and are modelled as functions. Their loops become methods
proved equal to those functions:
- `Inspire.ExtractPaperMetadata`;
- `Merge.MergeMetadata` and `Merge.UpdateLinks`;
- `Updater.UpdatePublications` and `Updater.ReportsChange`.

The sitemap generator and the navigation manager update their fields in place. They are classes
whose methods state the new state in terms of specification functions.

Three behaviours of the code are worth noting:
- **Main-page date.** The main page is dated by the *last* data file, in list order, that is newer
  than `index.html`. This need not be the newest data file; `Sitemap.LastNewerNotLatest` gives an
  input where the two differ.
- **Errors stop the run.** A record whose title cannot be sliced, and a resolved record that needs a
  DOI link but lacks a citation field, raise an exception outside any `try`. That stops the whole
  update before the file is written, rather than counting as a failure of that record. This is `Updater.RunOutcome.Aborted`.
- **Update count.** The count of updated records counts only records in which a reported change was
  detected: citations, id, or a new non-empty title or authors. A record that resolves without such
  a change counts as neither updated nor failed.

## Model

| member | source | states |
|---|---|---|
| Identifiers.ExtractArxivId | scripts/citation_updater.py:20-30 | a result exists iff the text holds a new-style (`dddd.dddd[d]`) or old-style (`archive/ddddddd`) id; the new style wins; the result is the leftmost match, and it has the shape of an id |
| Identifiers.ArxivExample | scripts/citation_updater.py:20-30 | "arXiv:2410.01204v2" yields "2410.01204" |
| Identifiers.ExtractDoi | scripts/citation_updater.py:32-42 | a result exists iff the text holds "doi.org/" followed by a character or a `10.<digits>/` DOI; the resolver form wins; the result is the rest of that line, non-empty, and starts with "10." in the second form |
| Similarity.TitleSimilarity | scripts/citation_updater.py:190-199 | the ratio is shared/total of the two lower-cased word sets; it is zero when either set is empty, and shared never exceeds total |
| Similarity.SimilaritySymmetric | scripts/citation_updater.py:190-199 | the similarity does not depend on argument order |
| Similarity.SimilarityOneIffSameWords | scripts/citation_updater.py:190-199 | for titles with words, the ratio is 1 exactly when the two word sets are equal |
| Similarity.SameWordsExceed | scripts/citation_updater.py:126 | a hit with the same word set as the title is always accepted (ratio above 0.8) |
| Similarity.QueryTokens | scripts/citation_updater.py:117-118 | the query keeps the first five word tokens, or all of them when there are fewer |
| Similarity.CleanSplitIsWordTokens | scripts/citation_updater.py:117-118 | splitting the title after every non-word character is replaced by a space gives exactly its runs of word characters |
| Inspire.NonEmptyNames | scripts/citation_updater.py:145-152 | the author names keep only non-empty names, all of them taken from the input, and all names when none is empty |
| Inspire.NonEmptyNamesKeepsAll | scripts/citation_updater.py:148-151 | no non-empty name is dropped: each occurs as often as in the input, and exactly the empty names are removed |
| Inspire.AuthorNames | scripts/citation_updater.py:147-151 | the appending loop collects exactly the non-empty names, in order |
| Inspire.UrlList | scripts/citation_updater.py:181-187 | the loop builds one description/value object per URL, in order |
| Inspire.Pages | scripts/citation_updater.py:159-164 | corrected page precedence: "start-end" when both bounds are truthy, else the start page, else the article id, else no value |
| Inspire.PagesAsWrittenLosesRange | scripts/citation_updater.py:159-160 | as written, pages 1 to 10 give the literal call text instead of "1-10" |
| Inspire.YearOfDate | scripts/citation_updater.py:167-170 | the fallback year is the first four characters of the preprint date, or all of it when shorter |
| Inspire.Normalise | scripts/citation_updater.py:132-188 | the normalised record holds, key by key, exactly the fields of the hit: id, citations (default 0), timestamp, first title, joined authors, venue, pages, year with preprint fallback, first eprint, first DOI, URL objects |
| Inspire.ExtractPaperMetadata | scripts/citation_updater.py:132-188 | building the record by successive assignments gives exactly the normalised record |
| PaperSearch.LinkQuery | scripts/citation_updater.py:52-55 | a link contributes an id only when its type matches the pass (arxiv or doi) |
| PaperSearch.ArxivLinkQuery | scripts/citation_updater.py:52-56 | an arxiv link with text "arXiv:2410.01204v2" is searched as eprint 2410.01204 |
| PaperSearch.Scan | scripts/citation_updater.py:52-68 | a pass over the links returns the result of the first link whose search succeeds, and None iff none does |
| PaperSearch.PickHit | scripts/citation_updater.py:124-127 | the chosen hit is accepted and every earlier hit is rejected; when no hit raises, nothing is chosen iff every hit is rejected |
| PaperSearch.TitleSearch | scripts/citation_updater.py:113-130 | a title search succeeds only for a string title whose query request succeeds |
| PaperSearch.TitleSearchTakesFirst | scripts/citation_updater.py:124-127 | a successful title search returns the normalised first hit over the threshold, and all earlier hits are below it |
| PaperSearch.TitleSearchNoneIffNoneAccepted | scripts/citation_updater.py:124-130 | when no hit has an empty title list (which raises), the title search fails iff no hit exceeds the threshold |
| PaperSearch.Search | scripts/citation_updater.py:44-74 | the comprehensive search finds nothing iff the stored id, every arXiv link, every DOI link and the title all find nothing |
| PaperSearch.StoredIdFirst | scripts/citation_updater.py:47-50 | a truthy stored id whose request succeeds decides the result, normalised under that id |
| PaperSearch.ArxivBeforeDoiAndTitle | scripts/citation_updater.py:51-58 | when the id step fails, the first successful arXiv link decides the result, whatever the DOI links and title |
| PaperSearch.DoiBeforeTitle | scripts/citation_updater.py:60-67 | when the id and arXiv steps fail, the first successful DOI link decides the result |
| PaperSearch.TitleLast | scripts/citation_updater.py:69-74 | when the id, every arXiv link and every DOI link give nothing, the title search decides the result |
| PaperSearch.EmptyTitleNotSearched | scripts/citation_updater.py:70-73 | a record without a truthy title never consults the title search |
| Merge.MergeFields | scripts/citation_updater.py:203-218 | each key of the merge is the resolved value when the policy takes it, else the stored value |
| Merge.MergePolicy | scripts/citation_updater.py:205-218 | citations and last_updated are always replaced; title, authors and inspire_id only when stored empty; categories and urls only by a truthy value; other keys are kept |
| Merge.MergeKeepsLinks | scripts/citation_updater.py:210-218 | the field merge never touches the stored links |
| Merge.MergeMetadata | scripts/citation_updater.py:201-222 | the merge loop followed by the link update equals the field merge followed by the link update |
| Merge.MissingCitationKey | scripts/citation_updater.py:233 | the DOI link text fails on the first of journal, volume, pages, year that is missing, and on none iff all four are present |
| Merge.UpdatedLinks | scripts/citation_updater.py:224-246 | the update fails iff a DOI link is wanted and a citation field is missing; otherwise the links are the old links plus the added ones, and every other key is unchanged |
| Merge.UpdateLinks | scripts/citation_updater.py:224-246 | the appending code equals the link update |
| Merge.UpdateLinksProvides | scripts/citation_updater.py:228-244 | afterwards there is a doi (arxiv) link iff there was one or the data has a DOI (arXiv id) |
| Merge.UpdateLinksIdempotent | scripts/citation_updater.py:224-246 | a second update with the same data changes nothing |
| Merge.UpdateLinksNoDuplicate | scripts/citation_updater.py:228-244 | the number of links of each type grows by one only when there was none and the data has that identifier |
| Updater.ReportsChange | scripts/citation_updater.py:268-283 | a change is reported iff the citations or the id differ, or the title or authors changed to a non-empty value |
| Updater.ProcessPublication | scripts/citation_updater.py:265-290 | processing a record gives a crash (title not sliceable, missing citation field), not found, or the merged record with its change flag |
| Updater.ProcessAt | scripts/citation_updater.py:264-290 | one loop iteration advances the run exactly as the run function does |
| Updater.UpdatePublications | scripts/citation_updater.py:248-305 | the loop over the records produces exactly the run outcome |
| Updater.RunWithShape | scripts/citation_updater.py:264-290 | after n records, the run has stopped iff one of them raised, at the first such record; otherwise each processed record is its outcome, the rest are untouched, and updated plus failed is at most n |
| Updater.RunKeepsShape | scripts/citation_updater.py:264-290 | a completed run keeps the length of the list and each not-found record unchanged; its failed count is the number of records not found and its updated count the number of records resolved with a reported change |
| Updater.RunWithCounts | scripts/citation_updater.py:283-290 | after any number of records, a run that has not stopped has counted exactly the records not found as failed and the records resolved with a reported change as updated |
| Updater.RunAbortsAtFirstCrash | scripts/citation_updater.py:264-290 | a run stops iff some record raises, and it stops at the first one |
| Updater.ProcessKeepsInspireId | scripts/citation_updater.py:207-214 | a record with a stored id keeps it through processing |
| Updater.RunKeepsInspireIds | scripts/citation_updater.py:264-290 | a completed run never lowers the number of records with an id |
| Updater.TotalCitations | scripts/citation_updater.py:314 | the sum fails iff some record's citation count is not a number (absent counts as 0) |
| Updater.WithInspireId | scripts/citation_updater.py:315 | the number of records with a truthy id is at most the number of records |
| Updater.GenerateReport | scripts/citation_updater.py:307-329 | a report exists iff the list is non-empty, the citations are numeric and the categories are countable; its totals are those sums and counts |
| Sitemap.SitemapGenerator.constructor | scripts/generate_sitemap.py:9-11 | a new generator has the given base URL and no entries |
| Sitemap.SitemapGenerator.AddUrl | scripts/generate_sitemap.py:16-24 | adding appends one entry with the base URL prefixed, and keeps the rest |
| Sitemap.LastNewer | scripts/generate_sitemap.py:48-55 | a data-file date is used iff some data file is newer than the index, and it is the last such file in list order |
| Sitemap.SitemapGenerator.ScanImportantFiles | scripts/generate_sitemap.py:33-55 | the scan appends the main page and, if present, the CV, then re-dates the first entry by the data files |
| Sitemap.ScanFromEmpty | scripts/generate_sitemap.py:33-55 | from an empty list the scan gives the main page (priority 1.0), then the CV (0.8) exactly when it exists |
| Sitemap.ScanOnlyAppends | scripts/generate_sitemap.py:43-55 | the scan only appends entries, changes nothing else but the first entry's date, and never lists a data file |
| Sitemap.LastNewerNotLatest | scripts/generate_sitemap.py:48-55 | with publications newer than presentations, both newer than the index, the main page gets the presentations date |
| Sitemap.SitemapGenerator.GenerateXml | scripts/generate_sitemap.py:57-71 | the tree is a `urlset` with the sitemap namespace and one `url` element per entry, in order |
| Sitemap.XmlRoundTrip | scripts/generate_sitemap.py:57-71 | reading the entries back from the tree gives the list, with children loc, lastmod, changefreq, priority |
| Sitemap.SitemapGenerator.SaveSitemap | scripts/generate_sitemap.py:73-87 | the sitemap text is the declaration followed by the formatted serialised tree of the scanned list |
| Sitemap.FormattedKeepsDeclaration | scripts/generate_sitemap.py:78-87 | the text replacements leave the XML declaration intact at the head |
| Navigation.Patch | assets/js/navigation.js:8-15 | every option present overrides its setting; every other setting is kept |
| Navigation.PatchIdempotent | assets/js/navigation.js:133-135 | applying the same options twice is applying them once, and no options change nothing |
| Navigation.NavigationManager.constructor | assets/js/navigation.js:6-19 | a new manager has the defaults with the options applied, no queried elements, and is not initialised |
| Navigation.NavigationManager.Init | assets/js/navigation.js:27-46 | nothing changes when already initialised; otherwise the queries are stored, and only with links and sections are the links marked and the flag set |
| Navigation.LastCovering | assets/js/navigation.js:80-86 | the chosen section contains the position and no later section does; none is chosen iff none contains it |
| Navigation.CurrentSection | assets/js/navigation.js:77-93 | at the bottom of the page the last section wins; otherwise the last section containing the scroll position plus offset, or the empty id |
| Navigation.Activated | assets/js/navigation.js:96-100 | a link carries the active class iff its href is "#" plus the current id; its other classes and its href are kept |
| Navigation.ActivatedAll | assets/js/navigation.js:95-101 | every link is marked this way, and the list keeps its length |
| Navigation.ActivatedAllIdempotent | assets/js/navigation.js:95-101 | marking the links again for the same section changes nothing |
| Navigation.NavigationManager.UpdateActiveLink | assets/js/navigation.js:76-102 | the two loops mark exactly the links of the current section; every other field is kept |
| Navigation.ScrollTarget | assets/js/navigation.js:123-124 | without a header the target top is used; a header of non-negative height never moves it down |
| Navigation.NavClick | assets/js/navigation.js:106-118 | a click is ignored iff the href is absent, empty or not a fragment; the target is missing iff it is a fragment with no element; otherwise the scroll goes to the header-adjusted top |
| Navigation.NavigationManager.ScrollToSection | assets/js/navigation.js:122-129 | without a header the scroll goes to the target top itself; a header of non-negative height never moves it further down |
| Navigation.NavigationManager.HandleNavClick | assets/js/navigation.js:106-118 | the manager's click handling ignores non-fragments and scrolls to the section's adjusted top |
| Navigation.NavigationManager.UpdateConfig | assets/js/navigation.js:133-135 | the new options override the configuration; nothing else changes |
| Navigation.NavigationManager.Destroy | assets/js/navigation.js:139-150 | destroying clears the flag and keeps every other field |
| Navigation.InitDestroyInit | assets/js/navigation.js:139-150 | a manager destroyed after initialisation can be initialised again |

## Left out

- Network requests are oracles. The four literature API calls are functions in `PaperSearch.Api`; a
  failed request, a non-2xx status, a missing key in the response or a zero hit count all become
  None, which is what the surrounding `try` blocks turn them into. Request parameters, logging and
  the `sleep` pauses between calls are not modelled.
- API responses are typed (`Inspire.Hit`, `Inspire.Metadata`). A response whose shape would raise
  inside `extract_paper_metadata` is the oracle's None.
- File I/O, existence checks and printing are left out: reading and writing `publications.json`, the
  report and progress output, writing `sitemap.xml`, and `os.chdir`. `Updater.UpdatePublications`
  takes the list as read and returns the outcome instead of writing it. The write itself and its
  boolean status are not modelled.
- File existence and modification times are a map from path to "YYYY-MM-DD" date. Today's date and
  the `datetime.now()` timestamp are parameters.
- Python string comparison of dates is `Text.LexLess`, code-point order.
- Floating point is not modelled:
  - the similarity ratio is a pair of counts, and "> 0.8" is stated as 5 × shared > 4 × total;
  - the report's `coverage` percentage string is not computed, only its division by zero on an
    empty list (which makes the report empty).
- Regular expressions and `lower()` treat ASCII only: `\w`, `\s` and `\d` are ASCII classes.
- `Sitemap.Serialise`: ElementTree escaping of `&`, `<`, `>` and quotes is not modelled; text and
  attribute values are written as given.
- `Json.Show` renders a list as "[...]" and an object as "{...}", not as Python's `str()` repr.
  This text matters where such a value is formatted: the DOI link text built from the resolved
  journal, volume, pages and year, and a stored `inspire_id` passed to the id search.
- Python equality of `1` and `True` is not modelled. Change detection compares JSON values
  structurally.
- `PaperSearch.WellFormedLinks` is required of every stored record: `links` is absent or a list of
  objects, an "arxiv" link's `text` and a "doi" link's `url` are strings where present, and no other
  field of a link is constrained. A record that breaks this raises as soon as the link loops or
  `update_links` read its links. It is excluded outright, and that includes the cases where the
  source never reads the links (the stored id resolves and no link is added).
- Aliasing is not modelled. The record copy is shallow, so appending a link also changes the link
  list of the stored record; the model builds a new list. Nothing that is compared afterwards reads
  the links.
- The category tally in `generate_report` is modelled only as a condition for the report to exist.
  The source never returns the tally.
- DOM and event plumbing is not modelled:
  - listener registration and removal;
  - the `requestAnimationFrame` throttle;
  - `preventDefault`, smooth scrolling;
  - the automatic start on `DOMContentLoaded`;
  - the console warnings.
- `Navigation.NavigationManager.Destroy` clears the flag only. Listener removal is not modelled.
  The click listeners are removed, because the constructor binds `handleNavClick` before it is
  registered and the same function is removed. The scroll listener stays attached: an anonymous
  arrow function is registered, but `handleScroll` is what is removed.
- Selector strings are not interpreted. `querySelector` on a malformed selector would throw; the
  page lookup is a map from selector to element top, and a missing key means no element.
- The `null` navigation fields of a fresh manager are empty sequences.
- Options carry only the five known configuration keys; other keys of an options object are not
  modelled.
- `assets/js/data-loader.js` is not part of this model.

## Findings

| source | as written | input that shows it | evidently intended | confidence | as-written member | corrected member |
|---|---|---|---|---|---|---|
| scripts/citation_updater.py:160 | the page range is an f-string without braces, so every range is the literal text `pub.get('page_start')-pub.get('page_end')` | a venue with page_start "1" and page_end "10" | the start and end pages joined by a hyphen, "1-10" | high (not executed) | Inspire.PagesAsWrittenLosesRange | Inspire.Pages |
