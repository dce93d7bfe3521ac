/**
 * A literature hit as the bibliographic API returns it, and its normalisation
 * (`extract_paper_metadata`) into the flat record the updater merges.
 */
module Inspire {
  import opened Wrappers
  import opened Json
  import Text

  /** The first entry of `publication_info`; each field is None when the key is absent. */
  datatype PubInfo = PubInfo(
    journalTitle: Option<Value>,
    journalVolume: Option<Value>,
    pageStart: Option<Value>,
    pageEnd: Option<Value>,
    artid: Option<Value>,
    year: Option<Value>)

  datatype Eprint = Eprint(value: Option<Value>, categories: Option<Value>)

  datatype UrlInfo = UrlInfo(description: Option<Value>, value: Option<Value>)

  /**
   * The `metadata` of a hit. `titles` is None when the key is absent (the title
   * search then reads one empty title); each title is its `title` text ("" when
   * absent), each author its `full_name` ("" when absent); `preprintDate` is ""
   * when absent; a missing list is the empty list.
   */
  datatype Metadata = Metadata(
    citationCount: Option<Value>,
    titles: Option<seq<string>>,
    authors: seq<string>,
    publicationInfo: seq<PubInfo>,
    preprintDate: string,
    arxivEprints: seq<Eprint>,
    dois: seq<Option<Value>>,
    urls: seq<UrlInfo>)

  /** A hit: `id` is `str(hit['id'])`. */
  datatype Hit = Hit(id: string, metadata: Metadata)

  /** The names kept for the author list: the non-empty full names, in order. */
  function NonEmptyNames(names: seq<string>): (r: seq<string>)
    ensures |r| <= |names|
    ensures forall k :: 0 <= k < |r| ==> r[k] != "" && r[k] in names
    ensures (forall k :: 0 <= k < |names| ==> names[k] != "") ==> r == names
  {
    if names == [] then []
    else
      var init := names[..|names| - 1];
      var last := names[|names| - 1];
      assert forall k :: 0 <= k < |init| ==> init[k] in names;
      NonEmptyNames(init) + (if last != "" then [last] else [])
  }

  /**
   * No non-empty name is dropped: each occurs as often as in the input, and
   * only the empty names are removed.
   */
  lemma {:induction false} NonEmptyNamesKeepsAll(names: seq<string>)
    ensures forall s :: s != "" ==> multiset(NonEmptyNames(names))[s] == multiset(names)[s]
    ensures multiset(NonEmptyNames(names))[""] == 0
    ensures |NonEmptyNames(names)| == |names| - multiset(names)[""]
  {
    if names != [] {
      var init := names[..|names| - 1];
      var last := names[|names| - 1];
      var kept := NonEmptyNames(init);
      var tail := if last != "" then [last] else [];
      NonEmptyNamesKeepsAll(init);
      assert NonEmptyNames(names) == kept + tail;
      assert multiset(NonEmptyNames(names)) == multiset(kept) + multiset(tail);
      SplitLast(names);
      assert multiset(names) == multiset(init) + multiset{last};
    }
  }

  lemma SplitLast<T>(s: seq<T>)
    requires s != []
    ensures s == s[..|s| - 1] + [s[|s| - 1]]
  {
  }

  function OrEmpty(v: Option<Value>): Value { v.GetOr(Str("")) }

  function UrlObject(u: UrlInfo): Value {
    Obj(map["description" := OrEmpty(u.description), "value" := OrEmpty(u.value)])
  }

  /**
   * The `pages` value, by precedence: a start-end range when both bounds are
   * truthy, else the start page, else the article id, else no value. The range
   * is the start and end joined by a hyphen (see PagesAsWritten for the text the
   * code actually builds).
   */
  function Pages(p: PubInfo): (r: Option<Value>)
    ensures r.Some? <==> Truthy(p.pageStart.GetOr(Null)) || Truthy(p.artid.GetOr(Null))
    ensures Truthy(p.pageStart.GetOr(Null)) && Truthy(p.pageEnd.GetOr(Null)) ==>
      r == Some(Str(Show(p.pageStart.value) + "-" + Show(p.pageEnd.value)))
    ensures Truthy(p.pageStart.GetOr(Null)) && !Truthy(p.pageEnd.GetOr(Null)) ==> r == p.pageStart
    ensures !Truthy(p.pageStart.GetOr(Null)) && Truthy(p.artid.GetOr(Null)) ==> r == p.artid
  {
    var start, end := p.pageStart.GetOr(Null), p.pageEnd.GetOr(Null);
    if Truthy(start) && Truthy(end) then Some(Str(Show(start) + "-" + Show(end)))
    else if Truthy(start) then Some(start)
    else if Truthy(p.artid.GetOr(Null)) then p.artid
    else None
  }

  /** The range text as the code builds it: an f-string without braces, so the same literal text for every page pair. */
  function PagesAsWritten(p: PubInfo): Option<Value> {
    var start, end := p.pageStart.GetOr(Null), p.pageEnd.GetOr(Null);
    if Truthy(start) && Truthy(end) then Some(Str("pub.get('page_start')-pub.get('page_end')"))
    else if Truthy(start) then Some(start)
    else if Truthy(p.artid.GetOr(Null)) then p.artid
    else None
  }

  /** Pages 1 to 10 come out as the literal call text rather than "1-10". */
  lemma PagesAsWrittenLosesRange()
    ensures var p := PubInfo(None, None, Some(Str("1")), Some(Str("10")), None, None);
      PagesAsWritten(p) != Pages(p) && Pages(p) == Some(Str("1-10"))
  {
    var p := PubInfo(None, None, Some(Str("1")), Some(Str("10")), None, None);
    assert Truthy(Str("1")) && Truthy(Str("10"));
    assert Show(Str("1")) + "-" + Show(Str("10")) == "1-10";
    assert PagesAsWritten(p).value.s[0] == 'p';
  }

  function AuthorsText(md: Metadata): string {
    Text.Join(NonEmptyNames(md.authors), ", ")
  }

  function UrlObjects(urls: seq<UrlInfo>): (v: seq<Value>)
    ensures |v| == |urls|
    ensures forall k :: 0 <= k < |urls| ==> v[k] == UrlObject(urls[k])
  {
    seq(|urls|, k requires 0 <= k < |urls| => UrlObject(urls[k]))
  }

  /** The first four characters of the preprint date, as `preprint_date[:4]`. */
  function YearOfDate(date: string): (y: string)
    ensures |y| <= 4 && |y| <= |date|
    ensures y == date[..|y|]
    ensures |date| >= 4 ==> |y| == 4
  {
    if |date| <= 4 then date else date[..4]
  }

  /** The year of the first venue, if there is a venue ("" when it has none). */
  function VenueYear(md: Metadata): Option<Value> {
    if md.publicationInfo != [] then Some(OrEmpty(md.publicationInfo[0].year)) else None
  }

  /** The year of the venue when that is truthy, else the preprint year when there is a preprint date. */
  function Year(md: Metadata): Option<Value> {
    var venue := VenueYear(md);
    if !Truthy(venue.GetOr(Null)) && md.preprintDate != "" then Some(Str(YearOfDate(md.preprintDate)))
    else venue
  }

  /** The value the normalised record holds under `key`, or None when it has no such key. */
  function Field(h: Hit, now: string, key: string): Option<Value> {
    var md := h.metadata;
    var info := md.publicationInfo;
    if key == "inspire_id" then Some(Str(h.id))
    else if key == "citations" then Some(md.citationCount.GetOr(Int(0)))
    else if key == "last_updated" then Some(Str(now))
    else if key == "title" then
      if md.titles.Some? && md.titles.value != [] then Some(Str(md.titles.value[0])) else None
    else if key == "authors" then
      if md.authors != [] then Some(Str(AuthorsText(md))) else None
    else if key == "journal" then
      if info != [] then Some(OrEmpty(info[0].journalTitle)) else None
    else if key == "volume" then
      if info != [] then Some(OrEmpty(info[0].journalVolume)) else None
    else if key == "pages" then
      if info != [] then Pages(info[0]) else None
    else if key == "year" then Year(md)
    else if key == "arxiv_id" then
      if md.arxivEprints != [] then Some(OrEmpty(md.arxivEprints[0].value)) else None
    else if key == "arxiv_categories" then
      if md.arxivEprints != [] then Some(md.arxivEprints[0].categories.GetOr(List([]))) else None
    else if key == "doi" then
      if md.dois != [] then Some(OrEmpty(md.dois[0])) else None
    else if key == "urls" then Some(List(UrlObjects(md.urls)))
    else None
  }

  const NormalisedKeys: set<string> :=
    {"inspire_id", "citations", "last_updated", "title", "authors", "journal", "volume",
     "pages", "year", "arxiv_id", "arxiv_categories", "doi", "urls"}

  /**
   * The record `extract_paper_metadata` returns, key by key. The timestamp
   * `now` stands for the formatted `datetime.now()`.
   */
  function Normalise(h: Hit, now: string): (r: Record)
    ensures forall k :: Lookup(r, k) == Field(h, now, k)
    // always present
    ensures Lookup(r, "inspire_id") == Some(Str(h.id))
    ensures Lookup(r, "citations") == Some(h.metadata.citationCount.GetOr(Int(0)))
    ensures Lookup(r, "last_updated") == Some(Str(now))
    ensures Lookup(r, "urls") == Some(List(UrlObjects(h.metadata.urls)))
  {
    map k | k in NormalisedKeys && Field(h, now, k).Some? :: Field(h, now, k).value
  }

  /**
   * A record built part way: it holds the normalised value under each key of
   * `done`, the venue year under "year" when `withYear`, and nothing else.
   */
  ghost predicate Built(r: Record, h: Hit, now: string, done: set<string>, withYear: bool) {
    forall k {:trigger Lookup(r, k)} :: Lookup(r, k) ==
      if k in done then Field(h, now, k)
      else if k == "year" && withYear then VenueYear(h.metadata)
      else None
  }

  /**
   * The first assignments of `extract_paper_metadata`: the identifiers and
   * counts, the title, the authors and the venue fields.
   */
  method BibliographicFields(h: Hit, now: string) returns (result: Record)
    ensures Built(result, h, now, {"inspire_id", "citations", "last_updated", "title", "authors", "journal", "volume", "pages"}, true)
  {
    var md := h.metadata;
    result := map["inspire_id" := Str(h.id), "citations" := md.citationCount.GetOr(Int(0)),
                  "last_updated" := Str(now)];
    BuiltBase(h, now);
    ghost var done := {"inspire_id", "citations", "last_updated"};
    ghost var r0 := result;
    if md.titles.Some? && md.titles.value != [] {
      result := result["title" := Str(md.titles.value[0])];
    }
    BuiltTitle(r0, h, now, done);
    done, r0 := done + {"title"}, result;
    if md.authors != [] {
      var authorNames := AuthorNames(md.authors);
      result := result["authors" := Str(Text.Join(authorNames, ", "))];
    }
    BuiltAuthors(r0, h, now, done);
    done, r0 := done + {"authors"}, result;
    if md.publicationInfo != [] {
      result := PutVenue(result, md.publicationInfo[0]);
    }
    BuiltVenue(r0, h, now, done);
    done, r0 := done + {"journal", "volume", "pages"}, result;
    assert done == {"inspire_id", "citations", "last_updated", "title", "authors", "journal", "volume", "pages"};
  }

  /**
   * The code of `extract_paper_metadata`: the record is built by successive key
   * assignments, the author names and the URL objects by loops that append.
   */
  method ExtractPaperMetadata(h: Hit, now: string) returns (result: Record)
    ensures result == Normalise(h, now)
  {
    var md := h.metadata;
    result := BibliographicFields(h, now);
    ghost var done := {"inspire_id", "citations", "last_updated", "title", "authors", "journal", "volume", "pages"};
    ghost var r0 := result;
    if !Truthy(Get(result, "year")) {
      var preprintDate := md.preprintDate;
      if preprintDate != "" {
        result := result["year" := Str(YearOfDate(preprintDate))];
      }
    }
    BuiltYear(r0, h, now, done);
    done, r0 := done + {"year"}, result;
    if md.arxivEprints != [] {
      result := result["arxiv_id" := OrEmpty(md.arxivEprints[0].value)];
      result := result["arxiv_categories" := md.arxivEprints[0].categories.GetOr(List([]))];
    }
    BuiltEprint(r0, h, now, done);
    done, r0 := done + {"arxiv_id", "arxiv_categories"}, result;
    if md.dois != [] {
      result := result["doi" := OrEmpty(md.dois[0])];
    }
    BuiltDoi(r0, h, now, done);
    done, r0 := done + {"doi"}, result;
    var urls := UrlList(md.urls);
    result := result["urls" := List(urls)];
    BuiltAdd(r0, h, now, done, false, "urls", List(urls));
    done := done + {"urls"};
    BuiltAll(result, h, now, done);
  }

  /** The block that copies the journal, volume, pages and year of the first venue. */
  method PutVenue(r: Record, pub: PubInfo) returns (result: Record)
    ensures result == PutOpt(r["journal" := OrEmpty(pub.journalTitle)]["volume" := OrEmpty(pub.journalVolume)],
                             "pages", Pages(pub))["year" := OrEmpty(pub.year)]
  {
    result := r["journal" := OrEmpty(pub.journalTitle)];
    result := result["volume" := OrEmpty(pub.journalVolume)];
    var start, end := pub.pageStart.GetOr(Null), pub.pageEnd.GetOr(Null);
    if Truthy(start) && Truthy(end) {
      result := result["pages" := Str(Show(start) + "-" + Show(end))];
    } else if Truthy(start) {
      result := result["pages" := start];
    } else if Truthy(pub.artid.GetOr(Null)) {
      result := result["pages" := pub.artid.value];
    }
    result := result["year" := OrEmpty(pub.year)];
  }

  /** The loop that collects the non-empty author names. */
  method AuthorNames(authors: seq<string>) returns (authorNames: seq<string>)
    ensures authorNames == NonEmptyNames(authors)
  {
    authorNames := [];
    for i := 0 to |authors|
      invariant authorNames == NonEmptyNames(authors[..i])
    {
      assert authors[..i + 1][..i] == authors[..i];
      var fullName := authors[i];
      if fullName != "" {
        authorNames := authorNames + [fullName];
      }
    }
    assert authors[..|authors|] == authors;
  }

  /** The loop that builds one description/value object per URL. */
  method UrlList(urls: seq<UrlInfo>) returns (objects: seq<Value>)
    ensures objects == UrlObjects(urls)
  {
    objects := [];
    for i := 0 to |urls|
      invariant objects == UrlObjects(urls[..i])
    {
      objects := objects + [UrlObject(urls[i])];
    }
    assert urls[..|urls|] == urls;
  }

  /** The record with `key` set when there is a value, unchanged otherwise. */
  function PutOpt(r: Record, key: string, v: Option<Value>): Record {
    if v.Some? then r[key := v.value] else r
  }

  lemma BuiltBase(h: Hit, now: string)
    ensures Built(map["inspire_id" := Str(h.id), "citations" := h.metadata.citationCount.GetOr(Int(0)),
                      "last_updated" := Str(now)], h, now, {"inspire_id", "citations", "last_updated"}, false)
  {
  }

  lemma BuiltTitle(r: Record, h: Hit, now: string, done: set<string>)
    requires Built(r, h, now, done, false)
    ensures var md := h.metadata;
      Built(if md.titles.Some? && md.titles.value != [] then r["title" := Str(md.titles.value[0])] else r,
            h, now, done + {"title"}, false)
  {
    var md := h.metadata;
    if md.titles.Some? && md.titles.value != [] {
      BuiltAdd(r, h, now, done, false, "title", Str(md.titles.value[0]));
    } else {
      BuiltSkip(r, h, now, done, false, "title");
    }
  }

  lemma BuiltAuthors(r: Record, h: Hit, now: string, done: set<string>)
    requires Built(r, h, now, done, false)
    ensures var md := h.metadata;
      Built(if md.authors != [] then r["authors" := Str(Text.Join(NonEmptyNames(md.authors), ", "))] else r,
            h, now, done + {"authors"}, false)
  {
    var md := h.metadata;
    if md.authors != [] {
      BuiltAdd(r, h, now, done, false, "authors", Str(AuthorsText(md)));
    } else {
      BuiltSkip(r, h, now, done, false, "authors");
    }
  }

  lemma BuiltVenue(r: Record, h: Hit, now: string, done: set<string>)
    requires Built(r, h, now, done, false) && "year" !in done
    ensures var info := h.metadata.publicationInfo;
      Built(if info != [] then
              PutOpt(r["journal" := OrEmpty(info[0].journalTitle)]["volume" := OrEmpty(info[0].journalVolume)],
                     "pages", Pages(info[0]))["year" := OrEmpty(info[0].year)]
            else r,
            h, now, done + {"journal", "volume", "pages"}, true)
  {
    var info := h.metadata.publicationInfo;
    var d1, d2, d3 := done + {"journal"}, done + {"journal", "volume"}, done + {"journal", "volume", "pages"};
    if info != [] {
      var p := info[0];
      BuiltAdd(r, h, now, done, false, "journal", OrEmpty(p.journalTitle));
      var r1 := r["journal" := OrEmpty(p.journalTitle)];
      BuiltAdd(r1, h, now, d1, false, "volume", OrEmpty(p.journalVolume));
      var r2 := r1["volume" := OrEmpty(p.journalVolume)];
      if Pages(p).Some? {
        BuiltAdd(r2, h, now, d2, false, "pages", Pages(p).value);
      } else {
        BuiltSkip(r2, h, now, d2, false, "pages");
      }
      assert "year" !in d3;
      BuiltVenueYear(PutOpt(r2, "pages", Pages(p)), h, now, d3, OrEmpty(p.year));
    } else {
      BuiltSkip(r, h, now, done, false, "journal");
      BuiltSkip(r, h, now, d1, false, "volume");
      BuiltSkip(r, h, now, d2, false, "pages");
      BuiltNoVenue(r, h, now, d3);
    }
  }

  lemma BuiltYear(r: Record, h: Hit, now: string, done: set<string>)
    requires Built(r, h, now, done, true) && "year" !in done
    ensures var date := h.metadata.preprintDate;
      Built(if !Truthy(Get(r, "year")) && date != "" then r["year" := Str(YearOfDate(date))] else r,
            h, now, done + {"year"}, false)
  {
    var date := h.metadata.preprintDate;
    if !Truthy(Get(r, "year")) && date != "" {
      BuiltFallback(r, h, now, done, Str(YearOfDate(date)));
    } else {
      BuiltKeepYear(r, h, now, done);
    }
  }

  lemma BuiltEprint(r: Record, h: Hit, now: string, done: set<string>)
    requires Built(r, h, now, done, false)
    ensures var e := h.metadata.arxivEprints;
      Built(if e != [] then r["arxiv_id" := OrEmpty(e[0].value)]["arxiv_categories" := e[0].categories.GetOr(List([]))]
            else r,
            h, now, done + {"arxiv_id", "arxiv_categories"}, false)
  {
    var e := h.metadata.arxivEprints;
    var d1 := done + {"arxiv_id"};
    if e != [] {
      BuiltAdd(r, h, now, done, false, "arxiv_id", OrEmpty(e[0].value));
      BuiltAdd(r["arxiv_id" := OrEmpty(e[0].value)], h, now, d1, false, "arxiv_categories",
               e[0].categories.GetOr(List([])));
    } else {
      BuiltSkip(r, h, now, done, false, "arxiv_id");
      BuiltSkip(r, h, now, d1, false, "arxiv_categories");
    }
    assert d1 + {"arxiv_categories"} == done + {"arxiv_id", "arxiv_categories"};
  }

  lemma BuiltDoi(r: Record, h: Hit, now: string, done: set<string>)
    requires Built(r, h, now, done, false)
    ensures var d := h.metadata.dois;
      Built(if d != [] then r["doi" := OrEmpty(d[0])] else r, h, now, done + {"doi"}, false)
  {
    var d := h.metadata.dois;
    if d != [] {
      BuiltAdd(r, h, now, done, false, "doi", OrEmpty(d[0]));
    } else {
      BuiltSkip(r, h, now, done, false, "doi");
    }
  }

  /** Assigning a key its normalised value extends what is built. */
  lemma BuiltAdd(r: Record, h: Hit, now: string, done: set<string>, withYear: bool, key: string, v: Value)
    requires Built(r, h, now, done, withYear) && key != "year" && Field(h, now, key) == Some(v)
    ensures Built(r[key := v], h, now, done + {key}, withYear)
  {
    var r' := r[key := v];
    forall k ensures Lookup(r', k) == if k in done + {key} then Field(h, now, k)
                                     else if k == "year" && withYear then VenueYear(h.metadata) else None {
      if k != key {
        assert Lookup(r', k) == Lookup(r, k);
      }
    }
  }

  /** Leaving out a key the record does not normalise extends what is built. */
  lemma BuiltSkip(r: Record, h: Hit, now: string, done: set<string>, withYear: bool, key: string)
    requires Built(r, h, now, done, withYear) && key != "year" && Field(h, now, key) == None
    ensures Built(r, h, now, done + {key}, withYear)
  {
    forall k ensures Lookup(r, k) == if k in done + {key} then Field(h, now, k)
                                    else if k == "year" && withYear then VenueYear(h.metadata) else None {
      if k != key {
        assert k in done + {key} <==> k in done;
      }
    }
  }

  lemma BuiltVenueYear(r: Record, h: Hit, now: string, done: set<string>, v: Value)
    requires Built(r, h, now, done, false) && "year" !in done && VenueYear(h.metadata) == Some(v)
    ensures Built(r["year" := v], h, now, done, true)
  {
    var r' := r["year" := v];
    forall k ensures Lookup(r', k) == if k in done then Field(h, now, k)
                                     else if k == "year" then VenueYear(h.metadata) else None {
      if k != "year" {
        assert Lookup(r', k) == Lookup(r, k);
      }
    }
  }

  lemma BuiltNoVenue(r: Record, h: Hit, now: string, done: set<string>)
    requires Built(r, h, now, done, false) && VenueYear(h.metadata) == None
    ensures Built(r, h, now, done, true)
  {
  }

  lemma BuiltFallback(r: Record, h: Hit, now: string, done: set<string>, v: Value)
    requires Built(r, h, now, done, true) && "year" !in done
    requires !Truthy(Get(r, "year")) && h.metadata.preprintDate != ""
    requires v == Str(YearOfDate(h.metadata.preprintDate))
    ensures Built(r["year" := v], h, now, done + {"year"}, false)
  {
    var r' := r["year" := v];
    forall k ensures Lookup(r', k) == if k in done + {"year"} then Field(h, now, k) else None {
      if k != "year" {
        assert Lookup(r', k) == Lookup(r, k);
      } else {
        assert Lookup(r, "year") == VenueYear(h.metadata);
      }
    }
  }

  lemma BuiltKeepYear(r: Record, h: Hit, now: string, done: set<string>)
    requires Built(r, h, now, done, true) && "year" !in done
    requires Truthy(Get(r, "year")) || h.metadata.preprintDate == ""
    ensures Built(r, h, now, done + {"year"}, false)
  {
    assert Lookup(r, "year") == VenueYear(h.metadata);
  }

  lemma BuiltAll(r: Record, h: Hit, now: string, done: set<string>)
    requires Built(r, h, now, done, false) && NormalisedKeys <= done
    ensures r == Normalise(h, now)
  {
    var n := Normalise(h, now);
    forall k ensures Lookup(r, k) == Lookup(n, k) {
      if k !in NormalisedKeys {
        assert Field(h, now, k) == None;
      }
    }
    SameLookups(r, n);
  }
}
