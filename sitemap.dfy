/**
 * The sitemap builder: a list of URL entries, the scan that fills it from the
 * dates of a few repository files, the element tree of the Sitemaps protocol
 * 0.9 and the text written to `sitemap.xml`. The file system is a map from a
 * path that exists to its modification date (`YYYY-MM-DD`); the clock is the
 * parameter `now`, today's date in the same format.
 */
module Sitemap {
  import opened Wrappers
  import opened Text

  const DefaultBaseUrl := "https://kenshikuroki.github.io"
  const Namespace := "http://www.sitemaps.org/schemas/sitemap/0.9"
  const IndexPath := "index.html"
  const CvPath := "assets/documents/CV_kuroki.pdf"
  /** The data files whose dates may move the first entry's date; they are never entries. */
  const DataFiles := ["assets/data/publications.json", "assets/data/presentations.json"]

  /** Dates of the files that exist. */
  type FileDates = map<string, string>

  datatype UrlEntry = UrlEntry(loc: string, lastmod: string, changefreq: string, priority: string)

  /** `lastmod or now`: a missing or empty date falls back to today. */
  function DateOr(lastmod: Option<string>, now: string): string {
    if lastmod.Some? && lastmod.value != "" then lastmod.value else now
  }

  /** `get_file_modification_date`: the file's date, or today when it does not exist. */
  function FileDate(fs: FileDates, path: string, now: string): string {
    if path in fs then fs[path] else now
  }

  /**
   * The date of the last data file, in list order, that exists and whose date
   * sorts after the index date; None when there is none. Every comparison is
   * against the index date, so this need not be the latest date.
   */
  function LastNewer(files: seq<string>, fs: FileDates, indexDate: string): (r: Option<string>)
    ensures r.Some? <==> exists i :: 0 <= i < |files| && files[i] in fs && LexLess(indexDate, fs[files[i]])
    ensures r.Some? ==> exists i :: (0 <= i < |files| && files[i] in fs && r.value == fs[files[i]] &&
      LexLess(indexDate, r.value) &&
      forall j :: i < j < |files| ==> !(files[j] in fs && LexLess(indexDate, fs[files[j]])))
  {
    if files == [] then None
    else
      var last := files[|files| - 1];
      var init := files[..|files| - 1];
      assert forall i :: 0 <= i < |init| ==> init[i] == files[i];
      if last in fs && LexLess(indexDate, fs[last]) then Some(fs[last])
      else LastNewer(init, fs, indexDate)
  }

  /** The entries with the first one's date replaced, when there is a date. */
  function Promote(entries: seq<UrlEntry>, date: Option<string>): seq<UrlEntry>
    requires entries != []
  {
    if date.Some? then entries[0 := entries[0].(lastmod := date.value)] else entries
  }

  /** The entries the scan appends: the main page, then the CV when it exists. */
  function ScanAdditions(baseUrl: string, fs: FileDates, now: string): seq<UrlEntry> {
    [UrlEntry(baseUrl + "/", DateOr(Some(FileDate(fs, IndexPath, now)), now), "monthly", "1.0")] +
    (if CvPath in fs then [UrlEntry(baseUrl + "/" + CvPath, DateOr(Some(FileDate(fs, CvPath, now)), now), "monthly", "0.8")]
     else [])
  }

  /**
   * The list after `scan_important_files`: the additions appended, then the
   * first entry of the list (the main page when the list was empty) dated by
   * the data files.
   */
  function Scanned(urls: seq<UrlEntry>, baseUrl: string, fs: FileDates, now: string): seq<UrlEntry> {
    Promote(urls + ScanAdditions(baseUrl, fs, now), LastNewer(DataFiles, fs, FileDate(fs, IndexPath, now)))
  }

  // ---------------------------------------------------------------- XML

  /** An element of the tree: tag, attributes, text and children. */
  datatype Element = Element(tag: string, attrs: seq<(string, string)>, text: string, children: seq<Element>)

  function Leaf(tag: string, text: string): Element {
    Element(tag, [], text, [])
  }

  /** The `url` element of one entry. */
  function UrlElement(e: UrlEntry): Element {
    Element("url", [], "", [Leaf("loc", e.loc), Leaf("lastmod", e.lastmod),
                            Leaf("changefreq", e.changefreq), Leaf("priority", e.priority)])
  }

  /** The `urlset` element of a list of entries. */
  function UrlSet(urls: seq<UrlEntry>): Element {
    Element("urlset", [("xmlns", Namespace)], "", seq(|urls|, i requires 0 <= i < |urls| => UrlElement(urls[i])))
  }

  /** Reads an entry back from a `url` element. */
  function EntryOf(u: Element): UrlEntry {
    if |u.children| == 4 then UrlEntry(u.children[0].text, u.children[1].text, u.children[2].text, u.children[3].text)
    else UrlEntry("", "", "", "")
  }

  /** Reads the entries back from a `urlset` element. */
  function EntriesOf(root: Element): seq<UrlEntry> {
    seq(|root.children|, i requires 0 <= i < |root.children| => EntryOf(root.children[i]))
  }

  /**
   * The tree holds the entries in list order, one `url` element each, with
   * the four children in the order loc, lastmod, changefreq, priority; the
   * entries can be read back from it.
   */
  lemma XmlRoundTrip(urls: seq<UrlEntry>)
    ensures EntriesOf(UrlSet(urls)) == urls
    ensures forall i :: 0 <= i < |urls| ==>
      var u := UrlSet(urls).children[i];
      u.tag == "url" && |u.children| == 4 && u.children[0].tag == "loc" && u.children[1].tag == "lastmod" &&
      u.children[2].tag == "changefreq" && u.children[3].tag == "priority"
  {
    var root := UrlSet(urls);
    assert |EntriesOf(root)| == |urls|;
    forall i | 0 <= i < |urls| ensures EntriesOf(root)[i] == urls[i] {
      assert root.children[i] == UrlElement(urls[i]);
    }
  }

  /** ` name="value"` for each attribute, in order. */
  function Attributes(attrs: seq<(string, string)>): string {
    if attrs == [] then ""
    else " " + attrs[0].0 + "=\"" + attrs[0].1 + "\"" + Attributes(attrs[1..])
  }

  /**
   * `ET.tostring` of an element: an element with neither text nor children is
   * written in the short form `<tag />`.
   */
  function Serialise(e: Element): string
    decreases e
  {
    "<" + e.tag + Attributes(e.attrs) +
    if e.text == "" && e.children == [] then " />"
    else ">" + e.text + SerialiseAll(e.children) + "</" + e.tag + ">"
  }

  function SerialiseAll(es: seq<Element>): string
    decreases es
  {
    if es == [] then "" else Serialise(es[0]) + SerialiseAll(es[1..])
  }

  const Declaration := "<?xml version=\"1.0\" encoding=\"UTF-8\"?>\n"

  /** The seven replacements of `save_sitemap`, in the order they are applied. */
  function Formatted(s: string): string {
    var s1 := ReplaceAll(s, "><", ">\n<");
    var s2 := ReplaceAll(s1, "<url>", "  <url>");
    var s3 := ReplaceAll(s2, "</url>", "  </url>");
    var s4 := ReplaceAll(s3, "<loc>", "    <loc>");
    var s5 := ReplaceAll(s4, "<lastmod>", "    <lastmod>");
    var s6 := ReplaceAll(s5, "<changefreq>", "    <changefreq>");
    ReplaceAll(s6, "<priority>", "    <priority>")
  }

  /** The declaration holds '<' only at its start and '>' only before its final newline. */
  lemma DeclarationAngles()
    ensures |Declaration| == 39 && Declaration[0] == '<' && Declaration[1] == '?'
    ensures Declaration[37] == '>' && Declaration[38] == '\n'
    ensures forall j :: 1 <= j < 37 ==> Declaration[j] != '<' && Declaration[j] != '>'
  {
  }

  /** A pattern that begins with '<' or '>' cannot start inside the declaration. */
  lemma DeclarationHasNoMatch(pat: string)
    requires |pat| >= 2 && (pat[0] == '<' ==> pat[1] != '?') && (pat[0] == '>' ==> pat[1] != '\n')
    requires pat[0] == '<' || pat[0] == '>'
    ensures NoMatchStartsIn(Declaration, pat)
  {
    var d := Declaration;
    DeclarationAngles();
    forall j | 0 <= j < |d| ensures !MatchMayStartAt(d, pat, j) {
      if |d| - j >= |pat| {
        assert d[j..j + |pat|][0] == d[j] && d[j..j + |pat|][1] == d[j + 1];
      } else if j + 1 < |d| {
        assert d[j..][0] == d[j] && d[j..][1] == d[j + 1];
      } else {
        assert d[j..][0] == d[j];
      }
    }
  }

  /** The formatting leaves the XML declaration in front untouched. */
  lemma FormattedKeepsDeclaration(body: string)
    ensures Formatted(Declaration + body) == Declaration + Formatted(body)
    ensures StartsWith(Formatted(Declaration + body), Declaration)
  {
    var d := Declaration;
    DeclarationHasNoMatch("><");
    DeclarationHasNoMatch("<url>");
    DeclarationHasNoMatch("</url>");
    DeclarationHasNoMatch("<loc>");
    DeclarationHasNoMatch("<lastmod>");
    DeclarationHasNoMatch("<changefreq>");
    DeclarationHasNoMatch("<priority>");
    var s1 := ReplaceAll(body, "><", ">\n<");
    ReplaceAllKeepsPrefix(d, body, "><", ">\n<");
    var s2 := ReplaceAll(s1, "<url>", "  <url>");
    ReplaceAllKeepsPrefix(d, s1, "<url>", "  <url>");
    var s3 := ReplaceAll(s2, "</url>", "  </url>");
    ReplaceAllKeepsPrefix(d, s2, "</url>", "  </url>");
    var s4 := ReplaceAll(s3, "<loc>", "    <loc>");
    ReplaceAllKeepsPrefix(d, s3, "<loc>", "    <loc>");
    var s5 := ReplaceAll(s4, "<lastmod>", "    <lastmod>");
    ReplaceAllKeepsPrefix(d, s4, "<lastmod>", "    <lastmod>");
    var s6 := ReplaceAll(s5, "<changefreq>", "    <changefreq>");
    ReplaceAllKeepsPrefix(d, s5, "<changefreq>", "    <changefreq>");
    ReplaceAllKeepsPrefix(d, s6, "<priority>", "    <priority>");
    assert (d + Formatted(body))[..|d|] == d;
  }

  // ---------------------------------------------------------------- generator

  class SitemapGenerator {
    var baseUrl: string
    var urls: seq<UrlEntry>

    constructor (baseUrl: string := DefaultBaseUrl)
      ensures this.baseUrl == baseUrl && urls == []
    {
      this.baseUrl := baseUrl;
      urls := [];
    }

    /** `add_url`: appends exactly one entry; `now` stands for today's date. */
    method AddUrl(loc: string, now: string, lastmod: Option<string> := None,
                  changefreq: string := "monthly", priority: string := "0.5")
      modifies this
      ensures baseUrl == old(baseUrl)
      ensures urls == old(urls) + [UrlEntry(baseUrl + loc, DateOr(lastmod, now), changefreq, priority)]
    {
      var urlData := UrlEntry(baseUrl + loc, if lastmod.Some? && lastmod.value != "" then lastmod.value else now,
                              changefreq, priority);
      urls := urls + [urlData];
    }

    /** `scan_important_files`, with the file system given as `fs`. */
    method ScanImportantFiles(fs: FileDates, now: string)
      modifies this
      ensures baseUrl == old(baseUrl)
      ensures urls == Scanned(old(urls), baseUrl, fs, now)
    {
      var indexLastmod := FileDate(fs, IndexPath, now);
      AddUrl("/", now, Some(indexLastmod), "monthly", "1.0");
      ghost var root := urls[|urls| - 1];
      assert urls == old(urls) + [root];
      if CvPath in fs {
        var cvLastmod := FileDate(fs, CvPath, now);
        AddUrl("/" + CvPath, now, Some(cvLastmod), "monthly", "0.8");
        assert urls == old(urls) + [root] + [urls[|urls| - 1]];
        assert baseUrl + ("/" + CvPath) == baseUrl + "/" + CvPath;
      } else {
        assert [root] + [] == [root];
      }
      assert urls == old(urls) + ScanAdditions(baseUrl, fs, now);
      ghost var added := urls;
      var dataFiles := DataFiles;
      for k := 0 to |dataFiles|
        invariant baseUrl == old(baseUrl)
        invariant urls == Promote(added, LastNewer(dataFiles[..k], fs, indexLastmod))
      {
        assert dataFiles[..k + 1][..k] == dataFiles[..k];
        var dataFile := dataFiles[k];
        if dataFile in fs {
          var lastmod := FileDate(fs, dataFile, now);
          if LexLess(indexLastmod, lastmod) {
            urls := urls[0 := urls[0].(lastmod := lastmod)];
          }
        }
      }
      assert dataFiles[..|dataFiles|] == DataFiles;
    }

    /** `generate_xml`: one `url` element per entry, appended in list order. */
    method GenerateXml() returns (root: Element)
      ensures root == UrlSet(urls)
    {
      var children: seq<Element> := [];
      for i := 0 to |urls|
        invariant |children| == i && forall j :: 0 <= j < i ==> children[j] == UrlElement(urls[j])
      {
        var urlElem := Element("url", [], "", []);
        urlElem := urlElem.(children := urlElem.children + [Leaf("loc", urls[i].loc)]);
        urlElem := urlElem.(children := urlElem.children + [Leaf("lastmod", urls[i].lastmod)]);
        urlElem := urlElem.(children := urlElem.children + [Leaf("changefreq", urls[i].changefreq)]);
        urlElem := urlElem.(children := urlElem.children + [Leaf("priority", urls[i].priority)]);
        children := children + [urlElem];
      }
      root := Element("urlset", [("xmlns", Namespace)], "", children);
    }

    /** `save_sitemap` up to the file write: the scan, the tree and the formatted text. */
    method SaveSitemap(fs: FileDates, now: string) returns (xmlStr: string)
      modifies this
      ensures baseUrl == old(baseUrl)
      ensures urls == Scanned(old(urls), baseUrl, fs, now)
      ensures xmlStr == Declaration + Formatted(Serialise(UrlSet(urls)))
    {
      ScanImportantFiles(fs, now);
      var root := GenerateXml();
      xmlStr := Declaration;
      xmlStr := xmlStr + Serialise(root);
      FormattedKeepsDeclaration(Serialise(root));
      xmlStr := ReplaceAll(xmlStr, "><", ">\n<");
      xmlStr := ReplaceAll(xmlStr, "<url>", "  <url>");
      xmlStr := ReplaceAll(xmlStr, "</url>", "  </url>");
      xmlStr := ReplaceAll(xmlStr, "<loc>", "    <loc>");
      xmlStr := ReplaceAll(xmlStr, "<lastmod>", "    <lastmod>");
      xmlStr := ReplaceAll(xmlStr, "<changefreq>", "    <changefreq>");
      xmlStr := ReplaceAll(xmlStr, "<priority>", "    <priority>");
    }
  }

  // ---------------------------------------------------------------- properties

  /**
   * A scan of an empty list gives the main page first (monthly, priority 1.0),
   * then the CV (monthly, priority 0.8) exactly when it exists, and nothing
   * else; the main page is dated by the last newer data file, or else by
   * index.html.
   */
  lemma ScanFromEmpty(baseUrl: string, fs: FileDates, now: string)
    ensures var r := Scanned([], baseUrl, fs, now);
      && 1 <= |r| <= 2
      && (|r| == 2 <==> CvPath in fs)
      && r[0].loc == baseUrl + "/" && r[0].changefreq == "monthly" && r[0].priority == "1.0"
      && r[0].lastmod == (match LastNewer(DataFiles, fs, FileDate(fs, IndexPath, now))
                          case Some(d) => d
                          case None => DateOr(Some(FileDate(fs, IndexPath, now)), now))
      && (|r| == 2 ==> r[1] == UrlEntry(baseUrl + "/" + CvPath, DateOr(Some(FileDate(fs, CvPath, now)), now), "monthly", "0.8"))
  {
    assert [] + ScanAdditions(baseUrl, fs, now) == ScanAdditions(baseUrl, fs, now);
  }

  /**
   * The data files add no entry and change nothing but the first entry's
   * date: the scan appends its additions, keeps every other field, and none of
   * the appended entries is the address of a data file.
   */
  lemma ScanOnlyAppends(urls: seq<UrlEntry>, baseUrl: string, fs: FileDates, now: string)
    ensures var r := Scanned(urls, baseUrl, fs, now);
      var plain := urls + ScanAdditions(baseUrl, fs, now);
      && |r| == |plain|
      && (forall i :: 1 <= i < |r| ==> r[i] == plain[i])
      && r[0].(lastmod := plain[0].lastmod) == plain[0]
      && (forall i, k :: |urls| <= i < |r| && 0 <= k < |DataFiles| ==> r[i].loc != baseUrl + "/" + DataFiles[k])
  {
    var r := Scanned(urls, baseUrl, fs, now);
    var plain := urls + ScanAdditions(baseUrl, fs, now);
    forall i, k | |urls| <= i < |r| && 0 <= k < |DataFiles| ensures r[i].loc != baseUrl + "/" + DataFiles[k] {
      var data := baseUrl + "/" + DataFiles[k];
      assert r[i].loc == plain[i].loc;
      if r[i].loc == baseUrl + "/" {
        assert |data| > |baseUrl + "/"|;
      } else {
        assert r[i].loc == baseUrl + "/" + CvPath;
        assert r[i].loc[|baseUrl| + 9] == 'o';
        assert data[|baseUrl| + 9] == 'a';
      }
    }
  }

  /**
   * The main page's date is not the latest data-file date: a publications
   * file newer than a presentations file that is itself newer than the index
   * leaves the presentations date.
   */
  lemma LastNewerNotLatest()
    ensures LastNewer(DataFiles, map[DataFiles[0] := "2024-03-01", DataFiles[1] := "2024-02-01"], "2024-01-01")
            == Some("2024-02-01")
  {
    var fs := map[DataFiles[0] := "2024-03-01", DataFiles[1] := "2024-02-01"];
    assert DataFiles[0] != DataFiles[1] by { assert DataFiles[0][13] != DataFiles[1][13]; }
    assert LexLess("-01-01", "-02-01") by { assert LexLess("01-01", "02-01"); }
    assert LexLess("2024-01-01", "2024-02-01") by {
      assert LexLess("4-01-01", "4-02-01") && LexLess("24-01-01", "24-02-01") && LexLess("024-01-01", "024-02-01");
    }
    assert LexLess("2024-01-01", "2024-03-01") by {
      assert LexLess("-01-01", "-03-01") by { assert LexLess("01-01", "03-01"); }
      assert LexLess("4-01-01", "4-03-01") && LexLess("24-01-01", "24-03-01") && LexLess("024-01-01", "024-03-01");
    }
  }
}
