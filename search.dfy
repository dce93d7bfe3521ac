/**
 * `search_paper_comprehensive` and the searches it chains: the stored record
 * id, the arXiv links, the DOI links and, last, the title. The four requests
 * to the literature API are oracles: each returns None when the request fails
 * or finds nothing, which is how the code's `try`/`except` blocks end.
 */
module PaperSearch {
  import opened Wrappers
  import opened Json
  import opened Identifiers
  import opened Similarity
  import opened Inspire

  /**
   * The literature API. `byId` is `GET /literature/<id>` (the metadata of that
   * record), `byEprint` and `byDoi` the first hit of an `eprint:` or `doi:`
   * query, `byTitle` the hits of a `title:"..."` query in response order.
   */
  datatype Api = Api(
    byId: Value -> Option<Metadata>,
    byEprint: string -> Option<Hit>,
    byDoi: string -> Option<Hit>,
    byTitle: string -> Option<seq<Hit>>)

  // ---------------------------------------------------------------- links

  /**
   * A link object as the search reads it: the `text` of an "arxiv" link and the
   * `url` of a "doi" link, where present, are strings; nothing else is read.
   */
  predicate IsLink(v: Value) {
    v.Obj? &&
    (Get(v.fields, "type") == Str("arxiv") && "text" in v.fields ==> v.fields["text"].Str?) &&
    (Get(v.fields, "type") == Str("doi") && "url" in v.fields ==> v.fields["url"].Str?)
  }

  /** The `links` of a publication are absent or a list of link objects. */
  predicate WellFormedLinks(pub: Record) {
    "links" in pub ==>
      pub["links"].List? && forall k :: 0 <= k < |pub["links"].items| ==> IsLink(pub["links"].items[k])
  }

  /** `publication.get('links', [])`. */
  function Links(pub: Record): seq<Value>
    requires WellFormedLinks(pub)
  {
    if "links" in pub then pub["links"].items else []
  }

  /** `link.get('type')` of a link object. */
  function LinkType(link: Value): Value {
    if link.Obj? then Get(link.fields, "type") else Null
  }

  /** `link.get(key, '')` for a string-valued key. */
  function LinkText(link: Value, key: string): string
    requires IsLink(link)
    requires (key == "text" && LinkType(link) == Str("arxiv")) || (key == "url" && LinkType(link) == Str("doi"))
  {
    if key in link.fields then link.fields[key].s else ""
  }

  datatype LinkKind = ArxivLink | DoiLink

  /**
   * The identifier a link contributes to the pass over links of the given
   * kind: an arXiv id extracted from the text of an "arxiv" link, or a DOI
   * extracted from the url of a "doi" link.
   */
  function LinkQuery(kind: LinkKind, link: Value): (q: Option<string>)
    requires IsLink(link)
    ensures q.Some? ==> LinkType(link) == Str(if kind == ArxivLink then "arxiv" else "doi")
  {
    match kind
    case ArxivLink =>
      if LinkType(link) == Str("arxiv") then ExtractArxivId(LinkText(link, "text")) else None
    case DoiLink =>
      if LinkType(link) == Str("doi") then ExtractDoi(LinkText(link, "url")) else None
  }

  /** What the search for one link returns, normalised. */
  function LinkStep(kind: LinkKind, link: Value, api: Api, now: string): Option<Record>
    requires IsLink(link)
  {
    match LinkQuery(kind, link)
    case None => None
    case Some(q) =>
      match (if kind == ArxivLink then api.byEprint(q) else api.byDoi(q))
      case Some(h) => Some(Normalise(h, now))
      case None => None
  }

  /**
   * The `for link in ...` loop from position i: the result of the first link,
   * in list order, whose search returns something.
   */
  function Scan(kind: LinkKind, links: seq<Value>, api: Api, now: string, i: nat): (r: Option<Record>)
    requires i <= |links| && forall k :: 0 <= k < |links| ==> IsLink(links[k])
    decreases |links| - i
    ensures r.None? <==> forall j :: i <= j < |links| ==> LinkStep(kind, links[j], api, now).None?
    ensures r.Some? ==>
      exists j :: i <= j < |links| && r == LinkStep(kind, links[j], api, now) &&
        forall l :: i <= l < j ==> LinkStep(kind, links[l], api, now).None?
  {
    if i == |links| then None
    else
      var here := LinkStep(kind, links[i], api, now);
      if here.Some? then here else Scan(kind, links, api, now, i + 1)
  }

  // ---------------------------------------------------------------- title

  /**
   * The title a hit is compared by: `metadata.get('titles', [{}])[0]`'s title.
   * None stands for the IndexError an empty title list raises, which ends the
   * whole title search.
   */
  function HitTitle(h: Hit): Option<string> {
    match h.metadata.titles
    case None => Some("")
    case Some(ts) => if ts == [] then None else Some(ts[0])
  }

  /**
   * What the loop over the hits learns from one hit: None when reading its
   * title raises, otherwise whether its title is more than 80% similar.
   */
  function Verdict(title: string, h: Hit): Option<bool> {
    match HitTitle(h)
    case None => None
    case Some(t) => Some(Exceeds(TitleSimilarity(title, t)))
  }

  predicate Accepts(title: string, h: Hit) {
    Verdict(title, h) == Some(true)
  }

  /**
   * The loop over the title hits from position i, for any verdict: the index
   * of the first hit accepted, provided no earlier hit raised.
   */
  function PickHit(hits: seq<Hit>, verdict: Hit -> Option<bool>, i: nat): (r: Option<nat>)
    requires i <= |hits|
    decreases |hits| - i
    ensures r.Some? ==> i <= r.value < |hits| && verdict(hits[r.value]) == Some(true)
    ensures r.Some? ==> forall l :: i <= l < r.value ==> verdict(hits[l]) == Some(false)
    ensures (forall l :: i <= l < |hits| ==> verdict(hits[l]).Some?) ==>
      (r.None? <==> forall l :: i <= l < |hits| ==> verdict(hits[l]) == Some(false))
  {
    if i == |hits| then None
    else
      match verdict(hits[i])
      case None => None
      case Some(accepted) => if accepted then Some(i) else PickHit(hits, verdict, i + 1)
  }

  /**
   * `search_by_title`: a title that is not a string fails inside the `try`;
   * otherwise the cleaned five-word query is sent and the first hit whose
   * title is more than 80% similar to the original title is normalised.
   */
  function TitleSearch(title: Value, api: Api, now: string): (r: Option<Record>)
    ensures r.Some? ==> title.Str? && api.byTitle(Query(title.s)).Some?
  {
    if !title.Str? then None
    else
      match api.byTitle(Query(title.s))
      case None => None
      case Some(hits) =>
        match PickHit(hits, h => Verdict(title.s, h), 0)
        case Some(j) => Some(Normalise(hits[j], now))
        case None => None
  }

  /** A title search that succeeds returns the first hit, in response order, that is accepted. */
  lemma TitleSearchTakesFirst(title: string, api: Api, now: string)
    requires TitleSearch(Str(title), api, now).Some?
    ensures var hits := api.byTitle(Query(title)).value;
      exists j :: (0 <= j < |hits| && TitleSearch(Str(title), api, now) == Some(Normalise(hits[j], now)) &&
                   Accepts(title, hits[j]) && forall l :: 0 <= l < j ==> Verdict(title, hits[l]) == Some(false))
  {
    var hits := api.byTitle(Query(title)).value;
    var verdict := h => Verdict(title, h);
    var j := PickHit(hits, verdict, 0).value;
    assert forall l :: 0 <= l < |hits| ==> verdict(hits[l]) == Verdict(title, hits[l]);
    assert Accepts(title, hits[j]);
  }

  /**
   * When the title of every hit can be read, the search fails exactly when no
   * hit is accepted.
   */
  lemma TitleSearchNoneIffNoneAccepted(title: string, api: Api, now: string)
    requires api.byTitle(Query(title)).Some?
    requires forall l :: 0 <= l < |api.byTitle(Query(title)).value| ==> Verdict(title, api.byTitle(Query(title)).value[l]).Some?
    ensures var hits := api.byTitle(Query(title)).value;
      TitleSearch(Str(title), api, now).None? <==> forall l :: 0 <= l < |hits| ==> Verdict(title, hits[l]) == Some(false)
  {
    var hits := api.byTitle(Query(title)).value;
    var verdict := h => Verdict(title, h);
    assert forall l :: 0 <= l < |hits| ==> verdict(hits[l]) == Verdict(title, hits[l]);
  }

  // ---------------------------------------------------------------- chain

  /** Step 1: the record stored under a truthy `inspire_id`, normalised with that id as its own. */
  function IdStep(pub: Record, api: Api, now: string): Option<Record> {
    var id := Get(pub, "inspire_id");
    if !Truthy(id) then None
    else
      match api.byId(id)
      case Some(md) => Some(Normalise(Hit(Show(id), md), now))
      case None => None
  }

  /** Step 4: the title search, attempted only for a truthy title. */
  function TitleStep(pub: Record, api: Api, now: string): Option<Record> {
    var title := Get(pub, "title");
    if Truthy(title) then TitleSearch(title, api, now) else None
  }

  /** `search_paper_comprehensive`: the first step, in order, that returns something. */
  function Search(pub: Record, api: Api, now: string): (r: Option<Record>)
    requires WellFormedLinks(pub)
    ensures r.None? <==>
      IdStep(pub, api, now).None? &&
      (forall j :: 0 <= j < |Links(pub)| ==> LinkStep(ArxivLink, Links(pub)[j], api, now).None?) &&
      (forall j :: 0 <= j < |Links(pub)| ==> LinkStep(DoiLink, Links(pub)[j], api, now).None?) &&
      TitleStep(pub, api, now).None?
  {
    var links := Links(pub);
    var byId := IdStep(pub, api, now);
    if byId.Some? then byId
    else
      var byArxiv := Scan(ArxivLink, links, api, now, 0);
      if byArxiv.Some? then byArxiv
      else
        var byDoi := Scan(DoiLink, links, api, now, 0);
        if byDoi.Some? then byDoi
        else TitleStep(pub, api, now)
  }

  /** The stored id, when its request succeeds, decides the result. */
  lemma StoredIdFirst(pub: Record, api: Api, now: string)
    requires WellFormedLinks(pub) && Truthy(Get(pub, "inspire_id"))
    requires api.byId(Get(pub, "inspire_id")).Some?
    ensures Search(pub, api, now) ==
      Some(Normalise(Hit(Show(Get(pub, "inspire_id")), api.byId(Get(pub, "inspire_id")).value), now))
  {
  }

  /**
   * When the stored id gives nothing and some arXiv link does, the result is
   * that of the first such arXiv link, whatever the DOI links and the title.
   */
  lemma ArxivBeforeDoiAndTitle(pub: Record, api: Api, now: string, j: nat)
    requires WellFormedLinks(pub) && IdStep(pub, api, now).None?
    requires j < |Links(pub)| && LinkStep(ArxivLink, Links(pub)[j], api, now).Some?
    requires forall l :: 0 <= l < j ==> LinkStep(ArxivLink, Links(pub)[l], api, now).None?
    ensures Search(pub, api, now) == LinkStep(ArxivLink, Links(pub)[j], api, now)
  {
    var links := Links(pub);
    var r := Scan(ArxivLink, links, api, now, 0);
    assert r.Some?;
    var k :| 0 <= k < |links| && r == LinkStep(ArxivLink, links[k], api, now) &&
      forall l :: 0 <= l < k ==> LinkStep(ArxivLink, links[l], api, now).None?;
    assert k == j;
  }

  /**
   * When neither the stored id nor any arXiv link gives anything and some DOI
   * link does, the result is that of the first such DOI link.
   */
  lemma DoiBeforeTitle(pub: Record, api: Api, now: string, j: nat)
    requires WellFormedLinks(pub) && IdStep(pub, api, now).None?
    requires forall l :: 0 <= l < |Links(pub)| ==> LinkStep(ArxivLink, Links(pub)[l], api, now).None?
    requires j < |Links(pub)| && LinkStep(DoiLink, Links(pub)[j], api, now).Some?
    requires forall l :: 0 <= l < j ==> LinkStep(DoiLink, Links(pub)[l], api, now).None?
    ensures Search(pub, api, now) == LinkStep(DoiLink, Links(pub)[j], api, now)
  {
    var links := Links(pub);
    assert Scan(ArxivLink, links, api, now, 0).None?;
    var r := Scan(DoiLink, links, api, now, 0);
    assert r.Some?;
    var k :| 0 <= k < |links| && r == LinkStep(DoiLink, links[k], api, now) &&
      forall l :: 0 <= l < k ==> LinkStep(DoiLink, links[l], api, now).None?;
    assert k == j;
  }

  /** When the id, every arXiv link and every DOI link give nothing, the title search decides. */
  lemma TitleLast(pub: Record, api: Api, now: string)
    requires WellFormedLinks(pub) && IdStep(pub, api, now).None?
    requires forall l :: 0 <= l < |Links(pub)| ==> LinkStep(ArxivLink, Links(pub)[l], api, now).None?
    requires forall l :: 0 <= l < |Links(pub)| ==> LinkStep(DoiLink, Links(pub)[l], api, now).None?
    ensures Search(pub, api, now) == TitleStep(pub, api, now)
  {
  }

  /** A falsy title is never searched: the title oracle cannot change the result. */
  lemma EmptyTitleNotSearched(pub: Record, api: Api, byTitle: string -> Option<seq<Hit>>, now: string)
    requires WellFormedLinks(pub) && !Truthy(Get(pub, "title"))
    ensures Search(pub, api, now) == Search(pub, api.(byTitle := byTitle), now)
  {
    ScanIgnoresTitles(ArxivLink, Links(pub), api, byTitle, now, 0);
    ScanIgnoresTitles(DoiLink, Links(pub), api, byTitle, now, 0);
  }

  lemma LinkStepIgnoresTitles(kind: LinkKind, link: Value, api: Api, byTitle: string -> Option<seq<Hit>>, now: string)
    requires IsLink(link)
    ensures LinkStep(kind, link, api, now) == LinkStep(kind, link, api.(byTitle := byTitle), now)
  {
  }

  /** The pass over links never consults the title oracle. */
  lemma {:induction false} ScanIgnoresTitles(kind: LinkKind, links: seq<Value>, api: Api,
                                             byTitle: string -> Option<seq<Hit>>, now: string, i: nat)
    requires i <= |links| && forall k :: 0 <= k < |links| ==> IsLink(links[k])
    decreases |links| - i
    ensures Scan(kind, links, api, now, i) == Scan(kind, links, api.(byTitle := byTitle), now, i)
  {
    if i < |links| {
      LinkStepIgnoresTitles(kind, links[i], api, byTitle, now);
      ScanIgnoresTitles(kind, links, api, byTitle, now, i + 1);
    }
  }

  /** An arXiv link whose text is "arXiv:2410.01204v2" is searched as eprint 2410.01204. */
  lemma ArxivLinkQuery()
    ensures LinkQuery(ArxivLink, Obj(map["type" := Str("arxiv"), "text" := Str("arXiv:2410.01204v2")]))
            == Some("2410.01204")
  {
    ArxivExample();
  }
}
