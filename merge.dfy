/**
 * `merge_metadata` and `update_links`: how the metadata resolved for a
 * publication is folded into the stored record, and how a DOI link and an
 * arXiv link are appended when the record has none of that type.
 */
module Merge {
  import opened Wrappers
  import opened Json
  import opened PaperSearch

  /** Keys overwritten whatever the stored value. */
  predicate AlwaysUpdate(key: string) { key == "citations" || key == "last_updated" }

  /** Keys overwritten only while the stored value is missing or empty. */
  predicate UpdateIfEmpty(key: string) { key == "title" || key == "authors" || key == "inspire_id" }

  /** Keys overwritten only by a non-empty value. */
  predicate UpdateIfGiven(key: string) { key == "categories" || key == "urls" }

  /** Whether the resolved value `v` of `key` replaces what the record `cur` holds. */
  predicate Takes(cur: Record, key: string, v: Value) {
    AlwaysUpdate(key)
    || (UpdateIfEmpty(key) && !Truthy(Get(cur, key)))
    || (UpdateIfGiven(key) && Truthy(v))
  }

  /** The value under `key` once the resolved keys in `seen` have been visited. */
  function MergedAt(cur: Record, data: Record, seen: set<string>, key: string): Option<Value> {
    if key in seen && key in data && Takes(cur, key, data[key]) then Some(data[key]) else Lookup(cur, key)
  }

  /**
   * The record after the loop of `merge_metadata`. Each key is visited once
   * and the test for a key reads only that key, so the order in which the
   * resolved keys are visited does not matter.
   */
  function MergeFields(cur: Record, data: Record): (r: Record)
    ensures forall k :: Lookup(r, k) == MergedAt(cur, data, data.Keys, k)
  {
    map k | k in cur.Keys + data.Keys && (k in cur || Takes(cur, k, data[k])) ::
      if k in data && Takes(cur, k, data[k]) then data[k] else cur[k]
  }

  /**
   * The merge policy, key by key: citations and last_updated are always
   * overwritten; title, authors and inspire_id only when the stored value is
   * missing or empty; categories and urls only by a non-empty value; every
   * other key keeps its stored value.
   */
  lemma MergePolicy(cur: Record, data: Record, k: string)
    ensures var r := MergeFields(cur, data);
      && (AlwaysUpdate(k) && k in data ==> Lookup(r, k) == Some(data[k]))
      && (UpdateIfEmpty(k) && Truthy(Get(cur, k)) ==> Lookup(r, k) == Lookup(cur, k))
      && (UpdateIfEmpty(k) && !Truthy(Get(cur, k)) && k in data ==> Lookup(r, k) == Some(data[k]))
      && (UpdateIfGiven(k) && k in data && Truthy(data[k]) ==> Lookup(r, k) == Some(data[k]))
      && (UpdateIfGiven(k) && !(k in data && Truthy(data[k])) ==> Lookup(r, k) == Lookup(cur, k))
      && (!AlwaysUpdate(k) && !UpdateIfEmpty(k) && !UpdateIfGiven(k) ==> Lookup(r, k) == Lookup(cur, k))
  {
    assert Lookup(MergeFields(cur, data), k) == MergedAt(cur, data, data.Keys, k);
  }

  /** The stored links, in particular, are kept. */
  lemma MergeKeepsLinks(cur: Record, data: Record)
    ensures Lookup(MergeFields(cur, data), "links") == Lookup(cur, "links")
  {
    MergePolicy(cur, data, "links");
  }

  /** The record holds, under every key, the merged value for the keys in `seen`. */
  ghost predicate MergedUpTo(r: Record, cur: Record, data: Record, seen: set<string>) {
    forall k {:trigger Lookup(r, k)} :: Lookup(r, k) == MergedAt(cur, data, seen, k)
  }

  /**
   * The code of `merge_metadata`: a copy of the record is updated key by key
   * from the resolved data, then handed to `update_links`.
   */
  method MergeMetadata(current: Record, data: Record) returns (r: Result<Record, string>)
    requires WellFormedLinks(current)
    ensures r == UpdatedLinks(MergeFields(current, data), data)
  {
    var updated := current;
    var pending := data.Keys;
    ghost var seen: set<string> := {};
    MergedNone(current, data);
    while pending != {}
      invariant pending == data.Keys - seen && seen <= data.Keys
      invariant MergedUpTo(updated, current, data, seen)
      decreases |pending|
    {
      var key :| key in pending;
      var value := data[key];
      assert Lookup(updated, key) == Lookup(current, key);
      if AlwaysUpdate(key) {
        MergeTake(updated, current, data, seen, key);
        updated := updated[key := value];
      } else if UpdateIfEmpty(key) && (!Truthy(Get(updated, key)) || Get(updated, key) == Str("")) {
        MergeTake(updated, current, data, seen, key);
        updated := updated[key := value];
      } else if key == "categories" && Truthy(value) {
        MergeTake(updated, current, data, seen, key);
        updated := updated[key := value];
      } else if key == "urls" && Truthy(value) {
        MergeTake(updated, current, data, seen, key);
        updated := updated[key := value];
      } else {
        MergeSkip(updated, current, data, seen, key);
      }
      pending := pending - {key};
      seen := seen + {key};
    }
    MergedAll(updated, current, data, seen);
    MergeKeepsLinks(current, data);
    r := UpdateLinks(updated, data);
  }

  lemma MergeTake(r: Record, cur: Record, data: Record, seen: set<string>, key: string)
    requires key in data && key !in seen && MergedUpTo(r, cur, data, seen)
    requires Takes(cur, key, data[key])
    ensures MergedUpTo(r[key := data[key]], cur, data, seen + {key})
  {
    var r' := r[key := data[key]];
    forall k ensures Lookup(r', k) == MergedAt(cur, data, seen + {key}, k) {
      if k != key {
        assert Lookup(r', k) == Lookup(r, k);
      }
    }
  }

  lemma MergeSkip(r: Record, cur: Record, data: Record, seen: set<string>, key: string)
    requires key in data && key !in seen && MergedUpTo(r, cur, data, seen)
    requires !Takes(cur, key, data[key])
    ensures MergedUpTo(r, cur, data, seen + {key})
  {
    forall k ensures Lookup(r, k) == MergedAt(cur, data, seen + {key}, k) {
      assert Lookup(r, k) == MergedAt(cur, data, seen, k);
    }
  }

  lemma MergedNone(cur: Record, data: Record)
    ensures MergedUpTo(cur, cur, data, {})
  {
  }

  lemma MergedAll(r: Record, cur: Record, data: Record, seen: set<string>)
    requires MergedUpTo(r, cur, data, seen) && seen == data.Keys
    ensures r == MergeFields(cur, data)
  {
    var m := MergeFields(cur, data);
    assert forall k :: Lookup(r, k) == Lookup(m, k);
    SameLookups(r, m);
  }

  // ---------------------------------------------------------------- links

  /** `any(link.get('type') == t for link in links)`. */
  predicate HasLinkOfType(links: seq<Value>, t: string) {
    exists k :: 0 <= k < |links| && LinkType(links[k]) == Str(t)
  }

  /** The number of links whose `type` is `t`. */
  function CountOfType(links: seq<Value>, t: string): (n: nat)
    ensures n <= |links|
    ensures n == 0 <==> !HasLinkOfType(links, t)
  {
    if links == [] then 0
    else
      var init := links[..|links| - 1];
      assert forall k :: 0 <= k < |init| ==> init[k] == links[k];
      CountOfType(init, t) + (if LinkType(links[|links| - 1]) == Str(t) then 1 else 0)
  }

  /** The first of journal, volume, pages and year missing from the resolved data: the KeyError. */
  function MissingCitationKey(data: Record): (m: Option<string>)
    ensures m.Some? ==> m.value !in data
    ensures m.None? <==> "journal" in data && "volume" in data && "pages" in data && "year" in data
    ensures m == Some("journal") <==> "journal" !in data
    ensures m == Some("volume") <==> "journal" in data && "volume" !in data
    ensures m == Some("pages") <==> "journal" in data && "volume" in data && "pages" !in data
    ensures m == Some("year") <==> "journal" in data && "volume" in data && "pages" in data && "year" !in data
  {
    if "journal" !in data then Some("journal")
    else if "volume" !in data then Some("volume")
    else if "pages" !in data then Some("pages")
    else if "year" !in data then Some("year")
    else None
  }

  /** The DOI link: "journal volume, pages (year)" pointing at the DOI resolver. */
  function DoiLinkFor(data: Record): (link: Value)
    requires MissingCitationKey(data).None?
    ensures IsLink(link) && LinkType(link) == Str("doi")
  {
    Obj(map[
      "type" := Str("doi"),
      "text" := Str(Show(data["journal"]) + " " + Show(data["volume"]) + ", " + Show(data["pages"])
                    + " (" + Show(data["year"]) + ")"),
      "url" := Str("https://doi.org/" + Show(Get(data, "doi")))])
  }

  function ArxivLinkFor(data: Record): (link: Value)
    ensures IsLink(link) && LinkType(link) == Str("arxiv")
  {
    var id := Show(Get(data, "arxiv_id"));
    Obj(map["type" := Str("arxiv"), "text" := Str("arXiv:" + id), "url" := Str("https://arxiv.org/abs/" + id)])
  }

  predicate WantsDoiLink(pub: Record, data: Record)
    requires WellFormedLinks(pub)
  {
    Truthy(Get(data, "doi")) && !HasLinkOfType(Links(pub), "doi")
  }

  predicate WantsArxivLink(pub: Record, data: Record)
    requires WellFormedLinks(pub)
  {
    Truthy(Get(data, "arxiv_id")) && !HasLinkOfType(Links(pub), "arxiv")
  }

  /** The links `update_links` appends, in order: a DOI link, then an arXiv link. */
  function AddedLinks(pub: Record, data: Record): (added: seq<Value>)
    requires WellFormedLinks(pub) && !(WantsDoiLink(pub, data) && MissingCitationKey(data).Some?)
    ensures |added| <= 2
    ensures forall k :: 0 <= k < |added| ==> IsLink(added[k])
  {
    (if WantsDoiLink(pub, data) then [DoiLinkFor(data)] else [])
      + (if WantsArxivLink(pub, data) then [ArxivLinkFor(data)] else [])
  }

  /**
   * `update_links`: the record with the added links after its own, under a
   * `links` key that is always written. Err is the KeyError raised when a DOI
   * link is due and the data lacks a key its text is built from.
   */
  function UpdatedLinks(pub: Record, data: Record): (r: Result<Record, string>)
    requires WellFormedLinks(pub)
    ensures r.Err? <==> WantsDoiLink(pub, data) && MissingCitationKey(data).Some?
    ensures r.Err? ==> r.error == MissingCitationKey(data).value
    ensures r.Ok? ==> WellFormedLinks(r.value)
    ensures r.Ok? ==> r.value.Keys == pub.Keys + {"links"}
    ensures r.Ok? ==> forall k :: k in pub && k != "links" ==> r.value[k] == pub[k]
    ensures r.Ok? ==> Links(r.value) == Links(pub) + AddedLinks(pub, data)
  {
    if WantsDoiLink(pub, data) && MissingCitationKey(data).Some? then Err(MissingCitationKey(data).value)
    else
      var links := Links(pub) + AddedLinks(pub, data);
      var r := pub["links" := List(links)];
      assert forall k :: 0 <= k < |links| ==> IsLink(links[k]) by {
        forall k | 0 <= k < |links| ensures IsLink(links[k]) {
          if k >= |Links(pub)| {
            assert links[k] == AddedLinks(pub, data)[k - |Links(pub)|];
          }
        }
      }
      Ok(r)
  }

  /** The code of `update_links`: the list is appended to in place and stored back. */
  method UpdateLinks(pub: Record, data: Record) returns (r: Result<Record, string>)
    requires WellFormedLinks(pub)
    ensures r == UpdatedLinks(pub, data)
  {
    var links := Links(pub);
    if Truthy(Get(data, "doi")) {
      var doiExists := HasLinkOfType(links, "doi");
      if !doiExists {
        var missing := MissingCitationKey(data);
        if missing.Some? {
          return Err(missing.value);
        }
        links := links + [DoiLinkFor(data)];
      }
    }
    ghost var withDoi := links[|Links(pub)|..];
    assert links == Links(pub) + withDoi && !HasLinkOfType(withDoi, "arxiv");
    HasLinkOfTypeAppend(Links(pub), withDoi, "arxiv");
    if Truthy(Get(data, "arxiv_id")) {
      var arxivExists := HasLinkOfType(links, "arxiv");
      if !arxivExists {
        links := links + [ArxivLinkFor(data)];
      }
    }
    assert links == Links(pub) + AddedLinks(pub, data);
    r := Ok(pub["links" := List(links)]);
  }

  /**
   * After the update the record has a link of each type exactly when it had
   * one or the resolved data carries that identifier.
   */
  lemma UpdateLinksProvides(pub: Record, data: Record)
    requires WellFormedLinks(pub) && UpdatedLinks(pub, data).Ok?
    ensures var links' := Links(UpdatedLinks(pub, data).value);
      && (HasLinkOfType(links', "doi") <==> HasLinkOfType(Links(pub), "doi") || Truthy(Get(data, "doi")))
      && (HasLinkOfType(links', "arxiv") <==> HasLinkOfType(Links(pub), "arxiv") || Truthy(Get(data, "arxiv_id")))
  {
    var links := Links(pub);
    var added := AddedLinks(pub, data);
    var links' := Links(UpdatedLinks(pub, data).value);
    HasLinkOfTypeAppend(links, added, "doi");
    HasLinkOfTypeAppend(links, added, "arxiv");
    if WantsDoiLink(pub, data) {
      assert LinkType(added[0]) == Str("doi");
    }
    if WantsArxivLink(pub, data) {
      assert LinkType(added[|added| - 1]) == Str("arxiv");
    }
  }

  lemma HasLinkOfTypeAppend(a: seq<Value>, b: seq<Value>, t: string)
    ensures HasLinkOfType(a + b, t) <==> HasLinkOfType(a, t) || HasLinkOfType(b, t)
  {
    if HasLinkOfType(a, t) {
      var k :| 0 <= k < |a| && LinkType(a[k]) == Str(t);
      assert (a + b)[k] == a[k];
    }
    if HasLinkOfType(b, t) {
      var k :| 0 <= k < |b| && LinkType(b[k]) == Str(t);
      assert (a + b)[|a| + k] == b[k];
    }
  }

  /** A second update with the same data changes nothing. */
  lemma UpdateLinksIdempotent(pub: Record, data: Record)
    requires WellFormedLinks(pub) && UpdatedLinks(pub, data).Ok?
    ensures UpdatedLinks(UpdatedLinks(pub, data).value, data) == UpdatedLinks(pub, data)
  {
    var once := UpdatedLinks(pub, data).value;
    UpdateLinksProvides(pub, data);
    assert !WantsDoiLink(once, data) && !WantsArxivLink(once, data);
    assert AddedLinks(once, data) == [];
    assert Links(once) + [] == Links(once);
    assert once["links"] == List(Links(once));
    assert once["links" := once["links"]] == once;
  }

  /** Links of a type the record already has are never duplicated; at most one is added otherwise. */
  lemma UpdateLinksNoDuplicate(pub: Record, data: Record)
    requires WellFormedLinks(pub) && UpdatedLinks(pub, data).Ok?
    ensures var links := Links(pub);
            var links' := Links(UpdatedLinks(pub, data).value);
      && CountOfType(links', "doi") ==
           CountOfType(links, "doi") + (if !HasLinkOfType(links, "doi") && Truthy(Get(data, "doi")) then 1 else 0)
      && CountOfType(links', "arxiv") ==
           CountOfType(links, "arxiv") + (if !HasLinkOfType(links, "arxiv") && Truthy(Get(data, "arxiv_id")) then 1 else 0)
  {
    var links := Links(pub);
    var added := AddedLinks(pub, data);
    CountOfTypeAppend(links, added, "doi");
    CountOfTypeAppend(links, added, "arxiv");
    var d := if WantsDoiLink(pub, data) then [DoiLinkFor(data)] else [];
    var x := if WantsArxivLink(pub, data) then [ArxivLinkFor(data)] else [];
    CountOfTypeAppend(d, x, "doi");
    CountOfTypeAppend(d, x, "arxiv");
  }

  lemma {:induction false} CountOfTypeAppend(a: seq<Value>, b: seq<Value>, t: string)
    ensures CountOfType(a + b, t) == CountOfType(a, t) + CountOfType(b, t)
  {
    if b != [] {
      var b' := b[..|b| - 1];
      assert (a + b)[..|a + b| - 1] == a + b';
      assert (a + b)[|a + b| - 1] == b[|b| - 1];
      CountOfTypeAppend(a, b', t);
    } else {
      assert a + b == a;
    }
  }
}
