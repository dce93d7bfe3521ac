/**
 * The batch driver (`update_publications`) and the report aggregates
 * (`generate_report`). Reading and writing the JSON file, printing and the
 * pauses between requests are not modelled: the driver takes the list of
 * publications and returns what it would write, or that it stopped on an
 * exception nothing catches.
 */
module Updater {
  import opened Wrappers
  import opened Json
  import opened PaperSearch
  import opened Merge

  /** What the loop does with one publication. */
  datatype Step =
    | Crashed(reason: string)                // an exception escapes the loop
    | NotFound                               // counted as failed, record kept
    | Resolved(record: Record, changed: bool) // record replaced; counted as updated when changed

  /**
   * The progress line slices `pub.get('title', 'Unknown Title')[:60]`, which
   * raises for a title that is None, a number, a boolean or an object.
   */
  predicate TitleSliceable(pub: Record) {
    "title" !in pub || pub["title"].Str? || pub["title"].List?
  }

  /** `a.get(key, default) != b.get(key, default)`. */
  predicate Differs(a: Record, b: Record, key: string, default: Value) {
    GetOr(a, key, default) != GetOr(b, key, default)
  }

  /**
   * Whether the update is reported as a change: the citation count differs,
   * the stored id differs, or the title or the author list took a new,
   * non-empty value.
   */
  predicate Changed(before: Record, after: Record) {
    Differs(before, after, "citations", Int(0))
    || Get(before, "inspire_id") != Get(after, "inspire_id")
    || (Differs(before, after, "title", Str("")) && Truthy(GetOr(after, "title", Str(""))))
    || (Differs(before, after, "authors", Str("")) && Truthy(GetOr(after, "authors", Str(""))))
  }

  /** The merged record has the links of the stored one. */
  lemma MergedLinksWellFormed(pub: Record, data: Record)
    requires WellFormedLinks(pub)
    ensures WellFormedLinks(MergeFields(pub, data))
  {
    MergeKeepsLinks(pub, data);
    var m := MergeFields(pub, data);
    assert ("links" in m) == ("links" in pub);
    if "links" in pub {
      assert m["links"] == pub["links"];
    }
  }

  /** The body of the loop of `update_publications` for one publication. */
  function ProcessOne(pub: Record, api: Api, now: string): Step
    requires WellFormedLinks(pub)
  {
    if !TitleSliceable(pub) then Crashed("TypeError")
    else
      match Search(pub, api, now)
      case None => NotFound
      case Some(data) =>
        MergedLinksWellFormed(pub, data);
        match UpdatedLinks(MergeFields(pub, data), data)
        case Err(key) => Crashed("KeyError: " + key)
        case Ok(record) => Resolved(record, Changed(pub, record))
  }

  /** The record the loop leaves at a position. */
  function After(pub: Record, s: Step): Record {
    if s.Resolved? then s.record else pub
  }

  predicate AllWellFormed(pubs: seq<Record>) {
    forall i :: 0 <= i < |pubs| ==> WellFormedLinks(pubs[i])
  }

  datatype RunOutcome =
    | Aborted(at: nat, reason: string)                               // nothing is written
    | Completed(publications: seq<Record>, updated: nat, failed: nat) // what is written, and the counts

  /** Every record of the list is one the processing accepts. */
  ghost predicate Accepted(pubs: seq<Record>, process: Record --> Step) {
    forall i :: 0 <= i < |pubs| ==> process.requires(pubs[i])
  }

  /**
   * The state of the loop of `update_publications` after the first n records,
   * for any processing of one record: stopped at the record whose processing
   * raised, or the list with the resolved records replaced and the counts so
   * far.
   */
  function RunWith(pubs: seq<Record>, process: Record --> Step, n: nat): (r: RunOutcome)
    requires Accepted(pubs, process) && n <= |pubs|
    ensures r.Completed? ==> |r.publications| == |pubs|
    ensures r.Aborted? ==> r.at < n
  {
    if n == 0 then Completed(pubs, 0, 0)
    else Advance(RunWith(pubs, process, n - 1), n - 1, process(pubs[n - 1]))
  }

  /** The run after the record at index i was processed with outcome s. */
  function Advance(r: RunOutcome, i: nat, s: Step): (r': RunOutcome)
    requires r.Completed? ==> i < |r.publications|
    ensures r'.Completed? ==> r.Completed? && |r'.publications| == |r.publications|
    ensures r'.Aborted? ==> r.Aborted? || r'.at == i
  {
    match r
    case Aborted(_, _) => r
    case Completed(ps, updated, failed) =>
      match s
      case Crashed(reason) => Aborted(i, reason)
      case NotFound => Completed(ps, updated, failed + 1)
      case Resolved(record, changed) => Completed(ps[i := record], updated + (if changed then 1 else 0), failed)
  }

  /** `ProcessOne` as a function value, for the run. */
  function Process(api: Api, now: string): Record --> Step {
    pub requires WellFormedLinks(pub) => ProcessOne(pub, api, now)
  }

  /** What `update_publications` does with the whole list. */
  function Run(pubs: seq<Record>, api: Api, now: string): RunOutcome
    requires AllWellFormed(pubs)
  {
    RunWith(pubs, Process(api, now), |pubs|)
  }

  /** The check of `update_publications` for changes worth reporting. */
  method ReportsChange(before: Record, after: Record) returns (changed: bool)
    ensures changed == Changed(before, after)
  {
    var changes: seq<string> := [];
    if Differs(before, after, "citations", Int(0)) {
      changes := changes + ["citations"];
    }
    if Get(before, "inspire_id") != Get(after, "inspire_id") {
      changes := changes + ["inspire_id"];
    }
    var keys := ["title", "authors"];
    for k := 0 to |keys|
      invariant (changes != []) ==
        (Differs(before, after, "citations", Int(0)) || Get(before, "inspire_id") != Get(after, "inspire_id") ||
         exists j :: 0 <= j < k && Differs(before, after, keys[j], Str("")) && Truthy(GetOr(after, keys[j], Str(""))))
    {
      var oldVal := GetOr(before, keys[k], Str(""));
      var newVal := GetOr(after, keys[k], Str(""));
      if oldVal != newVal && Truthy(newVal) {
        changes := changes + [keys[k] + ": updated"];
      }
    }
    changed := changes != [];
    assert keys[0] == "title" && keys[1] == "authors";
  }

  /**
   * The body of the loop of `update_publications` for one record: the
   * progress line, the lookup, the merge and the check for changes.
   */
  method ProcessPublication(pub: Record, api: Api, now: string) returns (s: Step)
    requires WellFormedLinks(pub)
    ensures s == Process(api, now)(pub)
  {
    if !TitleSliceable(pub) {
      return Crashed("TypeError");
    }
    var inspireData := Search(pub, api, now);
    if inspireData.None? {
      return NotFound;
    }
    var merged := MergeMetadata(pub, inspireData.value);
    if merged.Err? {
      return Crashed("KeyError: " + merged.error);
    }
    var changed := ReportsChange(pub, merged.value);
    s := Resolved(merged.value, changed);
  }

  /**
   * The body of the loop of `update_publications` at index i: the record is
   * processed, stored back when it was found, and the counters are kept; the
   * reason is returned when the processing raises.
   */
  method ProcessAt(pubs: seq<Record>, api: Api, now: string, i: nat,
                   publications: seq<Record>, updatedCount: nat, failedCount: nat)
    returns (crash: Option<string>, publications': seq<Record>, updatedCount': nat, failedCount': nat)
    requires AllWellFormed(pubs) && i < |pubs|
    requires RunWith(pubs, Process(api, now), i) == Completed(publications, updatedCount, failedCount)
    ensures crash.Some? ==> RunWith(pubs, Process(api, now), i + 1) == Aborted(i, crash.value)
    ensures crash.None? ==> RunWith(pubs, Process(api, now), i + 1) == Completed(publications', updatedCount', failedCount')
  {
    publications', updatedCount', failedCount' := publications, updatedCount, failedCount;
    var s := ProcessPublication(pubs[i], api, now);
    RunWithStep(pubs, Process(api, now), i, s);
    if s.Crashed? {
      return Some(s.reason), publications', updatedCount', failedCount';
    } else if s.NotFound? {
      failedCount' := failedCount' + 1;
    } else {
      publications' := publications'[i := s.record];
      if s.changed {
        updatedCount' := updatedCount' + 1;
      }
    }
    crash := None;
  }

  /**
   * The loop of `update_publications` after the file is read: each record is
   * processed in order; an exception ends the run before anything is written.
   */
  method UpdatePublications(pubs: seq<Record>, api: Api, now: string) returns (outcome: RunOutcome)
    requires AllWellFormed(pubs)
    ensures outcome == Run(pubs, api, now)
  {
    var publications := pubs;
    var updatedCount, failedCount := 0, 0;
    for i := 0 to |pubs|
      invariant RunWith(pubs, Process(api, now), i) == Completed(publications, updatedCount, failedCount)
    {
      var crash;
      crash, publications, updatedCount, failedCount :=
        ProcessAt(pubs, api, now, i, publications, updatedCount, failedCount);
      if crash.Some? {
        AbortedStays(pubs, Process(api, now), i + 1, |pubs|);
        return Aborted(i, crash.value);
      }
    }
    outcome := Completed(publications, updatedCount, failedCount);
  }

  /** One more record: the run advances by that record's outcome. */
  lemma RunWithStep(pubs: seq<Record>, process: Record --> Step, i: nat, s: Step)
    requires Accepted(pubs, process) && i < |pubs| && s == process(pubs[i])
    ensures RunWith(pubs, process, i + 1) == Advance(RunWith(pubs, process, i), i, s)
  {
  }

  /** Once stopped, the run stays stopped at the same record. */
  lemma {:induction false} AbortedStays(pubs: seq<Record>, process: Record --> Step, m: nat, n: nat)
    requires Accepted(pubs, process) && m <= n <= |pubs| && RunWith(pubs, process, m).Aborted?
    ensures RunWith(pubs, process, n) == RunWith(pubs, process, m)
    decreases n - m
  {
    if m < n {
      AbortedStays(pubs, process, m, n - 1);
    }
  }

  /**
   * After n records the run has stopped exactly when one of them raises, at
   * the first such record; otherwise every processed record holds what its
   * processing produced, the rest are untouched, and the counts fit.
   */
  lemma {:induction false} RunWithShape(pubs: seq<Record>, process: Record --> Step, n: nat)
    requires Accepted(pubs, process) && n <= |pubs|
    ensures var r := RunWith(pubs, process, n);
      && (r.Aborted? <==> exists i :: 0 <= i < n && process(pubs[i]).Crashed?)
      && (r.Aborted? ==> process(pubs[r.at]).Crashed? &&
                         forall j :: 0 <= j < r.at ==> !process(pubs[j]).Crashed?)
      && (r.Completed? ==> r.updated + r.failed <= n)
      && (r.Completed? ==> forall i :: 0 <= i < n ==> r.publications[i] == After(pubs[i], process(pubs[i])))
      && (r.Completed? ==> forall i :: n <= i < |pubs| ==> r.publications[i] == pubs[i])
  {
    if n > 0 {
      RunWithShape(pubs, process, n - 1);
    }
  }

  /** How many of the first n records are not found. */
  function NotFounds(pubs: seq<Record>, process: Record --> Step, n: nat): nat
    requires Accepted(pubs, process) && n <= |pubs|
  {
    if n == 0 then 0 else NotFounds(pubs, process, n - 1) + (if process(pubs[n - 1]).NotFound? then 1 else 0)
  }

  /** How many of the first n records resolve with a reported change. */
  function Changes(pubs: seq<Record>, process: Record --> Step, n: nat): nat
    requires Accepted(pubs, process) && n <= |pubs|
  {
    if n == 0 then 0
    else Changes(pubs, process, n - 1) + (if process(pubs[n - 1]).Resolved? && process(pubs[n - 1]).changed then 1 else 0)
  }

  /** The counts of a run that has not stopped are the number of records not found and of records changed. */
  lemma {:induction false} RunWithCounts(pubs: seq<Record>, process: Record --> Step, n: nat)
    requires Accepted(pubs, process) && n <= |pubs|
    ensures var r := RunWith(pubs, process, n);
      r.Completed? ==> r.failed == NotFounds(pubs, process, n) && r.updated == Changes(pubs, process, n)
  {
    if n > 0 {
      RunWithCounts(pubs, process, n - 1);
    }
  }

  /** A completed run keeps the length and order of the list and every record that was not found. */
  lemma RunKeepsShape(pubs: seq<Record>, api: Api, now: string)
    requires AllWellFormed(pubs) && Run(pubs, api, now).Completed?
    ensures var out := Run(pubs, api, now);
      && |out.publications| == |pubs|
      && out.updated + out.failed <= |pubs|
      && forall i :: 0 <= i < |pubs| && ProcessOne(pubs[i], api, now).NotFound? ==> out.publications[i] == pubs[i]
    ensures var out := Run(pubs, api, now);
      && out.failed == NotFounds(pubs, Process(api, now), |pubs|)
      && out.updated == Changes(pubs, Process(api, now), |pubs|)
  {
    RunWithShape(pubs, Process(api, now), |pubs|);
    RunWithCounts(pubs, Process(api, now), |pubs|);
  }

  /** A run stops exactly when some record raises, at the first such record. */
  lemma RunAbortsAtFirstCrash(pubs: seq<Record>, api: Api, now: string)
    requires AllWellFormed(pubs)
    ensures Run(pubs, api, now).Aborted? <==> exists i :: 0 <= i < |pubs| && ProcessOne(pubs[i], api, now).Crashed?
    ensures Run(pubs, api, now).Aborted? ==>
      var at := Run(pubs, api, now).at;
      at < |pubs| && ProcessOne(pubs[at], api, now).Crashed? &&
      forall j :: 0 <= j < at ==> !ProcessOne(pubs[j], api, now).Crashed?
  {
    RunWithShape(pubs, Process(api, now), |pubs|);
  }

  /** A record that had a stored id keeps it through the update. */
  lemma ProcessKeepsInspireId(pub: Record, api: Api, now: string)
    requires WellFormedLinks(pub) && Truthy(Get(pub, "inspire_id"))
    ensures Get(After(pub, ProcessOne(pub, api, now)), "inspire_id") == Get(pub, "inspire_id")
  {
    var s := ProcessOne(pub, api, now);
    if s.Resolved? {
      var data := Search(pub, api, now).value;
      MergedLinksWellFormed(pub, data);
      MergePolicy(pub, data, "inspire_id");
      var m := MergeFields(pub, data);
      assert Get(m, "inspire_id") == Get(pub, "inspire_id");
      assert s.record == UpdatedLinks(m, data).value;
    }
  }

  // ---------------------------------------------------------------- report

  /** `pub.get('citations', 0)` as a term of `sum`: None when it is not a number. */
  function CitationTerm(pub: Record): Option<int> {
    match GetOr(pub, "citations", Int(0))
    case Int(i) => Some(i)
    case Bool(b) => Some(if b then 1 else 0)
    case _ => None
  }

  /** `sum(pub.get('citations', 0) for pub in pubs)`, None when a term is not a number. */
  function TotalCitations(pubs: seq<Record>): (r: Option<int>)
    ensures r.None? <==> exists i :: 0 <= i < |pubs| && CitationTerm(pubs[i]).None?
  {
    if pubs == [] then Some(0)
    else
      var init := pubs[..|pubs| - 1];
      assert forall i :: 0 <= i < |init| ==> init[i] == pubs[i];
      match (TotalCitations(init), CitationTerm(pubs[|pubs| - 1]))
      case (Some(s), Some(c)) => Some(s + c)
      case _ => None
  }

  /** `sum(1 for pub in pubs if pub.get('inspire_id'))`. */
  function WithInspireId(pubs: seq<Record>): (n: nat)
    ensures n <= |pubs|
  {
    if pubs == [] then 0
    else WithInspireId(pubs[..|pubs| - 1]) + (if Truthy(Get(pubs[|pubs| - 1], "inspire_id")) then 1 else 0)
  }

  /** A value usable as a dictionary key. */
  predicate Hashable(v: Value) { !v.List? && !v.Obj? }

  /**
   * The category tally loops over `pub.get('categories', [])` and uses each
   * element as a key: this fails for a value that is not iterable and for an
   * unhashable element. The tally itself is never returned.
   */
  predicate CategoriesCountable(pub: Record) {
    match GetOr(pub, "categories", List([]))
    case List(items) => forall k :: 0 <= k < |items| ==> Hashable(items[k])
    case Str(_) => true
    case Obj(_) => true
    case _ => false
  }

  datatype Report = Report(
    totalPublications: nat,
    totalCitations: int,
    withInspireId: nat,
    lastUpdate: string)

  /**
   * `generate_report` on the list read from the file: None stands for the
   * empty dictionary returned when an exception is caught, which happens for a
   * non-numeric citation count, uncountable categories, or an empty list (the
   * coverage divides by its length).
   */
  function GenerateReport(pubs: seq<Record>, now: string): (r: Option<Report>)
    ensures r.Some? <==> |pubs| > 0 && TotalCitations(pubs).Some? &&
                         forall i :: 0 <= i < |pubs| ==> CategoriesCountable(pubs[i])
    ensures r.Some? ==> r.value.withInspireId <= r.value.totalPublications == |pubs|
    ensures r.Some? ==> r.value.totalCitations == TotalCitations(pubs).value &&
                        r.value.withInspireId == WithInspireId(pubs) && r.value.lastUpdate == now
  {
    var total := TotalCitations(pubs);
    if total.None? then None
    else if !(forall i :: 0 <= i < |pubs| ==> CategoriesCountable(pubs[i])) then None
    else if |pubs| == 0 then None
    else Some(Report(|pubs|, total.value, WithInspireId(pubs), now))
  }

  /** Records that keep every truthy stored id do not lower the count of records with an id. */
  lemma {:induction false} WithInspireIdMonotone(before: seq<Record>, after: seq<Record>)
    requires |before| == |after|
    requires forall i :: 0 <= i < |before| && Truthy(Get(before[i], "inspire_id")) ==>
               Truthy(Get(after[i], "inspire_id"))
    ensures WithInspireId(before) <= WithInspireId(after)
  {
    if before != [] {
      var n := |before| - 1;
      assert forall i :: 0 <= i < n ==> before[..n][i] == before[i] && after[..n][i] == after[i];
      WithInspireIdMonotone(before[..n], after[..n]);
    }
  }

  /** A completed run never lowers the number of records with a stored id. */
  lemma RunKeepsInspireIds(pubs: seq<Record>, api: Api, now: string)
    requires AllWellFormed(pubs) && Run(pubs, api, now).Completed?
    ensures WithInspireId(pubs) <= WithInspireId(Run(pubs, api, now).publications)
  {
    var out := Run(pubs, api, now).publications;
    RunWithShape(pubs, Process(api, now), |pubs|);
    forall i | 0 <= i < |pubs| && Truthy(Get(pubs[i], "inspire_id"))
      ensures Truthy(Get(out[i], "inspire_id"))
    {
      ProcessKeepsInspireId(pubs[i], api, now);
    }
    WithInspireIdMonotone(pubs, out);
  }
}
