/** The experiment registry (src/experiment/tracker.py) held in memory:
    the list of summary entries the tracker loads, changes and saves, and
    the archive list it extends. File and directory handling is outside
    the model. */
module Tracker {
  import opened Wrappers
  import opened Strings
  import opened TrackerEntries

  /** The in-place `registry.sort(key=_sort_key, reverse=not ascending)`,
      as an insertion sort over the entries in order. */
  method SortEntries(s: seq<Entry>, sortBy: string, ascending: bool) returns (r: seq<Entry>)
    requires sortBy !in Unsortable
    ensures r == Sorted(s, sortBy, ascending)
  {
    r := [];
    for i := 0 to |s|
      invariant r == Sorted(s[..i], sortBy, ascending)
    {
      assert s[..i + 1][..i] == s[..i];
      r := InsertEntry(r, s[i], sortBy, ascending);
    }
    assert s[..|s|] == s;
  }

  /** One insertion step: `x` moves left past the entries it goes strictly
      before, so it lands after every entry with an equal key. */
  method InsertEntry(s: seq<Entry>, x: Entry, sortBy: string, ascending: bool) returns (r: seq<Entry>)
    requires sortBy !in Unsortable
    ensures r == Insert(s, x, sortBy, ascending)
  {
    var j := |s|;
    assert s[..j] == s && s[j..] == [];
    while j > 0 && Before(x, s[j - 1], sortBy, ascending)
      invariant 0 <= j <= |s|
      invariant Insert(s, x, sortBy, ascending) == Insert(s[..j], x, sortBy, ascending) + s[j..]
    {
      InsertStep(s, x, j, sortBy, ascending);
      j := j - 1;
    }
    assert s[..j] + [x] + s[j..] == Insert(s[..j], x, sortBy, ascending) + s[j..];
    r := s[..j] + [x] + s[j..];
  }

  lemma InsertStep(s: seq<Entry>, x: Entry, j: nat, sortBy: string, ascending: bool)
    requires sortBy !in Unsortable
    requires 0 < j <= |s| && Before(x, s[j - 1], sortBy, ascending)
    ensures Insert(s[..j], x, sortBy, ascending) + s[j..] == Insert(s[..j - 1], x, sortBy, ascending) + s[j - 1..]
  {
    InsertPastLast(s[..j], x, sortBy, ascending);
    assert s[..j][..j - 1] == s[..j - 1];
    ConcatShift(Insert(s[..j - 1], x, sortBy, ascending), s, j);
  }

  /** One unfolding of Insert: `x` goes before the last entry. */
  lemma InsertPastLast(p: seq<Entry>, x: Entry, sortBy: string, ascending: bool)
    requires sortBy !in Unsortable
    requires p != [] && Before(x, p[|p| - 1], sortBy, ascending)
    ensures Insert(p, x, sortBy, ascending) == Insert(p[..|p| - 1], x, sortBy, ascending) + [p[|p| - 1]]
  {
  }

  lemma ConcatShift(a: seq<Entry>, s: seq<Entry>, j: nat)
    requires 0 < j <= |s|
    ensures a + [s[..j][j - 1]] + s[j..] == a + s[j - 1..]
  {
    assert s[j - 1..] == [s[j - 1]] + s[j..];
  }

  function Failed(reg: seq<Entry>): seq<Entry>
  {
    Select(reg, (e: Entry) => e.status == "failed")
  }

  /** `archive_experiments`' selection: listed id, created before the date
      (string order), or the given status; empty arguments select nothing. */
  predicate ToArchive(e: Entry, ids: seq<string>, before: string, status: string)
  {
    (ids != [] && e.id in ids) || (before != "" && LexLess(e.createdAt, before)) || (status != "" && e.status == status)
  }

  function Chosen(reg: seq<Entry>, ids: seq<string>, before: string, status: string): seq<Entry>
  {
    Select(reg, (e: Entry) => ToArchive(e, ids, before, status))
  }

  /** What `get_best_experiment` returns: the head of the entries with that
      status, sorted by the metric in the requested direction. */
  function BestSpec(reg: seq<Entry>, metric: string, status: string, higherIsBetter: bool): Option<Entry>
    requires metric !in Unsortable
  {
    var s := FilterSpec(reg, status, "", [], "", metric, !higherIsBetter, 1);
    if s == [] then None else Some(s[0])
  }

  class ExperimentRegistry {
    /** The main registry, in file order. */
    var registry: seq<Entry>
    /** The archive registry that archived entries are appended to. */
    var archive: seq<Entry>

    constructor(entries: seq<Entry>)
      ensures registry == entries && archive == []
    {
      registry := entries;
      archive := [];
    }

    /** `update_registry`: the `for`/`else` that replaces the first entry
        with the same id or appends. */
    method UpdateRegistry(id: string, meta: Meta)
      modifies this
      ensures registry == Upserted(old(registry), NewEntry(id, meta))
      ensures archive == old(archive)
    {
      var entry := NewEntry(id, meta);
      var i := 0;
      while i < |registry|
        invariant 0 <= i <= |registry| && registry == old(registry)
        invariant forall k :: 0 <= k < i ==> registry[k].id != id
      {
        if registry[i].id == id {
          assert FindId(registry, id) == Some(i);
          registry := registry[i := entry];
          return;
        }
        i := i + 1;
      }
      registry := registry + [entry];
    }

    /** `filter_experiments`: the filters, the sort when `sort_by` is given,
        then `top_n`. The registry itself is not changed. */
    method FilterExperiments(status: string, category: string, tags: seq<string>, needle: string,
                             sortBy: string, ascending: bool, topN: int) returns (r: seq<Entry>)
      requires sortBy !in Unsortable
      ensures r == FilterSpec(registry, status, category, tags, needle, sortBy, ascending, topN)
    {
      var kept := Filtered(registry, status, category, tags, needle);
      if sortBy != "" {
        kept := SortEntries(kept, sortBy, ascending);
      }
      r := TopN(kept, topN);
    }

    /** `delete_experiment`: false and no change for an unknown id;
        otherwise every entry with that id is removed. */
    method DeleteExperiment(id: string) returns (found: bool)
      modifies this
      ensures found <==> exists k :: 0 <= k < |old(registry)| && old(registry)[k].id == id
      ensures registry == RemoveIds(old(registry), [id])
      ensures !found ==> registry == old(registry)
      ensures archive == old(archive)
    {
      var kept := RemoveIds(registry, [id]);
      RemoveIdsLength(registry, [id]);
      if |kept| == |registry| {
        return false;
      }
      registry := kept;
      return true;
    }

    /** `cleanup_failed`: deletes by the id of every failed entry, in
        order, and returns those ids. */
    method CleanupFailed() returns (ids: seq<string>)
      modifies this
      ensures ids == IdsOf(Failed(old(registry)))
      ensures registry == RemoveIds(old(registry), ids)
      ensures forall e :: e in registry ==> e.status != "failed"
      ensures archive == old(archive)
    {
      var failed := Failed(registry);
      RemoveIdsLength(registry, []);
      ids := [];
      for i := 0 to |failed|
        invariant ids == IdsOf(failed[..i])
        invariant registry == RemoveIds(old(registry), ids)
        invariant archive == old(archive)
      {
        var _ := DeleteExperiment(failed[i].id);
        RemoveIdsThenRemove(old(registry), ids, failed[i].id);
        IdsOfAppend(failed[..i], failed[i]);
        TakeOneMore(failed, i);
        ids := ids + [failed[i].id];
      }
      assert failed[..|failed|] == failed;
    }

    /** `archive_experiments`: selects entries in registry order, appends
        them to the archive registry and removes their ids from the main
        registry, whether or not their directories exist. */
    method ArchiveExperiments(ids: seq<string>, before: string, status: string) returns (archivedIds: seq<string>)
      modifies this
      ensures archivedIds == IdsOf(Chosen(old(registry), ids, before, status))
      ensures archive == old(archive) + Chosen(old(registry), ids, before, status)
      ensures registry == RemoveIds(old(registry), archivedIds)
    {
      var reg := registry;
      var toArchive: seq<Entry> := [];
      for i := 0 to |reg|
        invariant toArchive == Chosen(reg[..i], ids, before, status)
        invariant archive == old(archive) && registry == old(registry)
      {
        SelectAppend(reg[..i], reg[i], (e: Entry) => ToArchive(e, ids, before, status));
        assert reg[..i + 1] == reg[..i] + [reg[i]];
        if ToArchive(reg[i], ids, before, status) {
          toArchive := toArchive + [reg[i]];
        }
      }
      assert reg[..|reg|] == reg;
      archivedIds := IdsOf(toArchive);
      archive := archive + toArchive;
      registry := RemoveIds(registry, archivedIds);
    }

    /** `get_best_experiment`: a one-row filter by status, sorted by the
        metric, best first. */
    method GetBestExperiment(metric: string, status: string, higherIsBetter: bool) returns (best: Option<Entry>)
      requires metric !in Unsortable
      ensures best == BestSpec(registry, metric, status, higherIsBetter)
    {
      var results := FilterExperiments(status, "", [], "", metric, !higherIsBetter, 1);
      if results == [] {
        best := None;
      } else {
        best := Some(results[0]);
      }
    }
  }

  lemma {:induction false} SelectAppend(s: seq<Entry>, x: Entry, p: Entry -> bool)
    ensures Select(s + [x], p) == Select(s, p) + (if p(x) then [x] else [])
  {
    if s != [] {
      assert (s + [x])[1..] == s[1..] + [x];
      SelectAppend(s[1..], x, p);
    }
  }

  lemma TakeOneMore(s: seq<Entry>, i: nat)
    requires i < |s|
    ensures s[..i + 1] == s[..i] + [s[i]]
  {
  }

  lemma {:induction false} IdsOfAppend(s: seq<Entry>, x: Entry)
    ensures IdsOf(s + [x]) == IdsOf(s) + [x.id]
  {
  }

  /** Archiving: exactly the selected entries are archived, none of them
      stays in the registry, and an entry stays exactly when no selected
      entry shares its id. */
  lemma ArchiveMeaning(reg: seq<Entry>, ids: seq<string>, before: string, status: string)
    ensures var chosen := Chosen(reg, ids, before, status);
      var kept := RemoveIds(reg, IdsOf(chosen));
      && (forall e :: e in chosen <==> e in reg && ToArchive(e, ids, before, status))
      && (forall e :: e in chosen ==> e !in kept)
      && (forall e :: e in kept <==> e in reg && forall c :: c in chosen ==> c.id != e.id)
  {
    var chosen := Chosen(reg, ids, before, status);
    var archivedIds := IdsOf(chosen);
    forall e | e in chosen
      ensures e.id in archivedIds
    {
      var k :| 0 <= k < |chosen| && chosen[k] == e;
      assert archivedIds[k] == e.id;
    }
  }

  /** The best experiment has the requested status, and no entry with that
      status goes strictly before it in the requested direction. */
  lemma BestIsExtreme(reg: seq<Entry>, metric: string, status: string, higherIsBetter: bool)
    requires metric !in Unsortable && metric != ""
    requires BestSpec(reg, metric, status, higherIsBetter).Some?
    ensures var b := BestSpec(reg, metric, status, higherIsBetter).value;
      && b in reg && (status == "" || b.status == status)
      && forall e :: e in reg && (status == "" || e.status == status) ==> !Before(e, b, metric, !higherIsBetter)
  {
    var kept := Filtered(reg, status, "", [], "");
    var sorted := Sorted(kept, metric, !higherIsBetter);
    BestIsHead(reg, metric, status, higherIsBetter);
    SortedInOrder(kept, metric, !higherIsBetter);
    StatusFilterMeaning(reg, status);
    var b := sorted[0];
    assert b in multiset(kept);
    forall e | e in reg && (status == "" || e.status == status)
      ensures !Before(e, b, metric, !higherIsBetter)
    {
      assert e in multiset(sorted);
      HeadNotAfter(sorted, e, metric, !higherIsBetter);
    }
  }

  /** Filtering by status alone keeps exactly the entries with that status. */
  lemma StatusFilterMeaning(reg: seq<Entry>, status: string)
    ensures forall e :: e in Filtered(reg, status, "", [], "") <==> e in reg && (status == "" || e.status == status)
  {
    FilteredMeaning(reg, status, "", [], "");
  }

  /** The best experiment is the head of the qualifying entries, sorted. */
  lemma BestIsHead(reg: seq<Entry>, metric: string, status: string, higherIsBetter: bool)
    requires metric !in Unsortable && metric != ""
    ensures var sorted := Sorted(Filtered(reg, status, "", [], ""), metric, !higherIsBetter);
      BestSpec(reg, metric, status, higherIsBetter) == if sorted == [] then None else Some(sorted[0])
  {
  }

  /** No entry of a sorted sequence goes strictly before its head. */
  lemma HeadNotAfter(s: seq<Entry>, e: Entry, sortBy: string, ascending: bool)
    requires sortBy !in Unsortable
    requires InOrder(s, sortBy, ascending) && e in s
    ensures !Before(e, s[0], sortBy, ascending)
  {
    var j :| 0 <= j < |s| && s[j] == e;
    if j == 0 {
      BeforeOrder(e, e, e, sortBy, ascending);
    }
  }

  /** With `higher_is_better`, an entry that lacks the metric sorts as +inf,
      so if any candidate lacks it the best one lacks it too. */
  lemma BestPrefersMissing(reg: seq<Entry>, metric: string, status: string, e: Entry)
    requires metric !in Unsortable && metric != ""
    requires e in reg && (status == "" || e.status == status)
    requires SortKey(e, metric, false) == PosInf
    ensures BestSpec(reg, metric, status, true).Some?
    ensures SortKey(BestSpec(reg, metric, status, true).value, metric, false) == PosInf
  {
    BestExists(reg, metric, status, e);
    BestIsExtreme(reg, metric, status, true);
    var b := BestSpec(reg, metric, status, true).value;
    assert !Before(e, b, metric, false);
    assert metric !in TextFields;
    NotBelowInfinity(SortKey(b, metric, false));
  }

  /** Some entry qualifies, so there is a best one. */
  lemma BestExists(reg: seq<Entry>, metric: string, status: string, e: Entry)
    requires metric !in Unsortable && metric != ""
    requires e in reg && (status == "" || e.status == status)
    ensures BestSpec(reg, metric, status, true).Some?
  {
    var kept := Filtered(reg, status, "", [], "");
    StatusFilterMeaning(reg, status);
    assert e in kept;
    SortedInOrder(kept, metric, false);
    assert e in multiset(Sorted(kept, metric, false));
  }

  /** A number or +inf that is not below +inf is +inf. */
  lemma NotBelowInfinity(k: Key)
    requires !k.Text? && !KeyLess(k, PosInf)
    ensures k == PosInf
  {
  }
}
