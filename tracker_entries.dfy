/** Registry entries of the experiment tracker (src/experiment/tracker.py)
    and the pure rules over them: entry construction with defaults,
    filtering, the sort key and the stable sort, truncation and removal. */
module TrackerEntries {
  import opened Wrappers
  import opened Strings

  /** One registry row, with the fields `update_registry` writes. */
  datatype Entry = Entry(
    id: string,
    name: string,
    description: string,
    category: string,
    tags: seq<string>,
    createdAt: string,
    status: string,
    duration: Option<real>,
    gitCommit: string,
    gitBranch: string,
    gitDirty: bool,
    seed: Option<int>,
    metrics: map<string, real>,
    error: Option<string>)

  datatype GitInfo = GitInfo(commit: Option<string>, branch: Option<string>, dirty: Option<bool>)

  /** An experiment's meta record; `None` is an absent key. */
  datatype Meta = Meta(
    name: Option<string>,
    description: Option<string>,
    category: Option<string>,
    tags: Option<seq<string>>,
    createdAt: Option<string>,
    status: Option<string>,
    duration: Option<real>,
    git: Option<GitInfo>,
    seed: Option<int>,
    metrics: Option<map<string, real>>,
    error: Option<string>)

  /** The summary entry `update_registry` builds from a meta record, with
      its defaults for absent keys. */
  function NewEntry(id: string, meta: Meta): Entry
  {
    var git := meta.git.GetOr(GitInfo(None, None, None));
    Entry(id, meta.name.GetOr(""), meta.description.GetOr(""), meta.category.GetOr("default"),
          meta.tags.GetOr([]), meta.createdAt.GetOr(""), meta.status.GetOr("unknown"), meta.duration,
          git.commit.GetOr("unknown"), git.branch.GetOr("unknown"), git.dirty.GetOr(true),
          meta.seed, meta.metrics.GetOr(map[]), meta.error)
  }

  /** With an empty meta record the entry is "unknown", dirty, in category
      "default", with no metrics. */
  lemma NewEntryDefaults(id: string)
    ensures var e := NewEntry(id, Meta(None, None, None, None, None, None, None, None, None, None, None));
      && e.id == id && e.status == "unknown" && e.gitDirty && e.metrics == map[]
      && e.category == "default" && e.gitCommit == "unknown" && e.tags == [] && e.duration.None?
  {
  }

  // ---------------------------------------------------------------------
  // Upsert and removal

  /** The position of the first entry with this id. */
  function FindId(reg: seq<Entry>, id: string): (r: Option<nat>)
    ensures r.None? <==> forall k :: 0 <= k < |reg| ==> reg[k].id != id
    ensures r.Some? ==> r.value < |reg| && reg[r.value].id == id
    ensures r.Some? ==> forall k :: 0 <= k < r.value ==> reg[k].id != id
  {
    if reg == [] then None
    else if reg[0].id == id then Some(0)
    else match FindId(reg[1..], id)
      case None => None
      case Some(k) => Some(k + 1)
  }

  /** The registry after `update_registry`: the first entry with the same id
      is replaced where it stands, otherwise the entry is appended. */
  function Upserted(reg: seq<Entry>, e: Entry): seq<Entry>
  {
    match FindId(reg, e.id)
    case None => reg + [e]
    case Some(i) => reg[i := e]
  }

  /** The registry grows by one exactly when the id is new; the new entry
      sits at the first position of its id (or at the end), and every other
      position is unchanged. */
  lemma UpsertShape(reg: seq<Entry>, e: Entry)
    ensures var r := Upserted(reg, e);
      && (|r| == |reg| <==> exists k :: 0 <= k < |reg| && reg[k].id == e.id)
      && (|r| == |reg| || |r| == |reg| + 1)
      && FindId(r, e.id).Some? && r[FindId(r, e.id).value] == e
      && (forall k :: 0 <= k < |reg| && k != FindId(r, e.id).value ==> r[k] == reg[k])
  {
    var r := Upserted(reg, e);
    match FindId(reg, e.id)
    case None =>
      assert FindId(r, e.id) == Some(|reg|) by {
        assert r[|reg|].id == e.id;
      }
    case Some(i) =>
      assert FindId(r, e.id) == Some(i) by {
        assert r[i].id == e.id;
      }
  }

  /** Recording the same entry twice is the same as once. */
  lemma UpsertIdempotent(reg: seq<Entry>, e: Entry)
    ensures Upserted(Upserted(reg, e), e) == Upserted(reg, e)
  {
    UpsertShape(reg, e);
    var r := Upserted(reg, e);
    assert r[FindId(r, e.id).value := e] == r;
  }

  /** `[e for e in registry if e["experiment_id"] not in ids]`. */
  function RemoveIds(reg: seq<Entry>, ids: seq<string>): (r: seq<Entry>)
    ensures |r| <= |reg|
    ensures forall e :: e in r <==> e in reg && e.id !in ids
  {
    if reg == [] then []
    else if reg[0].id in ids then RemoveIds(reg[1..], ids)
    else [reg[0]] + RemoveIds(reg[1..], ids)
  }

  /** Removal changes the length exactly when some entry has a removed id. */
  lemma {:induction false} RemoveIdsLength(reg: seq<Entry>, ids: seq<string>)
    ensures |RemoveIds(reg, ids)| == |reg| <==> forall k :: 0 <= k < |reg| ==> reg[k].id !in ids
    ensures (forall k :: 0 <= k < |reg| ==> reg[k].id !in ids) ==> RemoveIds(reg, ids) == reg
  {
    if reg != [] {
      RemoveIdsLength(reg[1..], ids);
      assert forall k :: 1 <= k < |reg| ==> reg[1..][k - 1] == reg[k];
    }
  }

  /** Removing one more id after a removal is one removal with both. */
  lemma {:induction false} RemoveIdsThenRemove(reg: seq<Entry>, ids: seq<string>, x: string)
    ensures RemoveIds(RemoveIds(reg, ids), [x]) == RemoveIds(reg, ids + [x])
  {
    if reg != [] {
      RemoveIdsThenRemove(reg[1..], ids, x);
    }
  }

  function IdsOf(entries: seq<Entry>): (ids: seq<string>)
    ensures |ids| == |entries| && forall k :: 0 <= k < |entries| ==> ids[k] == entries[k].id
  {
    if entries == [] then [] else [entries[0].id] + IdsOf(entries[1..])
  }

  /** `[e for e in registry if p(e)]`. */
  function Select(reg: seq<Entry>, p: Entry -> bool): (r: seq<Entry>)
    ensures |r| <= |reg|
    ensures forall e :: e in r <==> e in reg && p(e)
  {
    if reg == [] then []
    else if p(reg[0]) then [reg[0]] + Select(reg[1..], p)
    else Select(reg[1..], p)
  }

  // ---------------------------------------------------------------------
  // Filtering

  /** `name_contains` matches the name or the id, ASCII case-insensitively. */
  predicate NameMatches(e: Entry, needle: string)
  {
    Contains(Lower(e.name), Lower(needle)) || Contains(Lower(e.id), Lower(needle))
  }

  /** The four filters of `filter_experiments`, applied in order; an empty
      criterion (None or empty, both falsy) filters nothing. */
  function Filtered(reg: seq<Entry>, status: string, category: string, tags: seq<string>, needle: string): seq<Entry>
  {
    var a := if status != "" then Select(reg, (e: Entry) => e.status == status) else reg;
    var b := if category != "" then Select(a, (e: Entry) => e.category == category) else a;
    var c := if tags != [] then Select(b, (e: Entry) => forall t :: t in tags ==> t in e.tags) else b;
    if needle != "" then Select(c, (e: Entry) => NameMatches(e, needle)) else c
  }

  /** An entry survives the filters exactly when it meets every given
      criterion. */
  lemma FilteredMeaning(reg: seq<Entry>, status: string, category: string, tags: seq<string>, needle: string)
    ensures forall e :: e in Filtered(reg, status, category, tags, needle) <==>
      && e in reg
      && (status == "" || e.status == status)
      && (category == "" || e.category == category)
      && (forall t :: t in tags ==> t in e.tags)
      && (needle == "" || NameMatches(e, needle))
  {
  }

  // ---------------------------------------------------------------------
  // Sorting

  /** A sort key: a number, a string, or the +inf that stands in for a
      missing value in a descending sort. */
  datatype Key = Num(v: real) | Text(t: string) | PosInf

  /** Top-level fields whose values are strings. */
  const TextFields: set<string> :=
    {"experiment_id", "name", "description", "category", "created_at", "status", "git_commit", "git_branch"}

  /** Top-level fields that are not numbers or strings (a list, a mapping,
      an optional string); sorting by them is outside the model. */
  const Unsortable: set<string> := {"tags", "aggregate_metrics", "error"}

  function TextField(e: Entry, field: string): string
    requires field in TextFields
  {
    match field
    case "experiment_id" => e.id
    case "name" => e.name
    case "description" => e.description
    case "category" => e.category
    case "created_at" => e.createdAt
    case "status" => e.status
    case "git_commit" => e.gitCommit
    case _ => e.gitBranch
  }

  /** `_sort_key`: a top-level field first, then `aggregate_metrics`; a
      missing or null value is 0 ascending and +inf descending. */
  function SortKey(e: Entry, sortBy: string, ascending: bool): Key
    requires sortBy !in Unsortable
  {
    var missing := if ascending then Num(0.0) else PosInf;
    if sortBy in TextFields then Text(TextField(e, sortBy))
    else if sortBy == "duration_seconds" then (if e.duration.Some? then Num(e.duration.value) else missing)
    else if sortBy == "seed" then (if e.seed.Some? then Num(e.seed.value as real) else missing)
    else if sortBy == "git_dirty" then Num(if e.gitDirty then 1.0 else 0.0)
    else if sortBy in e.metrics then Num(e.metrics[sortBy])
    else missing
  }

  /** Python's `<` on keys of one sort. */
  predicate KeyLess(a: Key, b: Key)
  {
    match (a, b)
    case (Num(x), Num(y)) => x < y
    case (Num(_), PosInf) => true
    case (Text(x), Text(y)) => LexLess(x, y)
    case _ => false
  }

  /** `x` goes strictly before `y`: a smaller key ascending, a larger key
      with `reverse=True`. */
  predicate Before(x: Entry, y: Entry, sortBy: string, ascending: bool)
    requires sortBy !in Unsortable
  {
    if ascending then KeyLess(SortKey(x, sortBy, ascending), SortKey(y, sortBy, ascending))
    else KeyLess(SortKey(y, sortBy, ascending), SortKey(x, sortBy, ascending))
  }

  /** The keys of one sort are all strings or all numbers, so `Before` is a
      strict weak order: asymmetric, and "not before" is transitive. */
  lemma BeforeOrder(a: Entry, b: Entry, c: Entry, sortBy: string, ascending: bool)
    requires sortBy !in Unsortable
    ensures Before(a, b, sortBy, ascending) ==> !Before(b, a, sortBy, ascending)
    ensures !Before(a, b, sortBy, ascending) && !Before(b, c, sortBy, ascending) ==> !Before(a, c, sortBy, ascending)
  {
    var ka, kb, kc := SortKey(a, sortBy, ascending), SortKey(b, sortBy, ascending), SortKey(c, sortBy, ascending);
    if sortBy in TextFields {
      var x, y, z := ka.t, kb.t, kc.t;
      if LexLess(x, y) && LexLess(y, x) {
        LexLessTransitive(x, y, x);
        LexLessIrreflexive(x);
      }
      LexLessTotal(x, y);
      LexLessTotal(y, z);
      LexLessTotal(x, z);
      if LexLess(x, z) && LexLess(z, x) {
        LexLessTransitive(x, z, x);
        LexLessIrreflexive(x);
      }
      if LexLess(y, x) && LexLess(z, y) {
        LexLessTransitive(z, y, x);
      }
      if LexLess(x, y) && LexLess(y, z) {
        LexLessTransitive(x, y, z);
      }
      LexLessIrreflexive(x);
      LexLessIrreflexive(y);
    }
  }

  /** Stable insertion from the back: `x` goes after every element it is
      not strictly before, so equal keys keep their input order (as
      Python's stable sort does, with `reverse=True` too). */
  function Insert(s: seq<Entry>, x: Entry, sortBy: string, ascending: bool): (r: seq<Entry>)
    requires sortBy !in Unsortable
    ensures multiset(r) == multiset(s) + multiset{x}
  {
    if s == [] || !Before(x, s[|s| - 1], sortBy, ascending) then s + [x]
    else
      assert s == s[..|s| - 1] + [s[|s| - 1]];
      Insert(s[..|s| - 1], x, sortBy, ascending) + [s[|s| - 1]]
  }

  /** `registry.sort(key=_sort_key, reverse=not ascending)`. */
  function Sorted(s: seq<Entry>, sortBy: string, ascending: bool): (r: seq<Entry>)
    requires sortBy !in Unsortable
    ensures multiset(r) == multiset(s)
  {
    if s == [] then []
    else
      assert s == s[..|s| - 1] + [s[|s| - 1]];
      Insert(Sorted(s[..|s| - 1], sortBy, ascending), s[|s| - 1], sortBy, ascending)
  }

  predicate InOrder(s: seq<Entry>, sortBy: string, ascending: bool)
    requires sortBy !in Unsortable
  {
    forall i, j :: 0 <= i < j < |s| ==> !Before(s[j], s[i], sortBy, ascending)
  }

  lemma {:induction false} InsertInOrder(s: seq<Entry>, x: Entry, sortBy: string, ascending: bool)
    requires sortBy !in Unsortable
    requires InOrder(s, sortBy, ascending)
    ensures InOrder(Insert(s, x, sortBy, ascending), sortBy, ascending)
  {
    if s == [] {
    } else if !Before(x, s[|s| - 1], sortBy, ascending) {
      var r := s + [x];
      forall i | 0 <= i < |s|
        ensures !Before(x, s[i], sortBy, ascending)
      {
        if i < |s| - 1 {
          BeforeOrder(x, s[|s| - 1], s[i], sortBy, ascending);
        }
      }
    } else {
      var init, last := s[..|s| - 1], s[|s| - 1];
      InsertInOrder(init, x, sortBy, ascending);
      var left := Insert(init, x, sortBy, ascending);
      BeforeOrder(x, last, x, sortBy, ascending);
      forall y | y in left
        ensures !Before(last, y, sortBy, ascending)
      {
        assert y in multiset(left);
        if y != x {
          assert y in multiset(init);
          var i :| 0 <= i < |init| && init[i] == y;
          assert s[i] == y;
        }
      }
      var r := left + [last];
      forall i, j | 0 <= i < j < |r|
        ensures !Before(r[j], r[i], sortBy, ascending)
      {
        if j == |r| - 1 {
          assert r[i] in left;
        }
      }
    }
  }

  /** The sorted registry is a permutation of its input, in key order. */
  lemma {:induction false} SortedInOrder(s: seq<Entry>, sortBy: string, ascending: bool)
    requires sortBy !in Unsortable
    ensures InOrder(Sorted(s, sortBy, ascending), sortBy, ascending)
    ensures multiset(Sorted(s, sortBy, ascending)) == multiset(s)
  {
    if s != [] {
      SortedInOrder(s[..|s| - 1], sortBy, ascending);
      InsertInOrder(Sorted(s[..|s| - 1], sortBy, ascending), s[|s| - 1], sortBy, ascending);
    }
  }

  /** `if top_n: registry = registry[:top_n]`: 0 keeps everything; a
      negative n drops the last |n| entries. */
  function TopN(s: seq<Entry>, n: int): (r: seq<Entry>)
    ensures n == 0 ==> r == s
    ensures n > 0 ==> r == s[..if n < |s| then n else |s|]
    ensures n < 0 ==> r == s[..if |s| + n > 0 then |s| + n else 0]
  {
    if n == 0 then s
    else if n > 0 then s[..if n < |s| then n else |s|]
    else s[..if |s| + n > 0 then |s| + n else 0]
  }

  /** What `filter_experiments` returns; an empty `sort_by` leaves the
      registry order. */
  function FilterSpec(reg: seq<Entry>, status: string, category: string, tags: seq<string>, needle: string,
                      sortBy: string, ascending: bool, topN: int): seq<Entry>
    requires sortBy !in Unsortable
  {
    var kept := Filtered(reg, status, category, tags, needle);
    var ordered := if sortBy != "" then Sorted(kept, sortBy, ascending) else kept;
    TopN(ordered, topN)
  }
}
