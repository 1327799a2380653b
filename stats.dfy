/**
 * Per-day statistics as values: the download record, the persisted shape of a day,
 * and the effect of folding one record or a sequence of records into a day.
 */
module Stats {
  import opened Wrappers
  import opened Refs

  /** One parsed log line. `flatpakVersion` is "" when the log carried none. */
  datatype Download = Download(
    checksum: string,
    ref: Option<string>,
    isDelta: bool,
    ostreeVersion: string,
    flatpakVersion: string,
    date: string)

  /** Architecture -> number of installs. */
  type Tally = map<string, int>

  /** Everything a day file holds. */
  datatype DayStats = DayStats(
    date: string,
    downloads: int,
    deltaDownloads: int,
    ostreeVersions: map<string, int>,
    flatpakVersions: map<string, int>,
    installs: map<string, Tally>)

  /** A day nothing has been counted for yet. */
  function Empty(date: string): (s: DayStats)
    ensures s.date == date && s.downloads == 0 && s.deltaDownloads == 0
    ensures s.ostreeVersions == map[] && s.flatpakVersions == map[] && s.installs == map[]
  {
    DayStats(date, 0, 0, map[], map[], map[])
  }

  /** `m.get(k, 0)`. */
  function Count(m: map<string, int>, k: string): int
  {
    if k in m then m[k] else 0
  }

  /** One more occurrence of `k`: that key goes up by one and nothing else changes. */
  function Bump(m: map<string, int>, k: string): (r: map<string, int>)
    ensures r.Keys == m.Keys + {k}
    ensures Count(r, k) == Count(m, k) + 1
    ensures forall j :: j != k ==> Count(r, j) == Count(m, j)
  {
    m[k := Count(m, k) + 1]
  }

  /** Python truthiness of an optional string: present and non-empty. */
  predicate Truthy(s: Option<string>)
  {
    s.Some? && s.value != ""
  }

  /** A cached reference on which adding a record does not raise. */
  predicate AddDefined(ref: Option<string>)
  {
    Truthy(ref) ==>
      RefToIdDefined(ref.value) && (Truthy(RefToId(ref.value)) ==> |Split(ref.value)| >= 3)
  }

  /** The identifier a cached reference is counted under; None or "" means not counted. */
  function IdOf(ref: Option<string>): (id: Option<string>)
    requires AddDefined(ref)
    ensures id.Some? ==> Truthy(ref)
  {
    if Truthy(ref) then RefToId(ref.value) else None
  }

  /** Whether a record whose checksum resolved to `ref` is counted at all. */
  predicate Counted(ref: Option<string>)
    requires AddDefined(ref)
  {
    Truthy(IdOf(ref))
  }

  /** The tally of `id`, empty when it has none. */
  function TallyOf(s: DayStats, id: string): Tally
  {
    if id in s.installs then s.installs[id] else map[]
  }

  /** Counts a record whose reference yielded `id` and whose architecture is `arch`. */
  function CountRecord(s: DayStats, d: Download, id: string, arch: string): (r: DayStats)
    ensures r.date == s.date && r.downloads == s.downloads + 1
    ensures Count(r.ostreeVersions, d.ostreeVersion) == Count(s.ostreeVersions, d.ostreeVersion) + 1
    ensures r.installs.Keys == s.installs.Keys + {id}
    ensures Count(r.installs[id], arch) == Count(TallyOf(s, id), arch) + 1
  {
    DayStats(
      s.date,
      s.downloads + 1,
      if d.isDelta then s.deltaDownloads + 1 else s.deltaDownloads,
      Bump(s.ostreeVersions, d.ostreeVersion),
      if d.flatpakVersion != "" then Bump(s.flatpakVersions, d.flatpakVersion) else s.flatpakVersions,
      s.installs[id := Bump(TallyOf(s, id), arch)])
  }

  /** Folds one record, whose checksum resolved to `ref`, into a day. */
  function AddRecord(s: DayStats, d: Download, ref: Option<string>): (r: DayStats)
    requires AddDefined(ref)
    ensures r.date == s.date
    ensures !Counted(ref) ==> r == s
    ensures Counted(ref) ==> r.downloads == s.downloads + 1 && IdOf(ref).value in r.installs
  {
    if !Counted(ref) then s else CountRecord(s, d, IdOf(ref).value, ArchOf(ref.value))
  }

  /** A record leaves the day exactly as it was if and only if its reference yields no id. */
  lemma AddRecordUnchangedIff(s: DayStats, d: Download, ref: Option<string>)
    requires AddDefined(ref)
    ensures AddRecord(s, d, ref) == s <==> !Counted(ref)
  {
    if Counted(ref) {
      assert AddRecord(s, d, ref).downloads == s.downloads + 1;
    }
  }

  /** What a counted record changes, and that nothing else changes. */
  lemma AddRecordCounts(s: DayStats, d: Download, ref: Option<string>)
    requires AddDefined(ref) && Counted(ref)
    ensures var r := AddRecord(s, d, ref);
      var id := IdOf(ref).value;
      && r.date == s.date
      && r.downloads == s.downloads + 1
      && r.deltaDownloads == s.deltaDownloads + (if d.isDelta then 1 else 0)
      && Count(r.ostreeVersions, d.ostreeVersion) == Count(s.ostreeVersions, d.ostreeVersion) + 1
      && (forall v :: v != d.ostreeVersion ==> Count(r.ostreeVersions, v) == Count(s.ostreeVersions, v))
      && (forall v :: Count(r.flatpakVersions, v) ==
            Count(s.flatpakVersions, v) + (if v == d.flatpakVersion && v != "" then 1 else 0))
      && r.installs.Keys == s.installs.Keys + {id}
      && Count(r.installs[id], ArchOf(ref.value)) == Count(TallyOf(s, id), ArchOf(ref.value)) + 1
      && (forall a :: a != ArchOf(ref.value) ==> Count(r.installs[id], a) == Count(TallyOf(s, id), a))
      && (forall other :: other in s.installs && other != id ==> r.installs[other] == s.installs[other])
  {
  }

  /** Adding a record keeps `deltaDownloads <= downloads`. */
  lemma AddRecordKeepsDeltaBound(s: DayStats, d: Download, ref: Option<string>)
    requires AddDefined(ref)
    requires s.deltaDownloads <= s.downloads
    ensures AddRecord(s, d, ref).deltaDownloads <= AddRecord(s, d, ref).downloads
  {
  }

  /** Every record's checksum has a cached reference on which adding it does not raise. */
  predicate Resolvable(ds: seq<Download>, cache: map<string, Option<string>>)
  {
    forall i :: 0 <= i < |ds| ==> ds[i].checksum in cache && AddDefined(cache[ds[i].checksum])
  }

  /** Folds the records, in order, into a day. */
  function FoldDay(s: DayStats, ds: seq<Download>, cache: map<string, Option<string>>): (r: DayStats)
    requires Resolvable(ds, cache)
    ensures r.date == s.date
    ensures s.downloads <= r.downloads <= s.downloads + |ds|
  {
    if ds == [] then s
    else
      var last := ds[|ds| - 1];
      AddRecord(FoldDay(s, ds[..|ds| - 1], cache), last, cache[last.checksum])
  }

  /** How many of the records are counted. */
  function CountedIn(ds: seq<Download>, cache: map<string, Option<string>>): nat
    requires Resolvable(ds, cache)
  {
    if ds == [] then 0
    else
      var last := ds[|ds| - 1];
      CountedIn(ds[..|ds| - 1], cache) + (if Counted(cache[last.checksum]) then 1 else 0)
  }

  /** How many of the counted records are delta downloads. */
  function CountedDeltasIn(ds: seq<Download>, cache: map<string, Option<string>>): nat
    requires Resolvable(ds, cache)
  {
    if ds == [] then 0
    else
      var last := ds[|ds| - 1];
      CountedDeltasIn(ds[..|ds| - 1], cache) +
        (if Counted(cache[last.checksum]) && last.isDelta then 1 else 0)
  }

  /** Folding adds exactly the counted records to `downloads` and their deltas to `deltaDownloads`. */
  lemma {:induction false} FoldTotals(s: DayStats, ds: seq<Download>, cache: map<string, Option<string>>)
    requires Resolvable(ds, cache)
    ensures FoldDay(s, ds, cache).downloads == s.downloads + CountedIn(ds, cache)
    ensures FoldDay(s, ds, cache).deltaDownloads == s.deltaDownloads + CountedDeltasIn(ds, cache)
    ensures FoldDay(s, ds, cache).date == s.date
  {
    if ds != [] {
      FoldTotals(s, ds[..|ds| - 1], cache);
    }
  }

  /** Among the records, the counted deltas never outnumber the counted records. */
  lemma {:induction false} DeltasWithinCounted(ds: seq<Download>, cache: map<string, Option<string>>)
    requires Resolvable(ds, cache)
    ensures CountedDeltasIn(ds, cache) <= CountedIn(ds, cache) <= |ds|
  {
    if ds != [] {
      DeltasWithinCounted(ds[..|ds| - 1], cache);
    }
  }

  /** Merging any batch into a day keeps `deltaDownloads <= downloads`. */
  lemma FoldKeepsDeltaBound(s: DayStats, ds: seq<Download>, cache: map<string, Option<string>>)
    requires Resolvable(ds, cache)
    requires s.deltaDownloads <= s.downloads
    ensures FoldDay(s, ds, cache).deltaDownloads <= FoldDay(s, ds, cache).downloads
  {
    FoldTotals(s, ds, cache);
    DeltasWithinCounted(ds, cache);
  }

  /** A batch whose records all resolve to an id raises `downloads` by the batch size. */
  lemma {:induction false} FoldAllCounted(s: DayStats, ds: seq<Download>, cache: map<string, Option<string>>)
    requires Resolvable(ds, cache)
    requires forall i :: 0 <= i < |ds| ==> Counted(cache[ds[i].checksum])
    ensures FoldDay(s, ds, cache).downloads == s.downloads + |ds|
  {
    if ds != [] {
      FoldAllCounted(s, ds[..|ds| - 1], cache);
    }
  }

  /** Merging never removes an id, an architecture or a version, and never lowers a count. */
  lemma {:induction false} FoldGrows(s: DayStats, ds: seq<Download>, cache: map<string, Option<string>>)
    requires Resolvable(ds, cache)
    ensures var r := FoldDay(s, ds, cache);
      && r.downloads >= s.downloads
      && (forall v :: v in s.ostreeVersions ==> v in r.ostreeVersions && r.ostreeVersions[v] >= s.ostreeVersions[v])
      && (forall v :: v in s.flatpakVersions ==> v in r.flatpakVersions && r.flatpakVersions[v] >= s.flatpakVersions[v])
      && (forall id :: id in s.installs ==> id in r.installs)
      && (forall id, a :: id in s.installs && a in s.installs[id] ==>
            id in r.installs && a in r.installs[id] && r.installs[id][a] >= s.installs[id][a])
  {
    if ds != [] {
      var prefix := ds[..|ds| - 1];
      var last := ds[|ds| - 1];
      FoldGrows(s, prefix, cache);
      var m := FoldDay(s, prefix, cache);
      if Counted(cache[last.checksum]) {
        AddRecordCounts(m, last, cache[last.checksum]);
      }
    }
  }
}
