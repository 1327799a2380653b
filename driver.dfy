/**
 * The aggregation run: fill the checksum -> reference cache from the log, resolve what is
 * still missing, then fold every record into the aggregate of its date.
 */
module Driver {
  import opened Wrappers
  import opened Refs
  import opened Stats
  import opened Tally

  /** Checksum -> resolved reference; a present None or "" means "resolved, nothing found". */
  type Cache = map<string, Option<string>>

  /** The checksums the records carry. */
  function Checksums(ds: seq<Download>): set<string>
  {
    set i | 0 <= i < |ds| :: ds[i].checksum
  }

  /** The dates the records carry. */
  function Dates(ds: seq<Download>): set<string>
  {
    set i | 0 <= i < |ds| :: ds[i].date
  }

  /** One step of the first pass: a reference the log supplied fills an empty slot. */
  function FromLog(cache: Cache, d: Download): (r: Cache)
    ensures forall k :: k in cache ==> k in r && r[k] == cache[k]
    ensures r.Keys <= cache.Keys + {d.checksum}
    ensures d.checksum !in cache && Truthy(d.ref) ==> d.checksum in r && r[d.checksum] == d.ref
  {
    if Truthy(d.ref) && d.checksum !in cache then cache[d.checksum := d.ref] else cache
  }

  /** The first pass over all records, in order. */
  function PassOne(cache: Cache, ds: seq<Download>): (r: Cache)
    ensures forall k :: k in cache ==> k in r && r[k] == cache[k]
    ensures r.Keys <= cache.Keys + Checksums(ds)
    ensures forall i :: 0 <= i < |ds| && Truthy(ds[i].ref) ==> ds[i].checksum in r
    decreases |ds|
  {
    if ds == [] then cache
    else
      var r := PassOne(FromLog(cache, ds[0]), ds[1..]);
      assert forall i :: 1 <= i < |ds| ==> ds[i] == ds[1..][i - 1];
      r
  }

  /**
   * The first pass caches only what the log supplied: every new entry is the reference of
   * some record with that checksum and a non-empty reference.
   */
  lemma {:induction false} PassOneFromRecords(cache: Cache, ds: seq<Download>)
    ensures forall k :: k in PassOne(cache, ds) && k !in cache ==>
      exists i :: 0 <= i < |ds| && ds[i].checksum == k && Truthy(ds[i].ref) && PassOne(cache, ds)[k] == ds[i].ref
    decreases |ds|
  {
    if ds != [] {
      var next := FromLog(cache, ds[0]);
      var r := PassOne(cache, ds);
      PassOneFromRecords(next, ds[1..]);
      forall k | k in r && k !in cache
        ensures exists i :: 0 <= i < |ds| && ds[i].checksum == k && Truthy(ds[i].ref) && r[k] == ds[i].ref
      {
        if k in next {
          assert ds[0].checksum == k && Truthy(ds[0].ref) && r[k] == ds[0].ref;
        } else {
          var i :| 0 <= i < |ds[1..]| && ds[1..][i].checksum == k && Truthy(ds[1..][i].ref) && r[k] == ds[1..][i].ref;
          assert ds[i + 1] == ds[1..][i];
        }
      }
    }
  }

  /** One step of the second pass: a checksum with no slot is resolved and the answer kept, even None. */
  function FromResolver(cache: Cache, d: Download, resolve: string -> Option<string>): (r: Cache)
    ensures forall k :: k in cache ==> k in r && r[k] == cache[k]
    ensures r.Keys == cache.Keys + {d.checksum}
    ensures d.checksum !in cache ==> r[d.checksum] == resolve(d.checksum)
  {
    if d.checksum !in cache then cache[d.checksum := resolve(d.checksum)] else cache
  }

  /** The second pass over all records, in order. */
  function PassTwo(cache: Cache, ds: seq<Download>, resolve: string -> Option<string>): (r: Cache)
    ensures forall k :: k in cache ==> k in r && r[k] == cache[k]
    ensures r.Keys == cache.Keys + Checksums(ds)
    ensures forall k :: k in r && k !in cache ==> r[k] == resolve(k)
    decreases |ds|
  {
    if ds == [] then cache
    else
      var r := PassTwo(FromResolver(cache, ds[0], resolve), ds[1..], resolve);
      assert Checksums(ds) == {ds[0].checksum} + Checksums(ds[1..]) by {
        assert forall i :: 1 <= i < |ds| ==> ds[i] == ds[1..][i - 1];
      }
      r
  }

  /** The cache both passes leave behind. */
  function Resolved(cache: Cache, ds: seq<Download>, resolve: string -> Option<string>): (r: Cache)
    ensures forall i :: 0 <= i < |ds| ==> ds[i].checksum in r
  {
    PassTwo(PassOne(cache, ds), ds, resolve)
  }

  /** A second pass over a cache that already holds every checksum changes nothing. */
  lemma {:induction false} PassTwoCached(cache: Cache, ds: seq<Download>, resolve: string -> Option<string>)
    requires Checksums(ds) <= cache.Keys
    ensures PassTwo(cache, ds, resolve) == cache
  {
    if ds != [] {
      assert ds[0].checksum in Checksums(ds);
      assert Checksums(ds[1..]) <= Checksums(ds) by {
        assert forall i :: 1 <= i < |ds| ==> ds[1..][i - 1] == ds[i];
      }
      PassTwoCached(cache, ds[1..], resolve);
    }
  }

  /** Resolution is idempotent: a second run of the second pass resolves nothing more. */
  lemma PassTwoIdempotent(cache: Cache, ds: seq<Download>, resolve: string -> Option<string>)
    ensures PassTwo(PassTwo(cache, ds, resolve), ds, resolve) == PassTwo(cache, ds, resolve)
  {
    PassTwoCached(PassTwo(cache, ds, resolve), ds, resolve);
  }

  /**
   * First seen wins: the reference cached for a new checksum is the one on the first record
   * that carries both that checksum and a reference.
   */
  lemma {:induction false} PassOneFirstSeen(cache: Cache, ds: seq<Download>, j: nat)
    requires j < |ds| && Truthy(ds[j].ref) && ds[j].checksum !in cache
    requires forall i :: 0 <= i < j ==> !(ds[i].checksum == ds[j].checksum && Truthy(ds[i].ref))
    ensures PassOne(cache, ds)[ds[j].checksum] == ds[j].ref
    decreases j
  {
    var next := FromLog(cache, ds[0]);
    if j == 0 {
      assert next[ds[0].checksum] == ds[0].ref;
    } else {
      assert ds[1..][j - 1] == ds[j];
      assert ds[j].checksum !in next;
      forall i | 0 <= i < j - 1
        ensures !(ds[1..][i].checksum == ds[1..][j - 1].checksum && Truthy(ds[1..][i].ref))
      {
        assert ds[1..][i] == ds[i + 1];
      }
      PassOneFirstSeen(next, ds[1..], j - 1);
    }
  }

  /** Record `j` is the first one carrying checksum `c` together with a reference. */
  predicate FirstWithRef(ds: seq<Download>, c: string, j: int)
  {
    0 <= j < |ds| && ds[j].checksum == c && Truthy(ds[j].ref) &&
    forall i :: 0 <= i < j ==> !(ds[i].checksum == c && Truthy(ds[i].ref))
  }

  /**
   * What the run caches for a checksum it did not know: the reference of the first record
   * carrying both the checksum and a reference, or else the resolver's answer.
   */
  lemma ResolvedEntry(cache: Cache, ds: seq<Download>, resolve: string -> Option<string>, c: string)
    requires c !in cache
    ensures c in Resolved(cache, ds, resolve) <==> c in Checksums(ds)
    ensures forall j :: FirstWithRef(ds, c, j) ==> Resolved(cache, ds, resolve)[c] == ds[j].ref
    ensures c in Checksums(ds) && (forall i :: 0 <= i < |ds| && ds[i].checksum == c ==> !Truthy(ds[i].ref)) ==>
      Resolved(cache, ds, resolve)[c] == resolve(c)
  {
    PassOneFromRecords(cache, ds);
    forall j | FirstWithRef(ds, c, j)
      ensures Resolved(cache, ds, resolve)[c] == ds[j].ref
    {
      PassOneFirstSeen(cache, ds, j);
    }
  }

  /** The first pass, as the program runs it; `modified` says whether a key was added. */
  method PopulateFromLog(cache: Cache, ds: seq<Download>) returns (r: Cache, modified: bool)
    ensures r == PassOne(cache, ds)
    ensures modified <==> r.Keys != cache.Keys
  {
    r := cache;
    modified := false;
    var i := 0;
    while i < |ds|
      invariant 0 <= i <= |ds|
      invariant PassOne(r, ds[i..]) == PassOne(cache, ds)
      invariant cache.Keys <= r.Keys
      invariant modified <==> r.Keys != cache.Keys
    {
      var d := ds[i];
      assert ds[i..][1..] == ds[i + 1..];
      ghost var before := r;
      if Truthy(d.ref) && d.checksum !in r {
        modified := true;
        r := r[d.checksum := d.ref];
        assert d.checksum in r.Keys - cache.Keys;
      }
      assert r == FromLog(before, d);
      i := i + 1;
    }
  }

  /** No element occurs twice. */
  predicate Distinct(s: seq<string>)
  {
    forall i, j :: 0 <= i < j < |s| ==> s[i] != s[j]
  }

  /** Appending an element not yet present keeps the elements distinct. */
  lemma DistinctSnoc(s: seq<string>, x: string)
    requires Distinct(s) && x !in s
    ensures Distinct(s + [x])
  {
    var t := s + [x];
    forall i, j | 0 <= i < j < |t| ensures t[i] != t[j] {
      if j == |s| {
        assert t[i] == s[i];
      }
    }
  }

  /**
   * The second pass, as the program runs it. `resolved` lists the checksums handed to the
   * resolver, in order: each was not cached, none twice, and each answer is kept.
   */
  method ResolveMissing(cache: Cache, ds: seq<Download>, resolve: string -> Option<string>)
    returns (r: Cache, modified: bool, resolved: seq<string>)
    ensures r == PassTwo(cache, ds, resolve)
    ensures modified <==> r.Keys != cache.Keys
    ensures forall i :: 0 <= i < |resolved| ==> resolved[i] !in cache
    ensures Distinct(resolved)
    ensures forall c :: c in resolved <==> c in r && c !in cache
    ensures forall i :: 0 <= i < |resolved| ==> r[resolved[i]] == resolve(resolved[i])
  {
    r := cache;
    modified := false;
    resolved := [];
    var i := 0;
    while i < |ds|
      invariant 0 <= i <= |ds|
      invariant PassTwo(r, ds[i..], resolve) == PassTwo(cache, ds, resolve)
      invariant forall k :: k in cache ==> k in r && r[k] == cache[k]
      invariant Distinct(resolved)
      invariant forall c :: c in resolved <==> c in r && c !in cache
      invariant modified <==> resolved != []
    {
      var d := ds[i];
      assert ds[i..][1..] == ds[i + 1..];
      if d.checksum !in r {
        modified := true;
        var answer := resolve(d.checksum);
        r := r[d.checksum := answer];
        DistinctSnoc(resolved, d.checksum);
        resolved := resolved + [d.checksum];
      }
      i := i + 1;
    }
    if modified {
      assert resolved[0] in r.Keys - cache.Keys;
    } else {
      assert r.Keys == cache.Keys;
    }
  }

  /** Every record's checksum is cached and adding the record does not raise. */
  predicate Addable(ds: seq<Download>, cache: Cache)
  {
    forall i :: 0 <= i < |ds| ==> ds[i].checksum in cache && AddDefined(cache[ds[i].checksum])
  }

  /** The records of one date, in order. */
  function OnDate(ds: seq<Download>, date: string): (r: seq<Download>)
    ensures forall j :: 0 <= j < |r| ==> r[j].date == date && r[j] in ds
    ensures |r| <= |ds|
  {
    if ds == [] then []
    else
      var prefix := OnDate(ds[..|ds| - 1], date);
      assert forall j :: 0 <= j < |prefix| ==> prefix[j] in ds by {
        forall j | 0 <= j < |prefix| ensures prefix[j] in ds {
          var k :| 0 <= k < |ds| - 1 && ds[..|ds| - 1][k] == prefix[j];
        }
      }
      prefix + (if ds[|ds| - 1].date == date then [ds[|ds| - 1]] else [])
  }

  /** The records of a date are addable when all records are. */
  lemma OnDateAddable(ds: seq<Download>, cache: Cache, date: string)
    requires Addable(ds, cache)
    ensures Resolvable(OnDate(ds, date), cache)
  {
    var r := OnDate(ds, date);
    forall j | 0 <= j < |r| ensures r[j].checksum in cache && AddDefined(cache[r[j].checksum]) {
      var k :| 0 <= k < |ds| && ds[k] == r[j];
    }
  }

  /** What the aggregate of `date` starts from: the stored day if there is one, else zeroes. */
  function Loaded(stored: map<string, DayStats>, date: string): (r: DayStats)
    ensures date in stored ==> r == stored[date]
    ensures date !in stored ==>
      r.date == date && r.downloads == 0 && r.deltaDownloads == 0 && r.installs == map[]
  {
    if date in stored then stored[date] else Empty(date)
  }

  /** The aggregate of `date`: its stored file read back, or a zeroed day. */
  method LoadDayInfo(stored: map<string, DayStats>, date: string) returns (day: DayInfo)
    ensures fresh(day) && fresh(day.Repr) && day.Valid()
    ensures day.Stats() == Loaded(stored, date) && day.slot == date
  {
    day := new DayInfo(date, date);
    if date in stored {
      var dct := stored[date];
      day := new DayInfo(dct.date, date);
      day.FromDict(dct);
      assert map[] + dct.installs == dct.installs;
    }
  }

  /** The aggregates of distinct dates are distinct objects (their tallies are then disjoint too). */
  predicate Separate(days: map<string, DayInfo>)
  {
    forall a, b :: a in days && b in days && a != b ==> days[a] != days[b]
  }

  /** Each aggregate is filed under its own slot. */
  ghost predicate Filed(days: map<string, DayInfo>)
  {
    forall date :: date in days ==> days[date].slot == date
  }

  /** Aggregates filed under their own slots are distinct. */
  lemma FiledSeparate(days: map<string, DayInfo>)
    requires Filed(days)
    ensures Separate(days)
  {
    forall a, b | a in days && b in days && a != b ensures days[a] != days[b] {
      assert days[a].slot == a && days[b].slot == b;
    }
  }

  /**
   * The aggregates in `days` are filed under their own dates, valid, hold `spec` as values,
   * and they and their tallies are among the objects `made`.
   */
  ghost predicate Tracks(days: map<string, DayInfo>, spec: map<string, DayStats>, made: set<object>)
    reads made
  {
    && days.Keys == spec.Keys
    && forall date :: date in days ==>
      && days[date] in made && days[date].slot == date
      && days[date].Repr <= made
      && days[date].Valid() && days[date].Stats() == spec[date]
  }

  /**
   * Groups the records by date: the aggregate of each date is loaded once, on its first
   * record, and every record of that date is folded into it. `loaded` lists the dates loaded.
   */
  method GroupByDay(ds: seq<Download>, cache: Cache, stored: map<string, DayStats>)
    returns (days: map<string, DayInfo>, loaded: seq<string>)
    requires Addable(ds, cache)
    ensures days.Keys == Dates(ds)
    ensures Distinct(loaded)
    ensures forall date :: date in loaded <==> date in days
    ensures Separate(days)
    ensures forall date :: date in days ==>
      && fresh(days[date]) && fresh(days[date].Repr) && days[date].Valid()
      && Resolvable(OnDate(ds, date), cache)
      && days[date].Stats() == FoldDay(Loaded(stored, date), OnDate(ds, date), cache)
  {
    days := map[];
    loaded := [];
    ghost var spec: map<string, DayStats> := map[];
    ghost var made: set<object> := {};
    var i := 0;
    while i < |ds|
      invariant Grouped(ds, i, days.Keys, loaded)
      invariant fresh(made)
      invariant Tracks(days, spec, made)
      invariant spec == Expected(ds[..i], cache, stored)
    {
      ghost var made';
      days, loaded, spec, made' := Step(ds, i, days, loaded, cache, stored, spec, made);
      made := made';
      i := i + 1;
    }
    assert ds[..|ds|] == ds;
    forall date | date in days
      ensures Resolvable(OnDate(ds, date), cache)
      ensures spec[date] == FoldDay(Loaded(stored, date), OnDate(ds, date), cache)
    {
      ExpectedIsFold(ds, cache, stored, date);
    }
    assert Filed(days);
    FiledSeparate(days);
  }

  /** One pass of the grouping loop: record `i` is filed under its date, loading that date first if it is new. */
  method Step(ds: seq<Download>, i: int, days: map<string, DayInfo>, loaded: seq<string>,
              cache: Cache, stored: map<string, DayStats>, ghost spec: map<string, DayStats>, ghost made: set<object>)
    returns (days': map<string, DayInfo>, loaded': seq<string>, ghost spec': map<string, DayStats>, ghost made': set<object>)
    requires Addable(ds, cache) && Grouped(ds, i, days.Keys, loaded) && i < |ds|
    requires Tracks(days, spec, made) && spec == Expected(ds[..i], cache, stored)
    modifies made
    ensures Grouped(ds, i + 1, days'.Keys, loaded')
    ensures Tracks(days', spec', made') && spec' == Expected(ds[..i + 1], cache, stored)
    ensures made <= made' && fresh(made' - made)
  {
    var d := ds[i];
    var date := d.date;
    GroupedStep(ds, i, days.Keys, loaded);
    ghost var base := if date in spec then spec[date] else Loaded(stored, date);
    ghost var after := AddRecord(base, d, cache[d.checksum]);
    ExpectedStep(ds, i, cache, stored);
    days', loaded', spec', made' := days, loaded, spec, made;
    if date !in days {
      ghost var created;
      days', created := NewDay(days, date, stored, spec, made);
      loaded' := loaded + [date];
      spec' := spec[date := base];
      made' := made + created;
      UpdateTwice(spec, date, base, after);
    }
    ghost var created := AddToDay(days', date, d, cache, spec', made');
    spec' := spec[date := after];
    made' := made' + created;
  }

  /**
   * After the first `i` records: `keys` are exactly their dates, and `loaded` lists each
   * of them once.
   */
  ghost predicate Grouped(ds: seq<Download>, i: int, keys: set<string>, loaded: seq<string>)
  {
    && 0 <= i <= |ds|
    && keys == Dates(ds[..i])
    && Distinct(loaded)
    && (forall date :: date in loaded <==> date in keys)
  }

  /** One more record adds its date, loaded once, if it was not there yet. */
  lemma GroupedStep(ds: seq<Download>, i: int, keys: set<string>, loaded: seq<string>)
    requires Grouped(ds, i, keys, loaded) && i < |ds|
    ensures ds[i].date in keys ==> Grouped(ds, i + 1, keys, loaded)
    ensures ds[i].date !in keys ==> Grouped(ds, i + 1, keys + {ds[i].date}, loaded + [ds[i].date])
  {
    DatesStep(ds, i);
    if ds[i].date !in keys {
      DistinctSnoc(loaded, ds[i].date);
    }
  }

  /** Files the loaded aggregate of a date not seen yet; the aggregates already filed keep their state. */
  method NewDay(days: map<string, DayInfo>, date: string, stored: map<string, DayStats>,
                ghost spec: map<string, DayStats>, ghost made: set<object>)
    returns (days': map<string, DayInfo>, ghost created: set<object>)
    requires date !in days && Tracks(days, spec, made)
    ensures fresh(created) && days'.Keys == days.Keys + {date}
    ensures Tracks(days', spec[date := Loaded(stored, date)], made + created)
  {
    var day := LoadDayInfo(stored, date);
    days' := days[date := day];
    created := {day} + day.Repr;
  }

  /** Folds one record into the aggregate of `date`; the aggregates of other dates keep their state. */
  method AddToDay(days: map<string, DayInfo>, date: string, d: Download, cache: Cache,
                  ghost spec: map<string, DayStats>, ghost made: set<object>)
    returns (ghost created: set<object>)
    requires date in days && Tracks(days, spec, made)
    requires d.checksum in cache && AddDefined(cache[d.checksum])
    modifies days[date], days[date].Repr
    ensures fresh(created)
    ensures Tracks(days, spec[date := AddRecord(spec[date], d, cache[d.checksum])], made + created)
  {
    var day := days[date];
    day.Add(d, cache);
    created := day.Repr - old(day.Repr);
    ghost var spec' := spec[date := AddRecord(spec[date], d, cache[d.checksum])];
    ghost var all := made + created;
    forall o | o in days
      ensures days[o] in all && days[o].slot == o && days[o].Repr <= all
      ensures days[o].Valid() && days[o].Stats() == spec'[o]
    {
      if o != date {
        var other := days[o];
        assert other.slot == o;
        assert unchanged(other);
        forall t | t in other.Repr ensures t !in old(day.Repr) {
          assert old(t.owner) == other;
        }
        assert unchanged(other.Repr);
      }
    }
  }

  /**
   * The saved days the grouping loop computes, as values: each record is folded, in order,
   * into its date's entry, which starts from the loaded aggregate on the date's first record.
   */
  function Expected(ds: seq<Download>, cache: Cache, stored: map<string, DayStats>): (r: map<string, DayStats>)
    requires Addable(ds, cache)
    ensures r.Keys == Dates(ds)
    decreases |ds|
  {
    if ds == [] then map[]
    else
      var n := |ds| - 1;
      var m := Expected(ds[..n], cache, stored);
      var d := ds[n];
      assert ds[..n + 1] == ds;
      DatesStep(ds, n);
      m[d.date := AddRecord(if d.date in m then m[d.date] else Loaded(stored, d.date), d, cache[d.checksum])]
  }

  /** Overriding a key twice keeps the second value only. */
  lemma UpdateTwice(m: map<string, DayStats>, k: string, v: DayStats, w: DayStats)
    ensures m[k := v][k := w] == m[k := w]
  {
  }

  /** `Expected` over one more record of `ds`. */
  lemma ExpectedStep(ds: seq<Download>, i: nat, cache: Cache, stored: map<string, DayStats>)
    requires i < |ds| && Addable(ds, cache)
    ensures var m := Expected(ds[..i], cache, stored);
      var d := ds[i];
      Expected(ds[..i + 1], cache, stored) ==
        m[d.date := AddRecord(if d.date in m then m[d.date] else Loaded(stored, d.date), d, cache[d.checksum])]
  {
    assert ds[..i + 1][..i] == ds[..i];
  }

  /**
   * The loop's values agree with grouping by date: a date has an entry exactly when some
   * record carries it, and the entry is its loaded aggregate with that date's records folded in.
   */
  lemma {:induction false} ExpectedIsFold(ds: seq<Download>, cache: Cache, stored: map<string, DayStats>, date: string)
    requires Addable(ds, cache)
    ensures date in Expected(ds, cache, stored) <==> date in Dates(ds)
    ensures Resolvable(OnDate(ds, date), cache)
    ensures date in Dates(ds) ==>
      Expected(ds, cache, stored)[date] == FoldDay(Loaded(stored, date), OnDate(ds, date), cache)
  {
    OnDateAddable(ds, cache, date);
    if ds != [] {
      var n := |ds| - 1;
      var d := ds[n];
      assert ds[..n + 1] == ds;
      ExpectedIsFold(ds[..n], cache, stored, date);
      DatesStep(ds, n);
      OnDateStep(ds, n, date);
      if d.date == date {
        if date !in Dates(ds[..n]) {
          OnDateUnseen(ds[..n], date);
        }
        FoldSnoc(Loaded(stored, date), OnDate(ds[..n], date), d, cache);
      } else {
        assert OnDate(ds[..n], date) + [] == OnDate(ds[..n], date);
      }
    }
  }

  /** A date with no record among `xs` has no records there. */
  lemma {:induction false} OnDateUnseen(xs: seq<Download>, date: string)
    requires date !in Dates(xs)
    ensures OnDate(xs, date) == []
  {
    if xs != [] {
      var n := |xs| - 1;
      assert xs[n].date in Dates(xs);
      assert Dates(xs[..n]) <= Dates(xs) by {
        forall j | 0 <= j < n ensures xs[..n][j].date in Dates(xs) {
          assert xs[..n][j] == xs[j];
        }
      }
      OnDateUnseen(xs[..n], date);
    }
  }

  /** Folding a sequence with one more record at the end folds that record last. */
  lemma FoldSnoc(s: DayStats, xs: seq<Download>, d: Download, cache: Cache)
    requires Resolvable(xs + [d], cache)
    ensures Resolvable(xs, cache)
    ensures FoldDay(s, xs + [d], cache) == AddRecord(FoldDay(s, xs, cache), d, cache[d.checksum])
  {
    assert (xs + [d])[..|xs|] == xs;
    assert forall j :: 0 <= j < |xs| ==> xs[j] == (xs + [d])[j];
  }

  /** One more record extends the records of its date and leaves other dates as they were. */
  lemma OnDateStep(ds: seq<Download>, i: nat, date: string)
    requires i < |ds|
    ensures OnDate(ds[..i + 1], date) == OnDate(ds[..i], date) + (if ds[i].date == date then [ds[i]] else [])
  {
    assert ds[..i + 1][..i] == ds[..i];
  }

  /** The dates of one more record. */
  lemma DatesStep(ds: seq<Download>, i: nat)
    requires i < |ds|
    ensures Dates(ds[..i + 1]) == Dates(ds[..i]) + {ds[i].date}
  {
    assert forall j :: 0 <= j < i ==> ds[..i + 1][j] == ds[..i][j];
  }

  /**
   * One run over the parsed records: both cache passes, then the grouping. `modified` says
   * whether the cache gained a checksum and so is written back; every date is saved.
   */
  method UpdateStats(cache0: Cache, ds: seq<Download>, resolve: string -> Option<string>, stored: map<string, DayStats>)
    returns (cache: Cache, modified: bool, days: map<string, DayInfo>)
    requires Addable(ds, Resolved(cache0, ds, resolve))
    ensures cache == Resolved(cache0, ds, resolve)
    ensures modified <==> cache.Keys != cache0.Keys
    ensures days.Keys == Dates(ds) && Separate(days)
    ensures forall date :: date in days ==>
      && fresh(days[date]) && fresh(days[date].Repr) && days[date].Valid()
      && days[date].Stats() == FoldDay(Loaded(stored, date), OnDate(ds, date), cache)
  {
    var logged, fromLog := PopulateFromLog(cache0, ds);
    var fromResolver, resolved;
    cache, fromResolver, resolved := ResolveMissing(logged, ds, resolve);
    modified := fromLog || fromResolver;
    var loaded;
    days, loaded := GroupByDay(ds, cache, stored);
  }
}
