/**
 * The mutable accumulators: an install tally per identifier and the per-day aggregate
 * that owns them. Each method's effect is stated on the value view `Stats()`.
 */
module Tally {
  import opened Wrappers
  import opened Refs
  import opened Stats

  /** Overriding a key after a union is overriding it in the right operand. */
  lemma UpdateAfterUnion(a: map<string, Tally>, b: map<string, Tally>, k: string, v: Tally)
    ensures (a + b)[k := v] == a + b[k := v]
  {
  }

  /** Taking one more key out of the to-do set adds its entry to what is loaded. */
  lemma LoadOneMore(m: map<string, Tally>, todo: set<string>, id: string)
    requires id in todo && todo <= m.Keys
    ensures (m - todo)[id := m[id]] == m - (todo - {id})
  {
  }

  /** Installs of one identifier, by architecture. */
  class InstallInfo {
    var arch: map<string, int>
    /** The identifier this tally is filed under in its day (proof only). */
    ghost var key: string
    /** The day this tally belongs to (proof only). */
    ghost var owner: object

    constructor (ghost key: string, ghost owner: object)
      ensures arch == map[] && this.key == key && this.owner == owner
    {
      arch := map[];
      this.key := key;
      this.owner := owner;
    }

    /** Counts one install of `ref` under its architecture segment. */
    method Add(ref: string)
      requires |Split(ref)| >= 3
      modifies this`arch
      ensures arch == Bump(old(arch), ArchOf(ref))
    {
      var parts := Split(ref);
      var a := parts[2];
      arch := arch[a := Count(arch, a) + 1];
    }

    /** Replaces the tally with a stored one, verbatim. */
    method FromDict(dct: Tally)
      modifies this`arch
      ensures arch == dct
    {
      arch := dct;
    }
  }

  /** The aggregate for one calendar date. */
  class DayInfo {
    var date: string
    var downloads: int
    var deltaDownloads: int
    var ostreeVersions: map<string, int>
    var flatpakVersions: map<string, int>
    var installs: map<string, InstallInfo>
    /** Each identifier's tally as a value. */
    ghost var Installs: map<string, Tally>
    /** The tallies this day owns. */
    ghost var Repr: set<InstallInfo>
    /** The date this day is filed under by the driver, which may differ from a loaded `date` (proof only). */
    ghost const slot: string

    /**
     * Every tally is owned by this day and by no other, filed under its own key (so no two
     * identifiers share one) and holds what `Installs` says.
     */
    ghost predicate Valid()
      reads this`installs, this`Installs, this`Repr, Repr
    {
      && (forall t :: t in Repr ==> t.owner == this)
      && installs.Keys == Installs.Keys
      && (forall id :: id in installs ==>
            installs[id] in Repr && installs[id].key == id && installs[id].arch == Installs[id])
    }

    /** The day as the value it is saved as. */
    ghost function Stats(): DayStats
      reads this
    {
      DayStats(date, downloads, deltaDownloads, ostreeVersions, flatpakVersions, Installs)
    }

    constructor (date: string, ghost slot: string)
      ensures Valid() && fresh(Repr)
      ensures Stats() == Empty(date) && this.slot == slot
    {
      this.date := date;
      this.slot := slot;
      downloads := 0;
      deltaDownloads := 0;
      ostreeVersions := map[];
      flatpakVersions := map[];
      installs := map[];
      Installs := map[];
      Repr := {};
    }

    /** The tally of `id`, created empty only when `id` has none. */
    method GetInstall(id: string) returns (i: InstallInfo)
      requires Valid()
      modifies this
      ensures Valid() && fresh(Repr - old(Repr))
      ensures id in installs && i == installs[id] && i in Repr
      ensures old(id in installs) ==> i == old(installs[id]) && installs == old(installs)
      ensures old(id !in installs) ==> fresh(i) && installs == old(installs)[id := i]
      ensures Installs == if id in old(Installs) then old(Installs) else old(Installs)[id := map[]]
      ensures date == old(date) && downloads == old(downloads) && deltaDownloads == old(deltaDownloads)
      ensures ostreeVersions == old(ostreeVersions) && flatpakVersions == old(flatpakVersions)
    {
      if id !in installs {
        var created := new InstallInfo(id, this);
        installs := installs[id := created];
        Installs := Installs[id := map[]];
        Repr := Repr + {created};
        forall k | k in installs
          ensures installs[k] in Repr && installs[k].key == k && installs[k].arch == Installs[k]
        {
          if k != id {
            assert installs[k] == old(installs[k]);
          }
        }
      }
      i := installs[id];
    }

    /** Folds one record into the day, looking its checksum up in the reference cache. */
    method Add(d: Download, cache: map<string, Option<string>>)
      requires Valid()
      requires d.checksum in cache && AddDefined(cache[d.checksum])
      modifies this, Repr
      ensures Valid() && fresh(Repr - old(Repr))
      ensures Stats() == AddRecord(old(Stats()), d, cache[d.checksum])
    {
      var ref := cache[d.checksum];
      if !Truthy(ref) {
        assert !Counted(ref);
        return;
      }
      var id := RefToId(ref.value);
      assert IdOf(ref) == id;
      if !Truthy(id) {
        assert !Counted(ref);
        return;
      }
      CountInstall(id.value, ref.value);
      CountDownload(d);
    }

    /** The install half of `Add`: the tally of `id` counts one more install of `ref`'s architecture. */
    method CountInstall(id: string, ref: string)
      requires Valid()
      requires |Split(ref)| >= 3
      modifies this, Repr
      ensures Valid() && fresh(Repr - old(Repr))
      ensures Stats() == old(Stats()).(installs := old(Installs)[id := Bump(TallyOf(old(Stats()), id), ArchOf(ref))])
    {
      var i := GetInstall(id);
      label got:
      i.Add(ref);
      Installs := old(Installs)[id := Bump(TallyOf(old(Stats()), id), ArchOf(ref))];
      forall k | k in installs
        ensures installs[k] in Repr && installs[k].key == k && installs[k].arch == Installs[k]
      {
        if k != id {
          assert installs[k].key == old@got(installs[k].key) == k;
          assert installs[k].arch == old@got(installs[k].arch);
        }
      }
    }

    /** The counter half of `Add`: one more download, and one more of each version it reports. */
    method CountDownload(d: Download)
      modifies this`downloads, this`deltaDownloads, this`ostreeVersions, this`flatpakVersions
      ensures downloads == old(downloads) + 1
      ensures deltaDownloads == if d.isDelta then old(deltaDownloads) + 1 else old(deltaDownloads)
      ensures ostreeVersions == Bump(old(ostreeVersions), d.ostreeVersion)
      ensures flatpakVersions ==
        if d.flatpakVersion != "" then Bump(old(flatpakVersions), d.flatpakVersion) else old(flatpakVersions)
    {
      downloads := downloads + 1;
      if d.isDelta {
        deltaDownloads := deltaDownloads + 1;
      }
      ostreeVersions := ostreeVersions[d.ostreeVersion := Count(ostreeVersions, d.ostreeVersion) + 1];
      if d.flatpakVersion != "" {
        flatpakVersions := flatpakVersions[d.flatpakVersion := Count(flatpakVersions, d.flatpakVersion) + 1];
      }
    }

    /** One step of `FromDict`: the tally of `id` becomes the stored one. */
    method LoadInstall(id: string, stored: Tally)
      requires Valid()
      modifies this, Repr
      ensures Valid() && fresh(Repr - old(Repr))
      ensures Stats() == old(Stats()).(installs := old(Installs)[id := stored])
    {
      var i := GetInstall(id);
      label got:
      i.FromDict(stored);
      Installs := old(Installs)[id := stored];
      forall k | k in installs
        ensures installs[k] in Repr && installs[k].key == k && installs[k].arch == Installs[k]
      {
        if k != id {
          assert installs[k].key == old@got(installs[k].key) == k;
          assert installs[k].arch == old@got(installs[k].arch);
        }
      }
    }

    /** Loads the counters and histograms of a stored day; stored tallies replace those of the same id. */
    method FromDict(dct: DayStats)
      requires Valid()
      modifies this, Repr
      ensures Valid() && fresh(Repr - old(Repr))
      ensures Stats() == old(Stats()).(
        downloads := dct.downloads, deltaDownloads := dct.deltaDownloads,
        ostreeVersions := dct.ostreeVersions, flatpakVersions := dct.flatpakVersions,
        installs := old(Installs) + dct.installs)
    {
      downloads := dct.downloads;
      deltaDownloads := dct.deltaDownloads;
      ostreeVersions := dct.ostreeVersions;
      flatpakVersions := dct.flatpakVersions;
      LoadInstalls(dct.installs);
    }

    /** The loop of `FromDict`: each stored tally is loaded through `GetInstall`. */
    method LoadInstalls(installs: map<string, Tally>)
      requires Valid()
      modifies this, Repr
      ensures Valid() && fresh(Repr - old(Repr))
      ensures Stats() == old(Stats()).(installs := old(Installs) + installs)
    {
      var todo := installs.Keys;
      while todo != {}
        invariant Valid() && fresh(Repr - old(Repr))
        invariant todo <= installs.Keys
        invariant Stats() == old(Stats()).(installs := old(Installs) + (installs - todo))
        decreases todo
      {
        var id :| id in todo;
        ghost var loaded := installs - todo;
        LoadInstall(id, installs[id]);
        UpdateAfterUnion(old(Installs), loaded, id, installs[id]);
        LoadOneMore(installs, todo, id);
        todo := todo - {id};
      }
      assert installs - {} == installs;
    }
  }
}
