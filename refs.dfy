/**
 * Package references (`app/<id>/<arch>/<branch>`, `runtime/<id>/<arch>/<branch>`)
 * and the classifier that maps a reference to the identifier statistics are kept under.
 */
module Refs {
  import opened Wrappers

  /** Joins segments with '/', the inverse of Split. */
  function Join(parts: seq<string>): string
    requires |parts| >= 1
  {
    if |parts| == 1 then parts[0] else parts[0] + "/" + Join(parts[1..])
  }

  /** No segment contains the separator. */
  predicate Segments(parts: seq<string>)
  {
    forall i :: 0 <= i < |parts| ==> '/' !in parts[i]
  }

  lemma SegmentsCons(first: string, rest: seq<string>)
    requires '/' !in first && Segments(rest)
    ensures Segments([first] + rest)
  {
    var p := [first] + rest;
    forall i | 0 <= i < |p| ensures '/' !in p[i] {
      if i >= 1 { assert p[i] == rest[i - 1]; }
    }
  }

  /** Python's `s.split("/")`: never empty, keeps empty segments. */
  function Split(s: string): (parts: seq<string>)
    ensures |parts| >= 1
    ensures Segments(parts)
    ensures Join(parts) == s
  {
    if s == [] then [""]
    else if s[0] == '/' then
      var rest := Split(s[1..]);
      assert s == "" + "/" + Join(rest);
      [""] + rest
    else
      var rest := Split(s[1..]);
      var r := [[s[0]] + rest[0]] + rest[1..];
      assert r[1..] == rest[1..];
      JoinHead(rest, [s[0]]);
      r
  }

  /** Prepending to the first segment prepends to the joined string. */
  lemma {:induction false} JoinHead(parts: seq<string>, pre: string)
    requires |parts| >= 1
    ensures Join([pre + parts[0]] + parts[1..]) == pre + Join(parts)
  {
    var q := [pre + parts[0]] + parts[1..];
    assert q[1..] == parts[1..];
  }

  /** Splitting a joined list of slash-free segments gives the segments back. */
  lemma {:induction false} SplitJoin(parts: seq<string>)
    requires |parts| >= 1 && Segments(parts)
    ensures Split(Join(parts)) == parts
  {
    SplitSegment(parts[0]);
    if |parts| > 1 {
      SplitJoin(parts[1..]);
      SplitSlash(parts[0], Join(parts[1..]));
      assert [parts[0]] + parts[1..] == parts;
    }
  }

  /** A slash-free string splits into itself. */
  lemma {:induction false} SplitSegment(s: string)
    requires '/' !in s
    ensures Split(s) == [s]
  {
    if s != [] {
      SplitSegment(s[1..]);
    }
  }

  /** Splitting `a + "/" + b` with `a` slash-free starts a new segment after `a`. */
  lemma {:induction false} SplitSlash(a: string, b: string)
    requires '/' !in a
    ensures Split(a + "/" + b) == [a] + Split(b)
  {
    if a == [] {
      assert a + "/" + b == "/" + b;
      assert ("/" + b)[1..] == b;
    } else {
      assert (a + "/" + b)[1..] == a[1..] + "/" + b;
      SplitSlash(a[1..], b);
      assert [a[0]] + a[1..] == a;
    }
  }

  /** Python's `s.endswith(suffix)`. */
  predicate EndsWith(s: string, suffix: string)
  {
    |suffix| <= |s| && s[|s| - |suffix|..] == suffix
  }

  /** `s` ends with `suffix` exactly when it is some string followed by `suffix`. */
  lemma EndsWithIff(s: string, suffix: string)
    ensures EndsWith(s, suffix) <==> exists pre :: pre + suffix == s
  {
    if EndsWith(s, suffix) {
      assert s[..|s| - |suffix|] + suffix == s;
    }
    forall pre | pre + suffix == s ensures EndsWith(s, suffix) {
      assert s[|pre|..] == suffix;
    }
  }

  /** Runtimes that are auxiliary artifacts and never counted. */
  predicate Excluded(runtimeId: string)
  {
    EndsWith(runtimeId, ".Debug") || EndsWith(runtimeId, ".Locale") || EndsWith(runtimeId, ".Sources")
  }

  /** Every debug, locale and sources extension is excluded, and a plain name is not. */
  lemma ExcludedNames(base: string)
    ensures Excluded(base + ".Debug") && Excluded(base + ".Locale") && Excluded(base + ".Sources")
    ensures !Excluded(base + ".Platform")
  {
    EndsWithIff(base + ".Debug", ".Debug");
    EndsWithIff(base + ".Locale", ".Locale");
    EndsWithIff(base + ".Sources", ".Sources");
    var s := base + ".Platform";
    assert s[|s| - 6..] == "atform";
    assert s[|s| - 7..] == "latform";
    assert s[|s| - 8..] == "Platform";
  }

  /**
   * The inputs on which the classifier does not raise: it reads the second segment of
   * every `app` and `runtime` reference and the fourth of a counted runtime.
   */
  predicate RefToIdDefined(ref: string)
  {
    var p := Split(ref);
    (p[0] == "app" ==> |p| >= 2) &&
    (p[0] == "runtime" ==> |p| >= 2 && (!Excluded(p[1]) ==> |p| >= 4))
  }

  /** The identifier a reference is counted under, if any. */
  function RefToId(ref: string): (id: Option<string>)
    requires RefToIdDefined(ref)
    ensures id.Some? ==> Split(ref)[0] in {"app", "runtime"}
  {
    var p := Split(ref);
    if p[0] == "app" then Some(p[1])
    else if p[0] == "runtime" && !Excluded(p[1]) then Some(p[1] + "/" + p[3])
    else None
  }

  /** The architecture segment that an install is tallied under. */
  function ArchOf(ref: string): (arch: string)
    requires |Split(ref)| >= 3
    ensures '/' !in arch
  {
    Split(ref)[2]
  }

  /** An application reference is counted under its application id. */
  lemma AppId(appId: string, rest: seq<string>)
    requires Segments([appId] + rest)
    ensures var ref := Join(["app", appId] + rest);
      RefToIdDefined(ref) && RefToId(ref) == Some(appId)
  {
    assert '/' !in "app";
    SegmentsCons("app", [appId] + rest);
    assert ["app"] + ([appId] + rest) == ["app", appId] + rest;
    SplitJoin(["app", appId] + rest);
  }

  /**
   * A runtime reference is counted under `<id>/<branch>` unless it is auxiliary; segments
   * after the branch are ignored.
   */
  lemma RuntimeId(runtimeId: string, arch: string, branch: string, rest: seq<string>)
    requires Segments([runtimeId, arch, branch] + rest)
    ensures var ref := Join(["runtime", runtimeId, arch, branch] + rest);
      RefToIdDefined(ref) &&
      RefToId(ref) == if Excluded(runtimeId) then None else Some(runtimeId + "/" + branch)
  {
    assert '/' !in "runtime";
    SegmentsCons("runtime", [runtimeId, arch, branch] + rest);
    assert ["runtime"] + ([runtimeId, arch, branch] + rest) == ["runtime", runtimeId, arch, branch] + rest;
    SplitJoin(["runtime", runtimeId, arch, branch] + rest);
  }

  /**
   * An auxiliary runtime is never counted, however few segments follow its id: the
   * exclusion is tested before the branch is read.
   */
  lemma ExcludedRuntimeHasNoId(runtimeId: string, rest: seq<string>)
    requires Excluded(runtimeId)
    requires Segments([runtimeId] + rest)
    ensures var ref := Join(["runtime", runtimeId] + rest);
      RefToIdDefined(ref) && RefToId(ref) == None
  {
    assert '/' !in "runtime";
    SegmentsCons("runtime", [runtimeId] + rest);
    assert ["runtime"] + ([runtimeId] + rest) == ["runtime", runtimeId] + rest;
    SplitJoin(["runtime", runtimeId] + rest);
  }

  /** A reference whose kind is neither `app` nor `runtime` is never counted. */
  lemma OtherKindHasNoId(kind: string, rest: seq<string>)
    requires kind != "app" && kind != "runtime"
    requires Segments([kind] + rest)
    ensures var ref := Join([kind] + rest);
      RefToIdDefined(ref) && RefToId(ref) == None
  {
    SplitJoin([kind] + rest);
  }

  /** The architecture of a reference is its third segment, whatever follows it. */
  lemma ArchIsThirdSegment(kind: string, id: string, arch: string, rest: seq<string>)
    requires Segments([kind, id, arch] + rest)
    ensures var ref := Join([kind, id, arch] + rest);
      |Split(ref)| >= 3 && ArchOf(ref) == arch
  {
    SplitJoin([kind, id, arch] + rest);
  }
}
