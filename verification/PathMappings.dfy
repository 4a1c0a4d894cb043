/**
 Path translation between server and worker: packages/shared/encodr_shared/path_mappings.py:8-47
 one way, apps/api/app/services/path_safety.py:100-110 and 206-230 the other.
 */
module PathMappings {
  import opened Wrappers
  import opened Text
  import opened PosixPath

  datatype RawMapping = RawMapping(serverPath: string, workerPath: string)
  datatype Mapping = Mapping(serverPath: string, workerPath: string)

  // ----------------------------------------------------- Normalised lists

  function CleanOne(cwd: seq<string>, raw: RawMapping): seq<Mapping> {
    var server, worker := Strip(raw.serverPath), Strip(raw.workerPath);
    if server == "" || worker == "" then []
    else [Mapping(Render(1, ResolveComps(cwd, server)), PathStr(worker))]
  }

  function Clean(cwd: seq<string>, raw: seq<RawMapping>): seq<Mapping> {
    if raw == [] then [] else Clean(cwd, raw[..|raw| - 1]) + CleanOne(cwd, raw[|raw| - 1])
  }

  /** A stable sort by descending length inserts each new item after its equals. */
  function Insert(sorted: seq<Mapping>, m: Mapping): seq<Mapping> {
    if sorted == [] || |sorted[0].serverPath| < |m.serverPath| then [m] + sorted
    else [sorted[0]] + Insert(sorted[1..], m)
  }

  function SortByServerLength(ms: seq<Mapping>): seq<Mapping> {
    if ms == [] then [] else Insert(SortByServerLength(ms[..|ms| - 1]), ms[|ms| - 1])
  }

  function Normalised(cwd: seq<string>, raw: seq<RawMapping>): seq<Mapping> {
    SortByServerLength(Clean(cwd, raw))
  }

  ghost predicate LongestFirst(ms: seq<Mapping>) {
    forall i, j :: 0 <= i < j < |ms| ==> |ms[i].serverPath| >= |ms[j].serverPath|
  }

  lemma {:induction false} InsertSorts(sorted: seq<Mapping>, m: Mapping)
    requires LongestFirst(sorted)
    ensures LongestFirst(Insert(sorted, m))
    ensures multiset(Insert(sorted, m)) == multiset(sorted) + multiset{m}
  {
    if sorted != [] && |sorted[0].serverPath| >= |m.serverPath| {
      var rest := sorted[1..];
      InsertSorts(rest, m);
      assert sorted == [sorted[0]] + rest;
      InsertKeepsBound(rest, m, |sorted[0].serverPath|);
    }
  }

  lemma {:induction false} InsertKeepsBound(sorted: seq<Mapping>, m: Mapping, bound: nat)
    requires |m.serverPath| <= bound && forall i :: 0 <= i < |sorted| ==> |sorted[i].serverPath| <= bound
    ensures forall i :: 0 <= i < |Insert(sorted, m)| ==> |Insert(sorted, m)[i].serverPath| <= bound
  {
    if sorted != [] && |sorted[0].serverPath| >= |m.serverPath| {
      InsertKeepsBound(sorted[1..], m, bound);
    }
  }

  lemma {:induction false} SortIsASort(ms: seq<Mapping>)
    ensures LongestFirst(SortByServerLength(ms))
    ensures multiset(SortByServerLength(ms)) == multiset(ms)
  {
    if ms != [] {
      var front, last := ms[..|ms| - 1], ms[|ms| - 1];
      assert ms == front + [last];
      SortIsASort(front);
      InsertSorts(SortByServerLength(front), last);
    }
  }

  /** What cleaning makes of each item. */
  ghost predicate WellFormed(m: Mapping) {
    && Normal(true, Parts(m.serverPath)) && m.serverPath == Render(1, Parts(m.serverPath))
    && m.workerPath == PathStr(m.workerPath)
  }

  lemma {:induction false} CleanIsWellFormed(cwd: seq<string>, raw: seq<RawMapping>)
    requires Normal(true, cwd)
    ensures forall m :: m in Clean(cwd, raw) ==> WellFormed(m)
  {
    if raw != [] {
      CleanIsWellFormed(cwd, raw[..|raw| - 1]);
      var server, worker := Strip(raw[|raw| - 1].serverPath), Strip(raw[|raw| - 1].workerPath);
      ResolvedIsNormal(cwd, server);
      RenderReadsBack(1, ResolveComps(cwd, server));
      RenderReadsBack(Slashes(worker), Parts(worker));
    }
  }

  lemma NormalisedIsWellFormed(cwd: seq<string>, raw: seq<RawMapping>)
    requires Normal(true, cwd)
    ensures forall i :: 0 <= i < |Normalised(cwd, raw)| ==> WellFormed(Normalised(cwd, raw)[i])
    ensures LongestFirst(Normalised(cwd, raw))
  {
    CleanIsWellFormed(cwd, raw);
    SortIsASort(Clean(cwd, raw));
    var ms := Normalised(cwd, raw);
    forall i | 0 <= i < |ms| ensures WellFormed(ms[i]) {
      assert ms[i] in multiset(Clean(cwd, raw));
    }
  }

  /** Both texts are nonblank, and `m` is the item with its server text resolved and its worker text parsed. */
  predicate Becomes(cwd: seq<string>, raw: RawMapping, m: Mapping) {
    && Strip(raw.serverPath) != "" && Strip(raw.workerPath) != ""
    && m.serverPath == Render(1, ResolveComps(cwd, Strip(raw.serverPath)))
    && m.workerPath == PathStr(Strip(raw.workerPath))
  }

  /** The items that become `m`. */
  function Origins(cwd: seq<string>, raw: seq<RawMapping>, m: Mapping): (origins: set<nat>)
    ensures forall i: nat :: i in origins <==> i < |raw| && Becomes(cwd, raw[i], m)
  {
    TruePlaces(seq(|raw|, i requires 0 <= i < |raw| => Becomes(cwd, raw[i], m)))
  }

  function TruePlaces(flags: seq<bool>): set<nat> {
    set i: nat | i < |flags| && flags[i]
  }

  lemma TruePlacesGrow(flags: seq<bool>, flag: bool)
    ensures |TruePlaces(flags + [flag])| == |TruePlaces(flags)| + if flag then 1 else 0
  {
    assert TruePlaces(flags + [flag]) == TruePlaces(flags) + if flag then {|flags|} else {};
  }

  /** Cleaning keeps each item with two nonblank texts, once, and nothing else. */
  lemma {:induction false} CleanKeepsItems(cwd: seq<string>, raw: seq<RawMapping>, m: Mapping)
    ensures multiset(Clean(cwd, raw))[m] == |Origins(cwd, raw, m)|
  {
    if raw != [] {
      var front, last := raw[..|raw| - 1], raw[|raw| - 1];
      assert raw == front + [last];
      CleanKeepsItems(cwd, front, m);
      CountGrows(cwd, front, last, m);
    }
  }

  lemma CleanGrows(cwd: seq<string>, front: seq<RawMapping>, last: RawMapping)
    ensures Clean(cwd, front + [last]) == Clean(cwd, front) + CleanOne(cwd, last)
  {
    assert (front + [last])[..|front|] == front;
  }

  lemma CountGrows(cwd: seq<string>, front: seq<RawMapping>, last: RawMapping, m: Mapping)
    requires multiset(Clean(cwd, front))[m] == |Origins(cwd, front, m)|
    ensures multiset(Clean(cwd, front + [last]))[m] == |Origins(cwd, front + [last], m)|
  {
    CleanGrows(cwd, front, last);
    CleanOneKeeps(cwd, last, m);
    OriginsGrow(cwd, front, last, m);
  }

  lemma CleanOneKeeps(cwd: seq<string>, raw: RawMapping, m: Mapping)
    ensures multiset(CleanOne(cwd, raw))[m] == if Becomes(cwd, raw, m) then 1 else 0
  {
  }

  lemma OriginsGrow(cwd: seq<string>, front: seq<RawMapping>, last: RawMapping, m: Mapping)
    ensures |Origins(cwd, front + [last], m)| == |Origins(cwd, front, m)| + if Becomes(cwd, last, m) then 1 else 0
  {
    var raw := front + [last];
    var flags := seq(|front|, i requires 0 <= i < |front| => Becomes(cwd, front[i], m));
    assert seq(|raw|, i requires 0 <= i < |raw| => Becomes(cwd, raw[i], m)) == flags + [Becomes(cwd, last, m)];
    TruePlacesGrow(flags, Becomes(cwd, last, m));
  }

  /** The mappings from one server path, in order. */
  function From(ms: seq<Mapping>, serverPath: string): seq<Mapping> {
    if ms == [] then []
    else From(ms[..|ms| - 1], serverPath) + if ms[|ms| - 1].serverPath == serverPath then [ms[|ms| - 1]] else []
  }

  lemma {:induction false} FromConcat(a: seq<Mapping>, b: seq<Mapping>, serverPath: string)
    ensures From(a + b, serverPath) == From(a, serverPath) + From(b, serverPath)
    decreases |b|
  {
    if b == [] {
      assert a + b == a;
    } else {
      assert (a + b)[..|a + b| - 1] == a + b[..|b| - 1];
      FromConcat(a, b[..|b| - 1], serverPath);
    }
  }

  lemma {:induction false} InsertIsStable(sorted: seq<Mapping>, m: Mapping, serverPath: string)
    requires LongestFirst(sorted)
    ensures From(Insert(sorted, m), serverPath) == From(sorted, serverPath) + From([m], serverPath)
  {
    if sorted == [] || |sorted[0].serverPath| < |m.serverPath| {
      InFrontIsStable(sorted, m, serverPath);
    } else {
      var first, rest := sorted[0], sorted[1..];
      InsertIsStable(rest, m, serverPath);
      FromConcat([first], Insert(rest, m), serverPath);
      FromConcat([first], rest, serverPath);
      assert [first] + rest == sorted;
    }
  }

  /** A longer mapping goes in front of all, and none of them is from its server path. */
  lemma InFrontIsStable(sorted: seq<Mapping>, m: Mapping, serverPath: string)
    requires LongestFirst(sorted) && (sorted == [] || |sorted[0].serverPath| < |m.serverPath|)
    ensures From([m] + sorted, serverPath) == From(sorted, serverPath) + From([m], serverPath)
  {
    FromConcat([m], sorted, serverPath);
    if m.serverPath == serverPath {
      NoneFrom(sorted, serverPath);
    } else {
      NoneFrom([m], serverPath);
    }
  }

  lemma {:induction false} NoneFrom(ms: seq<Mapping>, serverPath: string)
    requires forall i :: 0 <= i < |ms| ==> ms[i].serverPath != serverPath
    ensures From(ms, serverPath) == []
  {
    if ms != [] {
      NoneFrom(ms[..|ms| - 1], serverPath);
    }
  }

  /** Sorting keeps the order of the mappings from one server path. */
  lemma {:induction false} SortIsStable(ms: seq<Mapping>, serverPath: string)
    ensures From(SortByServerLength(ms), serverPath) == From(ms, serverPath)
  {
    if ms != [] {
      var front, last := ms[..|ms| - 1], ms[|ms| - 1];
      assert ms == front + [last];
      SortIsStable(front, serverPath);
      SortIsASort(front);
      InsertIsStable(SortByServerLength(front), last, serverPath);
      FromConcat(front, [last], serverPath);
    }
  }

  /** `normalise_path_mappings` */
  method NormalisePathMappings(cwd: seq<string>, raw: seq<RawMapping>) returns (cleaned: seq<Mapping>)
    requires Normal(true, cwd)
    ensures cleaned == Normalised(cwd, raw)
    ensures LongestFirst(cleaned)
    ensures forall m :: multiset(cleaned)[m] == |Origins(cwd, raw, m)|
    ensures forall m :: m in cleaned <==> exists i :: 0 <= i < |raw| && Becomes(cwd, raw[i], m)
    ensures forall i :: 0 <= i < |cleaned| ==> WellFormed(cleaned[i])
  {
    var kept: seq<Mapping> := [];
    for n := 0 to |raw|
      invariant kept == Clean(cwd, raw[..n])
    {
      assert raw[..n + 1][..n] == raw[..n];
      var server, worker := Strip(raw[n].serverPath), Strip(raw[n].workerPath);
      if server == "" || worker == "" {
        continue;
      }
      kept := kept + [Mapping(Render(1, ResolveComps(cwd, server)), PathStr(worker))];
    }
    assert raw[..|raw|] == raw;
    cleaned := SortMappings(kept);
    NormalisedIsWellFormed(cwd, raw);
    KeptExactly(cwd, raw);
  }

  lemma KeptExactly(cwd: seq<string>, raw: seq<RawMapping>)
    ensures forall m :: multiset(Normalised(cwd, raw))[m] == |Origins(cwd, raw, m)|
    ensures forall m :: m in Normalised(cwd, raw) <==> exists i :: 0 <= i < |raw| && Becomes(cwd, raw[i], m)
  {
    var kept := Normalised(cwd, raw);
    SortIsASort(Clean(cwd, raw));
    forall m
      ensures multiset(kept)[m] == |Origins(cwd, raw, m)|
      ensures m in kept <==> exists i :: 0 <= i < |raw| && Becomes(cwd, raw[i], m)
    {
      CleanKeepsItems(cwd, raw, m);
      assert m in kept <==> m in multiset(kept);
      if i :| 0 <= i < |raw| && Becomes(cwd, raw[i], m) {
        assert i in Origins(cwd, raw, m);
      } else {
        assert Origins(cwd, raw, m) == {};
      }
    }
  }

  /** `list.sort` by descending length. */
  method SortMappings(ms: seq<Mapping>) returns (sorted: seq<Mapping>)
    ensures sorted == SortByServerLength(ms) && multiset(sorted) == multiset(ms)
  {
    sorted := [];
    for n := 0 to |ms|
      invariant sorted == SortByServerLength(ms[..n])
    {
      assert ms[..n + 1][..n] == ms[..n];
      sorted := Insert(sorted, ms[n]);
    }
    assert ms[..|ms|] == ms;
    SortIsASort(ms);
  }

  // ----------------------------------------------------- Server to worker

  predicate Covers(prefix: string, source: string) {
    source == prefix || StartsWith(source, prefix + "/")
  }

  function LStripSlashes(s: string): string {
    if StartsWith(s, "/") then LStripSlashes(s[1..]) else s
  }

  /** `mapping_for_server_path`: the longest server prefix that covers the path. */
  method MappingForServerPath(source: string, ms: seq<Mapping>) returns (index: Option<nat>)
    requires LongestFirst(ms)
    ensures index.None? <==> forall i :: 0 <= i < |ms| ==> !Covers(ms[i].serverPath, source)
    ensures index == FirstCovering(source, ms)
    ensures index.Some? ==> index.value < |ms| && Covers(ms[index.value].serverPath, source)
    ensures index.Some? ==> forall i :: 0 <= i < |ms| && Covers(ms[i].serverPath, source) ==>
      |ms[i].serverPath| <= |ms[index.value].serverPath|
  {
    for n := 0 to |ms|
      invariant forall i :: 0 <= i < n ==> !Covers(ms[i].serverPath, source)
    {
      if source == ms[n].serverPath || StartsWith(source, ms[n].serverPath + "/") {
        return Some(n);
      }
    }
    return None;
  }

  function FirstCovering(source: string, ms: seq<Mapping>): (index: Option<nat>)
    ensures index.Some? ==> index.value < |ms| && Covers(ms[index.value].serverPath, source)
    ensures index.Some? ==> forall i :: 0 <= i < index.value ==> !Covers(ms[i].serverPath, source)
    ensures index.None? ==> forall i :: 0 <= i < |ms| ==> !Covers(ms[i].serverPath, source)
  {
    if ms == [] then None
    else if Covers(ms[0].serverPath, source) then Some(0)
    else
      match FirstCovering(source, ms[1..])
      case Some(i) => Some(i + 1)
      case None => None
  }

  /** The text `remap_server_path` builds from a resolved source and its mapping. */
  function WorkerText(source: string, m: Mapping): string
    requires Covers(m.serverPath, source)
  {
    var suffix := LStripSlashes(source[|m.serverPath|..]);
    var base := PathStr(m.workerPath);
    if suffix == "" then base else Render(Slashes(base), Parts(base) + Parts(suffix))
  }

  /** `remap_server_path` */
  function RemapServerPath(cwd: seq<string>, path: string, ms: seq<Mapping>): Option<string> {
    var source := Render(1, ResolveComps(cwd, path));
    var index :- FirstCovering(source, ms);
    Some(WorkerText(source, ms[index]))
  }

  // ----------------------------------------------------- Worker to server

  predicate LooksLikeWindowsPath(s: string) {
    || '\\' in s
    || (|s| >= 3 && ('a' <= s[0] <= 'z' || 'A' <= s[0] <= 'Z') && s[1] == ':' && s[2] == '/')
  }

  function ForwardSlashes(s: string): (r: string)
    ensures |r| == |s|
    ensures forall i :: 0 <= i < |s| ==> r[i] == if s[i] == '\\' then '/' else s[i]
    ensures '\\' !in s ==> r == s
  {
    seq(|s|, i requires 0 <= i < |s| => if s[i] == '\\' then '/' else s[i])
  }

  function RStripSlashes(s: string): string {
    if s != "" && s[|s| - 1] == '/' then RStripSlashes(s[..|s| - 1]) else s
  }

  function NonEmpty(parts: seq<string>): seq<string> {
    if parts == [] then []
    else (if parts[0] == "" then [] else [parts[0]]) + NonEmpty(parts[1..])
  }

  /** `_worker_path_suffix` */
  function WorkerPathSuffix(path: string, root: string): Option<seq<string>> {
    var windows := LooksLikeWindowsPath(path) || LooksLikeWindowsPath(root);
    SuffixUnder(windows, NormPath(ForwardSlashes(path)), NormPath(ForwardSlashes(root)))
  }

  function SuffixUnder(windows: bool, normalPath: string, normalRoot: string): Option<seq<string>> {
    var comparePath := if windows then Lower(normalPath) else normalPath;
    var compareRoot := if windows then Lower(normalRoot) else normalRoot;
    if comparePath == compareRoot then Some([])
    else
      var prefix := RStripSlashes(compareRoot);
      if !StartsWith(comparePath, prefix + "/") then None
      else Some(NonEmpty(Split(LStripSlashes(normalPath[|prefix|..]), '/')))
  }

  function FirstSome<T>(options: seq<Option<T>>): (r: Option<(nat, T)>)
    ensures r.Some? ==> r.value.0 < |options| && options[r.value.0] == Some(r.value.1)
    ensures r.Some? ==> forall i :: 0 <= i < r.value.0 ==> options[i].None?
    ensures r.None? ==> forall i :: 0 <= i < |options| ==> options[i].None?
  {
    if options == [] then None
    else if options[0].Some? then Some((0, options[0].value))
    else
      var (i, value) :- FirstSome(options[1..]);
      Some((i + 1, value))
  }

  /** The suffix under each mapping's worker root, in the order of the mappings. */
  function Suffixes(path: string, ms: seq<Mapping>): seq<Option<seq<string>>> {
    seq(|ms|, i requires 0 <= i < |ms| => WorkerPathSuffix(path, ms[i].workerPath))
  }

  /** The components of `server_root.joinpath(*suffix).resolve()`. */
  function Joined(m: Mapping, suffix: seq<string>): seq<string> {
    Collapse(true, Parts(m.serverPath), suffix)
  }

  /** `remap_worker_path_to_server_path`, as the posix text of its result. */
  function RemapWorkerPath(path: string, ms: seq<Mapping>): string {
    match FirstSome(Suffixes(path, ms))
    case Some((i, suffix)) => Render(1, Joined(ms[i], suffix))
    case None => PathStr(path)
  }

  // ------------------------------------------ Suffixes, read on components

  function LowerAll(comps: seq<string>): seq<string> {
    seq(|comps|, i requires 0 <= i < |comps| => Lower(comps[i]))
  }

  function Fold(windows: bool, comps: seq<string>): seq<string> {
    if windows then LowerAll(comps) else comps
  }

  /** `p`, with `m` leading slashes, is at or below `r`, with `k`: what is left of it. */
  function Below(windows: bool, m: nat, p: seq<string>, k: nat, r: seq<string>): Option<seq<string>> {
    if m == k && Fold(windows, p) == Fold(windows, r) then Some([])
    else if r == [] then if k > 0 && m > 0 then Some(p) else None
    else if m == k && |r| < |p| && Fold(windows, p[..|r|]) == Fold(windows, r) then Some(p[|r|..])
    else None
  }

  lemma {:induction false} LowerJoin(comps: seq<string>)
    ensures Lower(Join(comps, '/')) == Join(LowerAll(comps), '/')
  {
    if |comps| > 1 {
      LowerJoin(comps[1..]);
      assert LowerAll(comps)[1..] == LowerAll(comps[1..]);
      assert Lower(comps[0] + ['/'] + Join(comps[1..], '/')) == Lower(comps[0]) + ['/'] + Lower(Join(comps[1..], '/'));
    } else if comps == [] {
      assert Lower([]) == [];
    }
  }

  lemma LowerRender(k: nat, comps: seq<string>)
    requires k <= 2
    ensures Lower(Render(k, comps)) == Render(k, LowerAll(comps))
  {
    LowerJoin(comps);
    assert Lower(".") == ".";
    assert Lower(Root(k) + Join(comps, '/')) == Root(k) + Lower(Join(comps, '/'));
  }

  lemma LowerPlain(comps: seq<string>)
    requires AllPlain(comps)
    ensures AllPlain(LowerAll(comps))
  {
    forall i | 0 <= i < |comps| ensures Plain(LowerAll(comps)[i]) {
      var c := comps[i];
      if |c| == 1 {
        assert c == [c[0]];
      }
      forall j | 0 <= j < |c| ensures Lower(c)[j] != '/' {
        assert c[j] in c;
      }
    }
  }

  lemma FoldedRender(windows: bool, k: nat, comps: seq<string>)
    requires k <= 2 && AllPlain(comps)
    ensures AllPlain(Fold(windows, comps)) && |Fold(windows, comps)| == |comps|
    ensures (if windows then Lower(Render(k, comps)) else Render(k, comps)) == Render(k, Fold(windows, comps))
    ensures |Render(k, comps)| == |Render(k, Fold(windows, comps))|
  {
    if windows {
      LowerRender(k, comps);
      LowerPlain(comps);
    }
  }

  lemma {:induction false} NonEmptyFixed(parts: seq<string>)
    requires AllPlain(parts)
    ensures NonEmpty(parts) == parts
  {
    if parts != [] {
      NonEmptyFixed(parts[1..]);
    }
  }

  lemma SuffixSplits(q: seq<string>)
    requires AllPlain(q)
    ensures NonEmpty(Split(LStripSlashes(Join(q, '/')), '/')) == q
    ensures NonEmpty(Split(LStripSlashes("/" + Join(q, '/')), '/')) == q
  {
    assert ("/" + Join(q, '/'))[1..] == Join(q, '/');
    if q == [] {
      SplitPlain("", '/');
      assert NonEmpty([""]) == [];
    } else {
      JoinStartsPlain(q);
      SplitJoin(q, '/');
      NonEmptyFixed(q);
    }
  }

  lemma RStripRendered(k: nat, r: seq<string>)
    requires k <= 2 && AllPlain(r)
    ensures r != [] ==> RStripSlashes(Render(k, r)) == Render(k, r)
    ensures r == [] ==> RStripSlashes(Render(k, r)) == if k == 0 then "." else ""
  {
    if r != [] {
      JoinEndsPlain(r);
    } else {
      assert Root(k) + Join(r, '/') == Root(k);
      assert "//"[..1] == "/" && "/"[..0] == "";
      assert RStripSlashes("/") == "";
    }
  }

  lemma {:induction false} JoinEndsPlain(r: seq<string>)
    requires AllPlain(r) && r != []
    ensures Join(r, '/') != "" && Join(r, '/')[|Join(r, '/')| - 1] != '/'
  {
    if |r| == 1 {
      assert r[0][|r[0]| - 1] in r[0];
    } else {
      JoinEndsPlain(r[1..]);
    }
  }

  /** The text comparison, for rendered paths, is the comparison of components. */
  lemma RenderedBelow(windows: bool, m: nat, p: seq<string>, k: nat, r: seq<string>)
    requires m <= 2 && k <= 2 && AllPlain(p) && AllPlain(r)
    ensures Render(m, Fold(windows, p)) == Render(k, Fold(windows, r)) <==> m == k && Fold(windows, p) == Fold(windows, r)
    ensures r != [] ==>
      (StartsWith(Render(m, Fold(windows, p)), Render(k, Fold(windows, r)) + "/")
       <==> m == k && |r| < |p| && Fold(windows, p[..|r|]) == Fold(windows, r))
  {
    FoldedRender(windows, m, p);
    FoldedRender(windows, k, r);
    RenderReadsBack(m, Fold(windows, p));
    RenderReadsBack(k, Fold(windows, r));
    if r != [] {
      RenderedPrefix(m, Fold(windows, p), k, Fold(windows, r));
      if |r| < |p| {
        assert Fold(windows, p)[..|r|] == Fold(windows, p[..|r|]);
      }
    }
  }

  lemma RenderedSplit(m: nat, p: seq<string>, n: nat)
    requires m <= 2 && 0 < n < |p|
    ensures Render(m, p) == Render(m, p[..n]) + ("/" + Join(p[n..], '/'))
  {
    assert p == p[..n] + p[n..];
    RenderBelow(m, p[..n], p[n..]);
  }

  lemma FoldedLengths(windows: bool, m: nat, p: seq<string>, r: seq<string>)
    requires m <= 2 && AllPlain(p) && AllPlain(r) && r != [] && |r| < |p|
    requires Fold(windows, p[..|r|]) == Fold(windows, r)
    ensures |Render(m, p[..|r|])| == |Render(m, Fold(windows, r))|
  {
    FoldedRender(windows, m, p[..|r|]);
  }

  lemma SuffixMeaning(path: string, root: string)
    ensures var windows := LooksLikeWindowsPath(path) || LooksLikeWindowsPath(root);
      var p, r := ForwardSlashes(path), ForwardSlashes(root);
      WorkerPathSuffix(path, root) == Below(windows, Slashes(p), NormComps(p), Slashes(r), NormComps(r))
  {
    var windows := LooksLikeWindowsPath(path) || LooksLikeWindowsPath(root);
    var p, r := ForwardSlashes(path), ForwardSlashes(root);
    NormCompsAreNormal(p);
    NormCompsAreNormal(r);
    SuffixOfRendered(windows, Slashes(p), NormComps(p), Slashes(r), NormComps(r));
  }

  /** A drive letter, a colon and a slash. */
  ghost predicate DriveRooted(s: string) {
    exists drive: char, rest: string :: ('a' <= drive <= 'z' || 'A' <= drive <= 'Z') && s == [drive] + ":/" + rest
  }

  /** Case is ignored exactly when one of the two texts has a backslash or starts at a drive. */
  lemma CaseIsIgnoredExactly(path: string, root: string)
    ensures var windows := '\\' in path || '\\' in root || DriveRooted(path) || DriveRooted(root);
      var p, r := ForwardSlashes(path), ForwardSlashes(root);
      WorkerPathSuffix(path, root) == Below(windows, Slashes(p), NormComps(p), Slashes(r), NormComps(r))
  {
    SuffixMeaning(path, root);
    DriveText(path);
    DriveText(root);
  }

  lemma DriveText(s: string)
    ensures LooksLikeWindowsPath(s) <==> '\\' in s || DriveRooted(s)
  {
    if LooksLikeWindowsPath(s) && '\\' !in s {
      assert s == [s[0]] + ":/" + s[3..];
    }
    if drive: char, rest: string :|
      ('a' <= drive <= 'z' || 'A' <= drive <= 'Z') && s == [drive] + ":/" + rest
    {
      assert s[0] == drive && s[1] == ":/"[0] && s[2] == ":/"[1];
    }
  }

  lemma SuffixOfRendered(windows: bool, m: nat, p: seq<string>, k: nat, r: seq<string>)
    requires m <= 2 && k <= 2 && AllPlain(p) && AllPlain(r)
    ensures SuffixUnder(windows, Render(m, p), Render(k, r)) == Below(windows, m, p, k, r)
  {
    FoldedRender(windows, m, p);
    FoldedRender(windows, k, r);
    RenderedBelow(windows, m, p, k, r);
    RStripRendered(k, Fold(windows, r));
    if m == k && Fold(windows, p) == Fold(windows, r) {
    } else if r == [] {
      RootSuffix(windows, m, p, k);
    } else if m == k && |r| < |p| && Fold(windows, p[..|r|]) == Fold(windows, r) {
      SuffixText(windows, m, p, r);
    }
  }

  /** What is cut off a path below its root, read as components. */
  lemma SuffixText(windows: bool, m: nat, p: seq<string>, r: seq<string>)
    requires m <= 2 && AllPlain(p) && AllPlain(r) && r != [] && |r| < |p|
    requires Fold(windows, p[..|r|]) == Fold(windows, r)
    ensures |Render(m, p)| >= |Render(m, Fold(windows, r))|
    ensures NonEmpty(Split(LStripSlashes(Render(m, p)[|Render(m, Fold(windows, r))|..]), '/')) == p[|r|..]
  {
    var cut := |Render(m, p[..|r|])|;
    RenderedSplit(m, p, |r|);
    FoldedLengths(windows, m, p, r);
    assert Render(m, p)[cut..] == "/" + Join(p[|r|..], '/');
    SuffixSplits(p[|r|..]);
  }

  /** A root without components: "." matches only itself, "/" and "//" every absolute path. */
  lemma RootSuffix(windows: bool, m: nat, p: seq<string>, k: nat)
    requires m <= 2 && k <= 2 && AllPlain(p)
    ensures k == 0 ==> !StartsWith(Render(m, Fold(windows, p)), "./")
    ensures k > 0 ==> (StartsWith(Render(m, Fold(windows, p)), "/") <==> m > 0)
    ensures m > 0 ==> NonEmpty(Split(LStripSlashes(Render(m, p)), '/')) == p
  {
    FoldedRender(windows, m, p);
    RootStarts(m, Fold(windows, p));
    if m > 0 {
      RootedSplit(m, p);
    }
  }

  lemma RootStarts(m: nat, q: seq<string>)
    requires m <= 2 && AllPlain(q)
    ensures !StartsWith(Render(m, q), "./")
    ensures StartsWith(Render(m, q), "/") <==> m > 0
  {
    var s := Render(m, q);
    if m == 0 && q != [] {
      JoinStartsPlain(q);
      assert s == Join(q, '/');
      assert |q[0]| == 1 ==> q[0] == [q[0][0]];
      assert |q[0]| > 1 ==> s[1] == q[0][1] && q[0][1] in q[0];
    }
    assert q == [] && m == 0 ==> s == ".";
    assert StartsWith(s, "/") ==> s[0] == "/"[0];
    assert m > 0 ==> s[0] == Root(m)[0] == '/' && s == "/" + s[1..];
  }

  lemma RootedSplit(m: nat, p: seq<string>)
    requires 1 <= m <= 2 && AllPlain(p)
    ensures NonEmpty(Split(LStripSlashes(Render(m, p)), '/')) == p
  {
    SuffixSplits(p);
    RootedText(m, Join(p, '/'));
  }

  lemma RootedText(m: nat, s: string)
    requires 1 <= m <= 2
    ensures LStripSlashes(Root(m) + s) == LStripSlashes(s)
  {
    StripOne(s);
    if m == 2 {
      StripOne("/" + s);
      assert Root(2) + s == "/" + ("/" + s);
    }
  }

  lemma StripOne(s: string)
    ensures LStripSlashes("/" + s) == LStripSlashes(s)
  {
    assert ("/" + s)[1..] == s;
  }
}
