/** Round trip and containment of the path translations in PathMappings. */
module PathTranslation {
  import opened Wrappers
  import opened Text
  import opened PosixPath
  import opened PathMappings

  // --------------------------------------------------- Going to the worker

  /** Covering, on components: the server root is a prefix, and "/" covers only itself. */
  lemma CoveredComps(m: Mapping, c: seq<string>)
    requires WellFormed(m) && Normal(true, c)
    ensures var s := Parts(m.serverPath);
      Covers(m.serverPath, Render(1, c)) <==> s == c || (s != [] && |s| < |c| && s <= c)
  {
    var s, source := Parts(m.serverPath), Render(1, c);
    RenderReadsBack(1, c);
    RenderReadsBack(1, s);
    if s == [] {
      assert Render(1, s) == "/";
      if c != [] {
        JoinStartsPlain(c);
        assert source[1] == Join(c, '/')[0];
      }
    } else {
      RenderedPrefix(1, c, 1, s);
    }
  }

  lemma WorkerTextAtRoot(m: Mapping)
    requires WellFormed(m)
    ensures WorkerText(m.serverPath, m) == Render(Slashes(m.workerPath), Parts(m.workerPath))
  {
    assert m.serverPath[|m.serverPath|..] == "";
  }

  lemma WorkerTextBelowRoot(m: Mapping, t: seq<string>)
    requires WellFormed(m) && AllPlain(t) && t != []
    ensures Covers(m.serverPath, m.serverPath + ("/" + Join(t, '/')))
    ensures WorkerText(m.serverPath + ("/" + Join(t, '/')), m)
         == Render(Slashes(m.workerPath), Parts(m.workerPath) + t)
  {
    var suffix := "/" + Join(t, '/');
    var source := m.serverPath + suffix;
    assert source[|m.serverPath|..] == suffix && suffix[1..] == Join(t, '/');
    assert source[..|m.serverPath + "/"|] == m.serverPath + "/";
    JoinStartsPlain(t);
    RenderReadsBack(0, t);
    assert LStripSlashes(suffix) == LStripSlashes(Join(t, '/')) == Join(t, '/') == Render(0, t);
    assert PathStr(m.workerPath) == m.workerPath;
  }

  lemma WorkerTextComps(m: Mapping, c: seq<string>)
    requires WellFormed(m) && Normal(true, c) && Covers(m.serverPath, Render(1, c))
    ensures var s := Parts(m.serverPath);
      && s <= c
      && WorkerText(Render(1, c), m) == Render(Slashes(m.workerPath), Parts(m.workerPath) + c[|s|..])
  {
    CoveredComps(m, c);
    var s := Parts(m.serverPath);
    var t := c[|s|..];
    assert c == s + t;
    if t == [] {
      WorkerTextAtRoot(m);
      assert Parts(m.workerPath) + t == Parts(m.workerPath);
    } else {
      ServerTextBelowRoot(m, s, t);
      WorkerTextBelowRoot(m, t);
    }
  }

  lemma ServerTextBelowRoot(m: Mapping, s: seq<string>, t: seq<string>)
    requires WellFormed(m) && s == Parts(m.serverPath) && s != [] && t != []
    ensures Render(1, s + t) == m.serverPath + ("/" + Join(t, '/'))
  {
    RenderBelow(1, s, t);
  }

  /** The item has two nonblank texts, and its server text resolves to these components. */
  predicate MapsFrom(cwd: seq<string>, raw: RawMapping, s: seq<string>) {
    Strip(raw.serverPath) != "" && Strip(raw.workerPath) != "" && ResolveComps(cwd, Strip(raw.serverPath)) == s
  }

  /** The first item that does. */
  predicate FirstFrom(cwd: seq<string>, raw: seq<RawMapping>, s: seq<string>, j: nat) {
    j < |raw| && MapsFrom(cwd, raw[j], s) && forall k :: 0 <= k < j ==> !MapsFrom(cwd, raw[k], s)
  }

  lemma CleanOneFrom(cwd: seq<string>, raw: RawMapping, s: seq<string>)
    requires Normal(true, cwd) && Normal(true, s)
    ensures From(CleanOne(cwd, raw), Render(1, s)) ==
      if MapsFrom(cwd, raw, s) then [Mapping(Render(1, s), PathStr(Strip(raw.workerPath)))] else []
  {
    var c := ResolveComps(cwd, Strip(raw.serverPath));
    ResolvedIsNormal(cwd, Strip(raw.serverPath));
    RenderReadsBack(1, c);
    RenderReadsBack(1, s);
  }

  /** The first mapping kept from a server path is that of the first item that resolves to it. */
  lemma {:induction false} FirstOfClean(cwd: seq<string>, raw: seq<RawMapping>, s: seq<string>, j: nat)
    requires Normal(true, cwd) && Normal(true, s) && FirstFrom(cwd, raw, s, j)
    ensures var kept := From(Clean(cwd, raw), Render(1, s));
      kept != [] && kept[0] == Mapping(Render(1, s), PathStr(Strip(raw[j].workerPath)))
    decreases |raw|
  {
    var front, last := raw[..|raw| - 1], raw[|raw| - 1];
    assert raw == front + [last];
    FromGrows(cwd, front, last, s);
    if j < |front| {
      FirstOfClean(cwd, front, s, j);
    } else {
      NoneOfClean(cwd, front, s);
    }
  }

  lemma FromGrows(cwd: seq<string>, front: seq<RawMapping>, last: RawMapping, s: seq<string>)
    requires Normal(true, cwd) && Normal(true, s)
    ensures From(Clean(cwd, front + [last]), Render(1, s)) == From(Clean(cwd, front), Render(1, s)) +
      if MapsFrom(cwd, last, s) then [Mapping(Render(1, s), PathStr(Strip(last.workerPath)))] else []
  {
    CleanGrows(cwd, front, last);
    FromConcat(Clean(cwd, front), CleanOne(cwd, last), Render(1, s));
    CleanOneFrom(cwd, last, s);
  }

  lemma {:induction false} NoneOfClean(cwd: seq<string>, raw: seq<RawMapping>, s: seq<string>)
    requires Normal(true, cwd) && Normal(true, s) && forall k :: 0 <= k < |raw| ==> !MapsFrom(cwd, raw[k], s)
    ensures From(Clean(cwd, raw), Render(1, s)) == []
  {
    if raw != [] {
      var front, last := raw[..|raw| - 1], raw[|raw| - 1];
      assert raw == front + [last];
      NoneOfClean(cwd, front, s);
      FromGrows(cwd, front, last, s);
    }
  }

  /** A mapping that covers the path, when no longer one does and none before it has its server path, is the one found. */
  lemma {:induction false} FirstCoveringIs(source: string, ms: seq<Mapping>, serverPath: string)
    requires LongestFirst(ms) && Covers(serverPath, source) && From(ms, serverPath) != []
    requires forall i :: 0 <= i < |ms| && Covers(ms[i].serverPath, source) ==> |ms[i].serverPath| <= |serverPath|
    ensures FirstCovering(source, ms).Some? && ms[FirstCovering(source, ms).value] == From(ms, serverPath)[0]
  {
    FromFront(ms, serverPath);
    if Covers(ms[0].serverPath, source) {
      FromIsHere(ms, serverPath);
      CoversOnce(ms[0].serverPath, serverPath, source);
    } else {
      FirstCoveringIs(source, ms[1..], serverPath);
    }
  }

  lemma FromFront(ms: seq<Mapping>, serverPath: string)
    requires ms != []
    ensures From(ms, serverPath) == (if ms[0].serverPath == serverPath then [ms[0]] else []) + From(ms[1..], serverPath)
  {
    FromConcat([ms[0]], ms[1..], serverPath);
    assert [ms[0]] + ms[1..] == ms;
  }

  lemma CoversOnce(a: string, b: string, source: string)
    requires Covers(a, source) && Covers(b, source) && |a| == |b|
    ensures a == b
  {
    assert a == source[..|a|] && b == source[..|b|];
  }

  /** The longest of all is at least as long as any that is there. */
  lemma {:induction false} FromIsHere(ms: seq<Mapping>, serverPath: string)
    requires LongestFirst(ms) && From(ms, serverPath) != []
    ensures ms != [] && |ms[0].serverPath| >= |serverPath|
  {
    var n := |ms| - 1;
    if ms[n].serverPath != serverPath {
      FromIsHere(ms[..n], serverPath);
    }
  }

  /**
   From the configured items to the translated path: when the longest kept server path that covers
   the path is that of some item, the path is translated to the worker text of the first such item,
   with the rest of the path below it.
   */
  lemma TranslationFollowsItems(cwd: seq<string>, raw: seq<RawMapping>, path: string, s: seq<string>, j: nat)
    requires Normal(true, cwd) && Normal(true, s) && FirstFrom(cwd, raw, s, j)
    requires var source := Render(1, ResolveComps(cwd, path));
      && Covers(Render(1, s), source)
      && forall k :: 0 <= k < |raw| && Strip(raw[k].serverPath) != "" && Strip(raw[k].workerPath) != "" ==>
           var other := Render(1, ResolveComps(cwd, Strip(raw[k].serverPath)));
           Covers(other, source) ==> |other| <= |Render(1, s)|
    ensures var c, worker := ResolveComps(cwd, path), Strip(raw[j].workerPath);
      && s <= c
      && RemapServerPath(cwd, path, Normalised(cwd, raw)) ==
           Some(Render(Slashes(worker), Parts(worker) + c[|s|..]))
  {
    var ms, c, worker := Normalised(cwd, raw), ResolveComps(cwd, path), Strip(raw[j].workerPath);
    var source, m := Render(1, c), Mapping(Render(1, s), PathStr(worker));
    NormalisedIsWellFormed(cwd, raw);
    KeptExactly(cwd, raw);
    SortIsStable(Clean(cwd, raw), Render(1, s));
    FirstOfClean(cwd, raw, s, j);
    forall i | 0 <= i < |ms| && Covers(ms[i].serverPath, source) ensures |ms[i].serverPath| <= |Render(1, s)| {
      assert ms[i] in ms;
      var k :| 0 <= k < |raw| && Becomes(cwd, raw[k], ms[i]);
    }
    FirstCoveringIs(source, ms, Render(1, s));
    ResolvedIsNormal(cwd, path);
    RenderReadsBack(1, s);
    RenderReadsBack(Slashes(worker), Parts(worker));
    WorkerTextComps(m, c);
  }

  /** A path has no translation exactly when no item with two nonblank texts has a server path that covers it. */
  lemma UntranslatedExactly(cwd: seq<string>, raw: seq<RawMapping>, path: string)
    ensures RemapServerPath(cwd, path, Normalised(cwd, raw)).None? <==>
      forall k :: 0 <= k < |raw| && Strip(raw[k].serverPath) != "" && Strip(raw[k].workerPath) != "" ==>
        !Covers(Render(1, ResolveComps(cwd, Strip(raw[k].serverPath))), Render(1, ResolveComps(cwd, path)))
  {
    var ms, source := Normalised(cwd, raw), Render(1, ResolveComps(cwd, path));
    if FirstCovering(source, ms).Some? {
      var k := KeptFrom(cwd, raw, ms[FirstCovering(source, ms).value]);
    } else {
      forall k | 0 <= k < |raw| && Strip(raw[k].serverPath) != "" && Strip(raw[k].workerPath) != ""
        ensures !Covers(Render(1, ResolveComps(cwd, Strip(raw[k].serverPath))), source)
      {
        KeptFor(cwd, raw, k);
      }
    }
  }

  lemma KeptFrom(cwd: seq<string>, raw: seq<RawMapping>, m: Mapping) returns (k: nat)
    requires m in Normalised(cwd, raw)
    ensures k < |raw| && Becomes(cwd, raw[k], m)
  {
    KeptExactly(cwd, raw);
    k :| 0 <= k < |raw| && Becomes(cwd, raw[k], m);
  }

  lemma KeptFor(cwd: seq<string>, raw: seq<RawMapping>, k: nat)
    requires k < |raw| && Strip(raw[k].serverPath) != "" && Strip(raw[k].workerPath) != ""
    ensures Mapping(Render(1, ResolveComps(cwd, Strip(raw[k].serverPath))), PathStr(Strip(raw[k].workerPath))) in Normalised(cwd, raw)
  {
    KeptExactly(cwd, raw);
    assert Becomes(cwd, raw[k], Mapping(Render(1, ResolveComps(cwd, Strip(raw[k].serverPath))), PathStr(Strip(raw[k].workerPath))));
  }

  // --------------------------------------------------------- Coming back

  lemma {:induction false} JoinHolds(parts: seq<string>, x: char)
    requires x != '/'
    ensures x in Join(parts, '/') <==> exists i :: 0 <= i < |parts| && x in parts[i]
  {
    if |parts| > 1 {
      JoinHolds(parts[1..], x);
      if i :| 0 <= i < |parts| && x in parts[i] && i > 0 {
        assert x in parts[1..][i - 1];
      }
    }
  }

  lemma RenderHolds(k: nat, comps: seq<string>, x: char)
    requires k <= 2 && x != '/' && x != '.'
    ensures x in Render(k, comps) <==> exists i :: 0 <= i < |comps| && x in comps[i]
  {
    JoinHolds(comps, x);
  }

  /** An absolute POSIX worker root: no backslash and so no Windows reading. */
  predicate PosixRoot(m: Mapping) {
    Slashes(m.workerPath) > 0 && '\\' !in m.workerPath
  }

  /** No worker root lies at or below another, by the code's own comparison. */
  ghost predicate WorkerRootsApart(ms: seq<Mapping>) {
    forall i, j :: 0 <= i < |ms| && 0 <= j < |ms| && i != j ==>
      WorkerPathSuffix(ms[i].workerPath, ms[j].workerPath).None?
  }

  /** Below its root a worker path has the components that were appended to the root. */
  lemma WorkerPathComps(m: Mapping, t: seq<string>)
    requires WellFormed(m) && PosixRoot(m) && Normal(true, t)
    ensures var w := Render(Slashes(m.workerPath), Parts(m.workerPath) + t);
      && Slashes(w) == Slashes(m.workerPath)
      && NormComps(w) == NormComps(m.workerPath) + t
      && Normal(true, NormComps(w))
  {
    var base := Parts(m.workerPath);
    RenderReadsBack(Slashes(m.workerPath), base + t);
    CollapseConcat(true, [], base, t);
    NormCompsAreNormal(m.workerPath);
    CollapseIsFixed(true, NormComps(m.workerPath), t);
  }

  lemma NoBackslashBelow(m: Mapping, t: seq<string>)
    requires WellFormed(m) && PosixRoot(m) && forall i :: 0 <= i < |t| ==> '\\' !in t[i]
    ensures '\\' !in Render(Slashes(m.workerPath), Parts(m.workerPath) + t)
  {
    RenderHolds(Slashes(m.workerPath), Parts(m.workerPath), '\\');
    RenderHolds(Slashes(m.workerPath), Parts(m.workerPath) + t, '\\');
  }

  lemma BelowOwnRoot(k: nat, r: seq<string>, t: seq<string>)
    requires k > 0
    ensures Below(false, k, r + t, k, r) == Some(t)
  {
    assert (r + t)[|r|..] == t && (r + t)[..|r|] == r;
    assert t == [] ==> r + t == r;
  }

  lemma OwnRootMatches(m: Mapping, t: seq<string>)
    requires WellFormed(m) && PosixRoot(m) && Normal(true, t)
    requires forall i :: 0 <= i < |t| ==> '\\' !in t[i]
    ensures var w := Render(Slashes(m.workerPath), Parts(m.workerPath) + t);
      '\\' !in w && WorkerPathSuffix(w, m.workerPath) == Some(t)
  {
    NoBackslashBelow(m, t);
    WorkerPathComps(m, t);
    SuffixMeaning(Render(Slashes(m.workerPath), Parts(m.workerPath) + t), m.workerPath);
    BelowOwnRoot(Slashes(m.workerPath), NormComps(m.workerPath), t);
  }

  /** A path below `m`'s worker root is below another root only if the two roots are nested. */
  lemma OtherRootsDoNotMatch(m: Mapping, other: Mapping, t: seq<string>)
    requires WellFormed(m) && PosixRoot(m) && WellFormed(other) && PosixRoot(other) && Normal(true, t)
    requires forall i :: 0 <= i < |t| ==> '\\' !in t[i]
    requires WorkerPathSuffix(m.workerPath, other.workerPath).None?
    requires WorkerPathSuffix(other.workerPath, m.workerPath).None?
    ensures WorkerPathSuffix(Render(Slashes(m.workerPath), Parts(m.workerPath) + t), other.workerPath).None?
  {
    var w := Render(Slashes(m.workerPath), Parts(m.workerPath) + t);
    OwnRootMatches(m, t);
    WorkerPathComps(m, t);
    SuffixMeaning(w, other.workerPath);
    SuffixMeaning(m.workerPath, other.workerPath);
    SuffixMeaning(other.workerPath, m.workerPath);
    ApartStaysApart(Slashes(m.workerPath), NormComps(m.workerPath), Slashes(other.workerPath), NormComps(other.workerPath), t);
  }

  lemma ApartStaysApart(k: nat, r: seq<string>, k': nat, r': seq<string>, t: seq<string>)
    requires k > 0 && k' > 0
    requires Below(false, k, r, k', r').None? && Below(false, k', r', k, r).None?
    ensures Below(false, k, r + t, k', r').None?
  {
    assert r' <= r + t && |r'| <= |r| ==> r[..|r'|] == r';
    assert r' <= r + t && |r'| > |r| ==> r'[..|r|] == r;
  }

  lemma FirstSomeIs<T>(options: seq<Option<T>>, index: nat)
    requires index < |options| && options[index].Some?
    requires forall i :: 0 <= i < index ==> options[i].None?
    ensures FirstSome(options) == Some((index, options[index].value))
  {
  }

  /**
   Round trip: over any list of mappings whose worker roots are absolute POSIX paths, none at
   or below another, a server path that has a worker path is the translation of that worker
   path back. The server path may hold no backslash.
   */
  lemma RoundTrip(cwd: seq<string>, path: string, ms: seq<Mapping>)
    requires Normal(true, cwd) && forall i :: 0 <= i < |ms| ==> WellFormed(ms[i]) && PosixRoot(ms[i])
    requires WorkerRootsApart(ms)
    requires '\\' !in Render(1, ResolveComps(cwd, path))
    requires RemapServerPath(cwd, path, ms).Some?
    ensures RemapWorkerPath(RemapServerPath(cwd, path, ms).value, ms) == Render(1, ResolveComps(cwd, path))
  {
    var c := ResolveComps(cwd, path);
    ResolvedIsNormal(cwd, path);
    RenderHolds(1, c, '\\');
    var index := FirstCovering(Render(1, c), ms).value;
    WorkerTextComps(ms[index], c);
    var t := c[|Parts(ms[index].serverPath)|..];
    assert Parts(ms[index].serverPath) + t == c;
    ApartComesBack(ms, index, t);
  }

  /** Among roots kept apart, a worker path goes back through the mapping it came from. */
  lemma ApartComesBack(ms: seq<Mapping>, index: nat, t: seq<string>)
    requires index < |ms| && forall i :: 0 <= i < |ms| ==> WellFormed(ms[i]) && PosixRoot(ms[i])
    requires WorkerRootsApart(ms) && Normal(true, t) && forall i :: 0 <= i < |t| ==> '\\' !in t[i]
    ensures var m := ms[index];
      RemapWorkerPath(Render(Slashes(m.workerPath), Parts(m.workerPath) + t), ms) == Render(1, Parts(m.serverPath) + t)
  {
    var m := ms[index];
    var w := Render(Slashes(m.workerPath), Parts(m.workerPath) + t);
    OwnRootMatches(m, t);
    forall i | 0 <= i < index ensures WorkerPathSuffix(w, ms[i].workerPath).None? {
      OtherRootsDoNotMatch(m, ms[i], t);
    }
    CollapseIsFixed(true, Parts(m.serverPath), t);
    ComesBackThrough(w, ms, index, t);
  }

  lemma ComesBackThrough(w: string, ms: seq<Mapping>, index: nat, t: seq<string>)
    requires index < |ms| && WorkerPathSuffix(w, ms[index].workerPath) == Some(t)
    requires forall i :: 0 <= i < index ==> WorkerPathSuffix(w, ms[i].workerPath).None?
    ensures RemapWorkerPath(w, ms) == Render(1, Joined(ms[index], t))
  {
    FirstSomeIs(Suffixes(w, ms), index);
  }

  /**
   Keeping worker roots apart matters: when one worker root is another's with `b` below it, the
   path `b` below the other's server root (which the first does not cover) goes to that nested
   root and comes back as the wrong server root.
   */
  lemma NestedRootsMisroute(nested: Mapping, outer: Mapping, b: seq<string>)
    requires WellFormed(nested) && WellFormed(outer) && Normal(true, b) && b != [] && Parts(outer.serverPath) != []
    requires nested.workerPath == Render(Slashes(outer.workerPath), Parts(outer.workerPath) + b)
    requires !Covers(nested.serverPath, Render(1, Parts(outer.serverPath) + b))
    ensures var path, ms := Render(1, Parts(outer.serverPath) + b), [nested, outer];
      && RemapServerPath([], path, ms) == Some(nested.workerPath)
      && RemapWorkerPath(nested.workerPath, ms) == nested.serverPath != path
  {
    var s := Parts(outer.serverPath);
    var c, ms := s + b, [nested, outer];
    assert c[|s|..] == b;
    ResolvedIsFixed([], c);
    CoveredComps(outer, c);
    WorkerTextComps(outer, c);
    SecondCovers(nested, outer, Render(1, c));
    assert WorkerPathSuffix(nested.workerPath, nested.workerPath) == Some([]);
    FirstSomeIs(Suffixes(nested.workerPath, ms), 0);
  }

  lemma SecondCovers(first: Mapping, second: Mapping, source: string)
    requires !Covers(first.serverPath, source) && Covers(second.serverPath, source)
    ensures FirstCovering(source, [first, second]) == Some(1)
  {
    assert [first, second][1..] == [second];
    assert FirstCovering(source, [second]) == Some(0);
  }

  // ---------------------------------------------------------- Containment

  /** The normalised root consists of nothing but "..". */
  predicate Climbs(workerPath: string) {
    var root := ForwardSlashes(workerPath);
    Slashes(root) == 0 && NormComps(root) != [] && forall c :: c in NormComps(root) ==> c == ".."
  }

  ghost predicate Contained(path: string, m: Mapping) {
    var suffix := WorkerPathSuffix(path, m.workerPath);
    suffix.Some? ==> Parts(m.serverPath) <= Joined(m, suffix.value)
  }

  lemma LowerDots(c: string)
    ensures Lower(c) == ".." <==> c == ".."
  {
    if Lower(c) == ".." {
      assert LowerChar(c[0]) == '.' && LowerChar(c[1]) == '.';
    }
  }

  lemma SuffixHasNoDots(path: string, root: string)
    requires !Climbs(root) && WorkerPathSuffix(path, root).Some?
    ensures Normal(true, WorkerPathSuffix(path, root).value)
  {
    SuffixMeaning(path, root);
    NormCompsAreNormal(ForwardSlashes(path));
    NormCompsAreNormal(ForwardSlashes(root));
    var p, r := ForwardSlashes(path), ForwardSlashes(root);
    BelowHasNoDots(LooksLikeWindowsPath(path) || LooksLikeWindowsPath(root), Slashes(p), NormComps(p), Slashes(r), NormComps(r));
  }

  lemma BelowHasNoDots(windows: bool, m: nat, p: seq<string>, k: nat, r: seq<string>)
    requires Normal(m > 0, p) && Normal(k > 0, r) && Below(windows, m, p, k, r).Some?
    requires !(k == 0 && r != [] && forall c :: c in r ==> c == "..")
    ensures Normal(true, Below(windows, m, p, k, r).value)
  {
    if r != [] && |r| < |p| && k == 0 && Fold(windows, p[..|r|]) == Fold(windows, r) {
      var i :| 0 <= i < |r| && r[i] != "..";
      LowerDots(r[i]);
      LowerDots(p[i]);
      assert Fold(windows, p[..|r|])[i] == Fold(windows, r)[i];
      assert p[i] != "..";
      forall j | |r| <= j < |p| ensures p[j] != ".." {
      }
    }
  }

  /** A suffix below a root that does not climb is appended to the server root as it is. */
  lemma TranslationStaysBelow(path: string, m: Mapping)
    requires WellFormed(m) && !Climbs(m.workerPath) && WorkerPathSuffix(path, m.workerPath).Some?
    ensures Joined(m, WorkerPathSuffix(path, m.workerPath).value)
         == Parts(m.serverPath) + WorkerPathSuffix(path, m.workerPath).value
  {
    SuffixHasNoDots(path, m.workerPath);
    CollapseIsFixed(true, Parts(m.serverPath), WorkerPathSuffix(path, m.workerPath).value);
  }

  /**
   The way back: the first mapping whose worker root the path is at or below decides, and what is left of
   the path is appended to its server path; a path below no root is left as it is.
   */
  lemma WorkerPathsFollowMappings(path: string, ms: seq<Mapping>, i: nat)
    requires forall k :: 0 <= k < |ms| ==> WellFormed(ms[k])
    requires i <= |ms| && forall k :: 0 <= k < i ==> WorkerPathSuffix(path, ms[k].workerPath).None?
    requires i < |ms| ==> WorkerPathSuffix(path, ms[i].workerPath).Some? && !Climbs(ms[i].workerPath)
    ensures RemapWorkerPath(path, ms) ==
      if i == |ms| then PathStr(path)
      else Render(1, Parts(ms[i].serverPath) + WorkerPathSuffix(path, ms[i].workerPath).value)
  {
    if i < |ms| {
      ComesBackThrough(path, ms, i, WorkerPathSuffix(path, ms[i].workerPath).value);
      TranslationStaysBelow(path, ms[i]);
    } else {
      BelowNoRoot(path, ms);
    }
  }

  lemma BelowNoRoot(path: string, ms: seq<Mapping>)
    requires forall k :: 0 <= k < |ms| ==> WorkerPathSuffix(path, ms[k].workerPath).None?
    ensures RemapWorkerPath(path, ms) == PathStr(path)
  {
    var suffixes := Suffixes(path, ms);
    assert forall k :: 0 <= k < |suffixes| ==> suffixes[k].None?;
  }

  /** The path that goes one step above a climbing root and down to `x`. */
  function AboveRoot(root: string, x: string): string {
    Render(0, NormComps(ForwardSlashes(root)) + ["..", x])
  }

  lemma DotsThenName(r: seq<string>, x: string)
    requires (forall i :: 0 <= i < |r| ==> r[i] == "..") && (x == "a" || x == "b")
    ensures Normal(false, r + ["..", x])
    ensures '\\' !in Render(0, r + ["..", x])
  {
    var p := r + ["..", x];
    assert Plain(x) && Plain("..");
    assert forall i :: 0 <= i <= |r| ==> p[i] == "..";
    assert p[|r| + 1] == x;
    JoinHolds(p, '\\');
  }

  lemma AboveRootIsNormal(root: string, x: string)
    requires Climbs(root) && (x == "a" || x == "b")
    ensures ForwardSlashes(AboveRoot(root, x)) == AboveRoot(root, x)
    ensures Slashes(AboveRoot(root, x)) == 0
    ensures NormComps(AboveRoot(root, x)) == NormComps(ForwardSlashes(root)) + ["..", x]
  {
    var r := NormComps(ForwardSlashes(root));
    forall i | 0 <= i < |r| ensures r[i] == ".." {
      assert r[i] in r;
    }
    DotsThenName(r, x);
    NormalReadsBack(r + ["..", x]);
  }

  lemma NormalReadsBack(p: seq<string>)
    requires Normal(false, p)
    ensures Slashes(Render(0, p)) == 0 && NormComps(Render(0, p)) == p
  {
    RenderReadsBack(0, p);
    CollapseIsFixed(false, [], p);
    assert [] + p == p;
  }

  lemma AboveRootSuffix(root: string, x: string)
    requires Climbs(root) && (x == "a" || x == "b")
    ensures WorkerPathSuffix(AboveRoot(root, x), root) == Some(["..", x])
  {
    var path := AboveRoot(root, x);
    AboveRootIsNormal(root, x);
    SuffixMeaning(path, root);
    var r := NormComps(ForwardSlashes(root));
    var p := r + ["..", x];
    assert p[..|r|] == r && p[|r|..] == ["..", x];
    var windows := LooksLikeWindowsPath(path) || LooksLikeWindowsPath(root);
    assert |Fold(windows, p)| == |p| && |Fold(windows, r)| == |r|;
  }

  /** A path under a climbing root that leaves the server root. */
  lemma ClimbingRootEscapes(m: Mapping) returns (path: string)
    requires WellFormed(m) && Climbs(m.workerPath) && Parts(m.serverPath) != []
    ensures !Contained(path, m)
  {
    var s := Parts(m.serverPath);
    var x := if s[|s| - 1] == "a" then "b" else "a";
    path := AboveRoot(m.workerPath, x);
    AboveRootSuffix(m.workerPath, x);
    StepAside(s, x);
  }

  lemma StepAside(s: seq<string>, x: string)
    requires s != [] && s[|s| - 1] != ".." && x != ".."
    ensures Collapse(true, s, ["..", x]) == s[..|s| - 1] + [x]
  {
    CollapseConcat(true, s, [".."], [x]);
    assert [".."] + [x] == ["..", x];
    CollapseOne(true, s, "..");
    CollapseOne(true, s[..|s| - 1], x);
  }

  lemma CollapseOne(absolute: bool, stack: seq<string>, c: string)
    ensures Collapse(absolute, stack, [c]) == Push(absolute, stack, c)
  {
    assert [c][1..] == [];
  }

  /**
   Containment, exactly: whatever path a worker reports, a match is translated to a path at or
   below the mapping's server root, if and only if the normalised worker root is not a run of
   ".." (or the server root is "/", which everything is below).
   */
  lemma ContainmentIsExact(m: Mapping)
    requires WellFormed(m)
    ensures (forall path: string :: Contained(path, m)) <==> !Climbs(m.workerPath) || Parts(m.serverPath) == []
  {
    if !Climbs(m.workerPath) {
      forall path: string ensures Contained(path, m) {
        if WorkerPathSuffix(path, m.workerPath).Some? {
          TranslationStaysBelow(path, m);
        }
      }
    } else if Parts(m.serverPath) != [] {
      var path := ClimbingRootEscapes(m);
    }
  }
}
