/**
 Authorising the paths inside a JSON-like payload: `validate_path_under_roots` and the two
 pairs of mutually recursive walkers of apps/api/app/services/path_safety.py:80-178.
 */
module PayloadPaths {
  import opened Wrappers
  import opened Text
  import opened PosixPath
  import opened PathMappings

  /** A dictionary is the list of its items in order; `Other` stands for numbers and booleans. */
  datatype Json = Null | Str(text: string) | Other(id: int) | List(items: seq<Json>) | Dict(fields: seq<Field>)
  datatype Field = Field(key: Key, value: Json)
  datatype Key = Name(name: string) | OtherKey(id: int)

  const PATH_KEY_NAMES: set<string> := {
    "path", "source_path", "staged_output_path", "output_path", "final_output_path", "original_backup_path", "backup_path"
  }

  /** `_is_path_key` */
  predicate IsPathKey(k: Key) {
    k.Name? && var lowered := Lower(Strip(k.name)); lowered in PATH_KEY_NAMES || EndsWith(lowered, "_path")
  }

  /** The keys that govern paths: "path", and every name that ends in "_path", in any case and with any space around it. */
  lemma PathKeysExactly(k: Key)
    ensures IsPathKey(k) <==> k.Name? && (Lower(Strip(k.name)) == "path" || EndsWith(Lower(Strip(k.name)), "_path"))
  {
    assert EndsWith("source_path", "_path") && EndsWith("staged_output_path", "_path") && EndsWith("output_path", "_path");
    assert EndsWith("final_output_path", "_path") && EndsWith("original_backup_path", "_path") && EndsWith("backup_path", "_path");
  }

  datatype PathError = NotAbsolute | NoRoots | OutsideRoots

  type Rewrite = string -> Result<string, PathError>

  /**
   Both walkers in one: `governed` tells the value walker, which rewrites the strings it meets,
   from the payload walker, which does not. A dictionary decides anew for each key.
   */
  function Walk(f: Rewrite, governed: bool, j: Json): Result<Json, PathError>
    decreases j, 1
  {
    match j
    case Str(text) =>
      if governed then
        var rewritten :- f(text);
        Ok(Str(rewritten))
      else Ok(j)
    case List(items) =>
      var walked :- WalkItems(f, governed, items);
      Ok(List(walked))
    case Dict(fields) =>
      var walked :- WalkFields(f, fields);
      Ok(Dict(walked))
    case Null => Ok(j)
    case Other(_) => Ok(j)
  }

  function WalkItems(f: Rewrite, governed: bool, items: seq<Json>): (r: Result<seq<Json>, PathError>)
    ensures r.Ok? ==> |r.value| == |items|
    decreases items, 0
  {
    if items == [] then Ok([])
    else
      var first :- Walk(f, governed, items[0]);
      var rest :- WalkItems(f, governed, items[1..]);
      Ok([first] + rest)
  }

  function WalkFields(f: Rewrite, fields: seq<Field>): (r: Result<seq<Field>, PathError>)
    ensures r.Ok? ==> |r.value| == |fields|
    decreases fields, 0
  {
    if fields == [] then Ok([])
    else
      assert fields[0].value < fields[0];
      var first :- Walk(f, IsPathKey(fields[0].key), fields[0].value);
      var rest :- WalkFields(f, fields[1..]);
      Ok([Field(fields[0].key, first)] + rest)
  }

  // ------------------------------------------------------------ Addresses

  /** A place in a tree: the child to take at each list or dictionary on the way. */
  type Address = seq<nat>

  function Child(j: Json, n: nat): Option<Json> {
    match j
    case List(items) => if n < |items| then Some(items[n]) else None
    case Dict(fields) => if n < |fields| then Some(fields[n].value) else None
    case _ => None
  }

  function At(j: Json, a: Address): Option<Json>
    decreases |a|
  {
    if a == [] then Some(j)
    else
      var child :- Child(j, a[0]);
      At(child, a[1..])
  }

  /** Whether lists keep, and the last dictionary key on the way sets, the governed state. */
  predicate Governed(j: Json, a: Address, governed: bool)
    decreases |a|
  {
    if a == [] then governed
    else
      match j
      case List(items) => a[0] < |items| && Governed(items[a[0]], a[1..], governed)
      case Dict(fields) => a[0] < |fields| && Governed(fields[a[0]].value, a[1..], IsPathKey(fields[a[0]].key))
      case _ => false
  }

  /** One node of the result against the node at the same address. */
  ghost predicate SameNode(f: Rewrite, governed: bool, j: Json, r: Json) {
    match j
    case Str(text) => r.Str? && (if governed then f(text) == Ok(r.text) else r == j)
    case List(items) => r.List? && |r.items| == |items|
    case Dict(fields) => r.Dict? && |r.fields| == |fields| && forall i :: 0 <= i < |fields| ==> r.fields[i].key == fields[i].key
    case Null => r == j
    case Other(_) => r == j
  }

  ghost predicate Accepted(f: Rewrite, governed: bool, j: Json, a: Address) {
    var node := At(j, a);
    node.Some? && node.value.Str? && Governed(j, a, governed) ==> f(node.value.text).Ok?
  }

  // ------------------------------------------------ What a walk achieves

  lemma {:induction false} WalkItemsAt(f: Rewrite, governed: bool, items: seq<Json>, n: nat)
    requires n < |items| && WalkItems(f, governed, items).Ok?
    ensures Walk(f, governed, items[n]) == Ok(WalkItems(f, governed, items).value[n])
  {
    if n > 0 {
      WalkItemsAt(f, governed, items[1..], n - 1);
    }
  }

  lemma {:induction false} WalkFieldsAt(f: Rewrite, fields: seq<Field>, n: nat)
    requires n < |fields| && WalkFields(f, fields).Ok?
    ensures var r := WalkFields(f, fields).value[n];
      r.key == fields[n].key && Walk(f, IsPathKey(fields[n].key), fields[n].value) == Ok(r.value)
  {
    if n > 0 {
      WalkFieldsAt(f, fields[1..], n - 1);
    }
  }

  /** The result has the shape of the payload, and differs from it only in governed strings. */
  lemma {:induction false} WalkKeepsShape(f: Rewrite, governed: bool, j: Json, a: Address)
    requires Walk(f, governed, j).Ok?
    ensures var r := Walk(f, governed, j).value;
      && (At(r, a).Some? <==> At(j, a).Some?)
      && (At(j, a).Some? ==> SameNode(f, Governed(j, a, governed), At(j, a).value, At(r, a).value))
    decreases |a|
  {
    if a == [] {
      if j.Dict? {
        forall i | 0 <= i < |j.fields| ensures WalkFields(f, j.fields).value[i].key == j.fields[i].key {
          WalkFieldsAt(f, j.fields, i);
        }
      }
    } else {
      match j
      case List(items) =>
        if a[0] < |items| {
          WalkItemsAt(f, governed, items, a[0]);
          WalkKeepsShape(f, governed, items[a[0]], a[1..]);
        }
      case Dict(fields) =>
        if a[0] < |fields| {
          WalkFieldsAt(f, fields, a[0]);
          WalkKeepsShape(f, IsPathKey(fields[a[0]].key), fields[a[0]].value, a[1..]);
        }
      case _ =>
    }
  }

  /** A walk succeeds only if every governed string is accepted. */
  lemma WalkChecksAll(f: Rewrite, governed: bool, j: Json, a: Address)
    requires Walk(f, governed, j).Ok?
    ensures Accepted(f, governed, j, a)
  {
    WalkKeepsShape(f, governed, j, a);
  }

  /** And a walk that fails points at a governed string that is not accepted. */
  lemma {:induction false} WalkFailureIsReal(f: Rewrite, governed: bool, j: Json) returns (a: Address)
    requires Walk(f, governed, j).Err?
    ensures !Accepted(f, governed, j, a)
    decreases j, 1
  {
    match j
    case Str(_) => a := [];
    case List(items) =>
      var n, rest := FailingItem(f, governed, items);
      a := [n] + rest;
      assert a[1..] == rest;
    case Dict(fields) =>
      var n, rest := FailingField(f, fields);
      a := [n] + rest;
      assert a[1..] == rest;
  }

  lemma {:induction false} FailingItem(f: Rewrite, governed: bool, items: seq<Json>) returns (n: nat, a: Address)
    requires WalkItems(f, governed, items).Err?
    ensures n < |items| && !Accepted(f, governed, items[n], a)
    decreases items, 0
  {
    if Walk(f, governed, items[0]).Err? {
      n := 0;
      a := WalkFailureIsReal(f, governed, items[0]);
    } else {
      n, a := FailingItem(f, governed, items[1..]);
      n := n + 1;
    }
  }

  lemma {:induction false} FailingField(f: Rewrite, fields: seq<Field>) returns (n: nat, a: Address)
    requires WalkFields(f, fields).Err?
    ensures n < |fields| && !Accepted(f, IsPathKey(fields[n].key), fields[n].value, a)
    decreases fields, 0
  {
    assert fields[0].value < fields[0];
    if Walk(f, IsPathKey(fields[0].key), fields[0].value).Err? {
      n := 0;
      a := WalkFailureIsReal(f, IsPathKey(fields[0].key), fields[0].value);
    } else {
      n, a := FailingField(f, fields[1..]);
      n := n + 1;
    }
  }

  ghost predicate Settles(f: Rewrite) {
    forall s: string :: f(s).Ok? ==> f(f(s).value) == f(s)
  }

  /** Walking the result again returns it unchanged. */
  lemma {:induction false} WalkIsIdempotent(f: Rewrite, governed: bool, j: Json)
    requires Settles(f) && Walk(f, governed, j).Ok?
    ensures Walk(f, governed, Walk(f, governed, j).value) == Walk(f, governed, j)
    decreases j, 1
  {
    match j
    case List(items) => WalkItemsIdempotent(f, governed, items);
    case Dict(fields) => WalkFieldsIdempotent(f, fields);
    case _ =>
  }

  lemma {:induction false} WalkItemsIdempotent(f: Rewrite, governed: bool, items: seq<Json>)
    requires Settles(f) && WalkItems(f, governed, items).Ok?
    ensures WalkItems(f, governed, WalkItems(f, governed, items).value) == WalkItems(f, governed, items)
    decreases items, 0
  {
    if items != [] {
      WalkIsIdempotent(f, governed, items[0]);
      WalkItemsIdempotent(f, governed, items[1..]);
      var rest := WalkItems(f, governed, items[1..]).value;
      assert WalkItems(f, governed, items).value[1..] == rest;
    }
  }

  lemma {:induction false} WalkFieldsIdempotent(f: Rewrite, fields: seq<Field>)
    requires Settles(f) && WalkFields(f, fields).Ok?
    ensures WalkFields(f, WalkFields(f, fields).value) == WalkFields(f, fields)
    decreases fields, 0
  {
    if fields != [] {
      assert fields[0].value < fields[0];
      WalkIsIdempotent(f, IsPathKey(fields[0].key), fields[0].value);
      WalkFieldsIdempotent(f, fields[1..]);
      var rest := WalkFields(f, fields[1..]).value;
      assert WalkFields(f, fields).value[1..] == rest;
    }
  }

  // --------------------------------------------------------- Authorising

  /** Resolved roots, as components. */
  type Roots = seq<seq<string>>

  predicate UnderSomeRoot(c: seq<string>, roots: Roots) {
    exists i :: 0 <= i < |roots| && roots[i] <= c
  }

  /** `validate_path_under_roots`, as the posix text of its result. */
  function ValidatePath(roots: Roots, path: string): Result<string, PathError> {
    if Slashes(path) == 0 then Err(NotAbsolute)
    else if roots == [] then Err(NoRoots)
    else if UnderSomeRoot(ResolveComps([], path), roots) then Ok(Render(1, ResolveComps([], path)))
    else Err(OutsideRoots)
  }

  /** The text is the root's or continues it with a slash; everything is below "/". */
  predicate AtOrBelow(root: string, text: string) {
    text == root || root == "/" || StartsWith(text, root + "/")
  }

  /**
   Which paths are accepted: absolute ones that lead to a root or below it, each given as the directory
   it leads to; the others are refused for the first reason that applies.
   */
  lemma PathsAreAcceptedExactly(roots: Roots, path: string)
    requires forall i :: 0 <= i < |roots| ==> Normal(true, roots[i])
    ensures var r, text := ValidatePath(roots, path), Render(1, Leads([], path));
      if !StartsWith(path, "/") then r == Err(NotAbsolute)
      else if roots == [] then r == Err(NoRoots)
      else if exists i :: 0 <= i < |roots| && AtOrBelow(Render(1, roots[i]), text) then r == Ok(text)
      else r == Err(OutsideRoots)
  {
    ResolvingFollows([], path);
    ResolvedIsNormal([], path);
    var c := ResolveComps([], path);
    forall i | 0 <= i < |roots| ensures AtOrBelow(Render(1, roots[i]), Render(1, c)) <==> roots[i] <= c {
      RootedBelow(roots[i], c);
    }
    if UnderSomeRoot(c, roots) {
      var i :| 0 <= i < |roots| && roots[i] <= c;
      assert AtOrBelow(Render(1, roots[i]), Render(1, c));
    }
  }

  lemma RootedBelow(root: seq<string>, c: seq<string>)
    requires Normal(true, root) && Normal(true, c)
    ensures AtOrBelow(Render(1, root), Render(1, c)) <==> root <= c
  {
    RenderReadsBack(1, root);
    RenderReadsBack(1, c);
    if root == [] {
      assert Render(1, root) == "/";
    } else {
      RenderedPrefix(1, c, 1, root);
      assert root <= c && |root| == |c| ==> root == c;
      RenderReadsBack(1, []);
      assert Render(1, []) == "/";
    }
  }

  function Validator(roots: Roots): Rewrite {
    path => ValidatePath(roots, path)
  }

  /** An absolute path, fully resolved, at or below some root. */
  ghost predicate Authorised(roots: Roots, path: string) {
    exists c: seq<string> :: Normal(true, c) && path == Render(1, c) && UnderSomeRoot(c, roots)
  }

  lemma ValidPathIsAuthorised(roots: Roots, path: string)
    requires ValidatePath(roots, path).Ok?
    ensures Authorised(roots, ValidatePath(roots, path).value)
  {
    ResolvedIsNormal([], path);
  }

  lemma ValidatorSettles(roots: Roots)
    ensures Settles(Validator(roots))
  {
    forall path: string | ValidatePath(roots, path).Ok?
      ensures ValidatePath(roots, ValidatePath(roots, path).value) == ValidatePath(roots, path)
    {
      ResolvedIsNormal([], path);
      var c := ResolveComps([], path);
      RenderReadsBack(1, c);
      ResolvedIsFixed([], c);
    }
  }

  /** `validate_replacement_payload_paths`: `_validate_payload_paths` from the top of the payload. */
  function ValidatePayload(roots: Roots, payload: Json): Result<Json, PathError> {
    Walk(Validator(roots), false, payload)
  }

  /**
   A validated payload: every string reached from a path key is the authorised form of the
   string that was there, everything else is as it was, and validating again changes nothing.
   */
  lemma ValidatedPayload(roots: Roots, payload: Json, a: Address)
    requires ValidatePayload(roots, payload).Ok?
    ensures var r := ValidatePayload(roots, payload).value;
      && ValidatePayload(roots, r) == Ok(r)
      && (At(r, a).Some? <==> At(payload, a).Some?)
      && (At(r, a).Some? ==> SameNode(Validator(roots), Governed(payload, a, false), At(payload, a).value, At(r, a).value))
      && (At(r, a).Some? && At(r, a).value.Str? && Governed(payload, a, false) ==> Authorised(roots, At(r, a).value.text))
  {
    ValidatorSettles(roots);
    WalkIsIdempotent(Validator(roots), false, payload);
    WalkKeepsShape(Validator(roots), false, payload, a);
    if At(payload, a).Some? && At(payload, a).value.Str? && Governed(payload, a, false) {
      ValidPathIsAuthorised(roots, At(payload, a).value.text);
    }
  }

  /** Validation accepts exactly the payloads whose governed strings are absolute and under a root. */
  lemma ValidationIsExact(roots: Roots, payload: Json)
    ensures ValidatePayload(roots, payload).Ok? <==> forall a: Address :: Accepted(Validator(roots), false, payload, a)
  {
    if ValidatePayload(roots, payload).Ok? {
      forall a: Address ensures Accepted(Validator(roots), false, payload, a) {
        WalkChecksAll(Validator(roots), false, payload, a);
      }
    } else {
      var a := WalkFailureIsReal(Validator(roots), false, payload);
    }
  }

  /** `remap_worker_payload_paths`: the same walk, translating worker paths; it never fails. */
  function RemapPayload(ms: seq<Mapping>, payload: Json): Result<Json, PathError> {
    Walk(Remapper(ms), false, payload)
  }

  function Remapper(ms: seq<Mapping>): Rewrite {
    path => Ok(RemapWorkerPath(path, ms))
  }

  lemma RemappedPayload(ms: seq<Mapping>, payload: Json, a: Address)
    ensures RemapPayload(ms, payload).Ok?
    ensures var r := RemapPayload(ms, payload).value;
      && (At(r, a).Some? <==> At(payload, a).Some?)
      && (At(r, a).Some? ==> SameNode(Remapper(ms), Governed(payload, a, false), At(payload, a).value, At(r, a).value))
  {
    if RemapPayload(ms, payload).Err? {
      var b := WalkFailureIsReal(Remapper(ms), false, payload);
      assert false;
    }
    WalkKeepsShape(Remapper(ms), false, payload, a);
  }
}
