/**
 Backup file names: built by `with_name(f"{stem}.encodr-backup{suffix}")`
 (apps/api/app/services/jobs.py:1041-1048) and undone by `_source_path_for_backup`
 (apps/api/app/services/orchestration.py:379-384).
 */
module BackupNames {
  import opened Text

  const MARK: string := ".encodr-backup"

  /** `name.rfind(".")` */
  function LastDot(name: string): (i: int)
    ensures -1 <= i < |name|
    ensures i >= 0 ==> name[i] == '.'
    ensures forall k :: i < k < |name| ==> name[k] != '.'
  {
    if name == "" then -1
    else if name[|name| - 1] == '.' then |name| - 1
    else LastDot(name[..|name| - 1])
  }

  /** `Path(name).suffix`: a leading or a trailing dot starts none. */
  function Suffix(name: string): string {
    var i := LastDot(name);
    if 0 < i < |name| - 1 then name[i..] else ""
  }

  /** `Path(name).stem` */
  function Stem(name: string): string {
    var i := LastDot(name);
    if 0 < i < |name| - 1 then name[..i] else name
  }

  function BackupName(name: string): string {
    Stem(name) + MARK + Suffix(name)
  }

  function SourceName(backup: string): string {
    var marker := MARK + Suffix(backup);
    if !EndsWith(Lower(backup), Lower(marker)) then backup
    else backup[..|backup| - |marker|] + Suffix(backup)
  }

  /** A text that ends in a dot and dotless characters has that ending as its suffix. */
  lemma SuffixOf(front: string, suffix: string)
    requires front != "" && |suffix| >= 2 && suffix[0] == '.' && forall k :: 1 <= k < |suffix| ==> suffix[k] != '.'
    ensures Suffix(front + suffix) == suffix && Stem(front + suffix) == front
  {
    var s := front + suffix;
    assert s[|front|] == '.';
    assert forall k :: |front| < k < |s| ==> s[k] == suffix[k - |front|];
    assert LastDot(s) == |front|;
  }

  lemma SuffixShape(name: string)
    requires Suffix(name) != ""
    ensures var x := Suffix(name);
      |x| >= 2 && x[0] == '.' && (forall k :: 1 <= k < |x| ==> x[k] != '.') && Stem(name) != "" && Stem(name) + x == name
  {
  }

  lemma BackupSuffix(name: string)
    requires name != ""
    ensures Suffix(BackupName(name)) == if Suffix(name) == "" then MARK else Suffix(name)
    ensures Stem(BackupName(name)) == if Suffix(name) == "" then name else Stem(name) + MARK
  {
    if Suffix(name) == "" {
      SuffixOf(name, MARK);
      assert BackupName(name) == name + MARK;
    } else {
      SuffixShape(name);
      SuffixOf(Stem(name) + MARK, Suffix(name));
    }
  }

  lemma LowerConcat(a: string, b: string)
    ensures Lower(a + b) == Lower(a) + Lower(b)
  {
  }

  /**
   Naming and its inverse undo each other exactly for the names with a suffix, and for the one
   hidden name that is the marker itself: without a suffix the backup keeps its own name.
   */
  lemma NamingIsUndoneExactly(name: string)
    requires name != ""
    ensures SourceName(BackupName(name)) == name <==> Suffix(name) != "" || name == MARK
  {
    if Suffix(name) != "" {
      SuffixedNameReturns(name);
    } else {
      var b := BackupName(name);
      BackupSuffix(name);
      assert b == name + MARK && |MARK + MARK| == 2 * |MARK|;
      LowerConcat(name, MARK);
      LowerConcat(MARK, MARK);
      if EndsWith(Lower(b), Lower(MARK + MARK)) {
        MarkerNameOnly(name);
      }
    }
  }

  /** Without a suffix the backup keeps its own name: "README" does not come back. */
  lemma UnsuffixedNameIsNotUndone()
    ensures SourceName(BackupName("README")) != "README"
    ensures SourceName(BackupName("README")) == BackupName("README")
  {
    var name := "README";
    assert LastDot(name) == -1;
    NamingIsUndoneExactly(name);
    StaysOrReturns(name);
  }

  lemma StaysOrReturns(name: string)
    requires name != "" && Suffix(name) == "" && name != MARK && |name| < |MARK|
    ensures SourceName(BackupName(name)) == BackupName(name)
  {
    BackupSuffix(name);
    assert |BackupName(name)| == |name| + |MARK| < |MARK + MARK|;
  }

  lemma SuffixedNameReturns(name: string)
    requires name != "" && Suffix(name) != ""
    ensures SourceName(BackupName(name)) == name
  {
    BackupSuffix(name);
    SuffixShape(name);
    MarkedNameReturns(Stem(name), Suffix(name), BackupName(name));
  }

  lemma MarkedNameReturns(stem: string, suffix: string, backup: string)
    requires backup == stem + MARK + suffix && Suffix(backup) == suffix
    ensures SourceName(backup) == stem + suffix
  {
    EndingIsFound(stem, MARK + suffix);
    assert backup == stem + (MARK + suffix);
  }

  lemma EndingIsFound(front: string, ending: string)
    ensures EndsWith(Lower(front + ending), Lower(ending))
    ensures (front + ending)[..|front + ending| - |ending|] == front
  {
    LowerConcat(front, ending);
  }

  /** A name without a suffix whose backup still ends in two markers is a cased marker itself. */
  lemma MarkerNameOnly(name: string)
    requires name != "" && Suffix(name) == "" && EndsWith(Lower(name + MARK), Lower(MARK + MARK))
    ensures |name| == |MARK|
    ensures (name + MARK)[..|name + MARK| - |MARK + MARK|] == ""
  {
    var b, n := name + MARK, |name| - |MARK|;
    assert Lower(b)[n..] == Lower(MARK + MARK);
    assert Lower(b)[n] == Lower(b)[n..][0] == '.';
    assert LowerChar(b[n]) == '.';
    assert name[n] == '.';
    forall k | n < k < |name| ensures name[k] != '.' {
      assert LowerChar(b[k]) == Lower(b)[n..][k - n] == LowerChar((MARK + MARK)[k - n]);
    }
    assert n > 0 ==> LastDot(name) == n;
  }

  /** Different names never share a backup name. */
  lemma BackupNamesAreDistinct(a: string, b: string)
    requires a != "" && b != "" && BackupName(a) == BackupName(b)
    ensures a == b
  {
    NamingIsUndoneExactly(a);
    NamingIsUndoneExactly(b);
    if Suffix(a) == "" {
      UnsuffixedName(a, b);
    } else if Suffix(b) == "" {
      UnsuffixedName(b, a);
    }
  }

  lemma UnsuffixedName(a: string, b: string)
    requires a != "" && b != "" && BackupName(a) == BackupName(b) && Suffix(a) == ""
    ensures a == b
  {
    BackupSuffix(a);
    BackupSuffix(b);
    assert BackupName(a) == a + MARK;
    assert a == (a + MARK)[..|a|];
    if Suffix(b) == "" {
      assert BackupName(b) == b + MARK;
    } else {
      SuffixShape(b);
      assert BackupName(b) == Stem(b) + MARK + MARK;
      assert a == Stem(b) + MARK == b;
    }
  }

  function TargetName(name: string, container: string): string {
    Stem(name) + "." + container
  }

  /** The target has the source's stem and the container as its suffix. */
  lemma TargetKeepsStem(name: string, container: string)
    requires name != "" && container != "" && '.' !in container
    ensures Stem(TargetName(name, container)) == Stem(name) && Suffix(TargetName(name, container)) == "." + container
  {
    SuffixOf(Stem(name), "." + container);
    assert TargetName(name, container) == Stem(name) + ("." + container);
  }

  function AsideName(name: string, token: string): string {
    BackupName(name) + ".replacing-" + token + ".tmp"
  }

  /** The four names a replacement uses are different, whatever the source is called. */
  lemma NamesDiffer(name: string, container: string, token: string)
    requires name != "" && container != "" && '.' !in container
    requires container != "tmp" && container != "encodr-backup"
    ensures BackupName(name) != name && BackupName(name) != TargetName(name, container)
    ensures AsideName(name, token) !in {name, BackupName(name), TargetName(name, container)}
  {
    TargetDiffers(name, container);
    SuffixesTellApart(BackupName(name) + ".replacing-" + token, Stem(name), "tmp", container);
    assert AsideName(name, token) == BackupName(name) + ".replacing-" + token + "." + "tmp";
    assert |AsideName(name, token)| > |BackupName(name)|;
  }

  lemma SuffixesTellApart(a: string, b: string, x: string, y: string)
    requires a != "" && b != "" && x != "" && y != "" && '.' !in x && '.' !in y && x != y
    ensures a + "." + x != b + "." + y
  {
    SuffixOf(a, "." + x);
    SuffixOf(b, "." + y);
    assert a + "." + x == a + ("." + x);
    assert b + "." + y == b + ("." + y);
    assert ("." + x)[1..] == x;
    assert ("." + y)[1..] == y;
  }

  lemma TargetDiffers(name: string, container: string)
    requires name != "" && container != "" && '.' !in container && container != "encodr-backup"
    ensures BackupName(name) != TargetName(name, container) && |BackupName(name)| > |name|
  {
    var ending := "." + container;
    SuffixOf(Stem(name), ending);
    assert TargetName(name, container) == Stem(name) + ending;
    BackupSuffix(name);
    assert MARK[1..] == "encodr-backup" && ending[1..] == container;
    if Suffix(name) != "" {
      SuffixShape(name);
      assert |Stem(BackupName(name))| > |Stem(name)|;
    }
  }
}
