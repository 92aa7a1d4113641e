/** Pruning quarantined snapshots: `pruneCorruptRuntimeStateFiles`. A directory is the set of its file names. */
module Pruning {
  import opened Bytes
  import opened Texts

  const CORRUPT_PREFIX := "runtime_state.corrupt-"
  const EXTENSION := ".json"

  predicate Quarantined(name: string) {
    StartsWith(name, CORRUPT_PREFIX) && EndsWith(name, EXTENSION)
  }

  function Candidates(files: set<string>): set<string> {
    set name | name in files && Quarantined(name)
  }

  // ----- sorting names -----

  predicate SortedNames(ns: seq<string>) {
    forall i, j :: 0 <= i < j < |ns| ==> LexLess(ns[i], ns[j])
  }

  method InsertName(ns: seq<string>, name: string) returns (r: seq<string>)
    requires SortedNames(ns) && name !in ns
    ensures SortedNames(r) && |r| == |ns| + 1 && forall n :: n in r <==> n in ns || n == name
  {
    var i := 0;
    while i < |ns| && LexLess(ns[i], name)
      invariant i <= |ns| && forall k :: 0 <= k < i ==> LexLess(ns[k], name)
    {
      i := i + 1;
    }
    r := ns[..i] + [name] + ns[i..];
    InsertedName(ns, name, i);
  }

  lemma InsertedName(ns: seq<string>, name: string, i: nat)
    requires SortedNames(ns) && name !in ns && i <= |ns|
    requires forall k :: 0 <= k < i ==> LexLess(ns[k], name)
    requires i < |ns| ==> !LexLess(ns[i], name)
    ensures var r := ns[..i] + [name] + ns[i..]; SortedNames(r) && forall n :: n in r <==> n in ns || n == name
  {
    forall k | i <= k < |ns|
      ensures LexLess(name, ns[k])
    {
      LexTotal(ns[i], name);
      if i < k {
        LexTransitive(name, ns[i], ns[k]);
      }
    }
    var r := ns[..i] + [name] + ns[i..];
    forall a, b | 0 <= a < b < |r|
      ensures LexLess(r[a], r[b])
    {
      assert r[a] == if a < i then ns[a] else if a == i then name else ns[a - 1];
      assert r[b] == if b < i then ns[b] else if b == i then name else ns[b - 1];
    }
    assert ns == ns[..i] + ns[i..];
  }

  method SortNames(names: set<string>) returns (ns: seq<string>)
    ensures SortedNames(ns) && |ns| == |names| && forall n :: n in ns <==> n in names
  {
    ns := [];
    var rest := names;
    while rest != {}
      invariant rest <= names && SortedNames(ns) && |ns| + |rest| == |names|
      invariant forall n :: n in ns <==> n in names && n !in rest
      decreases |rest|
    {
      var name :| name in rest;
      ns := InsertName(ns, name);
      rest := rest - {name};
    }
  }

  // ----- pruning -----

  function Excess(files: set<string>, maxFiles: nat): nat {
    if maxFiles == 0 || |Candidates(files)| <= maxFiles then 0 else |Candidates(files)| - maxFiles
  }

  /** The candidates that may go: not the preserved one, and not one whose removal fails. */
  function Removable(files: set<string>, preserve: Option<string>, stuck: set<string>): set<string> {
    set name | name in Candidates(files) && Some(name) != preserve && name !in stuck
  }

  function AtMost(a: nat, b: nat): nat {
    if a <= b then a else b
  }

  /** As many as are too many or as can be removed, and those with the smallest names. */
  ghost predicate Pruned(files: set<string>, maxFiles: nat, preserve: Option<string>, stuck: set<string>,
                         removed: set<string>) {
    var removable := Removable(files, preserve, stuck);
    && removed <= removable && |removed| == AtMost(Excess(files, maxFiles), |removable|)
    && forall r, k | r in removed && k in removable - removed :: LexLess(r, k)
  }

  /** The removable names before position `i` of a sorted list. */
  function Before(ns: seq<string>, i: nat, removable: set<string>): set<string>
    requires i <= |ns|
  {
    set k | 0 <= k < i && ns[k] in removable :: ns[k]
  }

  method PruneCorruptRuntimeStateFiles(files: set<string>, maxFiles: nat, preserve: Option<string>, stuck: set<string>)
    returns (removedCount: nat, removed: set<string>)
    ensures Pruned(files, maxFiles, preserve, stuck, removed) && removedCount == |removed|
  {
    removedCount, removed := 0, {};
    ghost var removable := Removable(files, preserve, stuck);
    if maxFiles == 0 {
      return;
    }
    var candidates := Candidates(files);
    if |candidates| <= maxFiles {
      return;
    }
    var sorted := SortNames(candidates);
    ghost var seen;
    removedCount, removed, seen := RemoveSmallest(sorted, maxFiles, preserve, stuck, removable);
    SubsetAtMost(removed, removable);
    if seen == |sorted| {
      assert removed == removable;
    }
  }

  /** Removes from the front of the list until few enough are left. */
  method RemoveSmallest(sorted: seq<string>, maxFiles: nat, preserve: Option<string>, stuck: set<string>,
                        ghost removable: set<string>)
    returns (removedCount: nat, removed: set<string>, ghost seen: nat)
    requires SortedNames(sorted) && |sorted| >= maxFiles
    requires forall name | name in sorted :: name in removable <==> Some(name) != preserve && name !in stuck
    ensures seen <= |sorted| && removed == Before(sorted, seen, removable)
    ensures removedCount == |removed| <= |sorted| - maxFiles
    ensures removedCount == |sorted| - maxFiles || seen == |sorted|
  {
    removedCount, removed := 0, {};
    var i := 0;
    while i < |sorted| && |sorted| - removedCount > maxFiles
      invariant i <= |sorted| && removed == Before(sorted, i, removable)
      invariant removedCount == |removed| <= |sorted| - maxFiles
    {
      OneFurther(sorted, i, removable);
      if Some(sorted[i]) != preserve && sorted[i] !in stuck {
        removed := removed + {sorted[i]};
        removedCount := removedCount + 1;
      }
      i := i + 1;
    }
    seen := i;
  }

  lemma OneFurther(ns: seq<string>, i: nat, removable: set<string>)
    requires SortedNames(ns) && i < |ns|
    ensures Before(ns, i + 1, removable)
         == Before(ns, i, removable) + (if ns[i] in removable then {ns[i]} else {})
    ensures ns[i] !in Before(ns, i, removable)
  {
    forall k | 0 <= k < i
      ensures ns[k] != ns[i]
    {
      LexIrreflexive(ns[i]);
    }
  }

  // ----- what pruning guarantees -----

  /** What is removed is determined by the names alone. */
  lemma PruningIsDetermined(files: set<string>, maxFiles: nat, preserve: Option<string>, stuck: set<string>,
                            a: set<string>, b: set<string>)
    requires Pruned(files, maxFiles, preserve, stuck, a) && Pruned(files, maxFiles, preserve, stuck, b)
    ensures a == b
  {
    if a != b {
      OneSided(a, b);
      OneSided(b, a);
      var x :| x in a && x !in b;
      var y :| y in b && y !in a;
      LexTransitive(x, y, x);
      LexIrreflexive(x);
    }
  }

  lemma OneSided(a: set<string>, b: set<string>)
    requires |a| == |b| && a != b
    ensures exists x :: x in a && x !in b
  {
    if a <= b {
      SubsetSize(a, b);
    }
  }

  lemma SubsetSize(a: set<string>, b: set<string>)
    requires a <= b && a != b
    ensures |a| < |b|
  {
    var x :| x in b && x !in a;
    SubsetAtMost(a, b - {x});
  }

  lemma {:induction false} SubsetAtMost(a: set<string>, b: set<string>)
    requires a <= b
    ensures |a| <= |b|
  {
    if a != {} {
      var x :| x in a;
      SubsetAtMost(a - {x}, b - {x});
    }
  }

  /**
    With a limit of at least one and removals succeeding, exactly the limit remains whenever there were more, and
    neither the preserved file nor any other file of the directory goes.
   */
  lemma PruningLeavesLimit(files: set<string>, maxFiles: nat, preserve: Option<string>, removed: set<string>)
    requires maxFiles >= 1 && Pruned(files, maxFiles, preserve, {}, removed)
    ensures |Candidates(files - removed)| == AtMost(|Candidates(files)|, maxFiles)
    ensures preserve.Some? && preserve.value in files ==> preserve.value in files - removed
    ensures forall name | name in files && !Quarantined(name) :: name in files - removed
  {
    var removable := Removable(files, preserve, {});
    assert Candidates(files - removed) == Candidates(files) - removed;
    assert Candidates(files) == (Candidates(files) - removed) + removed;
    if preserve.Some? && preserve.value in Candidates(files) {
      assert Candidates(files) == removable + {preserve.value};
    } else {
      assert Candidates(files) == removable;
    }
  }

  /** Quarantining a new file and pruning while preserving it never leaves more than the limit. */
  lemma QuarantineStaysBounded(files: set<string>, name: string, maxFiles: nat, removed: set<string>)
    requires maxFiles >= 1 && Quarantined(name)
    requires Pruned(files + {name}, maxFiles, Some(name), {}, removed)
    ensures |Candidates(files + {name} - removed)| <= maxFiles && name in files + {name} - removed
  {
    PruningLeavesLimit(files + {name}, maxFiles, Some(name), removed);
  }

  /**
    Only names that start with `runtime_state.corrupt-` and end with `.json` are ever removed, so the live
    `runtime_state.json` never is.
   */
  lemma OnlyCorruptSnapshotsGo(files: set<string>, maxFiles: nat, preserve: Option<string>, stuck: set<string>,
                               removed: set<string>)
    requires Pruned(files, maxFiles, preserve, stuck, removed)
    ensures forall name | name in removed ::
              && name in files && Some(name) != preserve && name !in stuck
              && "runtime_state.corrupt-" <= name && |name| >= 5 && name[|name| - 5..] == ".json"
    ensures "runtime_state.json" !in removed
  {
    assert "runtime_state.json"[13] == '.' && "runtime_state.corrupt-"[14] == 'c' && "runtime_state.json"[14] == 'j';
  }

  /** And all of those count against the limit. */
  lemma CorruptSnapshotsAreCounted(files: set<string>, name: string)
    ensures name in Candidates(files) <==>
            name in files && "runtime_state.corrupt-" <= name && |name| >= 5 && name[|name| - 5..] == ".json"
  {
  }
}
