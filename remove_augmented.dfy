/**
 * remove_augmented.py: every file of a folder whose name ends in `.iob` and contains
 * `_aug` is deleted, and the deletions are counted.
 */
module RemoveAugmented {
  import opened Text
  import opened Entities
  import DataAugmentation

  /** Line 8. */
  predicate IsAugmented(name: string) { EndsWith(name, ".iob") && Contains(name, "_aug") }

  /** The files left in the folder, in listing order. */
  function Kept(entries: seq<Entry>): (r: seq<Entry>)
    ensures |r| <= |entries|
    decreases |entries|
  {
    if entries == [] then []
    else
      var e := entries[|entries| - 1];
      Kept(entries[..|entries| - 1]) + if IsAugmented(e.name) then [] else [e]
  }

  /** The names deleted, in listing order. */
  function Removed(entries: seq<Entry>): (r: seq<string>)
    ensures |r| <= |entries|
    decreases |entries|
  {
    if entries == [] then []
    else
      var e := entries[|entries| - 1];
      Removed(entries[..|entries| - 1]) + if IsAugmented(e.name) then [e.name] else []
  }

  lemma KeptStep(entries: seq<Entry>, i: nat)
    requires i < |entries|
    ensures Kept(entries[..i + 1]) == Kept(entries[..i]) + if IsAugmented(entries[i].name) then [] else [entries[i]]
    ensures Removed(entries[..i + 1]) == Removed(entries[..i]) + if IsAugmented(entries[i].name) then [entries[i].name] else []
  {
    assert entries[..i + 1][..i] == entries[..i];
  }

  /** `remove_augmented_files` over a listing: the folder afterwards, the names removed and
      `removed_count`. */
  method RemoveAugmentedFiles(entries: seq<Entry>) returns (kept: seq<Entry>, removed: seq<string>, removedCount: nat)
    ensures kept == Kept(entries) && removed == Removed(entries)
    ensures removedCount == |removed|
  {
    kept, removed, removedCount := [], [], 0;
    for i := 0 to |entries|
      invariant kept == Kept(entries[..i]) && removed == Removed(entries[..i])
      invariant removedCount == |removed|
    {
      KeptStep(entries, i);
      var filename := entries[i].name;
      if EndsWith(filename, ".iob") && Contains(filename, "_aug") {
        removed := removed + [filename];
        removedCount := removedCount + 1;
      } else {
        kept := kept + [entries[i]];
      }
    }
    assert entries[..|entries|] == entries;
  }

  /** Every file is either kept or removed. */
  lemma {:induction false} Partition(entries: seq<Entry>)
    ensures |Kept(entries)| + |Removed(entries)| == |entries|
    decreases |entries|
  {
    if entries != [] {
      Partition(entries[..|entries| - 1]);
    }
  }

  /** A file stays, unchanged, exactly when its name is not an augmented name; a name is
      removed exactly when it is one. */
  lemma {:induction false} KeptIff(entries: seq<Entry>)
    ensures forall i :: 0 <= i < |entries| ==> (entries[i] in Kept(entries) <==> !IsAugmented(entries[i].name))
    ensures forall i :: 0 <= i < |entries| ==> (entries[i].name in Removed(entries) <==> IsAugmented(entries[i].name))
    ensures forall e :: e in Kept(entries) ==> e in entries && !IsAugmented(e.name)
    ensures forall x :: x in Removed(entries) ==> IsAugmented(x)
    decreases |entries|
  {
    if entries != [] {
      var n := |entries| - 1;
      var pre := entries[..n];
      KeptIff(pre);
      assert entries == pre + [entries[n]];
      assert forall i :: 0 <= i < n ==> pre[i] == entries[i];
    }
  }

  /** A file not ending in `.iob` is never removed. */
  lemma NotIobKept(entries: seq<Entry>, i: nat)
    requires i < |entries| && !IsIob(entries[i].name)
    ensures entries[i] in Kept(entries)
  {
    KeptIff(entries);
  }

  /** Every name `augment_file` writes is removed. */
  lemma AugNameRemoved(name: string, augId: nat)
    ensures IsAugmented(DataAugmentation.AugName(name, augId))
  {
    DataAugmentation.AugNameShape(name, augId);
  }
}
