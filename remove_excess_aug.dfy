/**
 * remove_excess_aug.py: every file whose name the pattern `aug(\d*)\.iob$` finds a match in
 * is deleted. The captured number is read but never consulted.
 */
module RemoveExcessAug {
  import opened Wrappers
  import opened Text
  import opened Entities
  import DataAugmentation

  // ---------------------------------------------------------------- the pattern, as a search

  /** `aug(\d*)\.iob$` matches `name[i..j + 4]`: `aug` at `i`, digits up to `j`, `.iob`, and
      then the end of the name or a final newline (which `$` also accepts). */
  predicate MatchesAt(name: string, i: nat, j: nat) {
    i + 3 <= j && j + 4 <= |name| &&
    name[i..i + 3] == "aug" && AllDigits(name[i + 3..j]) && name[j..j + 4] == ".iob" &&
    (j + 4 == |name| || (j + 5 == |name| && name[|name| - 1] == '\n'))
  }

  /** `pattern.search(name)` finds a match. */
  ghost predicate Matches(name: string) {
    exists i: nat, j: nat :: MatchesAt(name, i, j)
  }

  // ---------------------------------------------------------------- the pattern, computed

  /** The name without one final newline. */
  function Body(name: string): (b: string)
    ensures |b| <= |name| && b == name[..|b|]
  {
    if name != [] && name[|name| - 1] == '\n' then name[..|name| - 1] else name
  }

  /** The length of the run of digits that ends `s`. */
  function TrailingDigits(s: string): (k: nat)
    ensures k <= |s|
    ensures forall p :: |s| - k <= p < |s| ==> IsDigit(s[p])
    ensures k < |s| ==> !IsDigit(s[|s| - k - 1])
    decreases |s|
  {
    if s != [] && IsDigit(s[|s| - 1]) then TrailingDigits(s[..|s| - 1]) + 1 else 0
  }

  /** The group found in a name whose `.iob` is cut off: the trailing digits, if `aug`
      comes right before them. */
  function StemGroup(stem: string): (r: Option<string>)
    ensures r.Some? ==> AllDigits(r.value)
  {
    var k := TrailingDigits(stem);
    if EndsWith(stem[..|stem| - k], "aug") then Some(stem[|stem| - k..]) else None
  }

  /** `match.group(1)` when the search succeeds. */
  function AugGroup(name: string): (r: Option<string>)
    ensures r.Some? ==> AllDigits(r.value)
  {
    var b := Body(name);
    if !EndsWith(b, ".iob") then None else StemGroup(b[..|b| - 4])
  }

  /** A digit run that starts at `m`, after a non-digit, is the whole trailing run. */
  lemma TrailingDigitsFrom(s: string, m: nat)
    requires m <= |s| && (forall p :: m <= p < |s| ==> IsDigit(s[p])) && (m > 0 ==> !IsDigit(s[m - 1]))
    ensures TrailingDigits(s) == |s| - m
  {
  }

  /** `aug` at `i` and only digits after it. */
  lemma StemGroupAt(stem: string, i: nat)
    requires i + 3 <= |stem| && stem[i..i + 3] == "aug" && forall p :: i + 3 <= p < |stem| ==> IsDigit(stem[p])
    ensures StemGroup(stem) == Some(stem[i + 3..])
  {
    assert stem[i + 2] == stem[i..i + 3][2];
    TrailingDigitsFrom(stem, i + 3);
    assert stem[..i + 3][i..] == stem[i..i + 3];
  }

  /** `$` is met at the end of the name, or before its final newline. */
  lemma BodyOfMatch(name: string, i: nat, j: nat)
    requires MatchesAt(name, i, j)
    ensures Body(name) == name[..j + 4]
  {
    if j + 4 == |name| {
      assert name[|name| - 1] == name[j..j + 4][3];
      assert name[..j + 4] == name;
    }
  }

  /** A name whose body is `stem` then `.iob` has its group looked for in `stem`. */
  lemma AugGroupOfStem(name: string, stem: string)
    requires Body(name) == stem + ".iob"
    ensures AugGroup(name) == StemGroup(stem)
  {
    var b := Body(name);
    assert b[|b| - 4..] == ".iob";
    assert b[..|b| - 4] == stem;
  }

  /** After a match, the group is looked for in the name up to the `.iob` of the match. */
  lemma MatchStem(name: string, i: nat, j: nat)
    requires MatchesAt(name, i, j)
    ensures AugGroup(name) == StemGroup(name[..j])
  {
    BodyOfMatch(name, i, j);
    assert name[..j + 4] == name[..j] + ".iob" by {
      assert name[..j + 4] == name[..j] + name[j..j + 4];
    }
    AugGroupOfStem(name, name[..j]);
  }

  /** The computed group agrees with the search: the group is the digits of every match. */
  lemma MatchGivesGroup(name: string, i: nat, j: nat)
    requires MatchesAt(name, i, j)
    ensures AugGroup(name) == Some(name[i + 3..j])
  {
    MatchStem(name, i, j);
    var stem := name[..j];
    assert stem[i..i + 3] == name[i..i + 3];
    assert forall p :: i + 3 <= p < j ==> stem[p] == name[i + 3..j][p - (i + 3)];
    StemGroupAt(stem, i);
    assert stem[i + 3..] == name[i + 3..j];
  }

  lemma GroupGivesMatch(name: string)
    requires AugGroup(name).Some?
    ensures Matches(name)
  {
    var b := Body(name);
    var stem := b[..|b| - 4];
    var k := TrailingDigits(stem);
    var i := |stem| - k - 3;
    var j := |stem|;
    assert name[i..i + 3] == stem[..|stem| - k][|stem| - k - 3..];
    assert name[i + 3..j] == stem[|stem| - k..];
    assert name[j..j + 4] == b[|b| - 4..];
    assert MatchesAt(name, i, j);
  }

  lemma GroupIffMatch(name: string)
    ensures AugGroup(name).Some? <==> Matches(name)
  {
    if AugGroup(name).Some? {
      GroupGivesMatch(name);
    }
    if Matches(name) {
      var i: nat, j: nat :| MatchesAt(name, i, j);
      MatchGivesGroup(name, i, j);
    }
  }

  // ---------------------------------------------------------------- the loop (lines 11-20)

  /** The files a removal rule leaves in the folder, in listing order. */
  function KeptBy(entries: seq<Entry>, removes: string -> bool): (r: seq<Entry>)
    ensures |r| <= |entries|
    decreases |entries|
  {
    if entries == [] then []
    else
      var e := entries[|entries| - 1];
      KeptBy(entries[..|entries| - 1], removes) + if removes(e.name) then [] else [e]
  }

  lemma KeptByStep(entries: seq<Entry>, removes: string -> bool, i: nat)
    requires i < |entries|
    ensures KeptBy(entries[..i + 1], removes) == KeptBy(entries[..i], removes) + if removes(entries[i].name) then [] else [entries[i]]
  {
    assert entries[..i + 1][..i] == entries[..i];
  }

  /** The rule as written: any match removes the file. */
  predicate Removes(name: string) { AugGroup(name).Some? }

  method CleanAugmentedFiles(entries: seq<Entry>) returns (kept: seq<Entry>)
    ensures kept == KeptBy(entries, Removes)
  {
    kept := [];
    for i := 0 to |entries|
      invariant kept == KeptBy(entries[..i], Removes)
    {
      KeptByStep(entries, Removes, i);
      var filename := entries[i].name;
      var found := AugGroup(filename);
      if found.Some? {
        continue;
      }
      kept := kept + [entries[i]];
    }
    assert entries[..|entries|] == entries;
  }

  /** A file stays, unchanged, exactly when the rule does not remove it. */
  lemma {:induction false} KeptByIff(entries: seq<Entry>, removes: string -> bool)
    ensures forall i :: 0 <= i < |entries| ==> (entries[i] in KeptBy(entries, removes) <==> !removes(entries[i].name))
    ensures forall e :: e in KeptBy(entries, removes) ==> e in entries && !removes(e.name)
    decreases |entries|
  {
    if entries != [] {
      var n := |entries| - 1;
      KeptByIff(entries[..n], removes);
      assert entries == entries[..n] + [entries[n]];
      assert forall i :: 0 <= i < n ==> entries[..n][i] == entries[i];
    }
  }

  lemma KeptIffNoMatch(entries: seq<Entry>)
    ensures forall i :: 0 <= i < |entries| ==> (entries[i] in KeptBy(entries, Removes) <==> !Matches(entries[i].name))
  {
    KeptByIff(entries, Removes);
    forall i | 0 <= i < |entries|
      ensures Removes(entries[i].name) <==> Matches(entries[i].name)
    {
      GroupIffMatch(entries[i].name);
    }
  }

  // ---------------------------------------------------------------- particular names

  /** `aug`, optional digits and `.iob` at the end of a name: the file goes, whatever the
      digits are, so `aug.iob`, `aug1.iob` and `aug2.iob` all go. */
  lemma SuffixRemoved(prefix: string, digits: string)
    requires AllDigits(digits)
    ensures AugGroup(prefix + "aug" + digits + ".iob") == Some(digits)
  {
    var name := prefix + "aug" + digits + ".iob";
    var i := |prefix|;
    var j := i + 3 + |digits|;
    assert name[i..i + 3] == "aug" && name[i + 3..j] == digits && name[j..j + 4] == ".iob";
    MatchGivesGroup(name, i, j);
  }

  /** A name that does not end in `.iob`, such as `x_aug1.iob.bak`, stays. */
  lemma NotIobKept(name: string)
    requires !EndsWith(name, ".iob") && !EndsWith(name, ".iob\n")
    ensures !Removes(name)
  {
  }

  /** Every name `augment_file` writes is removed, its number captured. */
  lemma AugNameRemoved(name: string, augId: nat)
    ensures AugGroup(DataAugmentation.AugName(name, augId)) == Some(NatToString(augId))
  {
    var prefix := DataAugmentation.Stem(name) + "_";
    assert "_aug" == "_" + "aug";
    assert DataAugmentation.AugName(name, augId) == prefix + "aug" + NatToString(augId) + ".iob";
    SuffixRemoved(prefix, NatToString(augId));
  }

  // ---------------------------------------------------------------- the documented rule

  /** The rule the docstring of lines 5-8 describes: `aug.iob` and `aug{N}.iob` with
      `N > 2` go; `aug1.iob`, `aug2.iob` and names without a match stay. */
  predicate IntendedRemoves(name: string) {
    var g := AugGroup(name);
    g.Some? && (g.value == "" || DigitsValue(g.value) > 2)
  }

  /** The rule as written removes the first two copies `augment_file` makes, which the
      documented rule keeps. */
  lemma AsWrittenRemovesFirstCopies(name: string)
    ensures Removes(DataAugmentation.AugName(name, 1)) && !IntendedRemoves(DataAugmentation.AugName(name, 1))
    ensures Removes(DataAugmentation.AugName(name, 2)) && !IntendedRemoves(DataAugmentation.AugName(name, 2))
  {
    AugNameRemoved(name, 1);
    AugNameRemoved(name, 2);
    NatToStringRoundTrip(1);
    NatToStringRoundTrip(2);
  }

  /** Under the documented rule copy `k` of `augment_file` goes exactly when `k > 2`. */
  lemma IntendedCopies(name: string, augId: nat)
    ensures IntendedRemoves(DataAugmentation.AugName(name, augId)) <==> augId > 2
  {
    AugNameRemoved(name, augId);
    NatToStringRoundTrip(augId);
  }

  /** Under the documented rule a bare `aug.iob` still goes. */
  lemma IntendedBare(prefix: string)
    ensures IntendedRemoves(prefix + "aug.iob")
  {
    SuffixRemoved(prefix, "");
    assert prefix + "aug" + "" + ".iob" == prefix + "aug.iob";
  }

  /** The loop with the documented rule in place of any match. */
  method CleanAugmentedFilesDocumented(entries: seq<Entry>) returns (kept: seq<Entry>)
    ensures kept == KeptBy(entries, IntendedRemoves)
  {
    kept := [];
    for i := 0 to |entries|
      invariant kept == KeptBy(entries[..i], IntendedRemoves)
    {
      KeptByStep(entries, IntendedRemoves, i);
      var found := AugGroup(entries[i].name);
      if found.Some? && (found.value == "" || DigitsValue(found.value) > 2) {
        continue;
      }
      kept := kept + [entries[i]];
    }
    assert entries[..|entries|] == entries;
  }

  /** With the documented rule a file stays exactly when the rule does not apply to it. */
  lemma IntendedKeptIff(entries: seq<Entry>)
    ensures forall i :: 0 <= i < |entries| ==> (entries[i] in KeptBy(entries, IntendedRemoves) <==> !IntendedRemoves(entries[i].name))
  {
    KeptByIff(entries, IntendedRemoves);
  }
}
