/**
 * count.py: the per-file entity counter (which also tracks, without ever reading,
 * whether each type is inside an entity) and the folder tally, which records the counts
 * of every `.iob` file and accumulates a combined total.
 */
module Count {
  import opened Wrappers
  import opened Text
  import opened Entities

  // ================================================================ count_in_file

  /** `count_in_file`: the counters agree with those of split_balance.py's version on the same
      lines, because `inside_entity` is written but never read. */
  method CountInFile(lines: seq<string>) returns (r: Result<Counts, CountError>)
    ensures r == CountLines(lines)
  {
    var counters := Zeros();
    var inside: seq<bool> := [false, false, false, false, false, false, false];
    var i := 0;
    while i < |lines|
      invariant 0 <= i <= |lines| && |inside| == NUM_KEYS
      invariant CountLines(lines[..i]) == Success(counters)
    {
      assert lines[..i + 1][..i] == lines[..i];
      var parts := Fields(lines[i]);
      if |parts| < 2 {
        i := i + 1;
        continue;
      }
      if |parts| != 2 {
        CountLinesFailureSticks(lines, i + 1);
        return Failure(TooManyValues(i));
      }
      var tag := parts[1];
      ghost var before := counters;
      for k := 0 to NUM_KEYS
        invariant |inside| == NUM_KEYS
        invariant forall j :: 0 <= j < k ==> counters[j] == before[j] + if tag == BeginTag(j) then 1 else 0
        invariant forall j :: k <= j < NUM_KEYS ==> counters[j] == before[j]
      {
        if tag == "B-" + ENTITY_CODES[k] {
          counters := counters[k := counters[k] + 1];
          inside := inside[k := true];
        } else if tag != "I-" + ENTITY_CODES[k] {
          inside := inside[k := false];
        }
      }
      assert counters == Bump(before, tag);
      i := i + 1;
    }
    assert lines[..i] == lines;
    return Success(counters);
  }

  // ================================================================ tally_folder

  /** What the loop of `tally_folder` has built: `file_total`, `combined_totals`, and the
      `counts` variable left over from the last `.iob` file (`None` before the first). */
  datatype Tally = Tally(fileTotal: map<string, Counts>, combined: Counts, last: Option<Counts>)

  /** `UnboundLocalError` (a subclass of `NameError`) when a non-`.iob` entry comes before
      any `.iob` one, since the local `counts` is not yet bound;
      a counting error raised while reading the named file. */
  datatype TallyError = UnboundLocal | CountFailed(filename: string, error: CountError)

  function InitialTally(): Tally {
    Tally(map[], Zeros(), None)
  }

  /** One entry of the listing. Lines 65-66 sit outside the `if`, so a non-`.iob` entry adds
      the previous file's counts again. */
  function TallyStep(t: Tally, e: Entry): Result<Tally, TallyError> {
    if IsIob(e.name) then
      match CountLines(e.lines)
      case Failure(err) => Failure(CountFailed(e.name, err))
      case Success(c) => Success(Tally(t.fileTotal[e.name := c], AddCounts(t.combined, c), Some(c)))
    else
      match t.last
      case None => Failure(UnboundLocal)
      case Some(c) => Success(Tally(t.fileTotal, AddCounts(t.combined, c), t.last))
  }

  /** What `tally_folder` returns (or raises) for a listing, in listing order. */
  function TallySpec(entries: seq<Entry>): Result<Tally, TallyError>
    decreases |entries|
  {
    if entries == [] then Success(InitialTally())
    else
      match TallySpec(entries[..|entries| - 1])
      case Failure(err) => Failure(err)
      case Success(t) => TallyStep(t, entries[|entries| - 1])
  }

  /** `tally_folder` over a listing given as a sequence of entries. */
  method TallyFolder(entries: seq<Entry>) returns (r: Result<(map<string, Counts>, Counts), TallyError>)
    ensures TallySpec(entries).Failure? ==> r == Failure(TallySpec(entries).error)
    ensures TallySpec(entries).Success? ==>
              r == Success((TallySpec(entries).value.fileTotal, TallySpec(entries).value.combined))
  {
    var fileTotal: map<string, Counts> := map[];
    var combined := Zeros();
    var counts: Option<Counts> := None;
    for i := 0 to |entries|
      invariant TallySpec(entries[..i]) == Success(Tally(fileTotal, combined, counts))
    {
      assert entries[..i + 1][..i] == entries[..i];
      var e := entries[i];
      if IsIob(e.name) {
        var c := CountInFile(e.lines);
        if c.Failure? {
          FailureSticks(entries, i + 1);
          return Failure(CountFailed(e.name, c.error));
        }
        fileTotal := fileTotal[e.name := c.value];
        counts := Some(c.value);
      }
      if counts.None? {
        FailureSticks(entries, i + 1);
        return Failure(UnboundLocal);
      }
      ghost var before := combined;
      for k := 0 to NUM_KEYS
        invariant forall j :: 0 <= j < k ==> combined[j] == before[j] + counts.value[j]
        invariant forall j :: k <= j < NUM_KEYS ==> combined[j] == before[j]
      {
        combined := combined[k := combined[k] + counts.value[k]];
      }
      assert combined == AddCounts(before, counts.value);
    }
    assert entries[..|entries|] == entries;
    return Success((fileTotal, combined));
  }

  /** An error stops the tally: later entries do not change it. */
  lemma {:induction false} FailureSticks(entries: seq<Entry>, m: nat)
    requires m <= |entries| && TallySpec(entries[..m]).Failure?
    ensures TallySpec(entries) == TallySpec(entries[..m])
    decreases |entries| - m
  {
    if m < |entries| {
      assert entries[..m + 1][..m] == entries[..m];
      FailureSticks(entries, m + 1);
    } else {
      assert entries[..m] == entries;
    }
  }

  // ================================================================ what the tally means

  /** The names of the `.iob` entries. */
  function IobNames(entries: seq<Entry>): set<string> {
    set i | 0 <= i < |entries| && IsIob(entries[i].name) :: entries[i].name
  }

  /** `file_total` has one key per `.iob` file of the listing and no other. */
  lemma {:induction false} TallyKeys(entries: seq<Entry>)
    requires TallySpec(entries).Success?
    ensures TallySpec(entries).value.fileTotal.Keys == IobNames(entries)
    decreases |entries|
  {
    if entries != [] {
      var n := |entries| - 1;
      TallyKeys(entries[..n]);
      assert forall i :: 0 <= i < n ==> entries[..n][i] == entries[i];
      assert IobNames(entries) == IobNames(entries[..n]) + (if IsIob(entries[n].name) then {entries[n].name} else {});
    }
  }

  /** Succeeds when every entry is a `.iob` file that counts without error. */
  predicate AllIobCountable(entries: seq<Entry>) {
    forall i :: 0 <= i < |entries| ==> IsIob(entries[i].name) && CountLines(entries[i].lines).Success?
  }

  /** What a file contributes to a total: its counts, or nothing when counting it fails. */
  function CountsOrZero(e: Entry): Counts {
    match CountLines(e.lines)
    case Success(c) => c
    case Failure(_) => Zeros()
  }

  /** The per-file counts of a listing, in listing order. */
  function PerFileCounts(entries: seq<Entry>): (cs: seq<Counts>)
    ensures |cs| == |entries|
    decreases |entries|
  {
    if entries == [] then [] else PerFileCounts(entries[..|entries| - 1]) + [CountsOrZero(entries[|entries| - 1])]
  }

  /** For a folder of `.iob` files only, the combined totals are the componentwise sum of the
      per-file counts. */
  lemma {:induction false} TallyAllIob(entries: seq<Entry>)
    requires AllIobCountable(entries)
    ensures TallySpec(entries).Success?
    ensures TallySpec(entries).value.combined == SumAll(PerFileCounts(entries))
    decreases |entries|
  {
    if entries != [] {
      var n := |entries| - 1;
      assert forall i :: 0 <= i < n ==> entries[..n][i] == entries[i];
      TallyAllIob(entries[..n]);
      TallyIobStep(entries);
      PerFileCountsStep(entries);
    }
  }

  /** A `.iob` entry that counts adds its counts to the combined totals. */
  lemma TallyIobStep(entries: seq<Entry>)
    requires entries != [] && TallySpec(entries[..|entries| - 1]).Success?
    requires IsIob(entries[|entries| - 1].name) && CountLines(entries[|entries| - 1].lines).Success?
    ensures TallySpec(entries).Success?
    ensures TallySpec(entries).value.combined ==
              AddCounts(TallySpec(entries[..|entries| - 1]).value.combined, CountsOrZero(entries[|entries| - 1]))
  {
  }

  /** The sum of the per-file counts, one entry further. */
  lemma PerFileCountsStep(entries: seq<Entry>)
    requires entries != []
    ensures SumAll(PerFileCounts(entries)) ==
              AddCounts(SumAll(PerFileCounts(entries[..|entries| - 1])), CountsOrZero(entries[|entries| - 1]))
  {
    var cs := PerFileCounts(entries);
    assert cs[..|cs| - 1] == PerFileCounts(entries[..|entries| - 1]);
  }

  /** Appending an entry appends its counts. */
  lemma PerFileCountsSnoc(pre: seq<Entry>, e: Entry)
    ensures PerFileCounts(pre + [e])[..|pre|] == PerFileCounts(pre)
    ensures SumAll(PerFileCounts(pre + [e])) == AddCounts(SumAll(PerFileCounts(pre)), CountsOrZero(e))
  {
    assert (pre + [e])[..|pre|] == pre;
  }

  /** A tally in which every `.iob` file counts without error fails exactly when the listing
      starts with a non-`.iob` entry, and then with `UnboundLocalError`. */
  lemma {:induction false} TallyUnboundError(entries: seq<Entry>)
    requires CountableIob(entries)
    ensures TallySpec(entries).Failure? <==> entries != [] && !IsIob(entries[0].name)
    ensures TallySpec(entries).Failure? ==> TallySpec(entries).error == UnboundLocal
    ensures TallySpec(entries).Success? && entries != [] ==> TallySpec(entries).value.last.Some?
    decreases |entries|
  {
    if entries != [] {
      var n := |entries| - 1;
      assert forall i :: 0 <= i < n ==> entries[..n][i] == entries[i];
      TallyUnboundError(entries[..n]);
      if n > 0 {
        assert entries[..n][0] == entries[0];
      }
    }
  }

  /** The effect of the misplaced lines 65-66: a `.iob` file followed by a non-`.iob` entry is
      counted twice in the combined totals. */
  lemma TallyCountsTwice(a: Entry, other: Entry)
    requires IsIob(a.name) && !IsIob(other.name) && CountLines(a.lines).Success?
    ensures TallySpec([a, other]).Success?
    ensures var c := CountLines(a.lines).value;
            TallySpec([a, other]).value.combined == AddCounts(c, c)
  {
    assert [a, other][..1] == [a];
    assert [a][..0] == [];
    var c := CountLines(a.lines).value;
    assert TallySpec([a]) == Success(Tally(map[a.name := c], AddCounts(Zeros(), c), Some(c)));
    assert AddCounts(Zeros(), c) == c;
  }

  // ================================================================ the intended tally

  /** The tally with lines 65-66 inside the `if`: only `.iob` files add to the totals, and
      other entries are passed over. */
  function IntendedTallySpec(entries: seq<Entry>): Result<(map<string, Counts>, Counts), TallyError>
    decreases |entries|
  {
    if entries == [] then Success((map[], Zeros()))
    else
      var e := entries[|entries| - 1];
      match IntendedTallySpec(entries[..|entries| - 1])
      case Failure(err) => Failure(err)
      case Success(t) =>
        if !IsIob(e.name) then Success(t)
        else
          match CountLines(e.lines)
          case Failure(err) => Failure(CountFailed(e.name, err))
          case Success(c) => Success((t.0[e.name := c], AddCounts(t.1, c)))
  }

  /** Every `.iob` entry counts without error. */
  predicate CountableIob(entries: seq<Entry>) {
    forall i :: 0 <= i < |entries| && IsIob(entries[i].name) ==> CountLines(entries[i].lines).Success?
  }

  /** One more `.iob` entry adds its counts to the intended totals; any other entry adds nothing. */
  lemma IntendedTallyStep(entries: seq<Entry>)
    requires entries != [] && IntendedTallySpec(entries[..|entries| - 1]).Success?
    requires IsIob(entries[|entries| - 1].name) ==> CountLines(entries[|entries| - 1].lines).Success?
    ensures var e := entries[|entries| - 1];
            var t := IntendedTallySpec(entries[..|entries| - 1]).value;
            IntendedTallySpec(entries).Success? &&
            IntendedTallySpec(entries).value.1 == if IsIob(e.name) then AddCounts(t.1, CountsOrZero(e)) else t.1
  {
  }

  /** The sum over the `.iob` entries, one entry further. */
  lemma IobSumStep(entries: seq<Entry>)
    requires entries != []
    ensures var n := |entries| - 1;
            var e := entries[n];
            SumAll(PerFileCounts(IobEntries(entries))) ==
              if IsIob(e.name) then AddCounts(SumAll(PerFileCounts(IobEntries(entries[..n]))), CountsOrZero(e))
              else SumAll(PerFileCounts(IobEntries(entries[..n])))
  {
    var n := |entries| - 1;
    var pre := IobEntries(entries[..n]);
    if IsIob(entries[n].name) {
      assert IobEntries(entries) == pre + [entries[n]];
      PerFileCountsSnoc(pre, entries[n]);
    } else {
      assert IobEntries(entries) == pre + [];
      assert pre + [] == pre;
    }
  }

  /** The intended tally never raises `UnboundLocalError`, and its combined totals are the sum of
      the counts of the `.iob` files alone, whatever else the listing holds. */
  lemma {:induction false} IntendedTallySumsIob(entries: seq<Entry>)
    requires CountableIob(entries)
    ensures IntendedTallySpec(entries).Success?
    ensures IntendedTallySpec(entries).value.1 == SumAll(PerFileCounts(IobEntries(entries)))
    decreases |entries|
  {
    if entries != [] {
      var n := |entries| - 1;
      assert forall i :: 0 <= i < n ==> entries[..n][i] == entries[i];
      IntendedTallySumsIob(entries[..n]);
      IntendedTallyStep(entries);
      IobSumStep(entries);
    }
  }
}
