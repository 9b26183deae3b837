/**
 * remove_cns_labels.py: every `.iob` file of a folder is rewritten without its `B-CNS` and
 * `I-CNS` lines. Blank lines are kept as sentence boundaries; a line that does not unpack
 * into exactly two tab-separated fields raises and ends the run.
 */
module RemoveCnsLabels {
  import opened Wrappers
  import opened Text
  import opened Entities

  /** What the loop does with one line. */
  datatype Verdict = Kept | Dropped | Unpackable

  predicate IsCns(tag: string) { tag == "B-CNS" || tag == "I-CNS" }

  /** Lines 15-21. */
  function Classify(line: string): Verdict {
    var stripped := Strip(line);
    if stripped == "" then Kept
    else
      var parts := SplitOn(stripped, '\t');
      if |parts| != 2 then Unpackable
      else if IsCns(parts[1]) then Dropped
      else Kept
  }

  /** `token, tag = ...` fails on the line with this index. */
  datatype LineError = NotTwoFields(lineIndex: nat)

  /** `cleaned_lines` for one file, or the error that stops it, given what happens to each
      line. */
  function Filter(lines: seq<string>, verdict: string -> Verdict): Result<seq<string>, LineError>
    decreases |lines|
  {
    if lines == [] then Success([])
    else
      var n := |lines| - 1;
      match Filter(lines[..n], verdict)
      case Failure(e) => Failure(e)
      case Success(out) =>
        match verdict(lines[n])
        case Kept => Success(out + [lines[n]])
        case Dropped => Success(out)
        case Unpackable => Failure(NotTwoFields(n))
  }

  function CleanLines(lines: seq<string>): Result<seq<string>, LineError> {
    Filter(lines, Classify)
  }

  lemma FilterStep(lines: seq<string>, verdict: string -> Verdict, i: nat)
    requires i < |lines|
    ensures Filter(lines[..i + 1], verdict) ==
      match Filter(lines[..i], verdict)
      case Failure(e) => Failure(e)
      case Success(out) =>
        match verdict(lines[i])
        case Kept => Success(out + [lines[i]])
        case Dropped => Success(out)
        case Unpackable => Failure(NotTwoFields(i))
  {
    assert lines[..i + 1][..i] == lines[..i];
  }

  lemma {:induction false} FilterFailureSticks(lines: seq<string>, verdict: string -> Verdict, m: nat)
    requires m <= |lines| && Filter(lines[..m], verdict).Failure?
    ensures Filter(lines, verdict) == Filter(lines[..m], verdict)
    decreases |lines| - m
  {
    if m < |lines| {
      FilterStep(lines, verdict, m);
      FilterFailureSticks(lines, verdict, m + 1);
    } else {
      assert lines[..m] == lines;
    }
  }

  /** The inner loop of lines 13-21. */
  method CleanFile(lines: seq<string>) returns (r: Result<seq<string>, LineError>)
    ensures r == CleanLines(lines)
  {
    var cleanedLines := [];
    for i := 0 to |lines|
      invariant Filter(lines[..i], Classify) == Success(cleanedLines)
    {
      FilterStep(lines, Classify, i);
      var line := lines[i];
      var stripped := Strip(line);
      if stripped == "" {
        cleanedLines := cleanedLines + [line];
        continue;
      }
      var parts := SplitOn(stripped, '\t');
      if |parts| != 2 {
        FilterFailureSticks(lines, Classify, i + 1);
        return Failure(NotTwoFields(i));
      }
      if parts[1] != "B-CNS" && parts[1] != "I-CNS" {
        cleanedLines := cleanedLines + [line];
      }
    }
    assert lines[..|lines|] == lines;
    return Success(cleanedLines);
  }

  // ---------------------------------------------------------------- single lines

  /** A blank or whitespace-only line is kept verbatim. */
  lemma BlankKept(line: string)
    requires AllSpace(line)
    ensures Classify(line) == Kept
  {
    StripEmpty(line);
  }

  /** A `token<TAB>tag` line is dropped exactly when its tag is `B-CNS` or `I-CNS`. */
  lemma TabLine(tok: string, tag: string)
    requires IsWord(tok) && IsWord(tag)
    ensures Classify(tok + "\t" + tag + "\n") == if IsCns(tag) then Dropped else Kept
  {
    StripTabLine(tok, tag);
    SplitTabLine(tok, tag);
  }

  /** A line with no tab, or with two, cannot be unpacked. */
  lemma WrongFieldCount(line: string)
    requires Strip(line) != "" && |SplitOn(Strip(line), '\t')| != 2
    ensures Classify(line) == Unpackable
  {
  }

  // ---------------------------------------------------------------- whole files

  /** The file fails exactly when one of its lines cannot be unpacked, and then at the first
      such line. */
  lemma {:induction false} FilterFailsAtFirstBad(lines: seq<string>, verdict: string -> Verdict)
    ensures Filter(lines, verdict).Failure? <==> exists i :: 0 <= i < |lines| && verdict(lines[i]) == Unpackable
    ensures Filter(lines, verdict).Failure? ==>
      var k := Filter(lines, verdict).error.lineIndex;
      k < |lines| && verdict(lines[k]) == Unpackable &&
      forall i :: 0 <= i < k ==> verdict(lines[i]) != Unpackable
    decreases |lines|
  {
    if lines != [] {
      var n := |lines| - 1;
      var pre := lines[..n];
      FilterFailsAtFirstBad(pre, verdict);
      assert forall i :: 0 <= i < n ==> pre[i] == lines[i];
      var r0 := Filter(pre, verdict);
      if r0.Failure? {
        var k := r0.error.lineIndex;
        assert verdict(lines[k]) == Unpackable;
      } else if verdict(lines[n]) != Unpackable {
        assert forall i :: 0 <= i < |lines| ==> verdict(lines[i]) != Unpackable;
      }
    }
  }

  lemma CleanFailsAtFirstBad(lines: seq<string>)
    ensures CleanLines(lines).Failure? <==> exists i :: 0 <= i < |lines| && Classify(lines[i]) == Unpackable
    ensures CleanLines(lines).Failure? ==>
      var k := CleanLines(lines).error.lineIndex;
      k < |lines| && Classify(lines[k]) == Unpackable &&
      forall i :: 0 <= i < k ==> Classify(lines[i]) != Unpackable
  {
    FilterFailsAtFirstBad(lines, Classify);
  }

  /** `b` keeps some of the elements of `a` in their order. */
  predicate SubsequenceOf(b: seq<string>, a: seq<string>)
    decreases |a|
  {
    b == [] ||
    (a != [] &&
     if b[|b| - 1] == a[|a| - 1] then SubsequenceOf(b[..|b| - 1], a[..|a| - 1]) else SubsequenceOf(b, a[..|a| - 1]))
  }

  lemma {:induction false} SubsequenceDropLast(b: seq<string>, a: seq<string>)
    requires b != [] && SubsequenceOf(b, a)
    ensures SubsequenceOf(b[..|b| - 1], a)
    decreases |a|
  {
    var b' := b[..|b| - 1];
    if b' != [] {
      var a' := a[..|a| - 1];
      if b[|b| - 1] == a[|a| - 1] {
        if b'[|b'| - 1] != a[|a| - 1] {
          assert SubsequenceOf(b', a');
        } else {
          SubsequenceDropLast(b', a');
          assert b'[..|b'| - 1] == b[..|b| - 2];
        }
      } else {
        SubsequenceDropLast(b, a');
        if b'[|b'| - 1] == a[|a| - 1] {
          SubsequenceDropLast(b', a');
        }
      }
    }
  }

  lemma SubsequenceExtend(b: seq<string>, a: seq<string>, x: string)
    requires SubsequenceOf(b, a)
    ensures SubsequenceOf(b, a + [x]) && SubsequenceOf(b + [x], a + [x])
  {
    assert (a + [x])[..|a|] == a;
    assert (b + [x])[..|b|] == b;
    if b != [] && b[|b| - 1] == x {
      SubsequenceDropLast(b, a);
    }
  }

  /** What comes out keeps some of the lines, in their order and verbatim, and only lines
      whose verdict is to keep them. */
  lemma {:induction false} FilterKeeps(lines: seq<string>, verdict: string -> Verdict)
    requires Filter(lines, verdict).Success?
    ensures var out := Filter(lines, verdict).value;
            SubsequenceOf(out, lines) && forall k :: 0 <= k < |out| ==> verdict(out[k]) == Kept
    decreases |lines|
  {
    if lines != [] {
      var n := |lines| - 1;
      FilterKeeps(lines[..n], verdict);
      var out := Filter(lines[..n], verdict).value;
      assert lines[..n] + [lines[n]] == lines;
      SubsequenceExtend(out, lines[..n], lines[n]);
    }
  }

  /** Lines that are all kept come through unchanged. */
  lemma {:induction false} FilterAllKept(lines: seq<string>, verdict: string -> Verdict)
    requires forall k :: 0 <= k < |lines| ==> verdict(lines[k]) == Kept
    ensures Filter(lines, verdict) == Success(lines)
    decreases |lines|
  {
    if lines != [] {
      var n := |lines| - 1;
      assert forall k :: 0 <= k < n ==> lines[..n][k] == lines[k];
      FilterAllKept(lines[..n], verdict);
      assert lines[..n] + [lines[n]] == lines;
    }
  }

  /** A cleaned file is an order-preserving selection of its lines, each blank or not a CNS
      line, and cleaning it again changes nothing. */
  lemma CleanedFacts(lines: seq<string>)
    requires CleanLines(lines).Success?
    ensures var out := CleanLines(lines).value;
            SubsequenceOf(out, lines) &&
            (forall k :: 0 <= k < |out| ==> Classify(out[k]) == Kept) &&
            CleanLines(out) == Success(out)
  {
    FilterKeeps(lines, Classify);
    FilterAllKept(CleanLines(lines).value, Classify);
  }

  function DroppedCount(lines: seq<string>, verdict: string -> Verdict): nat
    decreases |lines|
  {
    if lines == [] then 0
    else DroppedCount(lines[..|lines| - 1], verdict) + if verdict(lines[|lines| - 1]) == Dropped then 1 else 0
  }

  /** Exactly the dropped lines go. */
  lemma {:induction false} FilterLength(lines: seq<string>, verdict: string -> Verdict)
    requires Filter(lines, verdict).Success?
    ensures |Filter(lines, verdict).value| == |lines| - DroppedCount(lines, verdict)
    decreases |lines|
  {
    if lines != [] {
      FilterLength(lines[..|lines| - 1], verdict);
    }
  }

  lemma CleanedLength(lines: seq<string>)
    requires CleanLines(lines).Success?
    ensures |CleanLines(lines).value| == |lines| - DroppedCount(lines, Classify)
  {
    FilterLength(lines, Classify);
  }

  // ---------------------------------------------------------------- the folder (lines 3-26)

  /** The `.iob` file that raised, with the error. */
  datatype Crash = Crash(name: string, error: LineError)

  /** The files after the run, `updated_files`, and the error that ended the run, if any. */
  datatype Run = Run(files: seq<Entry>, updated: nat, crash: Option<Crash>)

  /** One file of the listing: once a file has raised, the rest are not reached. */
  function RunStep(r: Run, e: Entry): Run {
    if r.crash.Some? || !IsIob(e.name) then r.(files := r.files + [e])
    else
      match CleanLines(e.lines)
      case Success(out) => Run(r.files + [Entry(e.name, out)], r.updated + 1, None)
      case Failure(err) => Run(r.files + [e], r.updated, Some(Crash(e.name, err)))
  }

  function FolderRun(entries: seq<Entry>): (r: Run)
    ensures |r.files| == |entries|
    decreases |entries|
  {
    if entries == [] then Run([], 0, None) else RunStep(FolderRun(entries[..|entries| - 1]), entries[|entries| - 1])
  }

  lemma FolderStep(entries: seq<Entry>, i: nat)
    requires i < |entries|
    ensures FolderRun(entries[..i + 1]) == RunStep(FolderRun(entries[..i]), entries[i])
  {
    assert entries[..i + 1][..i] == entries[..i];
  }

  /** After the crash the remaining files stay as they are. */
  lemma {:induction false} AfterCrash(entries: seq<Entry>, m: nat)
    requires m <= |entries| && FolderRun(entries[..m]).crash.Some?
    ensures FolderRun(entries) == FolderRun(entries[..m]).(files := FolderRun(entries[..m]).files + entries[m..])
    decreases |entries| - m
  {
    if m < |entries| {
      FolderStep(entries, m);
      AfterCrash(entries, m + 1);
      assert entries[m..] == [entries[m]] + entries[m + 1..];
    } else {
      assert entries[..m] == entries && entries[m..] == [];
    }
  }

  /** `clean_cns_tags_in_folder` over a listing. */
  method CleanCnsTagsInFolder(entries: seq<Entry>) returns (files: seq<Entry>, updatedFiles: nat, crash: Option<Crash>)
    ensures Run(files, updatedFiles, crash) == FolderRun(entries)
  {
    files, updatedFiles, crash := [], 0, None;
    var i := 0;
    while i < |entries|
      invariant i <= |entries|
      invariant FolderRun(entries[..i]) == Run(files, updatedFiles, None)
    {
      FolderStep(entries, i);
      var e := entries[i];
      i := i + 1;
      if !EndsWith(e.name, ".iob") {
        files := files + [e];
        continue;
      }
      var cleaned := CleanFile(e.lines);
      if cleaned.Failure? {
        crash := Some(Crash(e.name, cleaned.error));
        files := files + [e] + entries[i..];
        AfterCrash(entries, i);
        return;
      }
      files := files + [Entry(e.name, cleaned.value)];
      updatedFiles := updatedFiles + 1;
    }
    assert entries[..i] == entries;
  }

  /** Names and order are kept, and files that are not `.iob` files are left alone. */
  lemma {:induction false} FolderShape(entries: seq<Entry>)
    ensures var r := FolderRun(entries);
            |r.files| == |entries| &&
            (forall i :: 0 <= i < |entries| ==> r.files[i].name == entries[i].name) &&
            (forall i :: 0 <= i < |entries| && !IsIob(entries[i].name) ==> r.files[i] == entries[i])
    decreases |entries|
  {
    if entries != [] {
      var n := |entries| - 1;
      FolderShape(entries[..n]);
      var r0 := FolderRun(entries[..n]);
      var r := FolderRun(entries);
      assert r.files[..n] == r0.files;
      assert forall i :: 0 <= i < n ==> entries[..n][i] == entries[i] && r.files[i] == r0.files[i];
    }
  }

  /** A run without error cleans every `.iob` file and counts each once in `updated_files`. */
  lemma {:induction false} FolderUpdates(entries: seq<Entry>)
    ensures var r := FolderRun(entries);
            r.crash.None? ==>
              r.updated == |IobEntries(entries)| &&
              forall i :: 0 <= i < |entries| && IsIob(entries[i].name) ==> CleanLines(entries[i].lines) == Success(r.files[i].lines)
    decreases |entries|
  {
    if entries != [] {
      var n := |entries| - 1;
      FolderUpdates(entries[..n]);
      FolderShape(entries[..n]);
      var r0 := FolderRun(entries[..n]);
      var r := FolderRun(entries);
      if r.crash.None? {
        assert r0.crash.None?;
        assert r.files[..n] == r0.files;
        assert forall i :: 0 <= i < n ==> entries[..n][i] == entries[i] && r.files[i] == r0.files[i];
        if IsIob(entries[n].name) {
          assert IobEntries(entries) == IobEntries(entries[..n]) + [entries[n]];
        } else {
          assert IobEntries(entries) == IobEntries(entries[..n]) + [];
        }
      }
    }
  }

  /** The run ends with an error exactly when some `.iob` file has a line that cannot be
      unpacked. */
  lemma {:induction false} FolderCrashes(entries: seq<Entry>)
    ensures FolderRun(entries).crash.Some? <==>
      exists i :: 0 <= i < |entries| && IsIob(entries[i].name) && CleanLines(entries[i].lines).Failure?
    decreases |entries|
  {
    if entries != [] {
      var n := |entries| - 1;
      FolderCrashes(entries[..n]);
      assert forall i :: 0 <= i < n ==> entries[..n][i] == entries[i];
      var r0 := FolderRun(entries[..n]);
      if r0.crash.Some? {
        var i :| 0 <= i < n && IsIob(entries[..n][i].name) && CleanLines(entries[..n][i].lines).Failure?;
        assert entries[i] == entries[..n][i];
      }
    }
  }
}
