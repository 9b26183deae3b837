/**
 * fine-tuning.py, the parts that are not calls into the training libraries: the label
 * maps, `tokenize_and_align_labels` over a tokenizer's offset mapping, and the rewriting
 * of `LABEL_N` group names in pipeline results.
 */
module FineTuning {
  import opened Wrappers
  import opened Text

  // ================================================================ the label maps (lines 29-42)

  /** The labels in id order. */
  const LABEL_NAMES: seq<string> := ["O", "INS", "CNS", "STA", "RA", "PROM_DATE", "CASE_NUM", "PERSON"]

  const LABEL_MAP: map<string, int> :=
    map["O" := 0, "INS" := 1, "CNS" := 2, "STA" := 3, "RA" := 4, "PROM_DATE" := 5, "CASE_NUM" := 6, "PERSON" := 7]

  /** `{v: k for k, v in LABEL_MAP.items()}`, written out. */
  const ID2LABEL: map<int, string> :=
    map[0 := "O", 1 := "INS", 2 := "CNS", 3 := "STA", 4 := "RA", 5 := "PROM_DATE", 6 := "CASE_NUM", 7 := "PERSON"]

  /** `{k: v for k, v in LABEL_MAP.items()}`: a copy of `LABEL_MAP`. */
  const LABEL2ID: map<string, int> := LABEL_MAP

  /** The ids are 0 to 7, the labels those of `LABEL_NAMES`, in that order. */
  lemma LabelNames()
    ensures forall i :: 0 <= i < |LABEL_NAMES| ==> i in ID2LABEL && ID2LABEL[i] == LABEL_NAMES[i]
    ensures forall i :: 0 <= i < |LABEL_NAMES| ==> LABEL_NAMES[i] in LABEL2ID && LABEL2ID[LABEL_NAMES[i]] == i
    ensures forall id :: id in ID2LABEL <==> 0 <= id < |LABEL_NAMES|
  {
  }

  /** `ID2LABEL` is the inversion of `LABEL_MAP` that the comprehension builds: the two maps
      are inverse to each other. */
  lemma LabelMapsInverse()
    ensures forall l :: l in LABEL2ID ==> LABEL2ID[l] in ID2LABEL && ID2LABEL[LABEL2ID[l]] == l
    ensures forall id :: id in ID2LABEL ==> ID2LABEL[id] in LABEL2ID && LABEL2ID[ID2LABEL[id]] == id
  {
    LabelNames();
    forall l | l in LABEL2ID
      ensures LABEL2ID[l] in ID2LABEL && ID2LABEL[LABEL2ID[l]] == l
    {
      assert l in {"O", "INS", "CNS", "STA", "RA", "PROM_DATE", "CASE_NUM", "PERSON"};
    }
  }

  /** `LABEL_MAP.get(entity_label, 0)`. */
  function LabelId(entityLabel: string): (id: int)
    ensures 0 <= id < |LABEL_NAMES|
  {
    if entityLabel in LABEL_MAP then LABEL_MAP[entityLabel] else 0
  }

  /** The id decodes to the label itself, or to "O" for a label the map does not know. */
  lemma LabelIdMeaning(entityLabel: string)
    ensures LabelId(entityLabel) in ID2LABEL
    ensures ID2LABEL[LabelId(entityLabel)] == if entityLabel in LABEL_MAP then entityLabel else "O"
  {
    LabelMapsInverse();
  }

  // ================================================================ tokenize_and_align_labels

  /** The label every position starts with; the loss ignores it. */
  const IGNORE: int := -100

  /** One `(token_start, token_end)` pair of the offset mapping; either may be `None`. */
  type Offset = (Option<int>, Option<int>)

  /** An entity of a cleaned record: character span and label. */
  datatype Entity = Entity(start: int, end: int, entityLabel: string)

  /** Line 76: the token's span lies wholly inside the entity's. */
  predicate Covers(off: Offset, e: Entity) {
    off.0.Some? && off.1.Some? && off.0.value >= e.start && off.1.value <= e.end
  }

  /** The label a position ends with once the entities have been applied in order: the id of
      the last entity that covers it, or `IGNORE` when none does. */
  function LabelFor(off: Offset, ents: seq<Entity>): int
    decreases |ents|
  {
    if ents == [] then IGNORE
    else
      var e := ents[|ents| - 1];
      if Covers(off, e) then LabelId(e.entityLabel) else LabelFor(off, ents[..|ents| - 1])
  }

  /** The `entity_labels` row for one example of `n` input ids. */
  function AlignedRow(n: nat, offsets: seq<Offset>, ents: seq<Entity>): (row: seq<int>)
    requires |offsets| <= n
    ensures |row| == n
  {
    seq(n, i requires 0 <= i < n => if i < |offsets| then LabelFor(offsets[i], ents) else IGNORE)
  }

  /** Lines 73-77 for one entity: every position it covers gets its id; the others keep theirs. */
  method ApplyEntity(row: seq<int>, offsets: seq<Offset>, e: Entity) returns (r: seq<int>)
    requires |offsets| <= |row|
    ensures |r| == |row|
    ensures forall p :: 0 <= p < |row| ==>
              r[p] == if p < |offsets| && Covers(offsets[p], e) then LabelId(e.entityLabel) else row[p]
  {
    var entityLabelId := LabelId(e.entityLabel);
    r := row;
    for i := 0 to |offsets|
      invariant |r| == |row|
      invariant forall p :: 0 <= p < i ==> r[p] == if Covers(offsets[p], e) then entityLabelId else row[p]
      invariant forall p :: i <= p < |row| ==> r[p] == row[p]
    {
      var (tokenStart, tokenEnd) := offsets[i];
      if tokenStart.None? || tokenEnd.None? {
        continue;
      }
      if tokenStart.value >= e.start && tokenEnd.value <= e.end {
        r := r[i := entityLabelId];
      }
    }
  }

  lemma LabelForSnoc(off: Offset, ents: seq<Entity>, j: nat)
    requires j < |ents|
    ensures LabelFor(off, ents[..j + 1]) == if Covers(off, ents[j]) then LabelId(ents[j].entityLabel) else LabelFor(off, ents[..j])
  {
    assert ents[..j + 1][..j] == ents[..j];
  }

  /** Lines 67-77 for one example. */
  method AlignRow(n: nat, offsets: seq<Offset>, ents: seq<Entity>) returns (entityLabels: seq<int>)
    requires |offsets| <= n
    ensures entityLabels == AlignedRow(n, offsets, ents)
  {
    entityLabels := seq(n, _ => IGNORE);
    assert entityLabels == AlignedRow(n, offsets, ents[..0]);
    for j := 0 to |ents|
      invariant entityLabels == AlignedRow(n, offsets, ents[..j])
    {
      entityLabels := ApplyEntity(entityLabels, offsets, ents[j]);
      forall p | 0 <= p < |offsets|
        ensures entityLabels[p] == LabelFor(offsets[p], ents[..j + 1])
      {
        LabelForSnoc(offsets[p], ents, j);
      }
      assert entityLabels == AlignedRow(n, offsets, ents[..j + 1]);
    }
    assert ents[..|ents|] == ents;
  }

  /** `tokenize_and_align_labels` over a batch, given each example's number of input ids,
      its offset mapping and its entities. */
  method AlignBatch(inputLens: seq<nat>, offsetRows: seq<seq<Offset>>, entityRows: seq<seq<Entity>>)
    returns (labels: seq<seq<int>>)
    requires |offsetRows| == |inputLens| && |entityRows| == |inputLens|
    requires forall b :: 0 <= b < |inputLens| ==> |offsetRows[b]| <= inputLens[b]
    ensures |labels| == |inputLens|
    ensures forall b :: 0 <= b < |inputLens| ==>
              labels[b] == AlignedRow(inputLens[b], offsetRows[b], entityRows[b]) && |labels[b]| == inputLens[b]
  {
    labels := [];
    for b := 0 to |inputLens|
      invariant |labels| == b
      invariant forall c :: 0 <= c < b ==> labels[c] == AlignedRow(inputLens[c], offsetRows[c], entityRows[c])
    {
      var row := AlignRow(inputLens[b], offsetRows[b], entityRows[b]);
      labels := labels + [row];
    }
  }

  // ---------------------------------------------------------------- what alignment means

  /** Every label is `IGNORE` or one of the eight ids. */
  lemma {:induction false} LabelForRange(off: Offset, ents: seq<Entity>)
    ensures LabelFor(off, ents) == IGNORE || 0 <= LabelFor(off, ents) < |LABEL_NAMES|
    decreases |ents|
  {
    if ents != [] {
      LabelForRange(off, ents[..|ents| - 1]);
    }
  }

  /** A position keeps `IGNORE` exactly when no entity covers its span. */
  lemma {:induction false} IgnoredIffUncovered(off: Offset, ents: seq<Entity>)
    ensures LabelFor(off, ents) == IGNORE <==> forall k :: 0 <= k < |ents| ==> !Covers(off, ents[k])
    decreases |ents|
  {
    if ents != [] {
      var n := |ents| - 1;
      IgnoredIffUncovered(off, ents[..n]);
      assert forall k :: 0 <= k < n ==> ents[..n][k] == ents[k];
    }
  }

  /** Otherwise it carries the id of the last entity that covers it: later entities
      overwrite earlier ones. */
  lemma {:induction false} LastCoverWins(off: Offset, ents: seq<Entity>, k: nat)
    requires k < |ents| && Covers(off, ents[k])
    requires forall q :: k < q < |ents| ==> !Covers(off, ents[q])
    ensures LabelFor(off, ents) == LabelId(ents[k].entityLabel)
    decreases |ents|
  {
    var n := |ents| - 1;
    if k < n {
      assert ents[..n][k] == ents[k];
      assert forall q :: k < q < n ==> ents[..n][q] == ents[q];
      LastCoverWins(off, ents[..n], k);
    }
  }

  /** A position without an offset (a special token) stays `IGNORE`. */
  lemma NoOffsetIgnored(off: Offset, ents: seq<Entity>)
    requires off.0.None? || off.1.None?
    ensures LabelFor(off, ents) == IGNORE
  {
    IgnoredIffUncovered(off, ents);
  }

  // ================================================================ LABEL_N group names (lines 147-150)

  /** What marks a group name the pipeline left numeric. */
  const NUMBERED: string := "LABEL_"

  /** `int(...)` raised ValueError on the text left after removing every "LABEL_". */
  datatype RemapError = NotANumber(group: string)

  /** The group name after lines 148-150. */
  function Remap(group: string): Result<string, RemapError> {
    if StartsWith(group, NUMBERED) then
      match ParseInt(ReplaceAll(group, NUMBERED, ""))
      case None => Failure(NotANumber(group))
      case Some(n) => Success(if n in ID2LABEL then ID2LABEL[n] else "O")
    else Success(group)
  }

  /** The loop over `results`: every group name rewritten, or the error of the first one
      that `int()` rejects. */
  method RemapGroups(groups: seq<string>) returns (r: Result<seq<string>, RemapError>)
    ensures r.Success? ==> |r.value| == |groups| && forall k :: 0 <= k < |groups| ==> Remap(groups[k]) == Success(r.value[k])
    ensures r.Failure? ==> exists k :: 0 <= k < |groups| && Remap(groups[k]) == Failure(r.error) &&
                                       forall q :: 0 <= q < k ==> Remap(groups[q]).Success?
  {
    var out := groups;
    for k := 0 to |groups|
      invariant |out| == |groups|
      invariant forall q :: 0 <= q < k ==> Remap(groups[q]) == Success(out[q])
      invariant forall q :: k <= q < |groups| ==> out[q] == groups[q]
    {
      var group := out[k];
      if StartsWith(group, NUMBERED) {
        var n := ParseInt(ReplaceAll(group, NUMBERED, ""));
        if n.None? {
          assert Remap(groups[k]) == Failure(NotANumber(group));
          return Failure(NotANumber(group));
        }
        out := out[k := if n.value in ID2LABEL then ID2LABEL[n.value] else "O"];
      }
      assert Remap(groups[k]) == Success(out[k]);
    }
    return Success(out);
  }

  lemma {:induction false} ReplaceAbsent(s: string, pat: string, rep: string)
    requires pat != [] && forall i :: 0 <= i < |s| ==> s[i] != pat[0]
    ensures ReplaceAll(s, pat, rep) == s
    decreases |s|
  {
    if |s| >= |pat| {
      assert s[..|pat|][0] == s[0];
      ReplaceAbsent(s[1..], pat, rep);
    }
  }

  lemma ReplaceLeading(pat: string, rest: string, rep: string)
    requires pat != []
    ensures ReplaceAll(pat + rest, pat, rep) == rep + ReplaceAll(rest, pat, rep)
  {
    var s := pat + rest;
    assert s[..|pat|] == pat && s[|pat|..] == rest;
  }

  /** `LABEL_N` becomes the name of label `N`, and "O" when there is none. */
  lemma RemapNumbered(n: nat)
    ensures Remap(NUMBERED + NatToString(n)) == Success(if n in ID2LABEL then ID2LABEL[n] else "O")
  {
    var d := NatToString(n);
    assert StartsWith(NUMBERED + d, NUMBERED) by {
      assert (NUMBERED + d)[..|NUMBERED|] == NUMBERED;
    }
    assert forall i :: 0 <= i < |d| ==> d[i] != NUMBERED[0] by {
      assert forall i :: 0 <= i < |d| ==> IsDigit(d[i]);
    }
    ReplaceAbsent(d, NUMBERED, "");
    ReplaceLeading(NUMBERED, d, "");
    assert "" + d == d;
    ParseNatToString(n);
  }

  /** The eight ids read back as their labels. */
  lemma RemapRoundTrip(i: nat)
    requires i < |LABEL_NAMES|
    ensures Remap(NUMBERED + NatToString(i)) == Success(LABEL_NAMES[i])
  {
    RemapNumbered(i);
    LabelNames();
  }

  /** Names that do not start with `LABEL_` are left as they are. */
  lemma RemapKeepsNames(group: string)
    requires !StartsWith(group, NUMBERED)
    ensures Remap(group) == Success(group)
  {
  }
}
