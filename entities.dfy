/**
 * What both versions of `count_in_file` (split_balance.py and count.py) share: the seven
 * entity types, their counter keys, the reading of one IOB line, and the counts a file
 * of lines yields.
 */
module Entities {
  import opened Wrappers
  import opened Text

  /** Counter keys, in the order of `ENTITY_KEYS`; index 6 is `constitutes`. */
  const ENTITY_KEYS: seq<string> :=
    ["case_nums", "persons", "institutions", "prom_dates", "republic_acts", "statutes", "constitutes"]

  /** The tag type counted under each key: `entity_map`, in the same order. */
  const ENTITY_CODES: seq<string> := ["CASE_NUM", "PERSON", "INS", "PROM_DATE", "RA", "STA", "CNS"]

  const NUM_KEYS: nat := 7

  /** Index of the rare type `CNS` / key `constitutes`. */
  const CNS_INDEX: nat := 6

  /** One counter per key of `ENTITY_KEYS`. */
  type Counts = c: seq<nat> | |c| == 7 witness [0, 0, 0, 0, 0, 0, 0]

  /** A directory entry as the scripts see it: a file name and the file's lines,
      each with its line terminator, as `readlines()` gives them. */
  datatype Entry = Entry(name: string, lines: seq<string>)

  function Zeros(): (c: Counts)
    ensures forall k :: 0 <= k < NUM_KEYS ==> c[k] == 0
  {
    [0, 0, 0, 0, 0, 0, 0]
  }

  /** A listing entry the scripts treat as an IOB file. */
  predicate IsIob(name: string) { EndsWith(name, ".iob") }

  /** The `.iob` entries of a listing, in order. */
  function IobEntries(entries: seq<Entry>): (r: seq<Entry>)
    ensures forall i :: 0 <= i < |r| ==> IsIob(r[i].name)
    decreases |entries|
  {
    if entries == [] then []
    else
      var e := entries[|entries| - 1];
      IobEntries(entries[..|entries| - 1]) + if IsIob(e.name) then [e] else []
  }

  /** Componentwise sum of two count vectors. */
  function AddCounts(a: Counts, b: Counts): (c: Counts)
    ensures forall k :: 0 <= k < NUM_KEYS ==> c[k] == a[k] + b[k]
  {
    seq(7, k requires 0 <= k < 7 => a[k] + b[k])
  }

  /** `sum(counts.values())`. */
  function Total(c: Counts): nat {
    c[0] + c[1] + c[2] + c[3] + c[4] + c[5] + c[6]
  }

  lemma TotalAdd(a: Counts, b: Counts)
    ensures Total(AddCounts(a, b)) == Total(a) + Total(b)
  {
  }

  /** The tag that counts under key `k`. */
  function BeginTag(k: nat): string
    requires k < NUM_KEYS
  {
    "B-" + ENTITY_CODES[k]
  }

  /** A tag counts for some key exactly when it is `B-` followed by one of the seven codes. */
  predicate IsKnownBegin(tag: string) {
    exists k :: 0 <= k < NUM_KEYS && tag == BeginTag(k)
  }

  lemma BeginTagsDistinct(j: nat, k: nat)
    requires j < NUM_KEYS && k < NUM_KEYS && j != k
    ensures BeginTag(j) != BeginTag(k)
  {
    var cj, ck := ENTITY_CODES[j], ENTITY_CODES[k];
    assert BeginTag(j)[2..] == cj && BeginTag(k)[2..] == ck;
    if |cj| == |ck| {
      // the codes of equal length are INS, STA and CNS, which differ in their first letter
      assert cj[0] != ck[0];
      assert BeginTag(j)[2] != BeginTag(k)[2];
    }
  }

  /** What `parts = line.strip().split()` leaves: fewer than two fields (the line is
      skipped), exactly two (`token, tag = parts`), or more (the unpacking raises). */
  datatype LineShape = Short | Pair(token: string, tag: string) | Long

  function Shape(line: string): LineShape {
    var parts := Fields(line);
    if |parts| < 2 then Short else if |parts| == 2 then Pair(parts[0], parts[1]) else Long
  }

  /** Python's `ValueError: too many values to unpack` at the given 0-based line. */
  datatype CountError = TooManyValues(lineIndex: nat)

  /** The counters after one `token, tag` line: each key whose `B-` tag equals `tag` goes up by one. */
  function Bump(c: Counts, tag: string): Counts {
    seq(7, k requires 0 <= k < 7 => c[k] + if tag == BeginTag(k) then 1 else 0)
  }

  /** What `count_in_file` returns for a file with these lines. */
  function CountLines(lines: seq<string>): (r: Result<Counts, CountError>)
    decreases |lines|
  {
    if lines == [] then Success(Zeros())
    else
      var n := |lines| - 1;
      match CountLines(lines[..n])
      case Failure(e) => Failure(e)
      case Success(c) =>
        match Shape(lines[n])
        case Short => Success(c)
        case Long => Failure(TooManyValues(n))
        case Pair(_, tag) => Success(Bump(c, tag))
  }

  predicate HasTag(line: string, tag: string) {
    Shape(line).Pair? && Shape(line).tag == tag
  }

  /** Two lines read alike when they are both skipped, both too long, or both pairs with one tag;
      the tokens may differ. */
  predicate SameReading(x: LineShape, y: LineShape) {
    (x.Short? && y.Short?) || (x.Long? && y.Long?) || (x.Pair? && y.Pair? && x.tag == y.tag)
  }

  /** Number of lines that read as exactly two fields with this tag. */
  function Occurrences(lines: seq<string>, tag: string): nat
    decreases |lines|
  {
    if lines == [] then 0
    else
      var n := |lines| - 1;
      Occurrences(lines[..n], tag) + if HasTag(lines[n], tag) then 1 else 0
  }

  /** Number of lines whose tag counts for some key. */
  function KnownBeginLines(lines: seq<string>): nat
    decreases |lines|
  {
    if lines == [] then 0
    else
      var n := |lines| - 1;
      KnownBeginLines(lines[..n]) + if Shape(lines[n]).Pair? && IsKnownBegin(Shape(lines[n]).tag) then 1 else 0
  }

  // ---------------------------------------------------------------- what counting means

  /** Counting fails exactly when some line has more than two fields. */
  lemma {:induction false} CountLinesFailsIffLong(lines: seq<string>)
    ensures CountLines(lines).Failure? <==> exists i :: 0 <= i < |lines| && Shape(lines[i]).Long?
    decreases |lines|
  {
    if lines != [] {
      var n := |lines| - 1;
      CountLinesFailsIffLong(lines[..n]);
      if exists i :: 0 <= i < n && Shape(lines[..n][i]).Long? {
        var i :| 0 <= i < n && Shape(lines[..n][i]).Long?;
        assert lines[i] == lines[..n][i];
      }
      if exists i :: 0 <= i < |lines| && Shape(lines[i]).Long? {
        var i :| 0 <= i < |lines| && Shape(lines[i]).Long?;
        if i < n {
          assert lines[..n][i] == lines[i];
        }
      }
    }
  }

  /** The error names the first line with more than two fields. */
  lemma {:induction false} CountLinesFirstLong(lines: seq<string>)
    requires CountLines(lines).Failure?
    ensures var i := CountLines(lines).error.lineIndex;
            i < |lines| && Shape(lines[i]).Long? &&
            forall j :: 0 <= j < i ==> !Shape(lines[j]).Long?
    decreases |lines|
  {
    var n := |lines| - 1;
    if CountLines(lines[..n]).Failure? {
      CountLinesFirstLong(lines[..n]);
      var i := CountLines(lines[..n]).error.lineIndex;
      assert forall j :: 0 <= j < i ==> lines[j] == lines[..n][j];
    } else {
      CountLinesFailsIffLong(lines[..n]);
      assert forall j :: 0 <= j < n ==> lines[j] == lines[..n][j];
    }
  }

  /** Once some prefix fails, so does every extension of it, with the same error. */
  lemma {:induction false} CountLinesFailureSticks(lines: seq<string>, m: nat)
    requires m <= |lines| && CountLines(lines[..m]).Failure?
    ensures CountLines(lines) == CountLines(lines[..m])
    decreases |lines| - m
  {
    if m < |lines| {
      assert lines[..m + 1][..m] == lines[..m];
      CountLinesFailureSticks(lines, m + 1);
    } else {
      assert lines[..m] == lines;
    }
  }

  /** Each counter equals the number of lines whose tag is exactly that key's `B-` tag;
      `I-` tags, unknown types and lines with fewer than two fields add nothing. */
  lemma {:induction false} CountLinesCountsBeginTags(lines: seq<string>)
    requires CountLines(lines).Success?
    ensures forall k :: 0 <= k < NUM_KEYS ==>
              CountLines(lines).value[k] == Occurrences(lines, BeginTag(k))
    decreases |lines|
  {
    if lines != [] {
      var n := |lines| - 1;
      CountLinesCountsBeginTags(lines[..n]);
    }
  }

  /** One `B-` tag of a known type adds exactly one to the total; any other tag adds nothing. */
  lemma TotalBump(c: Counts, tag: string)
    ensures Total(Bump(c, tag)) == Total(c) + if IsKnownBegin(tag) then 1 else 0
  {
    var b := Bump(c, tag);
    if IsKnownBegin(tag) {
      var j :| 0 <= j < NUM_KEYS && tag == BeginTag(j);
      forall k | 0 <= k < NUM_KEYS && k != j
        ensures b[k] == c[k]
      {
        BeginTagsDistinct(j, k);
      }
    } else {
      assert forall k :: 0 <= k < NUM_KEYS ==> b[k] == c[k];
    }
  }

  /** The total count is the number of lines whose tag is `B-` of one of the seven types. */
  lemma {:induction false} CountLinesTotal(lines: seq<string>)
    requires CountLines(lines).Success?
    ensures Total(CountLines(lines).value) == KnownBeginLines(lines)
    decreases |lines|
  {
    if lines != [] {
      var n := |lines| - 1;
      CountLinesTotal(lines[..n]);
      match Shape(lines[n])
      case Short =>
      case Long =>
      case Pair(_, tag) => TotalBump(CountLines(lines[..n]).value, tag);
    }
  }

  /** Counting looks at a line only through its tag, so two files whose lines read alike
      line by line count the same, whatever their tokens. */
  lemma {:induction false} CountLinesSameShapes(a: seq<string>, b: seq<string>)
    requires |a| == |b|
    requires forall i :: 0 <= i < |a| ==> SameReading(Shape(a[i]), Shape(b[i]))
    ensures CountLines(a) == CountLines(b)
    decreases |a|
  {
    if a != [] {
      var n := |a| - 1;
      CountLinesSameShapes(a[..n], b[..n]);
    }
  }

  // ---------------------------------------------------------------- sums of count vectors

  /** The componentwise sum of a list of count vectors, as `sum_entities` computes it. */
  function SumAll(ds: seq<Counts>): Counts
    decreases |ds|
  {
    if ds == [] then Zeros() else AddCounts(SumAll(ds[..|ds| - 1]), ds[|ds| - 1])
  }

  /** Summing is additive over concatenation: the order in which files are summed in
      blocks does not matter. */
  lemma {:induction false} SumAllAppend(a: seq<Counts>, b: seq<Counts>)
    ensures SumAll(a + b) == AddCounts(SumAll(a), SumAll(b))
    decreases |b|
  {
    if b == [] {
      assert a + b == a;
    } else {
      var n := |b| - 1;
      assert (a + b)[..|a + b| - 1] == a + b[..n];
      SumAllAppend(a, b[..n]);
    }
  }

  /** Key `k` of the sum is the sum of key `k` over the list. */
  function SumKey(ds: seq<Counts>, k: nat): nat
    requires k < NUM_KEYS
    decreases |ds|
  {
    if ds == [] then 0 else ds[0][k] + SumKey(ds[1..], k)
  }

  lemma {:induction false} SumAllKey(ds: seq<Counts>, k: nat)
    requires k < NUM_KEYS
    ensures SumAll(ds)[k] == SumKey(ds, k)
    decreases |ds|
  {
    if ds != [] {
      SumAllKey(ds[1..], k);
      SumAllAppend([ds[0]], ds[1..]);
      assert [ds[0]] + ds[1..] == ds;
      assert SumAll([ds[0]]) == AddCounts(Zeros(), ds[0]);
    }
  }
}
