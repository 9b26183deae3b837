/**
 * split_balance.py: count the entities of every queued IOB file, then split the files
 * into train, eval and test. Files are taken richest first; files with a `CNS` entity go
 * 90% to train and the rest to eval; every other file goes to the split, among those
 * still under their file quota, whose entity total would be smallest after adding it.
 */
module SplitBalance {
  import opened Wrappers
  import opened Text
  import opened Entities

  // ================================================================ count_in_file

  /** `count_in_file`: one counter per key, raised by one for each `B-<TYPE>` tag. */
  method CountInFile(lines: seq<string>) returns (r: Result<Counts, CountError>)
    ensures r == CountLines(lines)
  {
    var counters := Zeros();
    var i := 0;
    while i < |lines|
      invariant 0 <= i <= |lines|
      invariant CountLines(lines[..i]) == Success(counters)
    {
      assert lines[..i + 1][..i] == lines[..i];
      var parts := Fields(lines[i]);
      if |parts| < 2 {
        i := i + 1;
        continue;
      }
      if |parts| > 2 {
        CountLinesFailureSticks(lines, i + 1);
        return Failure(TooManyValues(i));
      }
      var tag := parts[1];
      ghost var before := counters;
      for k := 0 to NUM_KEYS
        invariant forall j :: 0 <= j < k ==> counters[j] == before[j] + if tag == BeginTag(j) then 1 else 0
        invariant forall j :: k <= j < NUM_KEYS ==> counters[j] == before[j]
      {
        if tag == "B-" + ENTITY_CODES[k] {
          counters := counters[k := counters[k] + 1];
        }
      }
      assert counters == Bump(before, tag);
      i := i + 1;
    }
    assert lines[..i] == lines;
    return Success(counters);
  }

  // ================================================================ sum_entities

  /** `sum_entities`: the componentwise sum of the given count vectors. */
  method SumEntities(dicts: seq<Counts>) returns (total: Counts)
    ensures forall k :: 0 <= k < NUM_KEYS ==> total[k] == SumKey(dicts, k)
  {
    total := Zeros();
    for i := 0 to |dicts|
      invariant total == SumAll(dicts[..i])
    {
      ghost var before := total;
      for k := 0 to NUM_KEYS
        invariant forall j :: 0 <= j < k ==> total[j] == before[j] + dicts[i][j]
        invariant forall j :: k <= j < NUM_KEYS ==> total[j] == before[j]
      {
        total := total[k := total[k] + dicts[i][k]];
      }
      assert dicts[..i + 1][..i] == dicts[..i];
      assert total == AddCounts(before, dicts[i]);
    }
    assert dicts[..|dicts|] == dicts;
    forall k | 0 <= k < NUM_KEYS ensures total[k] == SumKey(dicts, k) {
      SumAllKey(dicts, k);
    }
  }

  // ================================================================ sorting (line 39)

  /** A file name with its counts, as `split_files` receives them. */
  type FileCounts = (string, Counts)

  /** Place `x` before the first element whose total is not larger than its own. */
  function Insert(x: FileCounts, s: seq<FileCounts>): (r: seq<FileCounts>)
    ensures |r| == |s| + 1
    decreases |s|
  {
    if s == [] || Total(x.1) >= Total(s[0].1) then [x] + s else [s[0]] + Insert(x, s[1..])
  }

  /** `files_counts.sort(key=total, reverse=True)`: a stable sort by descending total. */
  function SortByTotal(s: seq<FileCounts>): (r: seq<FileCounts>)
    ensures |r| == |s|
    decreases |s|
  {
    if s == [] then [] else Insert(s[0], SortByTotal(s[1..]))
  }

  predicate NonIncreasing(s: seq<FileCounts>) {
    forall i, j :: 0 <= i < j < |s| ==> Total(s[i].1) >= Total(s[j].1)
  }

  /** The elements with total `v`, in order. */
  function WithTotal(s: seq<FileCounts>, v: nat): seq<FileCounts>
    decreases |s|
  {
    if s == [] then [] else (if Total(s[0].1) == v then [s[0]] else []) + WithTotal(s[1..], v)
  }

  function Names(s: seq<FileCounts>): (r: seq<string>)
    ensures |r| == |s|
    decreases |s|
  {
    if s == [] then [] else [s[0].0] + Names(s[1..])
  }

  lemma {:induction false} NamesAt(s: seq<FileCounts>)
    ensures forall i :: 0 <= i < |s| ==> Names(s)[i] == s[i].0
    decreases |s|
  {
    if s != [] {
      NamesAt(s[1..]);
    }
  }

  lemma NamesCons(s: seq<FileCounts>)
    requires s != []
    ensures Names(s) == [s[0].0] + Names(s[1..])
  {
  }

  lemma {:induction false} NamesAppend(a: seq<FileCounts>, b: seq<FileCounts>)
    ensures Names(a + b) == Names(a) + Names(b)
    decreases |a|
  {
    if a != [] {
      NamesAppend(a[1..], b);
      assert (a + b)[1..] == a[1..] + b;
    } else {
      assert a + b == b;
    }
  }

  lemma {:induction false} InsertMultiset(x: FileCounts, s: seq<FileCounts>)
    ensures multiset(Insert(x, s)) == multiset(s) + multiset{x}
    decreases |s|
  {
    if !(s == [] || Total(x.1) >= Total(s[0].1)) {
      InsertMultiset(x, s[1..]);
      assert s == [s[0]] + s[1..];
    }
  }

  lemma {:induction false} InsertNames(x: FileCounts, s: seq<FileCounts>)
    ensures multiset(Names(Insert(x, s))) == multiset(Names(s)) + multiset{x.0}
    decreases |s|
  {
    if !(s == [] || Total(x.1) >= Total(s[0].1)) {
      InsertNames(x, s[1..]);
      assert Names(s) == [s[0].0] + Names(s[1..]);
      assert Names(Insert(x, s)) == [s[0].0] + Names(Insert(x, s[1..]));
    }
  }

  /** Inserting below a bound keeps every total below it. */
  lemma {:induction false} InsertBound(x: FileCounts, s: seq<FileCounts>, v: nat)
    requires Total(x.1) <= v && forall i :: 0 <= i < |s| ==> Total(s[i].1) <= v
    ensures forall j :: 0 <= j < |Insert(x, s)| ==> Total(Insert(x, s)[j].1) <= v
    decreases |s|
  {
    if !(s == [] || Total(x.1) >= Total(s[0].1)) {
      InsertBound(x, s[1..], v);
      var t := Insert(x, s[1..]);
      assert Insert(x, s) == [s[0]] + t;
      assert forall j :: 1 <= j < |t| + 1 ==> ([s[0]] + t)[j] == t[j - 1];
    }
  }

  lemma {:induction false} InsertSorted(x: FileCounts, s: seq<FileCounts>)
    requires NonIncreasing(s)
    ensures NonIncreasing(Insert(x, s))
    decreases |s|
  {
    if s == [] || Total(x.1) >= Total(s[0].1) {
      var r := [x] + s;
      assert Insert(x, s) == r;
      forall i, j | 0 <= i < j < |r| ensures Total(r[i].1) >= Total(r[j].1) {
        if i == 0 { assert r[j] == s[j - 1]; } else { assert r[i] == s[i - 1] && r[j] == s[j - 1]; }
      }
    } else {
      var t := Insert(x, s[1..]);
      assert forall i :: 0 <= i < |s[1..]| ==> s[1..][i] == s[i + 1];
      InsertSorted(x, s[1..]);
      InsertBound(x, s[1..], Total(s[0].1));
      var r := [s[0]] + t;
      assert Insert(x, s) == r;
      forall i, j | 0 <= i < j < |r| ensures Total(r[i].1) >= Total(r[j].1) {
        if i == 0 { assert r[j] == t[j - 1]; } else { assert r[i] == t[i - 1] && r[j] == t[j - 1]; }
      }
    }
  }

  lemma {:induction false} InsertWithTotal(x: FileCounts, s: seq<FileCounts>, v: nat)
    ensures WithTotal(Insert(x, s), v) == (if Total(x.1) == v then [x] else []) + WithTotal(s, v)
    decreases |s|
  {
    var hx := if Total(x.1) == v then [x] else [];
    if s == [] || Total(x.1) >= Total(s[0].1) {
      assert Insert(x, s) == [x] + s;
      assert ([x] + s)[1..] == s;
      assert WithTotal([x] + s, v) == hx + WithTotal(s, v);
    } else {
      var t := Insert(x, s[1..]);
      assert Insert(x, s) == [s[0]] + t;
      InsertWithTotal(x, s[1..], v);
      var h0 := if Total(s[0].1) == v then [s[0]] else [];
      assert ([s[0]] + t)[1..] == t;
      assert WithTotal([s[0]] + t, v) == h0 + WithTotal(t, v);
      assert WithTotal(s, v) == h0 + WithTotal(s[1..], v);
      assert h0 == [] || hx == [];
    }
  }

  /** The sort yields totals in non-increasing order. */
  lemma {:induction false} SortNonIncreasing(s: seq<FileCounts>)
    ensures NonIncreasing(SortByTotal(s))
    decreases |s|
  {
    if s != [] {
      SortNonIncreasing(s[1..]);
      InsertSorted(s[0], SortByTotal(s[1..]));
    }
  }

  /** The sort is a permutation, of the pairs and of their names. */
  lemma SortPermutes(s: seq<FileCounts>)
    ensures multiset(SortByTotal(s)) == multiset(s)
    ensures multiset(Names(SortByTotal(s))) == multiset(Names(s))
  {
    SortMultiset(s);
    SortNames(s);
  }

  lemma {:induction false} SortMultiset(s: seq<FileCounts>)
    ensures multiset(SortByTotal(s)) == multiset(s)
    decreases |s|
  {
    if s != [] {
      SortMultiset(s[1..]);
      InsertMultiset(s[0], SortByTotal(s[1..]));
      assert s == [s[0]] + s[1..];
    }
  }

  lemma {:induction false} SortNames(s: seq<FileCounts>)
    ensures multiset(Names(SortByTotal(s))) == multiset(Names(s))
    decreases |s|
  {
    if s != [] {
      SortNames(s[1..]);
      InsertNames(s[0], SortByTotal(s[1..]));
      assert Names(s) == [s[0].0] + Names(s[1..]);
    }
  }

  /** The sort is stable: files of equal total keep their input order. */
  lemma {:induction false} SortStable(s: seq<FileCounts>, v: nat)
    ensures WithTotal(SortByTotal(s), v) == WithTotal(s, v)
    decreases |s|
  {
    if s != [] {
      SortStable(s[1..], v);
      InsertWithTotal(s[0], SortByTotal(s[1..]), v);
    }
  }

  // ================================================================ quotas (lines 44-49)

  /** A float ratio written as a fraction; `int(r * n)` is `(num * n) / den`. */
  datatype Ratio = Ratio(num: nat, den: nat)

  datatype Ratios = Ratios(train: Ratio, eval: Ratio, test: Ratio)

  predicate ValidRatios(r: Ratios) { r.train.den > 0 && r.eval.den > 0 && r.test.den > 0 }

  /** `SPLIT_RATIOS`; the test ratio is never read, test takes the remainder. */
  const SPLIT_RATIOS: Ratios := Ratios(Ratio(7, 10), Ratio(2, 10), Ratio(1, 10))

  /** The share of CNS-bearing files that goes to train (line 56). */
  const CNS_TRAIN_SHARE: Ratio := Ratio(9, 10)

  /** `int(r * n)` for a non-negative ratio. */
  function Trunc(r: Ratio, n: nat): nat
    requires r.den > 0
  {
    (r.num * n) / r.den
  }

  const TRAIN: nat := 0
  const EVAL: nat := 1
  const TEST: nat := 2

  /** `target_counts`: train and eval truncate, test takes what is left, so the three
      targets always add up to the number of files. */
  function Targets(n: nat, ratios: Ratios): (t: seq<int>)
    requires ValidRatios(ratios)
    ensures |t| == 3 && t[TRAIN] + t[EVAL] + t[TEST] == n
    ensures t[TRAIN] == Trunc(ratios.train, n) && t[EVAL] == Trunc(ratios.eval, n)
  {
    [Trunc(ratios.train, n), Trunc(ratios.eval, n), n - Trunc(ratios.train, n) - Trunc(ratios.eval, n)]
  }

  /** With the script's ratios, train gets 70% (truncated), eval 20% (truncated), and
      test the rest, which is never negative. */
  lemma DefaultTargets(n: nat)
    ensures var t := Targets(n, SPLIT_RATIOS);
            t[TRAIN] == (7 * n) / 10 && t[EVAL] == (2 * n) / 10 && t[TEST] >= 0
  {
  }

  // ================================================================ the split state

  /** `split_files` and `split_counts`: per split the names placed there, in order,
      and the componentwise sum of their counts. */
  datatype SplitState = SplitState(files: seq<seq<string>>, counts: seq<Counts>)

  predicate Shaped(st: SplitState) { |st.files| == 3 && |st.counts| == 3 }

  function EmptyState(): (st: SplitState)
    ensures Shaped(st)
  {
    SplitState([[], [], []], [Zeros(), Zeros(), Zeros()])
  }

  /** Append a file to split `s` and add its counts into that split's tally. */
  function Assign(st: SplitState, s: nat, f: FileCounts): (r: SplitState)
    requires Shaped(st) && s < 3
    ensures Shaped(r)
  {
    SplitState(st.files[s := st.files[s] + [f.0]], st.counts[s := AddCounts(st.counts[s], f.1)])
  }

  /** Number of files placed so far. */
  function Placed(st: SplitState): nat
    requires Shaped(st)
  {
    |st.files[TRAIN]| + |st.files[EVAL]| + |st.files[TEST]|
  }

  /** The names placed so far, as one multiset. */
  function AllFiles(st: SplitState): multiset<string>
    requires Shaped(st)
  {
    multiset(st.files[TRAIN]) + multiset(st.files[EVAL]) + multiset(st.files[TEST])
  }

  // ================================================================ CNS files (lines 52-61)

  function CnsFiles(s: seq<FileCounts>): seq<FileCounts>
    decreases |s|
  {
    if s == [] then [] else (if s[0].1[CNS_INDEX] > 0 then [s[0]] else []) + CnsFiles(s[1..])
  }

  function NonCnsFiles(s: seq<FileCounts>): seq<FileCounts>
    decreases |s|
  {
    if s == [] then [] else (if s[0].1[CNS_INDEX] == 0 then [s[0]] else []) + NonCnsFiles(s[1..])
  }

  lemma {:induction false} CnsNonCnsNames(s: seq<FileCounts>)
    ensures multiset(Names(CnsFiles(s))) + multiset(Names(NonCnsFiles(s))) == multiset(Names(s))
    decreases |s|
  {
    if s != [] {
      CnsNonCnsNames(s[1..]);
      assert Names(s) == [s[0].0] + Names(s[1..]);
      var c := if s[0].1[CNS_INDEX] > 0 then [s[0]] else [];
      var d := if s[0].1[CNS_INDEX] == 0 then [s[0]] else [];
      NamesAppend(c, CnsFiles(s[1..]));
      NamesAppend(d, NonCnsFiles(s[1..]));
    }
  }

  lemma {:induction false} CnsNonCnsMembers(s: seq<FileCounts>)
    ensures |CnsFiles(s)| + |NonCnsFiles(s)| == |s|
    ensures forall x :: x in CnsFiles(s) ==> x in s && x.1[CNS_INDEX] > 0
    ensures forall x :: x in NonCnsFiles(s) ==> x in s && x.1[CNS_INDEX] == 0
    decreases |s|
  {
    if s != [] {
      CnsNonCnsMembers(s[1..]);
    }
  }

  /** The split the `i`-th CNS file goes to: train for the first `cnsTrain`, eval after. */
  function CnsSplit(i: nat, cnsTrain: nat): nat {
    if i < cnsTrain then TRAIN else EVAL
  }

  /** The CNS loop from index `i` on. */
  function PlaceCns(st: SplitState, cns: seq<FileCounts>, i: nat, cnsTrain: nat): (r: SplitState)
    requires Shaped(st) && i <= |cns|
    ensures Shaped(r)
    decreases |cns| - i
  {
    if i == |cns| then st else PlaceCns(Assign(st, CnsSplit(i, cnsTrain), cns[i]), cns, i + 1, cnsTrain)
  }

  // ================================================================ the greedy choice (lines 64-77)

  predicate HasRoom(st: SplitState, targets: seq<int>, s: nat)
    requires Shaped(st) && |targets| == 3 && s < 3
  {
    |st.files[s]| < targets[s]
  }

  /** `projected_sum`: the split's entity total after adding this file. */
  function Projected(st: SplitState, s: nat, c: Counts): nat
    requires Shaped(st) && s < 3
  {
    Total(AddCounts(st.counts[s], c))
  }

  /** `best_split` after the loop has looked at the first `j` splits: the split with room whose
      projected sum is smallest, the earliest on a tie (the comparison is a strict `<`);
      `None` when none of them has room. */
  function BestUpTo(st: SplitState, targets: seq<int>, c: Counts, j: nat): (b: Option<nat>)
    requires Shaped(st) && |targets| == 3 && j <= 3
    ensures b.Some? ==> b.value < j && HasRoom(st, targets, b.value)
  {
    if j == 0 then None
    else
      var b := BestUpTo(st, targets, c, j - 1);
      if HasRoom(st, targets, j - 1) && (b.None? || Projected(st, j - 1, c) < Projected(st, b.value, c))
      then Some(j - 1)
      else b
  }

  /** The choice is `None` exactly when no split looked at has room; otherwise it has room,
      its projected sum is the smallest, and every earlier split with room projects more. */
  lemma {:induction false} BestUpToMeans(st: SplitState, targets: seq<int>, c: Counts, j: nat)
    requires Shaped(st) && |targets| == 3 && j <= 3
    ensures var b := BestUpTo(st, targets, c, j);
            (b.None? <==> forall s :: 0 <= s < j ==> !HasRoom(st, targets, s)) &&
            (b.Some? ==>
              forall s :: 0 <= s < j && HasRoom(st, targets, s) ==>
                Projected(st, b.value, c) <= Projected(st, s, c) &&
                (s < b.value ==> Projected(st, b.value, c) < Projected(st, s, c)))
    decreases j
  {
    if j > 0 {
      BestUpToMeans(st, targets, c, j - 1);
    }
  }

  /** `split_files[None]` raises KeyError when no split has room for the file. */
  datatype SplitError = NoRoom(filename: string)

  /** The greedy loop over the non-CNS files. */
  function PlaceRest(st: SplitState, rest: seq<FileCounts>, targets: seq<int>): (r: Result<SplitState, SplitError>)
    requires Shaped(st) && |targets| == 3
    ensures r.Success? ==> Shaped(r.value)
    decreases |rest|
  {
    if rest == [] then Success(st)
    else
      match BestUpTo(st, targets, rest[0].1, 3)
      case None => Failure(NoRoom(rest[0].0))
      case Some(s) => PlaceRest(Assign(st, s, rest[0]), rest[1..], targets)
  }

  /** What `split_files(files_counts, ratios)` returns. */
  function SplitSpec(filesCounts: seq<FileCounts>, ratios: Ratios): (r: Result<SplitState, SplitError>)
    requires ValidRatios(ratios)
    ensures r.Success? ==> Shaped(r.value)
  {
    var sorted := SortByTotal(filesCounts);
    var cns := CnsFiles(sorted);
    PlaceRest(PlaceCns(EmptyState(), cns, 0, Trunc(CNS_TRAIN_SHARE, |cns|)),
              NonCnsFiles(sorted), Targets(|filesCounts|, ratios))
  }

  // ================================================================ what the split guarantees

  function Max(a: int, b: int): int { if a >= b then a else b }

  function Min(a: int, b: int): int { if a <= b then a else b }

  /** Placing one file adds exactly that name to the placed files. */
  lemma AssignFacts(st: SplitState, s: nat, f: FileCounts)
    requires Shaped(st) && s < 3
    ensures Placed(Assign(st, s, f)) == Placed(st) + 1
    ensures AllFiles(Assign(st, s, f)) == AllFiles(st) + multiset{f.0}
  {
    assert multiset(st.files[s] + [f.0]) == multiset(st.files[s]) + multiset{f.0};
  }

  /** The CNS loop from `i` on: train gains the CNS files before index `cnsTrain`, eval
      those from there on, test nothing. */
  lemma {:induction false} PlaceCnsFiles(st: SplitState, cns: seq<FileCounts>, i: nat, cnsTrain: nat)
    requires Shaped(st) && i <= |cns| && cnsTrain <= |cns|
    ensures var r := PlaceCns(st, cns, i, cnsTrain);
            r.files[TRAIN] == st.files[TRAIN] + Names(cns[Min(i, cnsTrain)..cnsTrain]) &&
            r.files[EVAL] == st.files[EVAL] + Names(cns[Max(i, cnsTrain)..]) &&
            r.files[TEST] == st.files[TEST]
    decreases |cns| - i
  {
    if i < |cns| {
      var st' := Assign(st, CnsSplit(i, cnsTrain), cns[i]);
      var r := PlaceCns(st, cns, i, cnsTrain);
      assert r == PlaceCns(st', cns, i + 1, cnsTrain);
      PlaceCnsFiles(st', cns, i + 1, cnsTrain);
      if i < cnsTrain {
        var tail := Names(cns[i + 1..cnsTrain]);
        assert st'.files[TRAIN] == st.files[TRAIN] + [cns[i].0];
        assert Min(i + 1, cnsTrain) == i + 1 && Max(i, cnsTrain) == Max(i + 1, cnsTrain);
        assert cns[i..cnsTrain][1..] == cns[i + 1..cnsTrain];
        NamesCons(cns[i..cnsTrain]);
        assert r.files[TRAIN] == (st.files[TRAIN] + [cns[i].0]) + tail;
        assert (st.files[TRAIN] + [cns[i].0]) + tail == st.files[TRAIN] + ([cns[i].0] + tail);
      } else {
        var tail := Names(cns[i + 1..]);
        assert st'.files[EVAL] == st.files[EVAL] + [cns[i].0];
        assert Min(i, cnsTrain) == Min(i + 1, cnsTrain) && Max(i, cnsTrain) == i && Max(i + 1, cnsTrain) == i + 1;
        assert cns[i..][1..] == cns[i + 1..];
        NamesCons(cns[i..]);
        assert r.files[EVAL] == (st.files[EVAL] + [cns[i].0]) + tail;
        assert (st.files[EVAL] + [cns[i].0]) + tail == st.files[EVAL] + ([cns[i].0] + tail);
      }
    } else {
      assert cns[Min(i, cnsTrain)..cnsTrain] == [] && cns[Max(i, cnsTrain)..] == [];
    }
  }

  lemma {:induction false} PlaceCnsAll(st: SplitState, cns: seq<FileCounts>, i: nat, cnsTrain: nat)
    requires Shaped(st) && i <= |cns|
    ensures Placed(PlaceCns(st, cns, i, cnsTrain)) == Placed(st) + |cns| - i
    ensures AllFiles(PlaceCns(st, cns, i, cnsTrain)) == AllFiles(st) + multiset(Names(cns[i..]))
    decreases |cns| - i
  {
    if i < |cns| {
      AssignFacts(st, CnsSplit(i, cnsTrain), cns[i]);
      PlaceCnsAll(Assign(st, CnsSplit(i, cnsTrain), cns[i]), cns, i + 1, cnsTrain);
      assert Names(cns[i..]) == [cns[i].0] + Names(cns[i + 1..]);
    }
  }

  /** Some split has room as long as fewer files are placed than the targets add up to,
      so the greedy loop never reaches `split_files[None]`. */
  lemma {:induction false} PlaceRestSucceeds(st: SplitState, rest: seq<FileCounts>, targets: seq<int>)
    requires Shaped(st) && |targets| == 3
    requires Placed(st) + |rest| <= targets[TRAIN] + targets[EVAL] + targets[TEST]
    ensures PlaceRest(st, rest, targets).Success?
    decreases |rest|
  {
    if rest != [] {
      assert HasRoom(st, targets, TRAIN) || HasRoom(st, targets, EVAL) || HasRoom(st, targets, TEST);
      BestUpToMeans(st, targets, rest[0].1, 3);
      var b := BestUpTo(st, targets, rest[0].1, 3);
      AssignFacts(st, b.value, rest[0]);
      PlaceRestSucceeds(Assign(st, b.value, rest[0]), rest[1..], targets);
    }
  }

  /** The greedy loop places every remaining file once. */
  lemma {:induction false} PlaceRestAll(st: SplitState, rest: seq<FileCounts>, targets: seq<int>)
    requires Shaped(st) && |targets| == 3 && PlaceRest(st, rest, targets).Success?
    ensures Placed(PlaceRest(st, rest, targets).value) == Placed(st) + |rest|
    ensures AllFiles(PlaceRest(st, rest, targets).value) == AllFiles(st) + multiset(Names(rest))
    decreases |rest|
  {
    if rest != [] {
      var b := BestUpTo(st, targets, rest[0].1, 3);
      AssignFacts(st, b.value, rest[0]);
      PlaceRestAll(Assign(st, b.value, rest[0]), rest[1..], targets);
      assert Names(rest) == [rest[0].0] + Names(rest[1..]);
    }
  }

  /** The greedy loop only appends, only names of the remaining files, and never takes a
      split past its target unless it already was. */
  lemma {:induction false} PlaceRestExtends(st: SplitState, rest: seq<FileCounts>, targets: seq<int>)
    requires Shaped(st) && |targets| == 3 && PlaceRest(st, rest, targets).Success?
    ensures var r := PlaceRest(st, rest, targets).value;
            forall s :: 0 <= s < 3 ==>
              st.files[s] <= r.files[s] &&
              |r.files[s]| <= Max(|st.files[s]|, targets[s]) &&
              forall j :: |st.files[s]| <= j < |r.files[s]| ==> r.files[s][j] in Names(rest)
    decreases |rest|
  {
    if rest != [] {
      var b := BestUpTo(st, targets, rest[0].1, 3).value;
      var st' := Assign(st, b, rest[0]);
      PlaceRestExtends(st', rest[1..], targets);
      var r := PlaceRest(st, rest, targets).value;
      assert Names(rest) == [rest[0].0] + Names(rest[1..]);
      forall s | 0 <= s < 3
        ensures st.files[s] <= r.files[s]
        ensures |r.files[s]| <= Max(|st.files[s]|, targets[s])
        ensures forall j :: |st.files[s]| <= j < |r.files[s]| ==> r.files[s][j] in Names(rest)
      {
        if s == b {
          assert st.files[s] <= st'.files[s];
        }
      }
    }
  }

  // ---------------------------------------------------------------- tallies

  /** File names from a directory listing are distinct. */
  predicate DistinctNames(fc: seq<FileCounts>) {
    forall i, j :: 0 <= i < j < |fc| ==> fc[i].0 != fc[j].0
  }

  /** The counts recorded for the first file of this name. */
  function CountsOf(fc: seq<FileCounts>, name: string): Counts
    decreases |fc|
  {
    if fc == [] then Zeros() else if fc[0].0 == name then fc[0].1 else CountsOf(fc[1..], name)
  }

  lemma {:induction false} CountsOfMember(fc: seq<FileCounts>, x: FileCounts)
    requires DistinctNames(fc) && x in fc
    ensures CountsOf(fc, x.0) == x.1
    decreases |fc|
  {
    if fc[0] != x {
      assert x in fc[1..];
      var j :| 0 <= j < |fc[1..]| && fc[1..][j] == x;
      assert fc[j + 1] == x;
      CountsOfMember(fc[1..], x);
    }
  }

  /** The componentwise sum of the counts of the named files. */
  function SumNamed(names: seq<string>, fc: seq<FileCounts>): Counts
    decreases |names|
  {
    if names == [] then Zeros()
    else AddCounts(SumNamed(names[..|names| - 1], fc), CountsOf(fc, names[|names| - 1]))
  }

  /** Each split's tally is the sum of the counts of the files placed there. */
  predicate Tallied(st: SplitState, fc: seq<FileCounts>)
    requires Shaped(st)
  {
    forall s :: 0 <= s < 3 ==> st.counts[s] == SumNamed(st.files[s], fc)
  }

  lemma AssignTallied(st: SplitState, s: nat, f: FileCounts, fc: seq<FileCounts>)
    requires Shaped(st) && s < 3 && Tallied(st, fc) && CountsOf(fc, f.0) == f.1
    ensures Tallied(Assign(st, s, f), fc)
  {
    var r := Assign(st, s, f);
    assert r.files[s][..|r.files[s]| - 1] == st.files[s];
  }

  lemma {:induction false} PlaceCnsTallied(st: SplitState, cns: seq<FileCounts>, i: nat, cnsTrain: nat, fc: seq<FileCounts>)
    requires Shaped(st) && i <= |cns| && Tallied(st, fc)
    requires forall x :: x in cns ==> CountsOf(fc, x.0) == x.1
    ensures Tallied(PlaceCns(st, cns, i, cnsTrain), fc)
    decreases |cns| - i
  {
    if i < |cns| {
      AssignTallied(st, CnsSplit(i, cnsTrain), cns[i], fc);
      PlaceCnsTallied(Assign(st, CnsSplit(i, cnsTrain), cns[i]), cns, i + 1, cnsTrain, fc);
    }
  }

  lemma {:induction false} PlaceRestTallied(st: SplitState, rest: seq<FileCounts>, targets: seq<int>, fc: seq<FileCounts>)
    requires Shaped(st) && |targets| == 3 && Tallied(st, fc) && PlaceRest(st, rest, targets).Success?
    requires forall x :: x in rest ==> CountsOf(fc, x.0) == x.1
    ensures Tallied(PlaceRest(st, rest, targets).value, fc)
    decreases |rest|
  {
    if rest != [] {
      var b := BestUpTo(st, targets, rest[0].1, 3).value;
      AssignTallied(st, b, rest[0], fc);
      assert forall x :: x in rest[1..] ==> x in rest;
      PlaceRestTallied(Assign(st, b, rest[0]), rest[1..], targets, fc);
    }
  }

  // ---------------------------------------------------------------- split_files as a whole

  lemma CnsTrainBound(n: nat)
    ensures Trunc(CNS_TRAIN_SHARE, n) <= n
  {
  }

  /** The sorted order, its CNS files, its other files and the share of CNS files for train. */
  lemma SplitParts(fc: seq<FileCounts>)
    ensures var sorted := SortByTotal(fc);
            var cns := CnsFiles(sorted);
            |cns| + |NonCnsFiles(sorted)| == |fc| &&
            multiset(Names(cns)) + multiset(Names(NonCnsFiles(sorted))) == multiset(Names(fc)) &&
            (forall x :: x in cns ==> x in fc && x.1[CNS_INDEX] > 0) &&
            (forall x :: x in NonCnsFiles(sorted) ==> x in fc && x.1[CNS_INDEX] == 0)
  {
    var sorted := SortByTotal(fc);
    SortPermutes(fc);
    CnsNonCnsNames(sorted);
    CnsNonCnsMembers(sorted);
    forall x | x in sorted ensures x in fc {
      assert x in multiset(sorted);
    }
  }

  /** `split_files` never raises: whatever the ratios, the three targets add up to the number
      of files, so some split always has room for the next one. */
  lemma SplitNeverFails(fc: seq<FileCounts>, ratios: Ratios)
    requires ValidRatios(ratios)
    ensures SplitSpec(fc, ratios).Success?
  {
    var sorted := SortByTotal(fc);
    var cns := CnsFiles(sorted);
    var ct := Trunc(CNS_TRAIN_SHARE, |cns|);
    SplitParts(fc);
    PlaceCnsAll(EmptyState(), cns, 0, ct);
    PlaceRestSucceeds(PlaceCns(EmptyState(), cns, 0, ct), NonCnsFiles(sorted), Targets(|fc|, ratios));
  }

  /** Every input file ends up in one of the three splits, as many times as it was given. */
  lemma SplitPartition(fc: seq<FileCounts>, ratios: Ratios)
    requires ValidRatios(ratios)
    ensures SplitSpec(fc, ratios).Success?
    ensures AllFiles(SplitSpec(fc, ratios).value) == multiset(Names(fc))
  {
    var sorted := SortByTotal(fc);
    var cns := CnsFiles(sorted);
    var ct := Trunc(CNS_TRAIN_SHARE, |cns|);
    SplitNeverFails(fc, ratios);
    SplitParts(fc);
    PlaceCnsAll(EmptyState(), cns, 0, ct);
    assert cns[0..] == cns;
    PlaceRestAll(PlaceCns(EmptyState(), cns, 0, ct), NonCnsFiles(sorted), Targets(|fc|, ratios));
  }

  lemma DistinctOnce(fc: seq<FileCounts>, name: string)
    requires DistinctNames(fc)
    ensures multiset(Names(fc))[name] <= 1
    decreases |fc|
  {
    if fc != [] {
      DistinctOnce(fc[1..], name);
      assert Names(fc) == [fc[0].0] + Names(fc[1..]);
      if fc[0].0 == name {
        NamesAt(fc[1..]);
        assert forall k :: 0 <= k < |fc[1..]| ==> Names(fc[1..])[k] == fc[k + 1].0 != name;
      }
    }
  }

  /** A state whose placed names are a multiset without repeats has disjoint, repeat-free lists. */
  lemma OnceEach(r: SplitState)
    requires Shaped(r) && forall name :: AllFiles(r)[name] <= 1
    ensures forall name, s, t :: 0 <= s < t < 3 && name in r.files[s] ==> name !in r.files[t]
  {
    forall name, s, t | 0 <= s < t < 3 && name in r.files[s] ensures name !in r.files[t] {
      assert AllFiles(r)[name] <= 1;
    }
  }

  /** With distinct file names, each name lands in exactly one split, once, and the three
      lists are disjoint. */
  lemma SplitDisjoint(fc: seq<FileCounts>, ratios: Ratios)
    requires ValidRatios(ratios) && DistinctNames(fc)
    ensures SplitSpec(fc, ratios).Success?
    ensures var r := SplitSpec(fc, ratios).value;
            (forall i :: 0 <= i < |fc| ==> AllFiles(r)[fc[i].0] == 1) &&
            (forall name, s, t :: 0 <= s < t < 3 && name in r.files[s] ==> name !in r.files[t])
  {
    SplitPartition(fc, ratios);
    var r := SplitSpec(fc, ratios).value;
    var m := multiset(Names(fc));
    assert AllFiles(r) == m;
    forall i | 0 <= i < |fc| ensures AllFiles(r)[fc[i].0] == 1 {
      DistinctOnce(fc, fc[i].0);
      NamesAt(fc);
      assert fc[i].0 == Names(fc)[i];
      assert fc[i].0 in m;
    }
    forall name ensures AllFiles(r)[name] <= 1 {
      DistinctOnce(fc, name);
    }
    OnceEach(r);
  }

  /** With distinct names, no CNS file shares its name with a file without CNS. */
  lemma CnsNamesApart(fc: seq<FileCounts>, a: seq<FileCounts>, b: seq<FileCounts>)
    requires DistinctNames(fc)
    requires forall x :: x in a ==> x in fc && x.1[CNS_INDEX] > 0
    requires forall y :: y in b ==> y in fc && y.1[CNS_INDEX] == 0
    ensures forall x :: x in a ==> x.0 !in Names(b)
  {
    forall x | x in a ensures x.0 !in Names(b) {
      if x.0 in Names(b) {
        var k :| 0 <= k < |b| && Names(b)[k] == x.0;
        NamesAt(b);
        CountsOfMember(fc, x);
        CountsOfMember(fc, b[k]);
      }
    }
  }

  /** Of the CNS files in sorted order, the first `int(0.9 * n)` open the train list and
      the rest open the eval list; with distinct names, none is in test. */
  lemma SplitCnsPlacement(fc: seq<FileCounts>, ratios: Ratios)
    requires ValidRatios(ratios)
    ensures SplitSpec(fc, ratios).Success?
    ensures var cns := CnsFiles(SortByTotal(fc));
            var ct := Trunc(CNS_TRAIN_SHARE, |cns|);
            var r := SplitSpec(fc, ratios).value;
            Names(cns[..ct]) <= r.files[TRAIN] && Names(cns[ct..]) <= r.files[EVAL] &&
            (DistinctNames(fc) ==> forall x :: x in cns ==> x.0 !in r.files[TEST])
  {
    var sorted := SortByTotal(fc);
    var cns := CnsFiles(sorted);
    var rest := NonCnsFiles(sorted);
    var ct := Trunc(CNS_TRAIN_SHARE, |cns|);
    var mid := PlaceCns(EmptyState(), cns, 0, ct);
    var targets := Targets(|fc|, ratios);
    SplitNeverFails(fc, ratios);
    CnsTrainBound(|cns|);
    PlaceCnsFiles(EmptyState(), cns, 0, ct);
    assert mid.files[TRAIN] == Names(cns[..ct]) && mid.files[EVAL] == Names(cns[ct..]) && mid.files[TEST] == [];
    PlaceRestExtends(mid, rest, targets);
    var r := PlaceRest(mid, rest, targets).value;
    assert forall j :: 0 <= j < |r.files[TEST]| ==> r.files[TEST][j] in Names(rest);
    if DistinctNames(fc) {
      SplitParts(fc);
      CnsNamesApart(fc, cns, rest);
    }
  }

  /** Train and eval exceed their targets only by the CNS files placed before the greedy
      loop; test never gets more files than its target. */
  lemma SplitQuota(fc: seq<FileCounts>, ratios: Ratios)
    requires ValidRatios(ratios)
    ensures SplitSpec(fc, ratios).Success?
    ensures var cns := CnsFiles(SortByTotal(fc));
            var ct := Trunc(CNS_TRAIN_SHARE, |cns|);
            var t := Targets(|fc|, ratios);
            var r := SplitSpec(fc, ratios).value;
            |r.files[TRAIN]| <= Max(ct, t[TRAIN]) &&
            |r.files[EVAL]| <= Max(|cns| - ct, t[EVAL]) &&
            |r.files[TEST]| <= Max(0, t[TEST])
  {
    var sorted := SortByTotal(fc);
    var cns := CnsFiles(sorted);
    var ct := Trunc(CNS_TRAIN_SHARE, |cns|);
    var mid := PlaceCns(EmptyState(), cns, 0, ct);
    var targets := Targets(|fc|, ratios);
    SplitNeverFails(fc, ratios);
    CnsTrainBound(|cns|);
    PlaceCnsFiles(EmptyState(), cns, 0, ct);
    assert |mid.files[TRAIN]| == ct && |mid.files[EVAL]| == |cns| - ct && |mid.files[TEST]| == 0;
    PlaceRestExtends(mid, NonCnsFiles(sorted), targets);
  }

  /** With distinct file names, each split's tally is the componentwise sum of the counts of
      the files placed there. */
  lemma SplitTally(fc: seq<FileCounts>, ratios: Ratios)
    requires ValidRatios(ratios) && DistinctNames(fc)
    ensures SplitSpec(fc, ratios).Success?
    ensures var r := SplitSpec(fc, ratios).value;
            forall s, k :: 0 <= s < 3 && 0 <= k < NUM_KEYS ==> r.counts[s][k] == SumNamed(r.files[s], fc)[k]
  {
    var sorted := SortByTotal(fc);
    var cns := CnsFiles(sorted);
    var ct := Trunc(CNS_TRAIN_SHARE, |cns|);
    SplitNeverFails(fc, ratios);
    SplitParts(fc);
    forall x | x in fc ensures CountsOf(fc, x.0) == x.1 {
      CountsOfMember(fc, x);
    }
    PlaceCnsTallied(EmptyState(), cns, 0, ct, fc);
    PlaceRestTallied(PlaceCns(EmptyState(), cns, 0, ct), NonCnsFiles(sorted), Targets(|fc|, ratios), fc);
  }

  // ================================================================ split_files

  /** `for k in ENTITY_KEYS: split_counts[split][k] += counts[k]`. */
  method AddInto(tally: Counts, c: Counts) returns (r: Counts)
    ensures r == AddCounts(tally, c)
  {
    r := tally;
    for k := 0 to NUM_KEYS
      invariant forall j :: 0 <= j < k ==> r[j] == tally[j] + c[j]
      invariant forall j :: k <= j < NUM_KEYS ==> r[j] == tally[j]
    {
      r := r[k := r[k] + c[k]];
    }
  }

  /** One step of the CNS loop. */
  lemma PlaceCnsStep(st: SplitState, cns: seq<FileCounts>, i: nat, cnsTrain: nat)
    requires Shaped(st) && i < |cns|
    ensures PlaceCns(st, cns, i, cnsTrain) == PlaceCns(Assign(st, CnsSplit(i, cnsTrain), cns[i]), cns, i + 1, cnsTrain)
  {
  }

  /** One step of the greedy loop. */
  lemma PlaceRestStep(st: SplitState, rest: seq<FileCounts>, targets: seq<int>)
    requires Shaped(st) && |targets| == 3 && rest != []
    ensures var b := BestUpTo(st, targets, rest[0].1, 3);
            PlaceRest(st, rest, targets) ==
              if b.None? then Failure(NoRoom(rest[0].0)) else PlaceRest(Assign(st, b.value, rest[0]), rest[1..], targets)
  {
  }

  /** The inner loop of the greedy phase: the split with room whose projected sum is
      smallest, the first on a tie; `None` when no split has room. */
  method BestSplit(files: seq<seq<string>>, counts: seq<Counts>, targets: seq<int>, c: Counts) returns (bestSplit: Option<nat>)
    requires |files| == 3 && |counts| == 3 && |targets| == 3
    ensures bestSplit == BestUpTo(SplitState(files, counts), targets, c, 3)
  {
    ghost var st := SplitState(files, counts);
    bestSplit := None;
    var minEntitySum: Option<nat> := None;  // None stands for float('inf')
    for s := 0 to 3
      invariant bestSplit == BestUpTo(st, targets, c, s)
      invariant bestSplit.None? <==> minEntitySum.None?
      invariant bestSplit.Some? ==> minEntitySum == Some(Projected(st, bestSplit.value, c))
    {
      if |files[s]| < targets[s] {
        var projectedSum := Total(AddCounts(counts[s], c));
        if minEntitySum.None? || projectedSum < minEntitySum.value {
          minEntitySum := Some(projectedSum);
          bestSplit := Some(s);
        }
      }
    }
  }

  /** `split_files`. */
  method SplitFiles(filesCounts: seq<FileCounts>, ratios: Ratios) returns (r: Result<SplitState, SplitError>)
    requires ValidRatios(ratios)
    ensures r == SplitSpec(filesCounts, ratios)
  {
    var sorted := SortByTotal(filesCounts);
    var files: seq<seq<string>> := [[], [], []];
    var counts: seq<Counts> := [Zeros(), Zeros(), Zeros()];

    var totalFiles := |sorted|;
    var trainTarget := (ratios.train.num * totalFiles) / ratios.train.den;
    var evalTarget := (ratios.eval.num * totalFiles) / ratios.eval.den;
    var targets := [trainTarget, evalTarget, totalFiles - trainTarget - evalTarget];
    assert targets == Targets(|filesCounts|, ratios);

    var cns := CnsFiles(sorted);
    var nonCns := NonCnsFiles(sorted);

    var cnsTrainCount := (9 * |cns|) / 10;
    ghost var start := PlaceCns(EmptyState(), cns, 0, cnsTrainCount);
    for i := 0 to |cns|
      invariant |files| == 3 && |counts| == 3
      invariant PlaceCns(SplitState(files, counts), cns, i, cnsTrainCount) == start
    {
      ghost var st := SplitState(files, counts);
      PlaceCnsStep(st, cns, i, cnsTrainCount);
      var split := if i < cnsTrainCount then TRAIN else EVAL;
      var (filename, c) := cns[i];
      files := files[split := files[split] + [filename]];
      var added := AddInto(counts[split], c);
      counts := counts[split := added];
      assert SplitState(files, counts) == Assign(st, CnsSplit(i, cnsTrainCount), cns[i]);
    }
    assert SplitSpec(filesCounts, ratios) == PlaceRest(start, nonCns, targets);

    var j := 0;
    while j < |nonCns|
      invariant 0 <= j <= |nonCns|
      invariant |files| == 3 && |counts| == 3
      invariant PlaceRest(SplitState(files, counts), nonCns[j..], targets) == PlaceRest(start, nonCns, targets)
    {
      var (filename, c) := nonCns[j];
      ghost var st := SplitState(files, counts);
      var bestSplit := BestSplit(files, counts, targets, c);
      PlaceRestStep(st, nonCns[j..], targets);
      assert nonCns[j..][0] == nonCns[j] && nonCns[j..][1..] == nonCns[j + 1..];
      if bestSplit.None? {
        return Failure(NoRoom(filename));
      }
      var best := bestSplit.value;
      files := files[best := files[best] + [filename]];
      var added := AddInto(counts[best], c);
      counts := counts[best := added];
      assert SplitState(files, counts) == Assign(st, best, nonCns[j]);
      j := j + 1;
    }
    return Success(SplitState(files, counts));
  }
}
