/**
 * data-augmentation.py: collect, per entity type other than `CNS`, the tokens seen under a
 * `B-` or `I-` label in the folder's IOB files, then write each IOB file out again, twice,
 * with every entity token swapped for a randomly chosen token of its type.
 *
 * `random.choice` is modelled by a stream of draws: the `k`-th call picks element
 * `draws(k) % n` of a list of length `n`, so every choice the library could make is one
 * of the stream's.
 */
module DataAugmentation {
  import opened Wrappers
  import opened Text
  import opened Entities

  const AUG_PER_FILE: nat := 2

  /** `label.startswith("B-") or label.startswith("I-")`. */
  predicate IsEntityLabel(tag: string) { StartsWith(tag, "B-") || StartsWith(tag, "I-") }

  /** `label.split("-")[1]`: the text between the first and the second dash. */
  function EntityType(tag: string): (t: string)
    requires IsEntityLabel(tag)
    ensures '-' !in t
  {
    SplitSecondPiece(tag, '-');
    SplitOn(tag, '-')[1]
  }

  /** The (type, token) pair a line adds to the bank: a line of exactly two fields whose label
      is `B-` or `I-` of a type other than `CNS`. */
  function Occurrence(line: string): (r: Option<(string, string)>)
    ensures r.Some? ==> r.value.0 != "CNS" && IsWord(r.value.1)
    ensures r.Some? ==> |Fields(line)| == 2 && r.value.1 == Fields(line)[0]
  {
    var parts := Fields(line);
    if |parts| != 2 then None
    else if IsEntityLabel(parts[1]) && EntityType(parts[1]) != "CNS" then Some((EntityType(parts[1]), parts[0]))
    else None
  }

  // ================================================================ the entity bank

  /** `{k: list(v) for k, v in entity_bank.items()}`: the order inside each list is that of
      first insertion (Python's set order is unspecified). */
  type Bank = map<string, seq<string>>

  predicate Distinct(s: seq<string>) { forall i, j :: 0 <= i < j < |s| ==> s[i] != s[j] }

  /** The shape of every bank `extract_entities_from_files` returns. */
  predicate GoodBank(b: Bank) {
    "CNS" !in b &&
    forall t :: t in b ==> b[t] != [] && Distinct(b[t]) && forall i :: 0 <= i < |b[t]| ==> IsWord(b[t][i])
  }

  predicate InBank(b: Bank, t: string, token: string) { t in b && token in b[t] }

  /** `entity_bank[t].add(token)`. */
  function BankAdd(b: Bank, t: string, token: string): Bank {
    if t !in b then b[t := [token]]
    else if token in b[t] then b
    else b[t := b[t] + [token]]
  }

  /** The bank after reading these lines of one file. */
  function BankOfLines(b: Bank, lines: seq<string>): Bank
    decreases |lines|
  {
    if lines == [] then b
    else
      var b' := BankOfLines(b, lines[..|lines| - 1]);
      match Occurrence(lines[|lines| - 1])
      case None => b'
      case Some(p) => BankAdd(b', p.0, p.1)
  }

  /** The bank built from the `.iob` files of a listing. */
  function BankOfFolder(entries: seq<Entry>): Bank
    decreases |entries|
  {
    if entries == [] then map[]
    else
      var e := entries[|entries| - 1];
      var b := BankOfFolder(entries[..|entries| - 1]);
      if IsIob(e.name) then BankOfLines(b, e.lines) else b
  }

  /** A whitespace-only line adds nothing: `line.strip() == ""` skips exactly the lines whose
      field list is empty anyway. */
  lemma BlankOccurrence(line: string)
    requires AllSpace(line)
    ensures Occurrence(line) == None && Fields(line) == []
  {
    FieldsOfSpace(line);
  }

  /** `extract_entities_from_files`. */
  method ExtractEntities(entries: seq<Entry>) returns (bank: Bank)
    ensures bank == BankOfFolder(entries)
  {
    bank := map[];
    for i := 0 to |entries|
      invariant bank == BankOfFolder(entries[..i])
    {
      assert entries[..i + 1][..i] == entries[..i];
      if !IsIob(entries[i].name) {
        continue;
      }
      var lines := entries[i].lines;
      ghost var start := bank;
      for j := 0 to |lines|
        invariant bank == BankOfLines(start, lines[..j])
      {
        assert lines[..j + 1][..j] == lines[..j];
        var line := lines[j];
        if AllSpace(line) {  // line.strip() == "", by StripEmpty
          BlankOccurrence(line);
          continue;
        }
        var parts := Fields(line);
        if |parts| != 2 {
          continue;
        }
        var token, tag := parts[0], parts[1];
        if StartsWith(tag, "B-") || StartsWith(tag, "I-") {
          SplitSecondPiece(tag, '-');
          var entityType := SplitOn(tag, '-')[1];
          if entityType != "CNS" {
            if entityType !in bank {
              bank := bank[entityType := [token]];
            } else if token !in bank[entityType] {
              bank := bank[entityType := bank[entityType] + [token]];
            }
          }
        }
      }
      assert lines[..|lines|] == lines;
    }
    assert entries[..|entries|] == entries;
  }

  // ---------------------------------------------------------------- what the bank holds

  lemma BankAddGood(b: Bank, t: string, token: string)
    requires GoodBank(b) && t != "CNS" && IsWord(token)
    ensures GoodBank(BankAdd(b, t, token))
    ensures forall u, v :: InBank(BankAdd(b, t, token), u, v) <==> InBank(b, u, v) || (u == t && v == token)
  {
  }

  lemma {:induction false} BankOfLinesFacts(b: Bank, lines: seq<string>)
    requires GoodBank(b)
    ensures GoodBank(BankOfLines(b, lines))
    ensures forall t, token :: InBank(BankOfLines(b, lines), t, token) <==>
              InBank(b, t, token) || exists j :: 0 <= j < |lines| && Occurrence(lines[j]) == Some((t, token))
    decreases |lines|
  {
    if lines != [] {
      var n := |lines| - 1;
      BankOfLinesFacts(b, lines[..n]);
      assert forall j :: 0 <= j < n ==> lines[..n][j] == lines[j];
      match Occurrence(lines[n])
      case None =>
      case Some(p) => BankAddGood(BankOfLines(b, lines[..n]), p.0, p.1);
    }
  }

  /** A pair comes from the folder when some line of some `.iob` file yields it. */
  predicate FromFolder(entries: seq<Entry>, t: string, token: string) {
    exists i, j :: 0 <= i < |entries| && IsIob(entries[i].name) && 0 <= j < |entries[i].lines| &&
                   Occurrence(entries[i].lines[j]) == Some((t, token))
  }

  /** The bank never has the key `CNS`; every list is non-empty, without repeats and made of
      single words; and `token` is listed under `t` exactly when some two-field line of some
      `.iob` file has that token under `B-t` or `I-t`. */
  lemma {:induction false} BankContents(entries: seq<Entry>)
    ensures GoodBank(BankOfFolder(entries))
    ensures forall t, token :: InBank(BankOfFolder(entries), t, token) <==> FromFolder(entries, t, token)
    decreases |entries|
  {
    if entries != [] {
      var n := |entries| - 1;
      var e := entries[n];
      BankContents(entries[..n]);
      assert forall i :: 0 <= i < n ==> entries[..n][i] == entries[i];
      if IsIob(e.name) {
        BankOfLinesFacts(BankOfFolder(entries[..n]), e.lines);
      }
      forall t, token ensures FromFolder(entries, t, token) <==>
                                FromFolder(entries[..n], t, token) ||
                                (IsIob(e.name) && exists j :: 0 <= j < |e.lines| && Occurrence(e.lines[j]) == Some((t, token)))
      {
        if FromFolder(entries, t, token) {
          var i, j :| 0 <= i < |entries| && IsIob(entries[i].name) && 0 <= j < |entries[i].lines| &&
                       Occurrence(entries[i].lines[j]) == Some((t, token));
          if i < n {
            assert entries[..n][i] == entries[i];
          }
        }
      }
    }
  }

  // ================================================================ augment_file

  /** The bank can stand in for this type: not `CNS`, a key of the bank, a non-empty list. */
  predicate Replaceable(bank: Bank, t: string) { t != "CNS" && t in bank && bank[t] != [] }

  /** `random.choice(choices)` when the draw is `d`. */
  function Choose(choices: seq<string>, d: nat): string
    requires choices != []
  {
    choices[d % |choices|]
  }

  lemma ChooseIn(choices: seq<string>, d: nat)
    requires choices != []
    ensures Choose(choices, d) in choices
  {
  }

  /** `augment_file` draws a replacement for this line: two fields, a `B-` or `I-` label,
      and a type the bank can supply. */
  predicate Replaces(line: string, bank: Bank) {
    !AllSpace(line) && |Fields(line)| == 2 &&
    IsEntityLabel(Fields(line)[1]) && Replaceable(bank, EntityType(Fields(line)[1]))
  }

  /** One line of `augment_file`, where `d` is the draw `random.choice` would use. */
  function RewriteLine(line: string, bank: Bank, d: nat): string {
    if AllSpace(line) then "\n"
    else
      var parts := Fields(line);
      if |parts| != 2 then line
      else if Replaces(line, bank) then Choose(bank[EntityType(parts[1])], d) + "\t" + parts[1] + "\n"
      else parts[0] + "\t" + parts[1] + "\n"
  }

  /** The output lines for these input lines: line `i` uses draw `base + i` when it needs one. */
  function AugmentLines(lines: seq<string>, bank: Bank, draws: nat -> nat, base: nat): (out: seq<string>)
    ensures |out| == |lines|
    decreases |lines|
  {
    if lines == [] then []
    else
      var n := |lines| - 1;
      AugmentLines(lines[..n], bank, draws, base) + [RewriteLine(lines[n], bank, draws(base + n))]
  }

  /** `Path(name).stem`: the name without its last suffix; a name whose only dot leads or
      ends it has no suffix. */
  function Stem(name: string): (r: string)
    ensures |r| <= |name| && r == name[..|r|]
  {
    var i := RFind(name, '.');
    if 0 < i < |name| - 1 then name[..i] else name
  }

  /** `s.rfind(c)`: the last index of `c`, or -1. */
  function RFind(s: string, c: char): (r: int)
    ensures -1 <= r < |s|
    ensures r >= 0 ==> s[r] == c && forall j :: r < j < |s| ==> s[j] != c
    ensures r == -1 ==> c !in s
    decreases |s|
  {
    if s == [] then -1 else if s[|s| - 1] == c then |s| - 1 else RFind(s[..|s| - 1], c)
  }

  /** The output name `{stem}_aug{aug_id}.iob`. */
  function AugName(name: string, augId: nat): string {
    Stem(name) + "_aug" + NatToString(augId) + ".iob"
  }

  /** The stem of a longer `.iob` name drops exactly the `.iob`. */
  lemma StemOfIob(name: string)
    requires IsIob(name) && |name| > 4
    ensures Stem(name) == name[..|name| - 4]
  {
    assert name[|name| - 4] == '.';
    assert forall j :: |name| - 4 < j < |name| ==> name[j] == name[|name| - 4..][j - (|name| - 4)];
  }

  /** Every name `augment_file` writes ends in `.iob` and contains `_aug`. */
  lemma AugNameShape(name: string, augId: nat)
    ensures IsIob(AugName(name, augId))
    ensures Contains(AugName(name, augId), "_aug")
  {
    var s := AugName(name, augId);
    assert s[|Stem(name)|..|Stem(name)| + 4] == "_aug";
    ContainsAt(s, "_aug", |Stem(name)|);
  }

  /** One more input line adds its rewrite at the end. */
  lemma AugmentLinesSnoc(lines: seq<string>, bank: Bank, draws: nat -> nat, base: nat, i: nat)
    requires i < |lines|
    ensures AugmentLines(lines[..i + 1], bank, draws, base) ==
            AugmentLines(lines[..i], bank, draws, base) + [RewriteLine(lines[i], bank, draws(base + i))]
  {
    assert lines[..i + 1][..i] == lines[..i];
  }

  /** `augment_file`: the lines it writes and the file name it writes them to. */
  method AugmentFile(name: string, lines: seq<string>, bank: Bank, augId: nat, draws: nat -> nat, base: nat)
    returns (newName: string, out: seq<string>)
    ensures newName == AugName(name, augId)
    ensures out == AugmentLines(lines, bank, draws, base)
  {
    out := [];
    for i := 0 to |lines|
      invariant out == AugmentLines(lines[..i], bank, draws, base)
    {
      AugmentLinesSnoc(lines, bank, draws, base, i);
      var newLine := AugmentLine(lines[i], bank, draws(base + i));
      out := out + [newLine];
    }
    assert lines[..|lines|] == lines;
    newName := AugName(name, augId);
  }

  /** The body of the loop of `augment_file`: what it writes for one line, `d` being the draw
      `random.choice` uses if the line needs one. */
  method AugmentLine(line: string, bank: Bank, d: nat) returns (newLine: string)
    ensures newLine == RewriteLine(line, bank, d)
  {
    if AllSpace(line) {  // line.strip() == "", by StripEmpty
      return "\n";
    }
    var parts := Fields(line);
    if |parts| != 2 {
      return line;
    }
    var token, tag := parts[0], parts[1];
    if StartsWith(tag, "B-") || StartsWith(tag, "I-") {
      SplitSecondPiece(tag, '-');
      var entityType := SplitOn(tag, '-')[1];
      if entityType != "CNS" && entityType in bank && bank[entityType] != [] {
        token := Choose(bank[entityType], d);
      }
    }
    newLine := token + "\t" + tag + "\n";
  }

  // ---------------------------------------------------------------- what one line becomes

  /** A whitespace-only line becomes `"\n"`; a line without exactly two fields is copied as
      is; neither uses a draw. */
  lemma RewriteOther(line: string, bank: Bank, d: nat)
    ensures Strip(line) == [] ==> RewriteLine(line, bank, d) == "\n" && !Replaces(line, bank)
    ensures |Fields(line)| != 2 && Strip(line) != [] ==> RewriteLine(line, bank, d) == line && !Replaces(line, bank)
  {
    StripEmpty(line);
  }

  /** A two-field line is written as `token\tlabel\n` with its label unchanged; the token is
      kept when the label is `O`, `CNS` or a type the bank cannot supply, and otherwise is
      a member of the bank's list for that type. */
  lemma RewriteTwoFields(line: string, bank: Bank, d: nat)
    requires |Fields(line)| == 2
    ensures var tag := Fields(line)[1];
            exists token :: RewriteLine(line, bank, d) == token + "\t" + tag + "\n" &&
              if Replaces(line, bank) then token in bank[EntityType(tag)] else token == Fields(line)[0]
  {
    if AllSpace(line) {
      BlankOccurrence(line);
    }
    var tag := Fields(line)[1];
    if Replaces(line, bank) {
      ChooseIn(bank[EntityType(tag)], d);
      var token := Choose(bank[EntityType(tag)], d);
      assert RewriteLine(line, bank, d) == token + "\t" + tag + "\n";
    } else {
      assert RewriteLine(line, bank, d) == Fields(line)[0] + "\t" + tag + "\n";
    }
  }

  /** With a bank of single words, a rewritten line reads like the original: blank stays
      blank, a line without two fields is unchanged, and a two-field line keeps its label. */
  lemma RewriteSameReading(line: string, bank: Bank, d: nat)
    requires GoodBank(bank)
    ensures SameReading(Shape(line), Shape(RewriteLine(line, bank, d)))
  {
    if AllSpace(line) {
      BlankOccurrence(line);
      assert AllSpace("\n");
      FieldsOfSpace("\n");
    } else if |Fields(line)| == 2 {
      var parts := Fields(line);
      if Replaces(line, bank) {
        FieldsOfTabLine(Choose(bank[EntityType(parts[1])], d), parts[1]);
      } else {
        FieldsOfTabLine(parts[0], parts[1]);
      }
    }
  }

  // ---------------------------------------------------------------- what a file becomes

  /** Output line `i` is the rewrite of input line `i`. */
  lemma {:induction false} AugmentLineAt(lines: seq<string>, bank: Bank, draws: nat -> nat, base: nat, i: nat)
    requires i < |lines|
    ensures AugmentLines(lines, bank, draws, base)[i] == RewriteLine(lines[i], bank, draws(base + i))
    decreases |lines|
  {
    var n := |lines| - 1;
    assert lines[..n + 1] == lines;
    AugmentLinesSnoc(lines, bank, draws, base, n);
    if i < n {
      AugmentLineAt(lines[..n], bank, draws, base, i);
      assert lines[..n][i] == lines[i];
    }
  }

  /** With a bank `extract_entities_from_files` can return, the augmented file counts the
      same entities as the original and fails on the same line. */
  lemma AugmentPreservesCounts(lines: seq<string>, bank: Bank, draws: nat -> nat, k: nat)
    requires GoodBank(bank)
    ensures CountLines(AugmentLines(lines, bank, draws, k)) == CountLines(lines)
  {
    var out := AugmentLines(lines, bank, draws, k);
    forall i | 0 <= i < |lines| ensures SameReading(Shape(out[i]), Shape(lines[i])) {
      AugmentLineAt(lines, bank, draws, k, i);
      RewriteSameReading(lines[i], bank, draws(k + i));
    }
    CountLinesSameShapes(out, lines);
  }

  // ================================================================ main

  /** Rounds `id`..`last` of one file, from draw `k` on: each round writes one file and
      takes one draw per line. */
  function Rounds(e: Entry, bank: Bank, draws: nat -> nat, k: nat, id: nat, last: nat): (w: seq<Entry>)
    ensures |w| == if id <= last then last - id + 1 else 0
    decreases last + 1 - id
  {
    if id > last then []
    else [Round(e, bank, draws, k, id)] + Rounds(e, bank, draws, k + |e.lines|, id + 1, last)
  }

  /** The file round `id` writes for `e` when its draws start at `k`. */
  function Round(e: Entry, bank: Bank, draws: nat -> nat, k: nat, id: nat): Entry {
    Entry(AugName(e.name, id), AugmentLines(e.lines, bank, draws, k))
  }

  /** The first draw after `rounds` rounds of `used` draws each, from draw `k` on. */
  function After(k: nat, rounds: nat, used: nat): nat
    decreases rounds
  {
    if rounds == 0 then k else After(k, rounds - 1, used) + used
  }

  /** The two rounds `main` runs for one file: copy 1 from draw `k` on, copy 2 from the
      draw after that. */
  lemma TwoRounds(e: Entry, bank: Bank, draws: nat -> nat, k: nat)
    ensures Rounds(e, bank, draws, k, 1, AUG_PER_FILE) ==
            [Round(e, bank, draws, k, 1), Round(e, bank, draws, k + |e.lines|, 2)]
  {
    var second := Rounds(e, bank, draws, k + |e.lines|, 2, AUG_PER_FILE);
    assert second == [Round(e, bank, draws, k + |e.lines|, 2)] + Rounds(e, bank, draws, k + 2 * |e.lines|, 3, AUG_PER_FILE);
  }

  /** `AugName` never names the file it was made from: either it is longer than the name,
      or it agrees with it up to the stem and then has `_` where the name has its last `.`.
      So neither copy `augment_file` writes for a file overwrites that file. */
  lemma AugNameNotSelf(name: string, augId: nat)
    ensures AugName(name, augId) != name
  {
    var s := Stem(name);
    if |s| < |name| {
      assert name[|s|] == '.';
      assert AugName(name, augId)[|s|] == '_';
    } else {
      assert |AugName(name, augId)| > |name|;
    }
  }

  /** Copy 1 and copy 2 of a file go to two different names. */
  lemma AugNamesDiffer(name: string)
    ensures AugName(name, 1) != AugName(name, 2)
  {
    var s := Stem(name);
    assert AugName(name, 1)[|s| + 4] == '1';
    assert AugName(name, 2)[|s| + 4] == '2';
  }

  // ---------------------------------------------------------------- the folder

  /** The training folder: file name to the lines of the file. */
  type Folder = map<string, seq<string>>

  /** The folder as `os.listdir` lists it when `main` starts. */
  function ListingFolder(entries: seq<Entry>): Folder
    decreases |entries|
  {
    if entries == [] then map[]
    else
      var e := entries[|entries| - 1];
      ListingFolder(entries[..|entries| - 1])[e.name := e.lines]
  }

  /** The folder after writing `files` into it, in order (`open(..., "w")` replaces a file of
      the same name). */
  function WriteFiles(folder: Folder, files: seq<Entry>): Folder
    decreases |files|
  {
    if files == [] then folder
    else
      var f := files[|files| - 1];
      WriteFiles(folder, files[..|files| - 1])[f.name := f.lines]
  }

  /** Writing one more file updates the folder under its name. */
  lemma WriteFilesSnoc(folder: Folder, files: seq<Entry>, f: Entry)
    ensures WriteFiles(folder, files + [f]) == WriteFiles(folder, files)[f.name := f.lines]
  {
    assert (files + [f])[..|files|] == files;
  }

  /** What `open(file_path)` reads for listed file `e`: what the folder holds under its name
      now, which is not always what was listed. */
  function ReadFile(folder: Folder, e: Entry): Entry {
    Entry(e.name, if e.name in folder then folder[e.name] else e.lines)
  }

  /** Where `main` is after some of the listing: the folder, the files written so far in
      order, the listed `.iob` files as `augment_file` read them, and the next draw. */
  datatype MainState = MainState(folder: Folder, written: seq<Entry>, sources: seq<Entry>, next: nat)

  /** One pass of the outer loop of `main` on listed entry `e`: nothing for a file not
      ending in `.iob`; otherwise its two copies, made from what the folder holds under
      its name and written back into the folder. */
  function MainStep(st: MainState, e: Entry, bank: Bank, draws: nat -> nat): MainState {
    if !IsIob(e.name) then st
    else
      var src := ReadFile(st.folder, e);
      var copies := Rounds(src, bank, draws, st.next, 1, AUG_PER_FILE);
      MainState(WriteFiles(st.folder, copies), st.written + copies, st.sources + [src],
                st.next + AUG_PER_FILE * |src.lines|)
  }

  /** The outer loop of `main` over the listing, from state `st`. */
  function MainRun(st: MainState, entries: seq<Entry>, bank: Bank, draws: nat -> nat): MainState
    decreases |entries|
  {
    if entries == [] then st
    else
      var n := |entries| - 1;
      MainStep(MainRun(st, entries[..n], bank, draws), entries[n], bank, draws)
  }

  /** `main` on a folder listed as `entries`, from the first draw on. */
  function AugmentFolderSpec(entries: seq<Entry>, bank: Bank, draws: nat -> nat): MainState {
    MainRun(MainState(ListingFolder(entries), [], [], 0), entries, bank, draws)
  }

  /** Round `id` of the two starts at the draw after the rounds before it. */
  lemma RoundAt(e: Entry, bank: Bank, draws: nat -> nat, k: nat, id: nat)
    requires 1 <= id <= AUG_PER_FILE
    ensures Rounds(e, bank, draws, k, 1, AUG_PER_FILE)[id - 1] == Round(e, bank, draws, After(k, id - 1, |e.lines|), id)
  {
    TwoRounds(e, bank, draws, k);
    if id == 2 {
      assert After(k, 1, |e.lines|) == k + |e.lines|;
    }
  }

  /** The inner loop of `main` for listed `.iob` file `e`: `AUG_PER_FILE` calls of
      `augment_file`, each opening `e` in the folder, rewriting its lines from the next draws
      and writing the copy into the folder; `next` is the first draw after them. Each call
      reads `e` again, and since no copy is written under `e`'s own name both calls read the
      same lines. */
  method AugmentCopies(folder: Folder, e: Entry, bank: Bank, draws: nat -> nat, k: nat)
    returns (after: Folder, copies: seq<Entry>, next: nat)
    ensures copies == Rounds(ReadFile(folder, e), bank, draws, k, 1, AUG_PER_FILE)
    ensures after == WriteFiles(folder, copies)
    ensures next == k + AUG_PER_FILE * |ReadFile(folder, e).lines|
  {
    ghost var src := ReadFile(folder, e);
    ghost var all := Rounds(src, bank, draws, k, 1, AUG_PER_FILE);
    after, copies, next := folder, [], k;
    for augId := 1 to AUG_PER_FILE + 1
      invariant next == After(k, augId - 1, |src.lines|)
      invariant copies == all[..augId - 1]
      invariant after == WriteFiles(folder, copies)
      invariant ReadFile(after, e) == src
    {
      var lines := ReadFile(after, e).lines;
      var newName, out := AugmentFile(e.name, lines, bank, augId, draws, next);
      RoundAt(src, bank, draws, k, augId);
      assert Entry(newName, out) == all[augId - 1];
      AugNameNotSelf(e.name, augId);
      WriteFilesSnoc(folder, copies, Entry(newName, out));
      next := next + |lines|;
      copies := copies + [Entry(newName, out)];
      after := after[newName := out];
      assert copies == all[..augId];
    }
    assert all[..AUG_PER_FILE] == all;
  }

  /** `main`: build the bank from the folder, then, for each listed `.iob` file in order,
      write `AUG_PER_FILE` augmented copies of it into the same folder. */
  method AugmentFolder(entries: seq<Entry>, draws: nat -> nat) returns (bank: Bank, folder: Folder, written: seq<Entry>)
    ensures bank == BankOfFolder(entries)
    ensures folder == AugmentFolderSpec(entries, bank, draws).folder
    ensures written == AugmentFolderSpec(entries, bank, draws).written
  {
    bank := ExtractEntities(entries);
    folder := ListingFolder(entries);
    written := [];
    var k: nat := 0;
    ghost var start := MainState(folder, [], [], 0);
    for i := 0 to |entries|
      invariant folder == MainRun(start, entries[..i], bank, draws).folder
      invariant written == MainRun(start, entries[..i], bank, draws).written
      invariant k == MainRun(start, entries[..i], bank, draws).next
    {
      assert entries[..i + 1][..i] == entries[..i];
      var e := entries[i];
      if !IsIob(e.name) {
        continue;
      }
      var copies;
      folder, copies, k := AugmentCopies(folder, e, bank, draws, k);
      written := written + copies;
    }
    assert entries[..|entries|] == entries;
  }

  /** `x` is copy `id` of `e`: named `{stem}_aug{id}.iob`, one line per line of `e`, and the
      same entity counts. */
  predicate CopyOf(x: Entry, e: Entry, id: nat) {
    x.name == AugName(e.name, id) && |x.lines| == |e.lines| && CountLines(x.lines) == CountLines(e.lines)
  }

  /** `w` holds, for each file of `iobs` in order, the two entries that `copy` relates to it:
      copy 1 and then copy 2. */
  predicate Paired(w: seq<Entry>, iobs: seq<Entry>, copy: (Entry, Entry, nat) -> bool)
    decreases |iobs|
  {
    if iobs == [] then w == []
    else
      var n, m := |iobs| - 1, |w| - 2;
      |w| >= 2 && Paired(w[..m], iobs[..n], copy) && copy(w[m], iobs[n], 1) && copy(w[m + 1], iobs[n], 2)
  }

  /** Two entries per file, and copy `id` of the `j`-th file at position `2j + id - 1`. */
  lemma {:induction false} PairedAt(w: seq<Entry>, iobs: seq<Entry>, copy: (Entry, Entry, nat) -> bool, j: nat)
    requires Paired(w, iobs, copy)
    ensures |w| == AUG_PER_FILE * |iobs|
    ensures j < |iobs| ==> copy(w[2 * j], iobs[j], 1) && copy(w[2 * j + 1], iobs[j], 2)
    decreases |iobs|
  {
    if iobs != [] {
      var n, m := |iobs| - 1, |w| - 2;
      PairedAt(w[..m], iobs[..n], copy, j);
      if j < n {
        assert w[..m][2 * j] == w[2 * j] && w[..m][2 * j + 1] == w[2 * j + 1];
        assert iobs[..n][j] == iobs[j];
      }
    }
  }

  lemma PairedAppend(w: seq<Entry>, iobs: seq<Entry>, r: seq<Entry>, e: Entry, copy: (Entry, Entry, nat) -> bool)
    requires Paired(w, iobs, copy) && Paired(r, [e], copy)
    ensures Paired(w + r, iobs + [e], copy)
  {
    assert [e][..0] == [];
    assert r[..0] == [];
    assert (w + r)[..|w|] == w;
    assert (iobs + [e])[..|iobs|] == iobs;
  }

  /** The two rounds of a file are its two copies, for a bank of single words. */
  lemma RoundsAreCopies(e: Entry, bank: Bank, draws: nat -> nat, k: nat)
    requires GoodBank(bank)
    ensures Paired(Rounds(e, bank, draws, k, 1, AUG_PER_FILE), [e], CopyOf)
  {
    var r := Rounds(e, bank, draws, k, 1, AUG_PER_FILE);
    TwoRounds(e, bank, draws, k);
    assert CopyOf(r[0], e, 1) by {
      AugmentPreservesCounts(e.lines, bank, draws, k);
    }
    assert CopyOf(r[1], e, 2) by {
      AugmentPreservesCounts(e.lines, bank, draws, k + |e.lines|);
    }
    assert r[..0] == [] && [e][..0] == [];
  }

  /** `r` has written two copies of each file it read, in order, and read files named as
      `iobs` are, in order. */
  predicate RunFacts(r: MainState, iobs: seq<Entry>) {
    Paired(r.written, r.sources, CopyOf) && |r.sources| == |iobs| &&
    forall j :: 0 <= j < |r.sources| ==> r.sources[j].name == iobs[j].name
  }

  /** One pass of the outer loop keeps `RunFacts`, one more `.iob` file read. */
  lemma MainStepFacts(st: MainState, e: Entry, iobs: seq<Entry>, bank: Bank, draws: nat -> nat)
    requires GoodBank(bank) && RunFacts(st, iobs)
    ensures RunFacts(MainStep(st, e, bank, draws), iobs + if IsIob(e.name) then [e] else [])
  {
    var r := MainStep(st, e, bank, draws);
    if IsIob(e.name) {
      var src := ReadFile(st.folder, e);
      var copies := Rounds(src, bank, draws, st.next, 1, AUG_PER_FILE);
      assert r.written == st.written + copies && r.sources == st.sources + [src];
      assert Paired(r.written, r.sources, CopyOf) by {
        RoundsAreCopies(src, bank, draws, st.next);
        PairedAppend(st.written, st.sources, copies, src, CopyOf);
      }
      var after := iobs + [e];
      forall j | 0 <= j < |r.sources| ensures r.sources[j].name == after[j].name {
        if j < |st.sources| {
          assert r.sources[j] == st.sources[j] && after[j] == iobs[j];
        }
      }
    } else {
      assert iobs + [] == iobs;
    }
  }

  /** With a bank of single words, `main` writes two copies of each listed `.iob` file, in
      listing order, and nothing else; each is a copy of the file as it was read, and the
      files read are the listed `.iob` files, by name and in order. */
  lemma {:induction false} MainRunFacts(f: Folder, entries: seq<Entry>, bank: Bank, draws: nat -> nat)
    requires GoodBank(bank)
    ensures RunFacts(MainRun(MainState(f, [], [], 0), entries, bank, draws), IobEntries(entries))
    decreases |entries|
  {
    var start := MainState(f, [], [], 0);
    if entries == [] {
      assert Paired([], [], CopyOf);
    } else {
      var n := |entries| - 1;
      var pre, e := entries[..n], entries[n];
      MainRunFacts(f, pre, bank, draws);
      assert MainRun(start, entries, bank, draws) == MainStep(MainRun(start, pre, bank, draws), e, bank, draws);
      assert IobEntries(entries) == IobEntries(pre) + if IsIob(e.name) then [e] else [];
      MainStepFacts(MainRun(start, pre, bank, draws), e, IobEntries(pre), bank, draws);
    }
  }

  /** With the bank built from the folder itself, `main` writes exactly two files per listed
      `.iob` file, in listing order: for the `j`-th of them it writes `{stem}_aug1.iob` and
      `{stem}_aug2.iob` at positions `2j` and `2j + 1`, each with one line per line of that
      file as it was read and the same entity counts. */
  lemma AugmentFolderCounts(entries: seq<Entry>, draws: nat -> nat, j: nat)
    ensures var r := AugmentFolderSpec(entries, BankOfFolder(entries), draws);
            var iobs := IobEntries(entries);
            |r.sources| == |iobs| && |r.written| == AUG_PER_FILE * |iobs| &&
            (j < |iobs| ==> r.sources[j].name == iobs[j].name &&
                            CopyOf(r.written[2 * j], r.sources[j], 1) && CopyOf(r.written[2 * j + 1], r.sources[j], 2))
  {
    var r := AugmentFolderSpec(entries, BankOfFolder(entries), draws);
    BankContents(entries);
    MainRunFacts(ListingFolder(entries), entries, BankOfFolder(entries), draws);
    PairedAt(r.written, r.sources, CopyOf, j);
  }

  /** `os.listdir` names each file once. */
  predicate DistinctNames(entries: seq<Entry>) {
    forall i, j :: 0 <= i < j < |entries| ==> entries[i].name != entries[j].name
  }

  /** No listed file comes after a listed `.iob` file whose copy would take its name. */
  predicate NoStaleReads(entries: seq<Entry>) {
    forall i, j :: 0 <= i < j < |entries| && IsIob(entries[i].name) ==>
      entries[j].name != AugName(entries[i].name, 1) && entries[j].name != AugName(entries[i].name, 2)
  }

  /** Under distinct names, the starting folder holds each listed file's own lines. */
  lemma {:induction false} ListingFolderAt(entries: seq<Entry>, i: nat)
    requires DistinctNames(entries) && i < |entries|
    ensures entries[i].name in ListingFolder(entries)
    ensures ListingFolder(entries)[entries[i].name] == entries[i].lines
    decreases |entries|
  {
    var n := |entries| - 1;
    if i < n {
      var pre := entries[..n];
      assert pre[i] == entries[i];
      assert DistinctNames(pre) by {
        forall a, b | 0 <= a < b < |pre| ensures pre[a].name != pre[b].name {
          assert pre[a] == entries[a] && pre[b] == entries[b];
        }
      }
      ListingFolderAt(pre, i);
    }
  }

  /** Writing two files is two updates of the folder. */
  lemma WriteTwo(folder: Folder, c1: Entry, c2: Entry)
    ensures WriteFiles(folder, [c1, c2]) == folder[c1.name := c1.lines][c2.name := c2.lines]
  {
    assert [c1, c2][..1] == [c1];
    assert [c1][..0] == [];
    assert WriteFiles(folder, [c1]) == WriteFiles(folder, [])[c1.name := c1.lines];
  }

  /** The pass on a listed `.iob` file `e`: it reads `e` from the folder, then writes copy 1
      and copy 2 of what it read. */
  lemma IobStep(st: MainState, e: Entry, bank: Bank, draws: nat -> nat)
    requires IsIob(e.name)
    ensures var r, src := MainStep(st, e, bank, draws), ReadFile(st.folder, e);
            var c1, c2 := Round(src, bank, draws, st.next, 1), Round(src, bank, draws, st.next + |src.lines|, 2);
            r.written == st.written + [c1, c2] && r.sources == st.sources + [src] &&
            r.folder == st.folder[c1.name := c1.lines][c2.name := c2.lines]
  {
    var src := ReadFile(st.folder, e);
    TwoRounds(src, bank, draws, st.next);
    WriteTwo(st.folder, Round(src, bank, draws, st.next, 1), Round(src, bank, draws, st.next + |src.lines|, 2));
  }

  /** Every listed file from position `n` on is still as listed in the folder of `st`. */
  predicate ListedFrom(st: MainState, entries: seq<Entry>, n: nat) {
    forall i :: n <= i < |entries| ==> entries[i].name in st.folder && st.folder[entries[i].name] == entries[i].lines
  }

  /** Under `NoStaleReads`, the pass on entry `m` reads it as listed and leaves the later
      listed files as they were. */
  lemma FreshStep(st: MainState, entries: seq<Entry>, m: nat, bank: Bank, draws: nat -> nat)
    requires NoStaleReads(entries) && m < |entries| && ListedFrom(st, entries, m)
    ensures ListedFrom(MainStep(st, entries[m], bank, draws), entries, m + 1)
    ensures MainStep(st, entries[m], bank, draws).sources == st.sources + if IsIob(entries[m].name) then [entries[m]] else []
  {
    var e := entries[m];
    if IsIob(e.name) {
      assert ReadFile(st.folder, e) == e;
      IobStep(st, e, bank, draws);
      var c1, c2 := Round(e, bank, draws, st.next, 1), Round(e, bank, draws, st.next + |e.lines|, 2);
      forall i | m + 1 <= i < |entries|
        ensures entries[i].name in MainStep(st, e, bank, draws).folder
        ensures MainStep(st, e, bank, draws).folder[entries[i].name] == entries[i].lines
      {
        assert entries[i].name != c1.name && entries[i].name != c2.name;
      }
    } else {
      assert st.sources + [] == st.sources;
    }
  }

  /** Over the first `n` entries of a listing that `NoStaleReads` holds of, every file read
      is the listed file, and every later listed file is still as listed. */
  lemma {:induction false} FreshPrefix(entries: seq<Entry>, bank: Bank, draws: nat -> nat, n: nat)
    requires DistinctNames(entries) && NoStaleReads(entries) && n <= |entries|
    ensures var st := MainRun(MainState(ListingFolder(entries), [], [], 0), entries[..n], bank, draws);
            st.sources == IobEntries(entries[..n]) && ListedFrom(st, entries, n)
    decreases n
  {
    var start := MainState(ListingFolder(entries), [], [], 0);
    if n == 0 {
      assert entries[..0] == [];
      forall i | 0 <= i < |entries|
        ensures entries[i].name in start.folder && start.folder[entries[i].name] == entries[i].lines
      {
        ListingFolderAt(entries, i);
      }
    } else {
      var m := n - 1;
      FreshPrefix(entries, bank, draws, m);
      assert entries[..n][..m] == entries[..m];
      var st := MainRun(start, entries[..m], bank, draws);
      assert MainRun(start, entries[..n], bank, draws) == MainStep(st, entries[m], bank, draws);
      assert IobEntries(entries[..n]) == IobEntries(entries[..m]) + if IsIob(entries[m].name) then [entries[m]] else [];
      FreshStep(st, entries, m, bank, draws);
    }
  }

  /** When the listing holds no file that an earlier listed `.iob` file's copies overwrite,
      `main` augments each listed `.iob` file from its listed contents. */
  lemma FreshSources(entries: seq<Entry>, bank: Bank, draws: nat -> nat)
    requires DistinctNames(entries) && NoStaleReads(entries)
    ensures AugmentFolderSpec(entries, bank, draws).sources == IobEntries(entries)
  {
    FreshPrefix(entries, bank, draws, |entries|);
    assert entries[..|entries|] == entries;
  }

  /** Two passes from a state that has written nothing: `a`, as the folder holds it, then
      `b`, named like `a`'s first copy, which the second pass reads back. */
  lemma ReadsFirstCopy(st: MainState, a: Entry, b: Entry, bank: Bank, draws: nat -> nat)
    requires IsIob(a.name) && b.name == AugName(a.name, 1)
    requires a.name in st.folder && st.folder[a.name] == a.lines && st.written == [] && st.sources == []
    ensures var r := MainStep(MainStep(st, a, bank, draws), b, bank, draws);
            |r.written| == 2 * AUG_PER_FILE && r.sources == [a, Entry(b.name, r.written[0].lines)]
  {
    AugNamesDiffer(a.name);
    AugNameShape(a.name, 1);
    assert ReadFile(st.folder, a) == a;
    var st1 := MainStep(st, a, bank, draws);
    IobStep(st, a, bank, draws);
    IobStep(st1, b, bank, draws);
  }

  /** Otherwise a listed file can be read after `main` has overwritten it: with `a` an
      `.iob` file listed before `b`, named like `a`'s first copy, `b` is augmented from that
      copy and not from its own listed lines. */
  lemma StaleRead(a: Entry, b: Entry, bank: Bank, draws: nat -> nat)
    requires IsIob(a.name) && b.name == AugName(a.name, 1)
    ensures var r := AugmentFolderSpec([a, b], bank, draws);
            |r.written| == 2 * AUG_PER_FILE && r.sources == [a, Entry(b.name, r.written[0].lines)]
  {
    AugNameNotSelf(a.name, 1);
    var entries := [a, b];
    var start := MainState(ListingFolder(entries), [], [], 0);
    assert entries[..1] == [a] && [a][..0] == [];
    assert start.folder == map[a.name := a.lines][b.name := b.lines] by {
      assert ListingFolder([a]) == map[a.name := a.lines];
    }
    assert MainRun(start, entries, bank, draws) == MainStep(MainStep(start, a, bank, draws), b, bank, draws) by {
      assert MainRun(start, [a], bank, draws) == MainStep(MainRun(start, [], bank, draws), a, bank, draws);
    }
    ReadsFirstCopy(start, a, b, bank, draws);
  }
}
