/**
 * cleaning-data.py: read annotation records one per line, keep those that have both
 * `text` and `labels`, turn each `[start, end, label]` triple into an entity with a string
 * label, and collect one message per rejected line or label, numbered from 1.
 *
 * JSON parsing is outside the model: each line arrives already parsed, as an object
 * (only its `text` and `labels` members matter), as some other top-level value, or
 * marked unparsable. Values are numbers, strings and lists.
 */
module CleaningData {
  import opened Wrappers
  import opened Text

  /** A parsed JSON value, as far as the script looks at it. */
  datatype Value = Num(n: int) | Str(s: string) | List(items: seq<Value>)

  /** One input line: `json.loads` raised `JSONDecodeError`, gave an object whose `text` and
      `labels` members may be missing (other members are never read), or gave a value that
      is not an object. */
  datatype ParsedLine = Unparsable | Record(text: Option<Value>, labels: Option<Value>) | NonObject(value: Value)

  /** An output entity: `{"start": start, "end": end, "label": str(entity_label)}`. */
  datatype Entity = Entity(start: Value, end: Value, entityLabel: string)

  /** An output record: `{"text": ..., "entities": [...]}`. */
  datatype CleanEntry = CleanEntry(text: Value, entities: seq<Entity>)

  /** A `TypeError` escapes the `try` (it only catches `JSONDecodeError`) and ends the
      script while it reads the given 0-based line. */
  datatype Crash = TypeErrorAt(lineIndex: nat)

  // ================================================================ Python's str and repr

  /** `repr(v)`: strings in single quotes, list items separated by ", ". */
  function Repr(v: Value): string
    decreases v
  {
    match v
    case Num(n) => IntToString(n)
    case Str(s) => "'" + s + "'"
    case List(xs) => "[" + ReprItems(xs) + "]"
  }

  function ReprItems(xs: seq<Value>): string
    decreases xs
  {
    if xs == [] then ""
    else if |xs| == 1 then Repr(xs[0])
    else Repr(xs[0]) + ", " + ReprItems(xs[1..])
  }

  /** `str(v)`: a string is itself; anything else reads as its `repr`. */
  function StrOf(v: Value): string {
    if v.Str? then v.s else Repr(v)
  }

  /** `len(v)`; a number has no length (`TypeError`). */
  function Len(v: Value): Option<nat> {
    match v
    case Num(_) => None
    case Str(s) => Some(|s|)
    case List(xs) => Some(|xs|)
  }

  /** What `for x in v` visits: the items of a list, the one-character strings of a string;
      a number is not iterable (`TypeError`). */
  function Items(v: Value): (r: Option<seq<Value>>)
    ensures r.Some? ==> Len(v) == Some(|r.value|)
  {
    match v
    case Num(_) => None
    case Str(s) => Some(seq(|s|, k requires 0 <= k < |s| => Str([s[k]])))
    case List(xs) => Some(xs)
  }

  // ================================================================ messages

  function LinePrefix(i: nat): string {
    "Line " + NatToString(i + 1) + ": "
  }

  function MissingMessage(i: nat): string {
    LinePrefix(i) + "Missing 'text' or 'labels'."
  }

  function JsonMessage(i: nat): string {
    LinePrefix(i) + "Invalid JSON format."
  }

  function FormatMessage(i: nat, item: Value): string {
    LinePrefix(i) + "Invalid label format " + StrOf(item) + ". Expected [start, end, label]."
  }

  // ================================================================ one record's labels

  /** `start, end, entity_label = label` for a label of length 3, then the entity dict. */
  function ToEntity(item: Value): (e: Entity)
    requires Len(item) == Some(3)
    ensures Items(item).Some? && |Items(item).value| == 3
    ensures var xs := Items(item).value;
            e.start == xs[0] && e.end == xs[1] && e.entityLabel == StrOf(xs[2])
  {
    var xs := Items(item).value;
    Entity(xs[0], xs[1], StrOf(xs[2]))
  }

  /** The loop over `data["labels"]` (lines 22-28) after the first `n` label entries: the
      entities built and the messages added. */
  function ConvertLabels(i: nat, labels: seq<Value>): Result<(seq<Entity>, seq<string>), Crash>
    decreases |labels|
  {
    if labels == [] then Success(([], []))
    else
      var item := labels[|labels| - 1];
      match ConvertLabels(i, labels[..|labels| - 1])
      case Failure(c) => Failure(c)
      case Success(acc) =>
        match Len(item)
        case None => Failure(TypeErrorAt(i))
        case Some(n) =>
          if n != 3 then Success((acc.0, acc.1 + [FormatMessage(i, item)]))
          else Success((acc.0 + [ToEntity(item)], acc.1))
  }

  /** `for label in data["labels"]` as a loop. */
  method ConvertLabelsLoop(i: nat, labels: seq<Value>) returns (r: Result<(seq<Entity>, seq<string>), Crash>)
    ensures r == ConvertLabels(i, labels)
  {
    var entities: seq<Entity> := [];
    var errors: seq<string> := [];
    for k := 0 to |labels|
      invariant ConvertLabels(i, labels[..k]) == Success((entities, errors))
    {
      assert labels[..k + 1][..k] == labels[..k];
      var item := labels[k];
      var len := Len(item);
      if len.None? {
        ConvertFailureSticks(i, labels, k + 1);
        return Failure(TypeErrorAt(i));
      }
      if len.value != 3 {
        errors := errors + [FormatMessage(i, item)];
        continue;
      }
      entities := entities + [ToEntity(item)];
    }
    assert labels[..|labels|] == labels;
    return Success((entities, errors));
  }

  lemma {:induction false} ConvertFailureSticks(i: nat, labels: seq<Value>, m: nat)
    requires m <= |labels| && ConvertLabels(i, labels[..m]).Failure?
    ensures ConvertLabels(i, labels) == ConvertLabels(i, labels[..m])
    decreases |labels| - m
  {
    if m < |labels| {
      assert labels[..m + 1][..m] == labels[..m];
      ConvertFailureSticks(i, labels, m + 1);
    } else {
      assert labels[..m] == labels;
    }
  }

  /** The label entries of length 3, in order: an independent, front-to-back statement of
      which entries become entities. */
  function Triples(labels: seq<Value>): (ts: seq<Value>)
    ensures forall k :: 0 <= k < |ts| ==> Len(ts[k]) == Some(3)
    decreases |labels|
  {
    if labels == [] then []
    else (if Len(labels[0]) == Some(3) then [labels[0]] else []) + Triples(labels[1..])
  }

  /** The entries of any other length, each of which gets a message. */
  function Malformed(labels: seq<Value>): seq<Value>
    decreases |labels|
  {
    if labels == [] then []
    else (if Len(labels[0]) != Some(3) then [labels[0]] else []) + Malformed(labels[1..])
  }

  function Entities(triples: seq<Value>): (es: seq<Entity>)
    requires forall k :: 0 <= k < |triples| ==> Len(triples[k]) == Some(3)
    ensures |es| == |triples|
    decreases |triples|
  {
    if triples == [] then [] else [ToEntity(triples[0])] + Entities(triples[1..])
  }

  function Messages(i: nat, bad: seq<Value>): (ms: seq<string>)
    ensures |ms| == |bad|
    decreases |bad|
  {
    if bad == [] then [] else [FormatMessage(i, bad[0])] + Messages(i, bad[1..])
  }

  predicate NoNumbers(labels: seq<Value>) {
    forall k :: 0 <= k < |labels| ==> !labels[k].Num?
  }

  lemma {:induction false} TriplesSnoc(labels: seq<Value>, x: Value)
    ensures Triples(labels + [x]) == Triples(labels) + if Len(x) == Some(3) then [x] else []
    ensures Malformed(labels + [x]) == Malformed(labels) + if Len(x) != Some(3) then [x] else []
    decreases |labels|
  {
    if labels == [] {
      assert Triples([x]) == (if Len(x) == Some(3) then [x] else []) + Triples([]);
      assert Malformed([x]) == (if Len(x) != Some(3) then [x] else []) + Malformed([]);
    } else {
      assert (labels + [x])[1..] == labels[1..] + [x];
      TriplesSnoc(labels[1..], x);
    }
  }

  lemma {:induction false} EntitiesSnoc(ts: seq<Value>, x: Value)
    requires forall k :: 0 <= k < |ts| ==> Len(ts[k]) == Some(3)
    requires Len(x) == Some(3)
    ensures Entities(ts + [x]) == Entities(ts) + [ToEntity(x)]
    decreases |ts|
  {
    if ts != [] {
      assert (ts + [x])[1..] == ts[1..] + [x];
      EntitiesSnoc(ts[1..], x);
    }
  }

  lemma {:induction false} MessagesSnoc(i: nat, bad: seq<Value>, x: Value)
    ensures Messages(i, bad + [x]) == Messages(i, bad) + [FormatMessage(i, x)]
    decreases |bad|
  {
    if bad != [] {
      assert (bad + [x])[1..] == bad[1..] + [x];
      MessagesSnoc(i, bad[1..], x);
    }
  }

  /** One more label entry: an entity when it has length 3, a message otherwise. */
  lemma ConvertStep(i: nat, labels: seq<Value>)
    requires labels != [] && !labels[|labels| - 1].Num?
    requires ConvertLabels(i, labels[..|labels| - 1]).Success?
    ensures var x := labels[|labels| - 1];
            var acc := ConvertLabels(i, labels[..|labels| - 1]).value;
            ConvertLabels(i, labels) ==
              Success(if Len(x) == Some(3) then (acc.0 + [ToEntity(x)], acc.1) else (acc.0, acc.1 + [FormatMessage(i, x)]))
  {
  }

  /** The same step for the front-to-back reading. */
  lemma ReferenceStep(i: nat, labels: seq<Value>)
    requires labels != []
    ensures var n := |labels| - 1;
            var x := labels[n];
            Entities(Triples(labels)) == Entities(Triples(labels[..n])) + (if Len(x) == Some(3) then [ToEntity(x)] else []) &&
            Messages(i, Malformed(labels)) == Messages(i, Malformed(labels[..n])) + (if Len(x) == Some(3) then [] else [FormatMessage(i, x)])
  {
    var n := |labels| - 1;
    var x := labels[n];
    assert labels[..n] + [x] == labels;
    TriplesSnoc(labels[..n], x);
    if Len(x) == Some(3) {
      EntitiesSnoc(Triples(labels[..n]), x);
      assert Malformed(labels) == Malformed(labels[..n]) + [];
      assert Malformed(labels[..n]) + [] == Malformed(labels[..n]);
    } else {
      MessagesSnoc(i, Malformed(labels[..n]), x);
      assert Triples(labels) == Triples(labels[..n]) + [];
      assert Triples(labels[..n]) + [] == Triples(labels[..n]);
    }
  }

  /** Label entries that are strings or lists never crash the loop; each entry of length 3
      becomes one entity, in order, and each other entry one message, in order. */
  lemma {:induction false} ConvertLabelsMeaning(i: nat, labels: seq<Value>)
    requires NoNumbers(labels)
    ensures ConvertLabels(i, labels).Success?
    ensures ConvertLabels(i, labels).value == (Entities(Triples(labels)), Messages(i, Malformed(labels)))
    decreases |labels|
  {
    if labels != [] {
      var n := |labels| - 1;
      assert NoNumbers(labels[..n]) by {
        assert forall k :: 0 <= k < n ==> labels[..n][k] == labels[k];
      }
      ConvertLabelsMeaning(i, labels[..n]);
      ConvertStep(i, labels);
      ReferenceStep(i, labels);
      var r := ConvertLabels(i, labels).value;
      assert r.0 == Entities(Triples(labels));
      assert r.1 == Messages(i, Malformed(labels));
    }
  }

  // ================================================================ the whole file

  /** The test of line 17 on a value that is not an object, when it does not raise: `in` is
      a substring test on a string and an element test on a list. On a number it raises
      `TypeError`. */
  predicate HasBothKeys(v: Value)
    requires !v.Num?
  {
    match v
    case Str(s) => Contains(s, "text") && Contains(s, "labels")
    case List(items) => Str("text") in items && Str("labels") in items
  }

  /** What line `i` adds to `valid_data` and to `errors`, or the crash it causes. */
  function LineOutcome(i: nat, line: ParsedLine): Result<(seq<CleanEntry>, seq<string>), Crash> {
    match line
    case Unparsable => Success(([], [JsonMessage(i)]))
    case Record(text, labels) =>
      if text.None? || labels.None? then Success(([], [MissingMessage(i)]))
      else (
        match Items(labels.value)
        case None => Failure(TypeErrorAt(i))
        case Some(items) =>
          match ConvertLabels(i, items)
          case Failure(c) => Failure(c)
          case Success(acc) => Success(([CleanEntry(text.value, acc.0)], acc.1)))
    case NonObject(v) => NonObjectOutcome(i, v)
  }

  /** Line `i` parsed to a value that is not an object: `in` raises on a number, an object
      test that passes leads to `data["labels"]`, which raises on a string or a list, and a
      test that fails gives the message about missing keys. */
  function NonObjectOutcome(i: nat, v: Value): Result<(seq<CleanEntry>, seq<string>), Crash> {
    if v.Num? || HasBothKeys(v) then Failure(TypeErrorAt(i))
    else Success(([], [MissingMessage(i)]))
  }

  /** `valid_data` and `errors` after the loop of lines 11-38, or the crash. */
  function CleanSpec(lines: seq<ParsedLine>): Result<(seq<CleanEntry>, seq<string>), Crash>
    decreases |lines|
  {
    if lines == [] then Success(([], []))
    else
      var n := |lines| - 1;
      match CleanSpec(lines[..n])
      case Failure(c) => Failure(c)
      case Success(acc) =>
        match LineOutcome(n, lines[n])
        case Failure(c) => Failure(c)
        case Success(out) => Success((acc.0 + out.0, acc.1 + out.1))
  }

  /** The module-level loop of cleaning-data.py. */
  method CleanData(lines: seq<ParsedLine>) returns (r: Result<(seq<CleanEntry>, seq<string>), Crash>)
    ensures r == CleanSpec(lines)
  {
    var validData: seq<CleanEntry> := [];
    var errors: seq<string> := [];
    for i := 0 to |lines|
      invariant CleanSpec(lines[..i]) == Success((validData, errors))
    {
      assert lines[..i + 1][..i] == lines[..i];
      var step := CleanLine(i, lines[i]);
      if step.Failure? {
        CleanFailureSticks(lines, i + 1);
        return Failure(step.error);
      }
      validData := validData + step.value.0;
      errors := errors + step.value.1;
    }
    assert lines[..|lines|] == lines;
    return Success((validData, errors));
  }

  /** The body of the loop for line `i`. */
  method CleanLine(i: nat, line: ParsedLine) returns (r: Result<(seq<CleanEntry>, seq<string>), Crash>)
    ensures r == LineOutcome(i, line)
  {
    if line.Unparsable? {
      return Success(([], [JsonMessage(i)]));
    }
    if line.NonObject? {
      if line.value.Num? || HasBothKeys(line.value) {
        return Failure(TypeErrorAt(i));
      }
      return Success(([], [MissingMessage(i)]));
    }
    if line.text.None? || line.labels.None? {
      return Success(([], [MissingMessage(i)]));
    }
    var items := Items(line.labels.value);
    if items.None? {
      return Failure(TypeErrorAt(i));
    }
    var converted := ConvertLabelsLoop(i, items.value);
    if converted.Failure? {
      return Failure(converted.error);
    }
    var fixedEntry := CleanEntry(line.text.value, converted.value.0);
    return Success(([fixedEntry], converted.value.1));
  }

  lemma {:induction false} CleanFailureSticks(lines: seq<ParsedLine>, m: nat)
    requires m <= |lines| && CleanSpec(lines[..m]).Failure?
    ensures CleanSpec(lines) == CleanSpec(lines[..m])
    decreases |lines| - m
  {
    if m < |lines| {
      assert lines[..m + 1][..m] == lines[..m];
      CleanFailureSticks(lines, m + 1);
    } else {
      assert lines[..m] == lines;
    }
  }

  // ================================================================ what cleaning guarantees

  /** The line is rejected as a whole: unparsable, not an object, or missing `text` or
      `labels`. */
  predicate Rejected(line: ParsedLine) {
    !line.Record? || line.text.None? || line.labels.None?
  }

  /** Number of rejected lines. */
  function RejectedLines(lines: seq<ParsedLine>): nat
    decreases |lines|
  {
    if lines == [] then 0 else RejectedLines(lines[..|lines| - 1]) + if Rejected(lines[|lines| - 1]) then 1 else 0
  }

  /** The `text` of each kept line, in input order. */
  function KeptTexts(lines: seq<ParsedLine>): seq<Value>
    decreases |lines|
  {
    if lines == [] then []
    else (if Rejected(lines[0]) then [] else [lines[0].text.value]) + KeptTexts(lines[1..])
  }

  function Texts(entries: seq<CleanEntry>): seq<Value>
    decreases |entries|
  {
    if entries == [] then [] else [entries[0].text] + Texts(entries[1..])
  }

  lemma {:induction false} TextsAppend(a: seq<CleanEntry>, b: seq<CleanEntry>)
    ensures Texts(a + b) == Texts(a) + Texts(b)
    decreases |a|
  {
    if a == [] {
      assert a + b == b;
    } else {
      assert (a + b)[0] == a[0] && (a + b)[1..] == a[1..] + b;
      TextsAppend(a[1..], b);
    }
  }

  lemma {:induction false} KeptTextsSnoc(lines: seq<ParsedLine>, x: ParsedLine)
    ensures KeptTexts(lines + [x]) == KeptTexts(lines) + if Rejected(x) then [] else [x.text.value]
    decreases |lines|
  {
    if lines == [] {
      assert KeptTexts([x]) == (if Rejected(x) then [] else [x.text.value]) + KeptTexts([]);
    } else {
      var h := if Rejected(lines[0]) then [] else [lines[0].text.value];
      var t := if Rejected(x) then [] else [x.text.value];
      assert (lines + [x])[0] == lines[0];
      assert (lines + [x])[1..] == lines[1..] + [x];
      assert KeptTexts(lines + [x]) == h + KeptTexts(lines[1..] + [x]);
      KeptTextsSnoc(lines[1..], x);
      assert KeptTexts(lines) == h + KeptTexts(lines[1..]);
      assert h + (KeptTexts(lines[1..]) + t) == (h + KeptTexts(lines[1..])) + t;
    }
  }

  /** A line contributes one entry exactly when it is kept, with that line's text, and every
      message it contributes names that line. */
  lemma LineOutcomeFacts(i: nat, line: ParsedLine)
    requires LineOutcome(i, line).Success?
    ensures var out := LineOutcome(i, line).value;
            |out.0| == (if Rejected(line) then 0 else 1) &&
            Texts(out.0) == (if Rejected(line) then [] else [line.text.value]) &&
            forall k :: 0 <= k < |out.1| ==> Names(out.1[k], i)
  {
    var out := LineOutcome(i, line).value;
    if !Rejected(line) {
      var items := Items(line.labels.value).value;
      ConvertMessages(i, items);
    }
  }

  /** Every message about a label entry names the line it came from. */
  lemma {:induction false} ConvertMessages(i: nat, labels: seq<Value>)
    requires ConvertLabels(i, labels).Success?
    ensures forall k :: 0 <= k < |ConvertLabels(i, labels).value.1| ==>
              Names(ConvertLabels(i, labels).value.1[k], i)
    decreases |labels|
  {
    if labels != [] {
      ConvertMessages(i, labels[..|labels| - 1]);
    }
  }

  /** One more line: its entries and messages go after those of the lines before it. */
  lemma CleanStep(lines: seq<ParsedLine>)
    requires lines != [] && CleanSpec(lines[..|lines| - 1]).Success?
    requires LineOutcome(|lines| - 1, lines[|lines| - 1]).Success?
    ensures var acc := CleanSpec(lines[..|lines| - 1]).value;
            var out := LineOutcome(|lines| - 1, lines[|lines| - 1]).value;
            CleanSpec(lines).Success? &&
            CleanSpec(lines).value.0 == acc.0 + out.0 && CleanSpec(lines).value.1 == acc.1 + out.1
  {
  }

  /** A file that does not crash has a prefix and a last line that do not crash. */
  lemma CleanSuccessParts(lines: seq<ParsedLine>)
    requires lines != [] && CleanSpec(lines).Success?
    ensures CleanSpec(lines[..|lines| - 1]).Success? && LineOutcome(|lines| - 1, lines[|lines| - 1]).Success?
  {
  }

  /** One more line adds one entry, carrying its `text`, exactly when it is kept. */
  lemma CleanKeepsStep(lines: seq<ParsedLine>)
    requires lines != [] && CleanSpec(lines).Success?
    ensures var pre, x := lines[..|lines| - 1], lines[|lines| - 1];
            CleanSpec(pre).Success? &&
            |CleanSpec(lines).value.0| == |CleanSpec(pre).value.0| + (if Rejected(x) then 0 else 1) &&
            Texts(CleanSpec(lines).value.0) == Texts(CleanSpec(pre).value.0) + if Rejected(x) then [] else [x.text.value]
  {
    var n := |lines| - 1;
    CleanSuccessParts(lines);
    CleanStep(lines);
    var acc := CleanSpec(lines[..n]).value;
    var out := LineOutcome(n, lines[n]).value;
    LineOutcomeFacts(n, lines[n]);
    TextsAppend(acc.0, out.0);
  }

  lemma {:induction false} CleanKeepsCount(lines: seq<ParsedLine>)
    requires CleanSpec(lines).Success?
    ensures |CleanSpec(lines).value.0| == |lines| - RejectedLines(lines)
    decreases |lines|
  {
    if lines != [] {
      CleanKeepsStep(lines);
      CleanKeepsCount(lines[..|lines| - 1]);
    }
  }

  lemma {:induction false} CleanKeepsTexts(lines: seq<ParsedLine>)
    requires CleanSpec(lines).Success?
    ensures Texts(CleanSpec(lines).value.0) == KeptTexts(lines)
    decreases |lines|
  {
    if lines != [] {
      var n := |lines| - 1;
      var pre, x := lines[..n], lines[n];
      CleanKeepsStep(lines);
      CleanKeepsTexts(pre);
      KeptTextsSnoc(pre, x);
      assert pre + [x] == lines;
    }
  }

  /** `len(valid_data)` is the number of lines minus the lines rejected as a whole, and the
      entries keep the order of their lines. */
  lemma CleanKeepsLines(lines: seq<ParsedLine>)
    requires CleanSpec(lines).Success?
    ensures |CleanSpec(lines).value.0| == |lines| - RejectedLines(lines)
    ensures Texts(CleanSpec(lines).value.0) == KeptTexts(lines)
  {
    CleanKeepsCount(lines);
    CleanKeepsTexts(lines);
  }

  /** Message `m` names line `i`. */
  predicate Names(m: string, i: nat) { StartsWith(m, LinePrefix(i)) }

  /** Message `m` names one of the first `n` lines. */
  predicate NamesLineBelow(m: string, n: nat) {
    exists i: nat :: i < n && Names(m, i)
  }

  /** Every message names one of the first `n` lines. */
  predicate NameLines(errs: seq<string>, n: nat) {
    forall k :: 0 <= k < |errs| ==> NamesLineBelow(errs[k], n)
  }

  lemma NameLinesAppend(a: seq<string>, b: seq<string>, n: nat)
    requires NameLines(a, n)
    requires forall k :: 0 <= k < |b| ==> Names(b[k], n)
    ensures NameLines(a + b, n + 1)
  {
    var errs := a + b;
    forall k | 0 <= k < |errs|
      ensures NamesLineBelow(errs[k], n + 1)
    {
      if k < |a| {
        assert errs[k] == a[k] && NamesLineBelow(a[k], n);
        var i: nat :| i < n && Names(a[k], i);
        assert Names(errs[k], i);
      } else {
        assert errs[k] == b[k - |a|];
        assert Names(errs[k], n);
      }
    }
  }

  /** Every message names a line of the file. */
  lemma {:induction false} CleanMessagesNameLines(lines: seq<ParsedLine>)
    requires CleanSpec(lines).Success?
    ensures NameLines(CleanSpec(lines).value.1, |lines|)
    decreases |lines|
  {
    if lines != [] {
      var n := |lines| - 1;
      CleanMessagesNameLines(lines[..n]);
      LineOutcomeFacts(n, lines[n]);
      NameLinesAppend(CleanSpec(lines[..n]).value.1, LineOutcome(n, lines[n]).value.1, n);
    }
  }

  /** A record with `text` and an empty `labels` list is kept, with no entities. */
  lemma KeptWithoutEntities(i: nat, text: Value)
    ensures LineOutcome(i, Record(Some(text), Some(List([])))) == Success(([CleanEntry(text, [])], []))
  {
    assert Items(List([])) == Some([]);
  }

  /** A JSON string that mentions both key names passes the test of line 17, `in` being a
      substring test on a string, and then `data["labels"]` raises `TypeError`. */
  lemma KeyNamesInStringCrash(i: nat)
    ensures LineOutcome(i, NonObject(Str("text, labels"))) == Failure(TypeErrorAt(i))
  {
    var s := "text, labels";
    assert s[0..4] == "text" by {
      assert s[0] == 't' && s[1] == 'e' && s[2] == 'x' && s[3] == 't';
    }
    assert s[6..12] == "labels" by {
      assert s[6] == 'l' && s[7] == 'a' && s[8] == 'b' && s[9] == 'e' && s[10] == 'l' && s[11] == 's';
    }
    ContainsAt(s, "text", 0);
    ContainsAt(s, "labels", 6);
  }

}
