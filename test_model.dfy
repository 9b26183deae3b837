/**
 * test-model.py, `clean_ner_output`: merge WordPiece pieces (`##...`) into words, drop the
 * special tokens, then relabel in three passes: dangling `I-` tags become `B-`, lone
 * initials and capitalised words left at `O` become PERSON, and punctuation becomes `O`.
 */
module TestModel {
  import opened Text

  /** One `(token, label)` pair of `zip(tokens, labels)`. */
  type Pair = (string, string)

  function Min(a: nat, b: nat): nat { if a <= b then a else b }

  /** `zip` stops at the shorter list. */
  function Zip(tokens: seq<string>, tags: seq<string>): (ps: seq<Pair>)
    ensures |ps| == Min(|tokens|, |tags|)
  {
    seq(Min(|tokens|, |tags|), i requires 0 <= i < Min(|tokens|, |tags|) => (tokens[i], tags[i]))
  }

  predicate IsSpecial(token: string) { token == "[CLS]" || token == "[SEP]" }

  predicate IsPiece(token: string) { StartsWith(token, "##") }

  // ================================================================ merging (lines 134-156)

  /** `cleaned_tokens`, `cleaned_labels`, `current_token` and `current_label` during the loop. */
  datatype MergeState = MergeState(tokens: seq<string>, tags: seq<string>, current: string, currentTag: string)

  const START: MergeState := MergeState([], [], "", "O")

  /** One pair of the loop. */
  function Step(m: MergeState, p: Pair): MergeState {
    var (token, tag) := p;
    if IsSpecial(token) then m
    else if IsPiece(token) then m.(current := m.current + PieceText(p))
    else if m.current != "" then MergeState(m.tokens + [m.current], m.tags + [m.currentTag], token, tag)
    else m.(current := token, currentTag := tag)
  }

  function Steps(m: MergeState, ps: seq<Pair>): MergeState
    decreases |ps|
  {
    if ps == [] then m else Step(Steps(m, ps[..|ps| - 1]), ps[|ps| - 1])
  }

  /** Lines 154-156: the pending word, if any, goes out last. */
  function Flush(m: MergeState): (seq<string>, seq<string>) {
    if m.current != "" then (m.tokens + [m.current], m.tags + [m.currentTag]) else (m.tokens, m.tags)
  }

  /** The merged tokens and their labels, before the relabelling passes. */
  function Merge(ps: seq<Pair>): (seq<string>, seq<string>) {
    Flush(Steps(START, ps))
  }

  /** The merge loop, lines 134-156. */
  method MergePieces(tokens: seq<string>, tags: seq<string>) returns (cleanedTokens: seq<string>, cleanedTags: seq<string>)
    ensures (cleanedTokens, cleanedTags) == Merge(Zip(tokens, tags))
  {
    var ps := Zip(tokens, tags);
    cleanedTokens, cleanedTags := [], [];
    var currentToken, currentTag := "", "O";
    for i := 0 to |ps|
      invariant Steps(START, ps[..i]) == MergeState(cleanedTokens, cleanedTags, currentToken, currentTag)
    {
      assert ps[..i + 1][..i] == ps[..i];
      var (token, tag) := ps[i];
      if IsSpecial(token) {
        continue;
      }
      if StartsWith(token, "##") {
        currentToken := currentToken + ReplaceAll(token, "##", "");
      } else {
        if currentToken != "" {
          cleanedTokens := cleanedTokens + [currentToken];
          cleanedTags := cleanedTags + [currentTag];
        }
        currentToken := token;
        currentTag := tag;
      }
    }
    assert ps[..|ps|] == ps;
    if currentToken != "" {
      cleanedTokens := cleanedTokens + [currentToken];
      cleanedTags := cleanedTags + [currentTag];
    }
  }

  // ---------------------------------------------------------------- what merging means

  lemma StepsSnoc(m: MergeState, ps: seq<Pair>, p: Pair)
    ensures Steps(m, ps + [p]) == Step(Steps(m, ps), p)
  {
    assert (ps + [p])[..|ps|] == ps;
  }

  lemma {:induction false} StepsAppend(m: MergeState, a: seq<Pair>, b: seq<Pair>)
    ensures Steps(m, a + b) == Steps(Steps(m, a), b)
    decreases |b|
  {
    if b == [] {
      assert a + b == a;
    } else {
      var n := |b| - 1;
      assert a + b == (a + b[..n]) + [b[n]];
      StepsSnoc(m, a + b[..n], b[n]);
      StepsAppend(m, a, b[..n]);
    }
  }

  /** The pairs whose token is not `[CLS]` or `[SEP]`. */
  function NonSpecial(ps: seq<Pair>): (r: seq<Pair>)
    ensures |r| <= |ps|
    decreases |ps|
  {
    if ps == [] then []
    else NonSpecial(ps[..|ps| - 1]) + if IsSpecial(ps[|ps| - 1].0) then [] else [ps[|ps| - 1]]
  }

  /** Special tokens change nothing: they never reach the output and do not interrupt a word. */
  lemma {:induction false} SpecialsIgnored(m: MergeState, ps: seq<Pair>)
    ensures Steps(m, ps) == Steps(m, NonSpecial(ps))
    decreases |ps|
  {
    if ps != [] {
      var n := |ps| - 1;
      SpecialsIgnored(m, ps[..n]);
      if IsSpecial(ps[n].0) {
        assert NonSpecial(ps) == NonSpecial(ps[..n]) + [];
        assert NonSpecial(ps[..n]) + [] == NonSpecial(ps[..n]);
      } else {
        StepsSnoc(m, NonSpecial(ps[..n]), ps[n]);
      }
    }
  }

  /** Every merge loop keeps one label per merged token. */
  lemma {:induction false} StepsBalanced(m: MergeState, ps: seq<Pair>)
    requires |m.tokens| == |m.tags|
    ensures |Steps(m, ps).tokens| == |Steps(m, ps).tags|
    decreases |ps|
  {
    if ps != [] {
      StepsBalanced(m, ps[..|ps| - 1]);
    }
  }

  /** What a pair contributes to the text: a piece without its `##` marks, another token as
      it is, a special token nothing. */
  function PieceText(p: Pair): string {
    if IsSpecial(p.0) then "" else if IsPiece(p.0) then ReplaceAll(p.0, "##", "") else p.0
  }

  function PiecesText(ps: seq<Pair>): string
    decreases |ps|
  {
    if ps == [] then "" else PiecesText(ps[..|ps| - 1]) + PieceText(ps[|ps| - 1])
  }

  lemma StepText(s: MergeState, p: Pair)
    ensures Concat(Step(s, p).tokens) + Step(s, p).current == Concat(s.tokens) + s.current + PieceText(p)
  {
    if !IsSpecial(p.0) && !IsPiece(p.0) && s.current != "" {
      ConcatSnoc(s.tokens, s.current);
    }
  }

  /** No character is lost or added: the merged words and the pending one spell out the
      input pieces, in order. */
  lemma {:induction false} StepsText(m: MergeState, ps: seq<Pair>)
    ensures Concat(Steps(m, ps).tokens) + Steps(m, ps).current == Concat(m.tokens) + m.current + PiecesText(ps)
    decreases |ps|
  {
    var before := Concat(m.tokens) + m.current;
    if ps == [] {
      assert before + "" == before;
    } else {
      var n := |ps| - 1;
      var s := Steps(m, ps[..n]);
      var s' := Steps(m, ps);
      var done := PiecesText(ps[..n]);
      var piece := PieceText(ps[n]);
      assert Concat(s.tokens) + s.current == before + done by {
        StepsText(m, ps[..n]);
      }
      assert Concat(s'.tokens) + s'.current == (Concat(s.tokens) + s.current) + piece by {
        assert s' == Step(s, ps[n]);
        StepText(s, ps[n]);
      }
      assert PiecesText(ps) == done + piece;
      assert (before + done) + piece == before + (done + piece);
    }
  }

  /** Pending words, counting the one being built. */
  function Pending(m: MergeState): nat {
    |m.tokens| + if m.current != "" then 1 else 0
  }

  /** Each token that is not special adds at most one word. */
  lemma {:induction false} StepsCount(m: MergeState, ps: seq<Pair>)
    ensures Pending(Steps(m, ps)) <= Pending(m) + |NonSpecial(ps)|
    decreases |ps|
  {
    if ps != [] {
      StepsCount(m, ps[..|ps| - 1]);
    }
  }

  /** The merged output has one label per token, spells out the input pieces, and has no more
      words than the input has tokens other than `[CLS]` and `[SEP]`. */
  lemma MergeFacts(ps: seq<Pair>)
    ensures |Merge(ps).0| == |Merge(ps).1|
    ensures Concat(Merge(ps).0) == PiecesText(ps)
    ensures |Merge(ps).0| <= |NonSpecial(ps)|
  {
    var m := Steps(START, ps);
    StepsBalanced(START, ps);
    StepsText(START, ps);
    StepsCount(START, ps);
    if m.current != "" {
      ConcatAppend(m.tokens, [m.current]);
      assert Concat([m.current]) == m.current;
    }
  }

  /** Every pair is a `##` piece. */
  predicate AllPieces(ps: seq<Pair>)
    decreases |ps|
  {
    ps == [] || (AllPieces(ps[..|ps| - 1]) && IsPiece(ps[|ps| - 1].0) && !IsSpecial(ps[|ps| - 1].0))
  }

  /** Pieces only extend the pending word. */
  lemma {:induction false} StepsPieces(m: MergeState, ps: seq<Pair>)
    requires AllPieces(ps)
    ensures Steps(m, ps) == m.(current := m.current + PiecesText(ps))
    decreases |ps|
  {
    if ps != [] {
      var n := |ps| - 1;
      var s := Steps(m, ps[..n]);
      assert s == m.(current := m.current + PiecesText(ps[..n])) by {
        StepsPieces(m, ps[..n]);
      }
      assert Steps(m, ps) == s.(current := s.current + PieceText(ps[n]));
      assert m.current + PiecesText(ps) == (m.current + PiecesText(ps[..n])) + PieceText(ps[n]);
    } else {
      assert m.current + "" == m.current;
    }
  }

  /** A word followed by its pieces merges into one entry carrying the word's label. */
  lemma MergeWord(word: string, tag: string, ps: seq<Pair>)
    requires word != "" && !IsSpecial(word) && !IsPiece(word)
    requires AllPieces(ps)
    ensures Merge([(word, tag)] + ps) == ([word + PiecesText(ps)], [tag])
  {
    var m1 := MergeState([], [], word, tag);
    assert Steps(START, [(word, tag)]) == m1 by {
      assert [(word, tag)][..0] == [];
    }
    StepsAppend(START, [(word, tag)], ps);
    StepsPieces(m1, ps);
    var m := Steps(START, [(word, tag)] + ps);
    assert m == MergeState([], [], word + PiecesText(ps), tag);
    assert m.current != "";
    var r := Merge([(word, tag)] + ps);
    assert r == ([] + [m.current], [] + [tag]);
    assert r.0 == [word + PiecesText(ps)];
    assert r.1 == [tag];
  }

  /** Pairs whose token is neither special nor a piece: each starts an entry. */
  function Heads(ps: seq<Pair>): nat
    decreases |ps|
  {
    if ps == [] then 0
    else Heads(ps[..|ps| - 1]) + if IsSpecial(ps[|ps| - 1].0) || IsPiece(ps[|ps| - 1].0) then 0 else 1
  }

  /** Every token is non-empty, and no piece comes before the first word. */
  predicate WellFormed(ps: seq<Pair>)
    decreases |ps|
  {
    ps == [] ||
    (WellFormed(ps[..|ps| - 1]) &&
     (IsSpecial(ps[|ps| - 1].0) ||
      (ps[|ps| - 1].0 != "" && (IsPiece(ps[|ps| - 1].0) ==> Heads(ps[..|ps| - 1]) > 0))))
  }

  lemma {:induction false} StepsHeads(ps: seq<Pair>)
    requires WellFormed(ps)
    ensures Pending(Steps(START, ps)) == Heads(ps)
    ensures Heads(ps) > 0 ==> Steps(START, ps).current != ""
    decreases |ps|
  {
    if ps != [] {
      StepsHeads(ps[..|ps| - 1]);
    }
  }

  /** On well-formed input every token that is neither special nor a piece starts exactly
      one entry, and the last word is flushed. */
  lemma ExactlyOnePerHead(ps: seq<Pair>)
    requires WellFormed(ps)
    ensures |Merge(ps).0| == Heads(ps)
  {
    StepsHeads(ps);
  }

  // ================================================================ dangling I- tags (lines 159-163)

  /** The tag at `i` after its turn in the loop, given the final tag before it. */
  function Repair(prev: string, cur: string): string {
    if StartsWith(cur, "I-") && (prev == "O" || Drop(prev, 2) != Drop(cur, 2)) then ReplaceAll(cur, "I-", "B-") else cur
  }

  /** `cleaned_labels` after the repair loop. */
  function Repaired(tags: seq<string>): (r: seq<string>)
    ensures |r| == |tags|
    decreases |tags|
  {
    if |tags| <= 1 then tags
    else
      var n := |tags| - 1;
      var r := Repaired(tags[..n]);
      r + [Repair(r[n - 1], tags[n])]
  }

  lemma RepairedSnoc(tags: seq<string>, i: nat)
    requires 1 <= i < |tags|
    ensures Repaired(tags[..i + 1]) == Repaired(tags[..i]) + [Repair(Repaired(tags[..i])[i - 1], tags[i])]
  {
    assert tags[..i + 1][..i] == tags[..i];
  }

  method RepairPass(tags: seq<string>) returns (out: seq<string>)
    ensures out == Repaired(tags)
  {
    out := tags;
    if |tags| == 0 {
      return;
    }
    var i := 1;
    assert tags[..1] == [tags[0]];
    while i < |tags|
      invariant 1 <= i <= |tags| && |out| == |tags|
      invariant out[..i] == Repaired(tags[..i]) && out[i..] == tags[i..]
    {
      RepairedSnoc(tags, i);
      assert out[i] == tags[i] && out[i - 1] == Repaired(tags[..i])[i - 1];
      if StartsWith(out[i], "I-") && (out[i - 1] == "O" || Drop(out[i - 1], 2) != Drop(out[i], 2)) {
        out := out[i := ReplaceAll(out[i], "I-", "B-")];
      }
      assert out[..i + 1] == out[..i] + [out[i]];
      i := i + 1;
    }
    assert out == out[..i] && tags[..i] == tags;
  }

  /** After the pass no tag from index 1 on is an `I-` tag that follows `O` or a tag of
      another type; the first tag is left alone, and a tag that changes was an `I-` tag and
      becomes the `B-` tag. */
  lemma {:induction false} RepairedFacts(tags: seq<string>)
    ensures var r := Repaired(tags);
            (tags != [] ==> r[0] == tags[0]) &&
            (forall i :: 1 <= i < |r| ==> !(StartsWith(r[i], "I-") && (r[i - 1] == "O" || Drop(r[i - 1], 2) != Drop(r[i], 2)))) &&
            (forall i :: 0 <= i < |r| ==> r[i] == tags[i] || (StartsWith(tags[i], "I-") && r[i] == ReplaceAll(tags[i], "I-", "B-")))
    decreases |tags|
  {
    if |tags| > 1 {
      var n := |tags| - 1;
      RepairedFacts(tags[..n]);
      var r := Repaired(tags);
      var prev := Repaired(tags[..n]);
      assert r[..n] == prev;
      assert forall i :: 0 <= i < n ==> r[i] == prev[i] && tags[..n][i] == tags[i];
      if r[n] != tags[n] {
        ReplaceAllHead(tags[n], "I-", "B-");
        assert r[n][..2] == "B-";
      }
    }
  }

  // ================================================================ initials and titles (lines 166-170)

  /** One turn of the loop: a lone capital left at `O` becomes `I-PERSON`; a title-case word
      still at `O` becomes `B-PERSON`. */
  function Initial(token: string, tag: string): string {
    var t := if IsUpper(token) && |token| == 1 && tag == "O" then "I-PERSON" else tag;
    if IsTitle(token) && t == "O" then "B-PERSON" else t
  }

  /** The loop runs over every index but the last. */
  function Initialled(tokens: seq<string>, tags: seq<string>): (r: seq<string>)
    requires |tokens| == |tags|
    ensures |r| == |tags|
  {
    seq(|tags|, i requires 0 <= i < |tags| => if i < |tags| - 1 then Initial(tokens[i], tags[i]) else tags[i])
  }

  method InitialsPass(tokens: seq<string>, tags: seq<string>) returns (out: seq<string>)
    requires |tokens| == |tags|
    ensures out == Initialled(tokens, tags)
  {
    out := tags;
    var i := 0;
    while i < |tags| - 1
      invariant 0 <= i <= |tags| && |out| == |tags|
      invariant |tags| > 0 ==> i <= |tags| - 1
      invariant forall p :: 0 <= p < i ==> out[p] == Initial(tokens[p], tags[p])
      invariant forall p :: i <= p < |tags| ==> out[p] == tags[p]
    {
      if IsUpper(tokens[i]) && |tokens[i]| == 1 && out[i] == "O" {
        out := out[i := "I-PERSON"];
      }
      if IsTitle(tokens[i]) && out[i] == "O" {
        out := out[i := "B-PERSON"];
      }
      i := i + 1;
    }
  }

  /** The pass changes only tags at `O`, never the last one; a lone capital letter at `O`
      becomes `I-PERSON` and is not turned into `B-PERSON` after that; another title-case
      word at `O` becomes `B-PERSON`. */
  lemma InitialledFacts(tokens: seq<string>, tags: seq<string>, i: nat)
    requires |tokens| == |tags| && i < |tags|
    ensures var r := Initialled(tokens, tags);
            (r[i] != tags[i] ==> tags[i] == "O" && i < |tags| - 1) &&
            (i < |tags| - 1 && tags[i] == "O" && |tokens[i]| == 1 && IsUpperChar(tokens[i][0]) ==> r[i] == "I-PERSON") &&
            (i < |tags| - 1 && tags[i] == "O" && IsTitle(tokens[i]) && !(IsUpper(tokens[i]) && |tokens[i]| == 1) ==> r[i] == "B-PERSON")
  {
    if |tokens[i]| == 1 && IsUpperChar(tokens[i][0]) {
      SingleUpper(tokens[i][0]);
      assert tokens[i] == [tokens[i][0]];
    }
  }

  // ================================================================ punctuation (lines 173-175)

  const PUNCTUATION: seq<string> := [".", ",", ";", ":", "(", ")"]

  function Punctuated(tokens: seq<string>, tags: seq<string>): (r: seq<string>)
    requires |tokens| == |tags|
    ensures |r| == |tags|
  {
    seq(|tags|, i requires 0 <= i < |tags| => if tokens[i] in PUNCTUATION then "O" else tags[i])
  }

  method PunctuationPass(tokens: seq<string>, tags: seq<string>) returns (out: seq<string>)
    requires |tokens| == |tags|
    ensures out == Punctuated(tokens, tags)
  {
    out := tags;
    for i := 0 to |tags|
      invariant |out| == |tags|
      invariant forall p :: 0 <= p < i ==> out[p] == if tokens[p] in PUNCTUATION then "O" else tags[p]
      invariant forall p :: i <= p < |tags| ==> out[p] == tags[p]
    {
      if tokens[i] in [".", ",", ";", ":", "(", ")"] {
        out := out[i := "O"];
      }
    }
  }

  // ================================================================ clean_ner_output

  /** What `clean_ner_output(tokens, labels)` returns. */
  function CleanSpec(tokens: seq<string>, tags: seq<string>): (seq<string>, seq<string>) {
    var merged := Merge(Zip(tokens, tags));
    MergeFacts(Zip(tokens, tags));
    (merged.0, Punctuated(merged.0, Initialled(merged.0, Repaired(merged.1))))
  }

  method CleanNerOutput(tokens: seq<string>, tags: seq<string>) returns (cleanedTokens: seq<string>, cleanedTags: seq<string>)
    ensures (cleanedTokens, cleanedTags) == CleanSpec(tokens, tags)
  {
    cleanedTokens, cleanedTags := MergePieces(tokens, tags);
    MergeFacts(Zip(tokens, tags));
    cleanedTags := RepairPass(cleanedTags);
    cleanedTags := InitialsPass(cleanedTokens, cleanedTags);
    cleanedTags := PunctuationPass(cleanedTokens, cleanedTags);
  }

  /** The two lists have one entry each per merged word, and every punctuation token ends
      up labelled `O`. */
  lemma CleanFacts(tokens: seq<string>, tags: seq<string>)
    ensures var r := CleanSpec(tokens, tags);
            |r.0| == |r.1| && forall i :: 0 <= i < |r.0| && r.0[i] in PUNCTUATION ==> r.1[i] == "O"
  {
    MergeFacts(Zip(tokens, tags));
  }
}
