/**
 * BERT_NER.py, lines 269-287: the predictions of the NER pipeline for one chunk are merged
 * back into words. An entity whose word starts with `##` continues the current word;
 * any other entity flushes the current word and starts the next one.
 */
module BertNer {
  import opened Text

  /** `entity['word']` and `entity['entity_group']` of one prediction. */
  datatype Prediction = Prediction(word: string, group: string)

  predicate IsPiece(word: string) { StartsWith(word, "##") }

  /** `entity_words`, `current_word` and `current_label` during the loop. */
  datatype MergeState = MergeState(words: seq<(string, string)>, current: string, currentGroup: string)

  const START: MergeState := MergeState([], "", "")

  /** One entity of the loop; a piece loses only its first two characters (`word[2:]`). */
  function Step(m: MergeState, e: Prediction): MergeState {
    if IsPiece(e.word) then m.(current := m.current + Drop(e.word, 2))
    else if m.current != "" then MergeState(m.words + [(m.current, m.currentGroup)], e.word, e.group)
    else MergeState(m.words, e.word, e.group)
  }

  function Steps(m: MergeState, es: seq<Prediction>): MergeState
    decreases |es|
  {
    if es == [] then m else Step(Steps(m, es[..|es| - 1]), es[|es| - 1])
  }

  function Flush(m: MergeState): seq<(string, string)> {
    if m.current != "" then m.words + [(m.current, m.currentGroup)] else m.words
  }

  /** The `entity_words` of one chunk. */
  function EntityWords(es: seq<Prediction>): seq<(string, string)> {
    Flush(Steps(START, es))
  }

  method MergeEntities(es: seq<Prediction>) returns (entityWords: seq<(string, string)>)
    ensures entityWords == EntityWords(es)
  {
    entityWords := [];
    var currentWord, currentGroup := "", "";
    for i := 0 to |es|
      invariant Steps(START, es[..i]) == MergeState(entityWords, currentWord, currentGroup)
    {
      assert es[..i + 1][..i] == es[..i];
      var word, group := es[i].word, es[i].group;
      if StartsWith(word, "##") {
        currentWord := currentWord + Drop(word, 2);
      } else {
        if currentWord != "" {
          entityWords := entityWords + [(currentWord, currentGroup)];
        }
        currentWord := word;
        currentGroup := group;
      }
    }
    assert es[..|es|] == es;
    if currentWord != "" {
      entityWords := entityWords + [(currentWord, currentGroup)];
    }
  }

  // ---------------------------------------------------------------- what merging means

  lemma StepsSnoc(m: MergeState, es: seq<Prediction>, e: Prediction)
    ensures Steps(m, es + [e]) == Step(Steps(m, es), e)
  {
    assert (es + [e])[..|es|] == es;
  }

  lemma {:induction false} StepsAppend(m: MergeState, a: seq<Prediction>, b: seq<Prediction>)
    ensures Steps(m, a + b) == Steps(Steps(m, a), b)
    decreases |b|
  {
    if b == [] {
      assert a + b == a;
    } else {
      var n := |b| - 1;
      assert a + b == (a + b[..n]) + [b[n]];
      StepsSnoc(m, a + b[..n], b[n]);
      StepsAppend(m, a, b[..n]);
    }
  }

  /** The words of the output, in order. */
  function Words(ws: seq<(string, string)>): (r: seq<string>)
    ensures |r| == |ws|
    decreases |ws|
  {
    if ws == [] then [] else Words(ws[..|ws| - 1]) + [ws[|ws| - 1].0]
  }

  lemma WordsSnoc(ws: seq<(string, string)>, w: (string, string))
    ensures Words(ws + [w]) == Words(ws) + [w.0]
  {
    assert (ws + [w])[..|ws|] == ws;
  }

  /** What an entity contributes to the text: a piece without its leading `##`, any other
      word as it is. */
  function PieceText(e: Prediction): string {
    if IsPiece(e.word) then Drop(e.word, 2) else e.word
  }

  function PiecesText(es: seq<Prediction>): string
    decreases |es|
  {
    if es == [] then "" else PiecesText(es[..|es| - 1]) + PieceText(es[|es| - 1])
  }

  lemma StepText(m: MergeState, e: Prediction)
    ensures Concat(Words(Step(m, e).words)) + Step(m, e).current == Concat(Words(m.words)) + m.current + PieceText(e)
  {
    if !IsPiece(e.word) && m.current != "" {
      WordsSnoc(m.words, (m.current, m.currentGroup));
      ConcatSnoc(Words(m.words), m.current);
    }
  }

  lemma {:induction false} StepsText(m: MergeState, es: seq<Prediction>)
    ensures Concat(Words(Steps(m, es).words)) + Steps(m, es).current == Concat(Words(m.words)) + m.current + PiecesText(es)
    decreases |es|
  {
    if es == [] {
      assert Concat(Words(m.words)) + m.current + "" == Concat(Words(m.words)) + m.current;
    } else {
      var n := |es| - 1;
      var s := Steps(m, es[..n]);
      var before := Concat(Words(m.words)) + m.current;
      StepsText(m, es[..n]);
      StepText(s, es[n]);
      assert Steps(m, es) == Step(s, es[n]);
      assert PiecesText(es) == PiecesText(es[..n]) + PieceText(es[n]);
      assert Concat(Words(Step(s, es[n]).words)) + Step(s, es[n]).current == (before + PiecesText(es[..n])) + PieceText(es[n]);
    }
  }

  /** Pending entries, counting the word being built. */
  function Pending(m: MergeState): nat {
    |m.words| + if m.current != "" then 1 else 0
  }

  lemma {:induction false} StepsCount(m: MergeState, es: seq<Prediction>)
    ensures Pending(Steps(m, es)) <= Pending(m) + |es|
    decreases |es|
  {
    if es != [] {
      StepsCount(m, es[..|es| - 1]);
    }
  }

  /** The words of the output spell out the predicted words with one leading `##` removed
      from each piece; there are never more entries than predictions, and no predictions give
      no entries. */
  lemma EntityWordsFacts(es: seq<Prediction>)
    ensures Concat(Words(EntityWords(es))) == PiecesText(es)
    ensures |EntityWords(es)| <= |es|
    ensures es == [] ==> EntityWords(es) == []
  {
    var m := Steps(START, es);
    StepsText(START, es);
    StepsCount(START, es);
    if m.current != "" {
      WordsSnoc(m.words, (m.current, m.currentGroup));
      ConcatSnoc(Words(m.words), m.current);
    }
  }

  /** Every prediction is a `##` piece. */
  predicate AllPieces(es: seq<Prediction>)
    decreases |es|
  {
    es == [] || (AllPieces(es[..|es| - 1]) && IsPiece(es[|es| - 1].word))
  }

  /** Pieces extend the current word and leave its label alone. */
  lemma {:induction false} StepsPieces(m: MergeState, es: seq<Prediction>)
    requires AllPieces(es)
    ensures Steps(m, es) == m.(current := m.current + PiecesText(es))
    decreases |es|
  {
    if es != [] {
      var n := |es| - 1;
      var pre, e := es[..n], es[n];
      var s := Steps(m, pre);
      assert s == m.(current := m.current + PiecesText(pre)) by {
        StepsPieces(m, pre);
      }
      assert Steps(m, es) == s.(current := s.current + PieceText(e)) by {
        assert IsPiece(e.word);
        assert Steps(m, es) == Step(s, e);
      }
      assert PiecesText(es) == PiecesText(pre) + PieceText(e);
      assert m.current + PiecesText(es) == (m.current + PiecesText(pre)) + PieceText(e);
    } else {
      assert m.current + "" == m.current;
    }
  }

  /** A word that is not a piece, followed by pieces, flushes what was pending and becomes
      one entry carrying its own `entity_group`. */
  lemma MergeWord(m: MergeState, e: Prediction, es: seq<Prediction>)
    requires e.word != "" && !IsPiece(e.word) && AllPieces(es)
    ensures Flush(Steps(m, [e] + es)) == Flush(m) + [(e.word + PiecesText(es), e.group)]
  {
    var m1 := Step(m, e);
    assert Steps(m, [e]) == m1 by {
      assert [e][..0] == [];
    }
    assert m1.words == Flush(m);
    StepsAppend(m, [e], es);
    StepsPieces(m1, es);
  }

  /** Predictions that are neither pieces: each starts an entry. */
  function Heads(es: seq<Prediction>): nat
    decreases |es|
  {
    if es == [] then 0 else Heads(es[..|es| - 1]) + if IsPiece(es[|es| - 1].word) then 0 else 1
  }

  /** Every word is non-empty, and the first prediction is not a piece. */
  predicate WellFormed(es: seq<Prediction>)
    decreases |es|
  {
    es == [] ||
    (WellFormed(es[..|es| - 1]) && es[|es| - 1].word != "" &&
     (IsPiece(es[|es| - 1].word) ==> Heads(es[..|es| - 1]) > 0))
  }

  lemma {:induction false} StepsHeads(es: seq<Prediction>)
    requires WellFormed(es)
    ensures Pending(Steps(START, es)) == Heads(es)
    ensures Heads(es) > 0 ==> Steps(START, es).current != ""
    decreases |es|
  {
    if es != [] {
      StepsHeads(es[..|es| - 1]);
    }
  }

  /** On well-formed predictions every non-piece starts exactly one entry. */
  lemma ExactlyOnePerHead(es: seq<Prediction>)
    requires WellFormed(es)
    ensures |EntityWords(es)| == Heads(es)
  {
    StepsHeads(es);
  }
}
