# BERT_NER data pipeline, modelled in Dafny

BERT_NER fine-tunes a BERT token classifier to find named entities in Philippine
Supreme Court decisions. The seven entity types are case numbers, persons,
institutions, promulgation dates, republic acts, statutes and constitutions
(`CASE_NUM`, `PERSON`, `INS`, `PROM_DATE`, `RA`, `STA`, `CNS`).

Around the model sits a set of small scripts. They transform IOB corpora:
- one `token TAG` line per token;
- blank lines between sentences;
- one `.iob` file per document.

This project models those scripts and proves what they do:

- **Counting and splitting** (`split_balance.py`, `count.py`):
  - per-file counts of exact `B-<TYPE>` tags;
  - folder tallies;
  - the greedy three-way train/eval/test split, with its CNS rule and its quotas.
- **Augmentation** (`data-augmentation.py`):
  - a per-type bank of entity tokens, without `CNS`;
  - the line rewrite that swaps an entity token for a bank member;
  - the `_aug{k}.iob` naming and the two rounds per file;
  - the folder as `main` reads and writes it, so a listed file that an earlier copy overwrote is read as that copy.
- **Record cleaning** (`cleaning-data.py`): validation of annotation records; turning `[start, end, label]` triples into entities; the numbered error messages.
- **Label alignment** (`fine-tuning.py`):
  - the label/id maps;
  - giving every token the id of the last entity whose span contains it;
  - renaming `LABEL_N` group names.
- **Post-processing of predictions**:
  - `clean_ner_output` in `test-model.py`: sub-word merging, then the repair, initials and punctuation passes;
  - the sub-word merge in `BERT_NER.py`.
- **Corpus hygiene**:
  - the CNS line filter (`remove_cns_labels.py`);
  - the two filename filters that delete augmented files (`remove_augmented.py`, `remove_excess_aug.py`).

A folder is a sequence of `Entry(name, lines)` in listing order. A file written to disk is a result value. In data-augmentation.py, which reads files after writing others into the same folder, the folder is a map from names to lines that the loops update. Every script loop is a Dafny `method` with loop invariants. Each method is proved equal to a recursive specification function. The lemmas then state what the specification guarantees.

Modules:
- `Wrappers`: `Option` and `Result`.
- `Text`: Python's `str.split`, `strip`, `split(sep)`, `replace`, `startswith`, `isupper`, `istitle`, `int()` and `str(int)`, restricted to ASCII.
- `Entities`: the seven counters and the per-line counting that `split_balance.py` and `count.py` share.
- One module per script.

`split_files` has a `None` branch (`split_files[None]` at split_balance.py:75). It is modelled as an error result and proved unreachable by `SplitBalance.SplitNeverFails`:
- the three targets always add up to the number of files;
- fewer files than that have been placed before each non-CNS file;
- so some split always has room.

This holds however many CNS files there are.

## Model

| member | source | states |
|---|---|---|
| Entities.Zeros | count.py:5-13 | every one of the seven counters starts at zero |
| Entities.AddCounts | split_balance.py:32-34 | the result holds, for every entity key, the sum of the two inputs' counts for that key |
| Entities.IobEntries | count.py:59 | only entries whose name ends in `.iob` are kept |
| Entities.BeginTagsDistinct | split_balance.py:13-15 | the seven `B-<TYPE>` tags are pairwise different, so one tag bumps at most one counter |
| Entities.CountLinesFailsIffLong | split_balance.py:20-23 | counting a file fails exactly when some line has more than two whitespace fields (the `token, tag = parts` unpacking) |
| Entities.CountLinesFirstLong | split_balance.py:19-23 | a failure names the first line with more than two fields, and every earlier line has at most two |
| Entities.CountLinesFailureSticks | split_balance.py:19-23 | once a prefix of the file fails, the whole file fails with the same error |
| Entities.CountLinesCountsBeginTags | split_balance.py:24-26 | each counter equals the number of two-field lines whose tag is exactly that type's `B-` tag; `I-` tags, unknown types and short lines never count |
| Entities.CountLinesTotal | count.py:37-39 | the sum of all counters equals the number of lines tagged `B-` of a known type |
| Entities.CountLinesSameShapes | split_balance.py:20-26 | two files whose lines read the same (same field counts, same tags) get the same counts, whatever their tokens |
| Entities.SumAllAppend | split_balance.py:30-35 | summing count vectors over a concatenation is the sum of the two parts' sums |
| Entities.SumAllKey | split_balance.py:30-35 | the componentwise sum at key k is the sum of the k-th counts |
| SplitBalance.CountInFile | split_balance.py:11-27 | computes `Entities.CountLines`: `B-<TYPE>` occurrences per type, lines under two fields skipped, or the unpacking error of the first longer line |
| SplitBalance.SumEntities | split_balance.py:30-35 | each key of the total is `SumKey`, the sum of that key over all input dicts |
| SplitBalance.AddInto | split_balance.py:60-61 | the tally after adding a file is `AddCounts`, the keywise sum |
| SplitBalance.SortNonIncreasing | split_balance.py:39 | after sorting, total entity counts never increase along the list |
| SplitBalance.SortPermutes | split_balance.py:39 | sorting reorders the files and their names without losing or adding any |
| SplitBalance.SortStable | split_balance.py:39 | files with equal totals keep their input order (stable sort) |
| SplitBalance.SortByTotal | split_balance.py:39 | the stable sort by descending total keeps the number of files |
| SplitBalance.Targets | split_balance.py:44-49 | train and eval targets are the truncated products of their ratios; the three targets add up to the number of files |
| SplitBalance.DefaultTargets | split_balance.py:44-49 | with ratios 0.7 and 0.2, the train target is floor(7n/10), eval floor(2n/10), and test is never negative |
| SplitBalance.CnsNonCnsMembers | split_balance.py:52-53 | the CNS and non-CNS lists split the sorted files in two: counts add up, and each file sits in the list its `constitutes` count selects |
| SplitBalance.CnsNonCnsNames | split_balance.py:52-53 | the two lists hold exactly the names of all files, as multisets |
| SplitBalance.AssignFacts | split_balance.py:57-77 | placing a file in a split adds exactly that one name to the files placed |
| SplitBalance.PlaceCns | split_balance.py:57-61 | the CNS loop keeps every split's file list and tally of the same shape |
| SplitBalance.PlaceCnsFiles | split_balance.py:57-61 | the CNS loop appends the CNS files before index `int(0.9·n)` to train and the rest to eval, in order, and nothing to test |
| SplitBalance.PlaceCnsAll | split_balance.py:57-61 | the CNS loop places each remaining CNS file exactly once |
| SplitBalance.BestUpTo | split_balance.py:64-74 | a chosen split still has room below its target |
| SplitBalance.BestUpToMeans | split_balance.py:68-73 | no split is chosen iff none has room; otherwise the chosen split has the least projected entity sum among those with room, and any earlier split with room has a strictly larger sum (ties go to the earliest) |
| SplitBalance.BestSplit | split_balance.py:65-73 | the inner loop over train, eval, test computes `BestUpTo` over the three splits, the split the greedy rule selects |
| SplitBalance.PlaceRest | split_balance.py:64-77 | the greedy loop, when it does not hit `split_files[None]`, keeps the splits' shape |
| SplitBalance.PlaceRestAll | split_balance.py:64-77 | the greedy loop places every remaining file exactly once |
| SplitBalance.PlaceRestExtends | split_balance.py:64-77 | the greedy loop only appends, only names of the remaining files, and never takes a split past its target unless it already was |
| SplitBalance.SplitSpec | split_balance.py:38-79 | a successful split keeps the three lists and tallies of the same shape (what it places where is stated by `SplitPartition`, `SplitCnsPlacement` and `SplitQuota`) |
| SplitBalance.SplitFiles | split_balance.py:38-79 | the whole function computes `SplitSpec`: `SortByTotal`, then `PlaceCns` for the CNS files, then `PlaceRest` for the others |
| SplitBalance.SplitNeverFails | split_balance.py:65-75 | the `best_split is None` crash never happens, for any input and any valid ratios |
| SplitBalance.SplitPartition | split_balance.py:38-79 | the three lists together hold every input name exactly as often as the input does |
| SplitBalance.SplitDisjoint | split_balance.py:57-77 | with distinct names, every file lands in exactly one split and no name is in two splits |
| SplitBalance.SplitCnsPlacement | split_balance.py:52-61 | the first int(0.9·n) CNS files in sorted order go to train, the rest to eval, and (with distinct names) none to test |
| SplitBalance.SplitQuota | split_balance.py:44-75 | greedy placement never fills a split past its target; only the CNS placement can overfill train or eval |
| SplitBalance.SplitTally | split_balance.py:57-77 | for every split and key, the split's count is the sum of that key over the files assigned to it |
| SplitBalance.PlaceRestSucceeds | split_balance.py:64-75 | greedy placement succeeds whenever the placed and remaining files together fit in the targets |
| Count.CountInFile | count.py:3-44 | the loop with its `inside_entity` flags computes `Entities.CountLines`, the same counts as `split_balance.count_in_file`; the flags never affect the result |
| Count.TallyFolder | count.py:46-68 | the loop computes `TallySpec`, the fold of `TallyStep` over the listing: the per-file map, the combined totals, or the `UnboundLocalError` |
| Count.FailureSticks | count.py:58-66 | once a prefix of the listing fails, the whole tally fails with that error |
| Count.TallyKeys | count.py:59-62 | `file_total` has one key per `.iob` name in the listing, and no other key |
| Count.TallyIobStep | count.py:59-66 | a countable `.iob` entry adds its own counts to the combined totals |
| Count.PerFileCounts | count.py:59-62 | one count vector per listed entry, in listing order |
| Count.TallyAllIob | count.py:58-66 | for a listing of countable `.iob` files only, the combined totals are the keywise sum of the per-file counts |
| Count.TallyUnboundError | count.py:58-66 | with countable `.iob` files, the tally fails exactly when the first entry is not `.iob`, and then with `UnboundLocalError` |
| Count.TallyCountsTwice | count.py:65-66 | a `.iob` file followed by a non-`.iob` entry has its counts added twice to the combined totals |
| Count.IntendedTallySumsIob | count.py:58-66 | with the totals loop inside the `if`, the combined totals are the sum of the counts of exactly the `.iob` files |
| DataAugmentation.EntityType | data-augmentation.py:25 | the type read from `B-T`/`I-T` is the text up to the next dash, so it holds no dash |
| DataAugmentation.Occurrence | data-augmentation.py:18-26 | a line adds a bank entry only if it has exactly two fields; the entry's token is the first field and its type is never `CNS` |
| DataAugmentation.BlankOccurrence | data-augmentation.py:18-19 | a blank line contributes nothing to the bank |
| DataAugmentation.ExtractEntities | data-augmentation.py:11-28 | the loop over the `.iob` files builds `BankOfFolder`, the fold of `BankOfLines` over those files |
| DataAugmentation.BankAddGood | data-augmentation.py:26-27 | adding a non-CNS token keeps the bank free of `CNS` and of duplicates, and adds exactly that token under that type |
| DataAugmentation.BankOfLinesFacts | data-augmentation.py:17-27 | after a file, a token is in a type's bank iff it was there before or some line of the file yields that (type, token) |
| DataAugmentation.BankContents | data-augmentation.py:11-28 | the bank never has a `CNS` key, and a token is under type T iff some two-field line of some `.iob` file has it with a tag that starts with `B-` or `I-` and whose text between the first and the second dash is T (so `B-T-X` files its token under T) |
| DataAugmentation.ChooseIn | data-augmentation.py:48 | the modelled `random.choice` always returns a member of the list |
| DataAugmentation.AugmentLines | data-augmentation.py:35-49 | the augmented file has exactly one line per input line |
| DataAugmentation.Stem | data-augmentation.py:51 | the stem is a prefix of the file name |
| DataAugmentation.StemOfIob | data-augmentation.py:51 | the stem of `x.iob` is `x` |
| DataAugmentation.AugNameShape | data-augmentation.py:51-52 | the output name `{stem}_aug{id}.iob` ends in `.iob` and contains `_aug` |
| DataAugmentation.AugNameNotSelf | data-augmentation.py:51-53 | no copy is written under the name of the file it is made from |
| DataAugmentation.AugNamesDiffer | data-augmentation.py:52 | copies 1 and 2 of a file go to different names |
| DataAugmentation.AugmentLine | data-augmentation.py:36-49 | one turn of the line loop computes `RewriteLine` |
| DataAugmentation.AugmentFile | data-augmentation.py:31-55 | `augment_file` writes to `AugName(name, id)`, i.e. `{stem}_aug{id}.iob`, the lines `AugmentLines`: every line rewritten by `RewriteLine`, in order |
| DataAugmentation.RewriteOther | data-augmentation.py:37-43 | a blank line becomes `"\n"`; a line without two fields is copied verbatim; neither is a replacement |
| DataAugmentation.RewriteTwoFields | data-augmentation.py:44-49 | a two-field line comes out as `token\tlabel\n` with its label unchanged; the token is a bank member of the label's type when replaced, the original token otherwise |
| DataAugmentation.RewriteSameReading | data-augmentation.py:44-49 | a rewritten line reads the same for counting as the original (same field count and tag) |
| DataAugmentation.AugmentLineAt | data-augmentation.py:35-49 | line i of the output is the rewrite of line i of the input |
| DataAugmentation.AugmentPreservesCounts | data-augmentation.py:35-49 | an augmented file has exactly the entity counts (or the counting error) of the original |
| DataAugmentation.Rounds | data-augmentation.py:66-67 | the rounds from id to last produce last - id + 1 files |
| DataAugmentation.TwoRounds | data-augmentation.py:66-67 | with `AUG_PER_FILE = 2` each file yields copies 1 and 2, the second drawing after the first |
| DataAugmentation.AugmentCopies | data-augmentation.py:66-67 | the inner loop equals `Rounds` of the file as the folder holds it (`ReadFile`), each call of `augment_file` reading the file again (lines 32-33); it writes both copies into the folder (`WriteFiles`) and uses one draw per line per copy; the writes are those of lines 52-55 |
| DataAugmentation.AugmentFolder | data-augmentation.py:58-67 | `main` builds `BankOfFolder` before writing anything; its final folder and written files are those of `AugmentFolderSpec`, the fold of `MainStep` over the listing, which carries the folder from file to file so a later read sees an earlier write |
| DataAugmentation.RoundsAreCopies | data-augmentation.py:66-67 | the two rounds are copies 1 and 2 of the file: right names, same counts, one line per line |
| DataAugmentation.IobStep | data-augmentation.py:62-67 | the pass on a listed `.iob` file reads it from the current folder and writes copies 1 and 2 of what it read |
| DataAugmentation.MainStepFacts | data-augmentation.py:62-67 | with a bank of single words, each pass on a `.iob` file adds that file, as read, and its two copies |
| DataAugmentation.MainRunFacts | data-augmentation.py:62-67 | with a bank of single words, `main` writes two copies of each file it reads, in order, and reads the listed `.iob` files, by name and in listing order |
| DataAugmentation.AugmentFolderCounts | data-augmentation.py:58-67 | `main` writes 2·(number of `.iob` files) files; files 2j and 2j+1 are copies 1 and 2 of the j-th listed `.iob` file as it was read, with its name stem and entity counts |
| DataAugmentation.FreshSources | data-augmentation.py:62-67 | when no listed file is named like a copy of an earlier listed `.iob` file, every `.iob` file is read with its listed contents |
| DataAugmentation.StaleRead | data-augmentation.py:62-67 | otherwise a file can be read after `main` overwrote it: with `a.iob` listed before `a_aug1.iob`, the latter is augmented from the copy just written, not from its listed lines |
| CleaningData.Items | cleaning-data.py:23 | iterating a value visits as many items as its `len` |
| CleaningData.ToEntity | cleaning-data.py:27-28 | a three-item label gives an entity with start and end unchanged and the label passed through `str` |
| CleaningData.ConvertLabelsLoop | cleaning-data.py:22-28 | the loop over `data["labels"]` computes `ConvertLabels`: the entities and messages, or the `TypeError` |
| CleaningData.ConvertFailureSticks | cleaning-data.py:23-28 | once a prefix of the labels crashes, the whole record crashes the same way |
| CleaningData.ConvertLabelsMeaning | cleaning-data.py:22-28 | without numbers among the labels, the entities are exactly the valid triples, converted in order, and there is one message per other label, in order |
| CleaningData.Triples | cleaning-data.py:24-28 | the reference list of label items that become entities holds only items of length 3 |
| CleaningData.Entities | cleaning-data.py:27-28 | one entity per triple |
| CleaningData.Messages | cleaning-data.py:24-25 | one message per malformed label item |
| CleaningData.ConvertMessages | cleaning-data.py:24-25 | every label message starts with the record's `Line {i+1}: ` |
| CleaningData.CleanLine | cleaning-data.py:13-38 | one turn of the loop computes `LineOutcome`, the outcome of one line |
| CleaningData.CleanData | cleaning-data.py:11-38 | the module-level loop computes `CleanSpec`, the fold of `LineOutcome` over the lines: `valid_data` and `errors`, or the crash |
| CleaningData.CleanFailureSticks | cleaning-data.py:11-38 | a crash in a prefix is the crash of the whole file |
| CleaningData.CleanStep | cleaning-data.py:12-38 | each line's entries and messages go after those of the lines before it |
| CleaningData.LineOutcomeFacts | cleaning-data.py:13-38 | an unparsable line, a value that is not an object, or an object missing `text`/`labels` adds no entry; any other line adds exactly one, carrying its `text`; every message names the line |
| CleaningData.KeptWithoutEntities | cleaning-data.py:31-35 | a record with an empty label list is kept, with no entities and no message |
| CleaningData.KeyNamesInStringCrash | cleaning-data.py:17-23 | a JSON string mentioning both key names passes the `in` test (a substring test) and then `data["labels"]` raises `TypeError` |
| CleaningData.CleanKeepsLines | cleaning-data.py:12-38 | the number of kept entries is the number of lines minus the rejected ones, and their texts follow input order |
| CleaningData.CleanMessagesNameLines | cleaning-data.py:12-38 | every message in `errors` names one of the input lines with a 1-based number |
| FineTuning.LabelNames | fine-tuning.py:29-42 | `id2label` and `label2id` give the eight labels ids 0 to 7 in `LABEL_MAP` order, and no other ids exist |
| FineTuning.LabelMapsInverse | fine-tuning.py:41-42 | `id2label` and `label2id` are mutually inverse |
| FineTuning.LabelId | fine-tuning.py:71 | a label's id is always one of 0 to 7 |
| FineTuning.LabelIdMeaning | fine-tuning.py:71 | a known label maps to its own id and an unknown label to the id of `O` |
| FineTuning.AlignedRow | fine-tuning.py:67 | each label row is as long as its `input_ids` row |
| FineTuning.ApplyEntity | fine-tuning.py:73-77 | one entity sets exactly the positions whose token span lies wholly inside its span; all other positions keep their value |
| FineTuning.AlignRow | fine-tuning.py:67-79 | the nested loops for one example compute `AlignedRow`: at each position, `LabelFor` of the entities, the id of the last one that `Covers` the token |
| FineTuning.AlignBatch | fine-tuning.py:65-79 | one label row per example, each of its example's length and equal to the specified row |
| FineTuning.LabelForRange | fine-tuning.py:67-77 | every label is -100 or one of 0 to 7 |
| FineTuning.IgnoredIffUncovered | fine-tuning.py:67-77 | a position stays -100 iff no entity contains its token span |
| FineTuning.LastCoverWins | fine-tuning.py:69-77 | a position gets the id of the last entity, in list order, that contains it |
| FineTuning.LabelForSnoc | fine-tuning.py:73-77 | one more entity sets the label iff it covers the token; otherwise the label stays |
| FineTuning.NoOffsetIgnored | fine-tuning.py:74-75 | a token with a `None` offset stays -100 |
| FineTuning.RemapGroups | fine-tuning.py:147-150 | every group is rewritten by `Remap`; otherwise the first group whose number `int()` rejects is reported |
| FineTuning.RemapNumbered | fine-tuning.py:149-150 | `LABEL_N` becomes `id2label[N]` when N is a known id, `O` otherwise |
| FineTuning.RemapRoundTrip | fine-tuning.py:149-150 | `LABEL_i` for an id i in range gives back the i-th label name |
| FineTuning.RemapKeepsNames | fine-tuning.py:149-151 | a group name not starting with `LABEL_` is left unchanged |
| TestModel.Zip | test-model.py:140 | pairing stops at the shorter list |
| TestModel.MergePieces | test-model.py:134-156 | the merge loop and the final flush compute `Merge` of `Zip(tokens, tags)`: the fold of `Step`, then `Flush` |
| TestModel.SpecialsIgnored | test-model.py:141-142 | `[CLS]` and `[SEP]` have no effect: merging with them removed gives the same state |
| TestModel.StepsBalanced | test-model.py:147-156 | tokens and labels are always appended in pairs |
| TestModel.NonSpecial | test-model.py:141-142 | dropping `[CLS]` and `[SEP]` never adds pairs |
| TestModel.StepsText | test-model.py:140-156 | no character is lost or added: the merged words and the pending one spell the input pieces in order, `##` removed |
| TestModel.StepsCount | test-model.py:146-152 | each non-special token adds at most one word |
| TestModel.StepsHeads | test-model.py:146-156 | on well-formed input the number of words started equals the number of word heads |
| TestModel.MergeFacts | test-model.py:140-156 | the outputs have equal length, their tokens spell the input with every `##` removed from pieces, and there are no more entries than non-special tokens |
| TestModel.StepsPieces | test-model.py:144-145 | `##` pieces only extend the current token and leave its label alone |
| TestModel.MergeWord | test-model.py:144-152 | a word followed by pieces becomes one entry: the word plus the pieces' text, with the word's own label |
| TestModel.ExactlyOnePerHead | test-model.py:146-156 | on well-formed input, each non-special, non-piece token starts exactly one output entry |
| TestModel.Repaired | test-model.py:159-163 | the repair pass keeps the number of labels |
| TestModel.RepairPass | test-model.py:159-163 | the loop from index 1 computes `Repaired`, `Repair` applied to each label and its predecessor |
| TestModel.RepairedFacts | test-model.py:159-163 | index 0 is never touched; from index 1 on no `I-X` follows `O` or a different type; a changed label was `I-` and had `I-` replaced by `B-` |
| TestModel.Initialled | test-model.py:166-170 | the initials pass keeps the number of labels |
| TestModel.InitialsPass | test-model.py:166-170 | the loop over all but the last index computes `Initialled`, `Initial` applied to each (token, label) |
| TestModel.InitialledFacts | test-model.py:166-170 | only `O` labels change, never at the last index; a lone capital letter becomes `I-PERSON` (and stays so); any other title-case word at `O` becomes `B-PERSON` |
| TestModel.Punctuated | test-model.py:173-175 | the punctuation pass keeps the number of labels |
| TestModel.PunctuationPass | test-model.py:173-175 | the loop computes `Punctuated`, the relabelling of punctuation |
| TestModel.CleanNerOutput | test-model.py:132-177 | `clean_ner_output` computes `CleanSpec`: the merge followed by the three passes |
| TestModel.CleanFacts | test-model.py:132-177 | the two returned lists have the same length and every `. , ; : ( )` token is labelled `O` |
| BertNer.MergeEntities | BERT_NER.py:269-287 | the merge loop and the final flush compute `EntityWords`: the fold of `Step`, then `Flush` |
| BertNer.StepsPieces | BERT_NER.py:278-279 | `##` entities append `word[2:]` to the current word and leave its label unchanged |
| BertNer.MergeWord | BERT_NER.py:278-284 | a non-piece entity flushes the pending word and, with the pieces after it, becomes one entry labelled with its own `entity_group` |
| BertNer.StepsText | BERT_NER.py:278-284 | flushed words plus the pending word always spell the input words with two characters dropped from each piece |
| BertNer.StepText | BERT_NER.py:278-284 | one entity adds its text, with a leading `##` dropped, to the flushed words plus the pending one |
| BertNer.Words | BERT_NER.py:269-287 | one word per output entry |
| BertNer.StepsCount | BERT_NER.py:278-284 | each entity adds at most one entry |
| BertNer.StepsHeads | BERT_NER.py:273-287 | on well-formed input the number of entries started equals the number of non-piece entities |
| BertNer.EntityWordsFacts | BERT_NER.py:269-287 | the output words spell the input words with one leading `##` dropped from pieces; there are at most as many entries as entities; no entities give no entries |
| BertNer.ExactlyOnePerHead | BERT_NER.py:273-287 | on well-formed input, each non-piece entity starts exactly one entry |
| RemoveCnsLabels.CleanFile | remove_cns_labels.py:13-21 | the line loop computes `CleanLines`, i.e. `Filter` with the `Classify` verdict: the filtered file, or the unpacking error |
| RemoveCnsLabels.FilterFailureSticks | remove_cns_labels.py:14-19 | an unpacking error in a prefix is the error of the whole file |
| RemoveCnsLabels.BlankKept | remove_cns_labels.py:15-17 | blank and whitespace-only lines are kept verbatim |
| RemoveCnsLabels.TabLine | remove_cns_labels.py:19-21 | a `token\ttag\n` line is dropped iff its tag is `B-CNS` or `I-CNS`, and kept otherwise |
| RemoveCnsLabels.WrongFieldCount | remove_cns_labels.py:19 | a non-blank line that does not split into exactly two tab fields makes the unpacking fail |
| RemoveCnsLabels.CleanFailsAtFirstBad | remove_cns_labels.py:14-19 | a file fails iff some line cannot be unpacked, and the error names the first such line |
| RemoveCnsLabels.CleanedFacts | remove_cns_labels.py:13-21 | the output is an order-preserving subsequence of the input, every kept line is one the filter keeps, and filtering again changes nothing |
| RemoveCnsLabels.CleanedLength | remove_cns_labels.py:13-21 | the output is shorter than the input by exactly the number of dropped CNS lines |
| RemoveCnsLabels.FilterKeeps | remove_cns_labels.py:13-21 | the filter keeps some lines verbatim, in order, and only lines the verdict keeps |
| RemoveCnsLabels.FilterAllKept | remove_cns_labels.py:13-21 | lines the verdict all keeps come through unchanged |
| RemoveCnsLabels.FilterLength | remove_cns_labels.py:13-21 | exactly the dropped lines go |
| RemoveCnsLabels.FolderRun | remove_cns_labels.py:5-26 | the folder afterwards has one entry per listed file |
| RemoveCnsLabels.AfterCrash | remove_cns_labels.py:5-26 | after a crash the remaining files are left as they were |
| RemoveCnsLabels.CleanCnsTagsInFolder | remove_cns_labels.py:3-26 | the folder loop computes `FolderRun`, the fold of `RunStep`: the folder, the `updated_files` counter and crash |
| RemoveCnsLabels.FolderShape | remove_cns_labels.py:5-24 | every file keeps its name, and files not ending in `.iob` are untouched |
| RemoveCnsLabels.FolderUpdates | remove_cns_labels.py:4-26 | without a crash, `updated_files` is the number of `.iob` files and each one holds its filtered lines |
| RemoveCnsLabels.FolderCrashes | remove_cns_labels.py:5-21 | the run crashes iff some `.iob` file has a line that cannot be unpacked |
| RemoveAugmented.RemoveAugmentedFiles | remove_augmented.py:5-11 | the loop leaves `Kept` and removes `Removed`, the files that `IsAugmented` selects, and `removed_count` equals the number removed |
| RemoveAugmented.Kept | remove_augmented.py:7-11 | the files left are never more than those listed |
| RemoveAugmented.Removed | remove_augmented.py:7-11 | the names removed are never more than those listed |
| RemoveAugmented.Partition | remove_augmented.py:7-11 | every listed file is either kept or removed |
| RemoveAugmented.KeptIff | remove_augmented.py:8-10 | a file stays, unchanged, iff its name does not both end in `.iob` and contain `_aug`; a name is removed iff it does |
| RemoveAugmented.NotIobKept | remove_augmented.py:8 | a file not ending in `.iob` is never removed |
| RemoveAugmented.AugNameRemoved | remove_augmented.py:8 | every name `augment_file` writes is removed |
| RemoveExcessAug.AugGroup | remove_excess_aug.py:9 | the captured group is all digits |
| RemoveExcessAug.MatchGivesGroup | remove_excess_aug.py:9 | wherever `aug(\d*)\.iob$` matches, the computed group is the digits between `aug` and `.iob` |
| RemoveExcessAug.GroupGivesMatch | remove_excess_aug.py:9 | a computed group means the pattern does match |
| RemoveExcessAug.GroupIffMatch | remove_excess_aug.py:9 | the computed predicate holds iff `pattern.search` finds a match |
| RemoveExcessAug.CleanAugmentedFiles | remove_excess_aug.py:11-19 | the listing loop keeps exactly `KeptBy(entries, Removes)`, the files the `Removes` rule leaves, in order |
| RemoveExcessAug.KeptBy | remove_excess_aug.py:11-19 | the files left are never more than those listed |
| RemoveExcessAug.KeptByIff | remove_excess_aug.py:11-19 | a file stays, unchanged, iff the removal predicate rejects its name |
| RemoveExcessAug.KeptIffNoMatch | remove_excess_aug.py:13-19 | a file is removed iff the pattern matches its name, whatever the digits |
| RemoveExcessAug.SuffixRemoved | remove_excess_aug.py:9 | a name ending in `aug`, optional digits, then `.iob` matches, with those digits as the group (so `x_aug.iob` is removed) |
| RemoveExcessAug.NotIobKept | remove_excess_aug.py:9 | a name ending neither in `.iob` nor in `.iob` and a newline is kept, e.g. `x_aug1.iob.bak` |
| RemoveExcessAug.AugNameRemoved | remove_excess_aug.py:9 | every name `augment_file` writes matches, with its copy number as the group |
| RemoveExcessAug.AsWrittenRemovesFirstCopies | remove_excess_aug.py:14-19 | copies `_aug1.iob` and `_aug2.iob` are removed by the code although the documented rule keeps them |
| RemoveExcessAug.IntendedCopies | remove_excess_aug.py:5-8 | under the documented rule, copy k of a file is removed iff k > 2 |
| RemoveExcessAug.IntendedBare | remove_excess_aug.py:5-8 | under the documented rule, a name ending in `aug.iob` is removed |
| RemoveExcessAug.CleanAugmentedFilesDocumented | remove_excess_aug.py:5-8 | the loop with the documented rule keeps exactly `KeptBy(entries, IntendedRemoves)` |
| RemoveExcessAug.IntendedKeptIff | remove_excess_aug.py:5-8 | under the documented rule a file stays iff the rule does not remove it |

## Left out

- File-system I/O is not modelled: `os.listdir`, `open`, `readlines`, `writelines`, `os.remove`, `shutil.copy`, `clear_previous_splits` and the `main` copying in split_balance.py:82-118. A folder is a sequence of entries in a listing order given as input, since `os.listdir` order is unspecified. Writes and deletions are returned values; in data-augmentation.py they also update the folder map, so a file read later sees an earlier write.
- All `print` output, including the summaries and debugging lines of every script, is not modelled.
- The interactive prompt loop of count.py:73-93 is not modelled.
- Model loading, tokenization, training, evaluation, the `pipeline` calls and inference are not modelled: fine-tuning.py outside lines 29-42, 56-84 and 147-150; test-model.py outside `clean_ner_output`; BERT_NER.py outside lines 269-287. The tokenizer's `offset_mapping` and `input_ids` lengths are inputs, with at most as many offsets as ids.
- The paragraph chunking at BERT_NER.py:260 is not modelled; the merge takes each chunk's predictions as input.
- The heatmap scripts (make_heatmap.py, make_heatmap_percent.py, percent_input_heatmap.py) are not part of this model. They are plotting over literal data.
- JSON parsing in cleaning-data.py is not modelled: each line arrives parsed, as an object, as another value, or marked unparsable. Values are numbers, strings and lists. A top-level `true`, `false` or `null` is not a value here; `in` on it raises `TypeError`, as on a number. Floats, booleans, `null` and objects as label items are not modelled. A label item that is a number raises `TypeError` and is modelled as the crash it is.
- CleaningData.Repr: `repr` is modelled for numbers, plain strings and lists. Python's choice of quotes and escaping for strings holding quotes or control characters is not.
- The `json.dumps` output format and the error log file are not modelled.
- `random.choice` is a draw function `draws: nat -> nat`, indexed by a running draw counter. The bank's list order (Python `list(set)`) is insertion order here.
- SplitBalance.Targets: the float ratios 0.7, 0.2 and 0.9 are exact rationals 7/10, 2/10 and 9/10, so `int(r * n)` is floor(num·n/den). Binary floating point can differ from this for some n. The proofs that the targets add up to n and that the crash is unreachable hold for any truncation, because test takes the remainder.
- Unicode is not modelled. Whitespace for `split()`/`strip()` is ASCII whitespace plus the separators 0x1c to 0x1f. `isupper`, `istitle` and `\d` are ASCII-only. `int()` does not accept underscores or non-ASCII digits.
- TestModel.SpecialsIgnored: states that `[CLS]` and `[SEP]` are skipped, not that no output token equals them. Pieces can spell one, e.g. `[CL` followed by `##S]`, so the stronger claim is false of the code.
- TestModel.ExactlyOnePerHead, BertNer.ExactlyOnePerHead: these assume well-formed input (no empty tokens, no piece before the first word). A `##` piece before any word starts an entry of its own. An empty token never becomes an entry. Both cases are handled by the model but not counted by these lemmas.

## Findings

| source | as written | input that shows it | evidently intended | confidence | as-written member | corrected member |
|---|---|---|---|---|---|---|
| count.py:65-66 | the totals loop sits after the `if filename.endswith('.iob')` block, so it runs for every listed name and re-adds the last `.iob` file's counts (or raises `UnboundLocalError`, a `NameError`, before any `.iob` file) | listing `a.iob` (one `B-PERSON` line), then `notes.txt`: `persons` totals 2 | only `.iob` files add to `combined_totals`, so it is the sum of the per-file counts | not executed | Count.TallyCountsTwice | Count.IntendedTallySumsIob |
| remove_excess_aug.py:14-19 | every name matching `aug(\d*)\.iob$` is removed; `aug_num_str` is never compared | `doc_aug1.iob` and `doc_aug2.iob` are removed | the docstring at lines 5-8: remove `aug.iob` and `aug{N}.iob` with N > 2, keep `aug1`/`aug2` | not executed | RemoveExcessAug.AsWrittenRemovesFirstCopies | RemoveExcessAug.IntendedCopies |
