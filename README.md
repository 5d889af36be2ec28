# spacy-pl conversion core in Dafny

This project models the data-preparation core of spacy-pl, which produces
Polish training data for spaCy, and proves properties of that model. It
covers four parts.

- **The KPWr named-entity pipeline** (`spacy_pl/ner/conversion`):
  - the annotation tree: `Token`, `Sentence`, `Paragraph`, `Document`,
    `Corpus`, their JSON forms and `TokenSpacy`;
  - the KPWr readers, which number tokens per document and keep the
    annotation channels ending in `nam`;
  - the label picker, which finds runs of nested annotations and relabels
    each run with one channel;
  - the channel renamer, which uses a label table;
  - the BILUO encoder;
  - the projection onto spaCy's `ner` field;
  - the combined converter `wroc_to_raw_spacy`.
- **The NKJP part-of-speech converter** (`spacy_pl/conversion/converter.py`).
  Tagged `(word, tag)` paragraphs become documents of numbered tokens. A
  conversion table can translate the tags.
- **The ispell affix-file reader**
  (`spacy_pl/lemmatizer/convert_ispell_to_json_rules.py`). It skips to the
  `suffixes` section and splits code from comment. It assigns each entry
  the current `flag*X` flag and turns every code `LEMMA>-X,Y` into a
  `[word_suffix, lemma_suffix]` rule grouped by flag.
- **The lemma index** (`spacy_pl/lemmatizer/build_lemma_index.py`). It maps
  each flag character to the words of the ispell word list that carry it.

The model takes the form the code has:
- code that changes state in place is a method, with loop invariants where
  the code loops;
- the tree is made of classes, and `add` appends to a field;
- the per-sentence loops of the `main`s write every sentence object of the
  corpus;
- a `setCounter` is a class over a `map`;
- pure computations are functions.

Every method is proved against a specification function. The lemmas then
state what that function means, for example:
- the round trip of the JSON encoding;
- the error cases;
- BILUO tags being exactly the maximal runs;
- tokens numbered `0, 1, 2, …`;
- the rule table of each flag holding the rules of its entries, in file
  order.

Python exceptions are modelled as a `Result` whose error records the
exception class.

Four behaviours of the code that the model keeps as written:
- **Order of the passes.** `wroc_to_raw_spacy.py:320-333` picks labels
  first, then renames the channels, then encodes BILUO.
- **An unmapped channel.** The renamer raises `KeyError` at the first
  channel missing from the table (`map_labels.py:10`). It neither drops the
  channel nor collects all such channels.
- **The scan stops early.** The run scan of `get_longest_sequences` stops
  before the last token (`pick_labels_from_nested.py:44`). The model
  reproduces this, and `PickLabels.LastTokenIgnored` proves that the last
  token never affects the result.
- **A document without `id` or `paragraphs`.** `Document.from_json`
  (`data_types.py:86-88`) calls `cls()`, which raises `TypeError` because `id` is missing. It does not
  give an empty document. The model does the same (`DataTypes.MissingId`).

## Model

| member | source | states |
|---|---|---|
| DataTypes.FirstActive | spacy_pl/ner/conversion/data_types.py:10-16 | `None` exactly when every value is "0"; otherwise the result is the channel of an item whose value is not "0" |
| DataTypes.GetNE | spacy_pl/ner/conversion/data_types.py:10-16 | the nested loop over the dicts and their keys returns the first active channel of the token, `Token.NE` |
| DataTypes.IsNEMeaning | spacy_pl/ner/conversion/data_types.py:7-16 | `is_NE` holds iff some item's value is not "0" and the first such item's channel is not "O" (both directions) |
| DataTypes.Token.ToJson | spacy_pl/ner/conversion/data_types.py:26-31 | all three keys `orth`, `id`, `ner` are written |
| DataTypes.Token.FromJson | spacy_pl/ner/conversion/data_types.py:21-24 | succeeds iff all three keys are present; otherwise `KeyError` on the first missing one in the order `orth`, `ner`, `id`; writing the result back gives the input |
| DataTypes.TokenSpacy.ToJsonAsWritten | spacy_pl/ner/conversion/data_types.py:110-116 | as written: succeeds (with `ner` null) only when the tag is the empty string; every other tag, and a missing tag, raises |
| DataTypes.TokenSpacy.ToJson | spacy_pl/ner/conversion/data_types.py:110-116 | as intended: `ner` is the token's tag, `orth` and `id` are kept |
| DataTypes.SpacyToJsonFails | spacy_pl/ner/conversion/data_types.py:110-116 | the tagged token `Warszawa/U-GPE` and an untagged token cannot be written as written; the intended writer writes `U-GPE` |
| DataTypes.CorpusFromJson | spacy_pl/ner/conversion/data_types.py:104-107 | one document per element, in order; fails iff some element fails to read |
| DataTypes.TokenRoundTrip | spacy_pl/ner/conversion/data_types.py:21-31 | reading what `Token.to_json` wrote gives the same token |
| DataTypes.SentenceRoundTrip | spacy_pl/ner/conversion/data_types.py:41-52 | reading what `Sentence.to_json` wrote gives the same tokens |
| DataTypes.ParagraphRoundTrip | spacy_pl/ner/conversion/data_types.py:62-70 | reading what `Paragraph.to_json` wrote gives the same sentences |
| DataTypes.DocumentRoundTrip | spacy_pl/ner/conversion/data_types.py:81-91 | reading what `Document.to_json` wrote gives the same id and paragraphs |
| DataTypes.CorpusRoundTrip | spacy_pl/ner/conversion/data_types.py:101-107 | reading what `Corpus.to_json` wrote gives the same corpus |
| DataTypes.SentenceJsonRoundTrip | spacy_pl/ner/conversion/data_types.py:41-52 | on a sentence object in the written shape, writing after reading is the identity |
| DataTypes.ParagraphJsonRoundTrip | spacy_pl/ner/conversion/data_types.py:62-70 | the same for a paragraph object |
| DataTypes.DocumentJsonRoundTrip | spacy_pl/ner/conversion/data_types.py:81-91 | the same for a document object |
| DataTypes.CorpusJsonRoundTrip | spacy_pl/ner/conversion/data_types.py:101-107 | on a corpus whose documents are in the written shape, writing after reading is the identity |
| DataTypes.Sentence.constructor | spacy_pl/ner/conversion/data_types.py:35-36 | the sentence holds the given tokens |
| DataTypes.Sentence.Add | spacy_pl/ner/conversion/data_types.py:38-39 | the token is appended at the end; earlier tokens are unchanged |
| DataTypes.Sentence.FromJson | spacy_pl/ner/conversion/data_types.py:47-52 | a fresh sentence holding the tokens read, or the error of reading them; no `tokens` key gives an empty sentence |
| DataTypes.Paragraph.constructor | spacy_pl/ner/conversion/data_types.py:56-57 | the paragraph holds the given sentences |
| DataTypes.Paragraph.Add | spacy_pl/ner/conversion/data_types.py:59-60 | the sentence is appended at the end |
| DataTypes.Paragraph.FromJson | spacy_pl/ner/conversion/data_types.py:65-70 | a fresh paragraph of fresh sentences holding what was read, or the error of reading it |
| DataTypes.Document.constructor | spacy_pl/ner/conversion/data_types.py:74-76 | the document holds the given id and paragraphs |
| DataTypes.Document.Add | spacy_pl/ner/conversion/data_types.py:78-79 | the paragraph is appended at the end |
| DataTypes.Document.FromJson | spacy_pl/ner/conversion/data_types.py:85-91 | a fresh document holding what was read; a missing `id` or `paragraphs` key gives the `TypeError` of `cls()` |
| DataTypes.Corpus.constructor | spacy_pl/ner/conversion/data_types.py:95-96 | the corpus holds the given documents |
| DataTypes.Corpus.Add | spacy_pl/ner/conversion/data_types.py:98-99 | the document is appended at the end |
| DataTypes.Corpus.FromJson | spacy_pl/ner/conversion/data_types.py:104-107 | a fresh corpus tree holding what `CorpusFromJson` reads, in which every sentence object occurs once; or its error |
| DataTypes.UpdateSentences | spacy_pl/ner/conversion/map_labels.py:24-27 | `sent.tokens = f(sent.tokens)` on every sentence in document, paragraph and sentence order: the tree keeps its shape; either every sentence holds `f` of its old tokens, or the first error is returned |
| PickLabels.StillInSequence | spacy_pl/ner/conversion/pick_labels_from_nested.py:7-8 | true iff at some position of the zipped lists both values are equal and not "0" |
| PickLabels.GetLabelSet | spacy_pl/ner/conversion/pick_labels_from_nested.py:18-24 | the set of positions whose value is not "0" |
| PickLabels.GetLastLabel | spacy_pl/ner/conversion/pick_labels_from_nested.py:11-15 | `None` iff every value is "0"; otherwise the first position whose value is not "0" |
| PickLabels.GetAnyLabel | spacy_pl/ner/conversion/pick_labels_from_nested.py:27-30 | `None` iff the set is empty; otherwise some member of it |
| PickLabels.ReportRun | spacy_pl/ner/conversion/pick_labels_from_nested.py:55-58 | nothing is reported for an empty label set; otherwise the run `(b, e, channel)` of a chosen surviving position of token 0's channels; `IndexError` only when a chosen position lies past token 0's channels |
| PickLabels.GetLongestSequences | spacy_pl/ner/conversion/pick_labels_from_nested.py:37-65 | the result is a possible result of the scan (`IsLongestSequences`); an empty sentence raises `IndexError`; a one-token sentence gives no runs |
| PickLabels.ScanFrom | spacy_pl/ner/conversion/pick_labels_from_nested.py:44-63 | the breaks the scan finds from token `e` on; what they are is stated by `PickLabels.ScanFromProps`, `PickLabels.ScanFromIgnoresLast` and `PickLabels.ScanFromBinary` |
| PickLabels.ScanFromProps | spacy_pl/ner/conversion/pick_labels_from_nested.py:44-63 | every break lies before the last token, spans at least two tokens, and carries only positions active on all its tokens; breaks are in increasing order and do not overlap |
| PickLabels.ScanFromBinary | spacy_pl/ner/conversion/pick_labels_from_nested.py:47-60 | with every value "0" or "1", no position survives to a break |
| PickLabels.RunsOkFromPicks | spacy_pl/ner/conversion/pick_labels_from_nested.py:37-65 | every reported run `(b, e)` has `b < e` and lies before the last token; each run ends before the next begins; its channel is a channel of token 0 at a position whose value is not "0" on every token from `b` through `e` |
| PickLabels.BinaryHasNoRuns | spacy_pl/ner/conversion/pick_labels_from_nested.py:37-65 | on flat binary annotation no run is reported |
| PickLabels.LastTokenIgnored | spacy_pl/ner/conversion/pick_labels_from_nested.py:44 | the possible results do not depend on the last token of the sentence (both directions) |
| PickLabels.Relabel | spacy_pl/ner/conversion/pick_labels_from_nested.py:73 | the token keeps its text and id, and its first active channel becomes the run's channel |
| PickLabels.StampAt | spacy_pl/ner/conversion/pick_labels_from_nested.py:70-74 | for non-overlapping runs, a token inside `[b, e)` is relabelled with that run's channel, and every other token is unchanged |
| PickLabels.PickTags | spacy_pl/ner/conversion/pick_labels_from_nested.py:68-75 | the tokens are relabelled along a possible result of `get_longest_sequences`; it fails only with `IndexError`, and only on an empty sentence or one where some choice of label indexes past token 0's channels |
| PickLabels.PickTagsEffect | spacy_pl/ner/conversion/pick_labels_from_nested.py:68-75 | same length, texts and ids; a token inside a run carries that run's channel; a token outside every run, and the last token, are unchanged |
| PickLabels.PickTagsBinary | spacy_pl/ner/conversion/pick_labels_from_nested.py:68-75 | on binary annotation `pick_tags` leaves every token as it was |
| PickLabels.PickTagsCorpus | spacy_pl/ner/conversion/pick_labels_from_nested.py:87-90 | every sentence of the tree is picked along its own runs, and the tree keeps its shape; it fails only with `IndexError`, and only when some sentence is one on which `pick_tags` can fail |
| Biluo.TagAt | spacy_pl/ner/conversion/set_biluo.py:10-47 | the tag of one position, with one position of lookahead; `Biluo.TagMeaning` and `Biluo.SpansAreMaximalRuns` state what it is: "O" off an entity, otherwise the token's label, with each maximal run of one label spelled `B I* L` or `U` |
| Biluo.TagString | spacy_pl/ner/conversion/set_biluo.py:15-47 | the written tag is "O" exactly for the outside tag |
| Biluo.Ent | spacy_pl/ner/conversion/set_biluo.py:12-13 | a token has an entity label iff `is_NE` holds, and the label is its `get_NE`, never "O" |
| Biluo.Tagged | spacy_pl/ner/conversion/set_biluo.py:15-47 | the new token keeps text and id, its one item is `{tag: '1'}`, and it is an entity iff the tag is not "O" |
| Biluo.Encoded | spacy_pl/ner/conversion/set_biluo.py:7-49 | token `i` of the output is token `i` tagged with the closed-form tag of position `i` |
| Biluo.BiluoSentence | spacy_pl/ner/conversion/set_biluo.py:7-49 | the encoded sentence, or `IndexError` for an empty one; `Biluo.ConvertToBiluo` proves the loop computes it, and `Biluo.TagMeaning` states what its tokens are |
| Biluo.ConvertToBiluo | spacy_pl/ner/conversion/set_biluo.py:7-49 | the `in_ne` state machine produces exactly `Encoded`; only an empty sentence fails, with `IndexError`; the `assert False` branch is unreachable |
| Biluo.TagMeaning | spacy_pl/ner/conversion/set_biluo.py:7-49 | every output token has the one item `{tag: '1'}` and the text and id of the input token at the same position; the tag is "O" iff the token is not an entity, and otherwise carries the token's own label |
| Biluo.SingleToken | spacy_pl/ner/conversion/set_biluo.py:39-47 | a one-token sentence is `U-T` for an entity and `O` otherwise |
| Biluo.BiluoWellFormed | spacy_pl/ner/conversion/set_biluo.py:7-49 | the tags always follow the grammar `(B-T I-T* L-T \| U-T \| O)*` |
| Biluo.SpansAreMaximalRuns | spacy_pl/ner/conversion/set_biluo.py:7-49 | tags `b..e` spell one entity `T` iff positions `b..e` are a maximal run of consecutive entities labelled `T` (both directions) |
| Biluo.SentenceSpans | spacy_pl/ner/conversion/set_biluo.py:7-49 | the same, stated for the tokens of a sentence |
| Biluo.BiluoAll | spacy_pl/ner/conversion/set_biluo.py:61-64 | encoding every sentence succeeds iff none is empty, gives `Encoded` of each, and otherwise fails with `IndexError` |
| Biluo.BiluoCorpus | spacy_pl/ner/conversion/set_biluo.py:61-64 | every sentence of the tree is replaced by its encoding in place, and the tree keeps its shape; it fails with `IndexError` iff some sentence is empty |
| MapLabels.MapPair | spacy_pl/ner/conversion/map_labels.py:10 | one item renamed succeeds iff its channel is in the table, and is then the one-item dict `{map[k]: v}`; otherwise `KeyError` naming the channel |
| MapLabels.RenamerOk | spacy_pl/ner/conversion/map_labels.py:10 | renaming a list of items succeeds iff every channel is in the table |
| MapLabels.MapAttribs | spacy_pl/ner/conversion/map_labels.py:10 | one dict `{map[k]: v}` per item, in order; `KeyError` on the first channel missing from the table, exactly when one is missing |
| MapLabels.MappedPairs | spacy_pl/ner/conversion/map_labels.py:10 | the items of the new dicts are the old items with renamed channels |
| MapLabels.MapToken | spacy_pl/ner/conversion/map_labels.py:10 | the token with its new `attribs`, or the `KeyError` of its first unmapped channel |
| MapLabels.MapLabels | spacy_pl/ner/conversion/map_labels.py:8-12 | the in-place loop gives every token its renamed `attribs`, or stops at the first `KeyError` |
| MapLabels.MapLabelsEffect | spacy_pl/ner/conversion/map_labels.py:8-12 | same length, texts and ids, renamed items; fails iff some channel is unmapped, and then with `KeyError` of a channel not in the table |
| MapLabels.MapLabelsCorpus | spacy_pl/ner/conversion/map_labels.py:24-27 | every sentence of the tree is renamed in place, and the tree keeps its shape; the only error is `KeyError` of an unmapped channel |
| MapLabels.ManyToOne | spacy_pl/ner/conversion/ner_label_map.py:1-56 | the table is many-to-one: first-name and last-name channels both become `PERSON`, giving two `PERSON` dicts |
| InternalToSpacy.ConvertTokensToSpacy | spacy_pl/ner/conversion/internal_to_spacy.py:6-7 | one spaCy token per token, in order, with the same text and id and the token's `get_NE` as tag |
| InternalToSpacy.AfterBiluo | spacy_pl/ner/conversion/internal_to_spacy.py:6-7 | after BILUO encoding every spaCy token carries its BILUO tag string, never `None`, and "O" exactly on the non-entities |
| InternalToSpacy.ConvertCorpus | spacy_pl/ner/conversion/internal_to_spacy.py:19-22 | every sentence is converted on its own; ids and the document, paragraph and sentence structure are kept |
| InternalToSpacy.InternalToSpacyFails | spacy_pl/ner/conversion/internal_to_spacy.py:24-25 | the output step raises as soon as one token has a tag other than the empty string |
| InternalToSpacy.InternalToSpacyMainFails | spacy_pl/ner/conversion/internal_to_spacy.py:13-25 | so `main` fails on every readable corpus holding such a token |
| InternalToSpacy.ConvertedJson | spacy_pl/ner/conversion/internal_to_spacy.py:19-25 | with the intended writer, every output token is the input token's text, id and first active channel, at the same position |
| WrocToRawSpacy.SentenceWriter | spacy_pl/ner/conversion/wroc_to_raw_spacy.py:58-65 | this reader's `Sentence.to_json` equals the spaCy projection followed by the intended spaCy writer |
| WrocToRawSpacy.WriterIsSpacyProjection | spacy_pl/ner/conversion/wroc_to_raw_spacy.py:58-100 | the same for the whole corpus |
| WrocToRawSpacy.NerAfterBiluo | spacy_pl/ner/conversion/wroc_to_raw_spacy.py:58-65 | after BILUO encoding, each written token is the token's text and id with its BILUO tag string as `ner`, and `brackets` is empty |
| WrocToRawSpacy.RenameError | spacy_pl/ner/conversion/wroc_to_raw_spacy.py:326-328 | the renaming pass fails only with `KeyError` |
| WrocToRawSpacy.RenamedLengths | spacy_pl/ner/conversion/wroc_to_raw_spacy.py:326-328 | renaming keeps the number of sentences and the length of each |
| WrocToRawSpacy.PickedNonEmpty | spacy_pl/ner/conversion/wroc_to_raw_spacy.py:321-324 | after the picking pass every sentence keeps its length, so none is empty |
| WrocToRawSpacy.BiluoError | spacy_pl/ner/conversion/wroc_to_raw_spacy.py:330-333 | the encoding pass fails only with `IndexError`, and only when some sentence is empty |
| WrocToRawSpacy.EncodingError | spacy_pl/ner/conversion/wroc_to_raw_spacy.py:326-333 | after the optional renaming, the encoding pass fails only with `IndexError`, and only when some sentence was empty to begin with |
| WrocToRawSpacy.PickPass | spacy_pl/ner/conversion/wroc_to_raw_spacy.py:321-324 | every sentence is picked along a possible result of its scan, and the tree keeps its shape; it fails only with `IndexError`, and only when some sentence is one on which `pick_tags` can fail |
| WrocToRawSpacy.TagPasses | spacy_pl/ner/conversion/wroc_to_raw_spacy.py:326-333 | the optional renaming and then BILUO encoding, on every sentence; it succeeds iff both passes succeed on the sentences as they were; a failure is a `KeyError` of the renaming, with the table, or an `IndexError` on an empty sentence |
| WrocToRawSpacy.Convert | spacy_pl/ner/conversion/wroc_to_raw_spacy.py:316-335 | the written corpus is the extracted corpus picked, optionally renamed and encoded, sentence by sentence, with its shape kept; a failure is an `IndexError` on a sentence where `pick_tags` can fail, or, with the table, a `KeyError` of renaming the picked sentences |
| RawCorpus.SetCounter.constructor | spacy_pl/ner/conversion/wroc_to_raw_internal.py:13-14 | a new counter is empty |
| RawCorpus.SetCounter.Count | spacy_pl/ner/conversion/wroc_to_raw_internal.py:16-20 | adds `times` to `k`, creating it when it is absent |
| RawCorpus.SetCounter.Merge | spacy_pl/ner/conversion/wroc_to_raw_internal.py:22-24 | the counts of the other counter are added key by key, also when it is the same counter |
| RawCorpus.Counted | spacy_pl/ner/conversion/wroc_to_raw_internal.py:16-20 | the counts after one `count`; `RawCorpus.CountedMeaning` states that `times` is added to `k` and that every other key is unchanged |
| RawCorpus.CountedMeaning | spacy_pl/ner/conversion/wroc_to_raw_internal.py:16-20 | counting adds `times` to `k` and leaves every other key unchanged |
| RawCorpus.Merged | spacy_pl/ner/conversion/wroc_to_raw_internal.py:22-24 | the counts after `merge`; `RawCorpus.MergedCounts` states that the keys are those of either side and each count is the sum of both |
| RawCorpus.MergedCounts | spacy_pl/ner/conversion/wroc_to_raw_internal.py:22-24 | a key is in the merge iff it is in either side, and its count is the sum of both |
| RawCorpus.MergeIntoEmpty | spacy_pl/ner/conversion/wroc_to_raw_internal.py:22-24 | merging into an empty counter copies the other one |
| RawCorpus.MergeSelf | spacy_pl/ner/conversion/wroc_to_raw_internal.py:22-24 | merging a counter into itself doubles every count |
| RawCorpus.NamAttribs | spacy_pl/ner/conversion/wroc_to_raw_internal.py:34-36 | the `attribs` built from a token's records; `RawCorpus.NamAttribsOne`, `RawCorpus.NamAttribsAppend` and `RawCorpus.NamAttribsKept` state that it holds one `{chan: text}` per record whose channel ends in `nam`, in record order |
| RawCorpus.NamAttribsAppend | spacy_pl/ner/conversion/wroc_to_raw_internal.py:34-36 | the filter works record by record: the kept dicts of two lists of records are those of each list, joined |
| RawCorpus.NamAttribsKept | spacy_pl/ner/conversion/wroc_to_raw_internal.py:34-36 | every kept dict is one `{chan: text}` of a record whose channel ends in `nam`, and every such record is kept |
| RawCorpus.ProcessToken | spacy_pl/ner/conversion/wroc_to_raw_internal.py:31-38 | the token has the `orth` text, the kept `nam` dicts in order, and the given id |
| RawCorpus.NumberedIds | spacy_pl/ner/conversion/wroc_to_raw_internal.py:104-110 | the ids of a file's tokens are `start, start + 1, …` across sentences |
| RawCorpus.NumberedTokens | spacy_pl/ner/conversion/wroc_to_raw_internal.py:105-110 | each token keeps its text and its `nam` annotations, at its sentence and position |
| RawCorpus.ExtractedLayout | spacy_pl/ner/conversion/wroc_to_raw_internal.py:99-116 | document `k` has id `k`, one paragraph with one sentence per sentence of file `k`, and token ids `0 .. n-1` |
| RawCorpus.ExtractSentence | spacy_pl/ner/conversion/wroc_to_raw_internal.py:106-110 | the sentence's tokens numbered from `id`, and the counter moved past them |
| RawCorpus.ExtractDocuments | spacy_pl/ner/conversion/wroc_to_raw_internal.py:99-118 | the nested loops build exactly the extracted corpus |
| RawCorpus.ExtractCorpus | spacy_pl/ner/conversion/wroc_to_raw_internal.py:97-118 | a fresh corpus tree of fresh objects holding the extracted corpus |
| RawCorpus.ToInternalJson | spacy_pl/ner/conversion/wroc_to_raw_internal.py:128-136 | the written JSON is the internal encoding of the extracted corpus, and it reads back as exactly that corpus |
| PosConverter.MakeToken | spacy_pl/conversion/converter.py:65-73 | a token with the given id, text and tag and head 0; `PosConverter.SentenceMeaning` states the tokens of a sentence built from it |
| PosConverter.TagConversion | spacy_pl/conversion/converter.py:48-53 | a tag changes only through the table; without an active table, or for a tag not in it, the tag is kept; otherwise it becomes the table's entry |
| PosConverter.WarningsMeaning | spacy_pl/conversion/converter.py:49-53 | a tag is warned about iff some token carries it and the active table lacks it; there are no warnings without an active table |
| PosConverter.MakeSentence | spacy_pl/conversion/converter.py:44-62 | the loop builds the specified sentence and prints the specified warnings, in order |
| PosConverter.SentenceMeaning | spacy_pl/conversion/converter.py:44-73 | one token per pair, in order, with ids `start, start + 1, …`, `head` 0, the pair's word and the converted tag |
| PosConverter.MakeParagraph | spacy_pl/conversion/converter.py:24-41 | sentence `k` is numbered from the start plus the reported sizes of the sentences before it; the returned count is the sum of the sizes; warnings appear in order |
| PosConverter.ParagraphAt | spacy_pl/conversion/converter.py:28-34 | sentence `j` of the paragraph is converted from `starting_id` plus the offset of the sentences before it |
| PosConverter.OffsetAsWritten | spacy_pl/conversion/converter.py:32-34 | as written, every sentence moves the counter by one |
| PosConverter.OverlappingIds | spacy_pl/conversion/converter.py:29-33 | as written, the second token of a sentence and the first token of the next one get the same id |
| PosConverter.AsWrittenExample | spacy_pl/conversion/converter.py:24-41 | two two-token sentences are numbered `0, 1, 1, 2` as written |
| PosConverter.ContiguousParagraph | spacy_pl/conversion/converter.py:24-41 | with the intended size (the token count), a paragraph numbers its tokens `start, start + 1, …` with no gap or repeat |
| PosConverter.MakeDocument | spacy_pl/conversion/converter.py:8-21 | paragraph `k` starts at the sum of the sizes of the paragraphs before it; warnings appear in order |
| PosConverter.DocumentTokens | spacy_pl/conversion/converter.py:8-73 | every output token sits at the position of its pair, with id equal to the paragraph offset plus the sentence offset plus the position, `head` 0, the converted tag and the word |
| PosConverter.DocumentOffsetAsWritten | spacy_pl/conversion/converter.py:10-14 | as written, a paragraph starts at the number of sentences before it |
| PosConverter.NoTableNoWarnings | spacy_pl/conversion/converter.py:49-53 | without an active table a document prints no warning |
| PosConverter.ContiguousDocument | spacy_pl/conversion/converter.py:8-21 | with the intended size, the ids of a document are `0, 1, …, n-1` |
| IspellRules.GetRule | spacy_pl/lemmatizer/convert_ispell_to_json_rules.py:7-17 | the rule of one code; `IspellRules.GetRuleMeaning` states when it succeeds and what it gives, and `IspellRules.AppendingRule`, `IspellRules.ReplacingRule` and `IspellRules.DashEnding` state the rule of each kind of ending |
| IspellRules.GetRuleMeaning | spacy_pl/lemmatizer/convert_ispell_to_json_rules.py:7-17 | succeeds iff the code has exactly one `>` and at most one `,` after it; otherwise `ValueError`; the lemma suffix is the text before `>` |
| IspellRules.ApplyEnding | spacy_pl/lemmatizer/convert_ispell_to_json_rules.py:9-16 | the ending unpacks iff it has at most one `,`; otherwise `ValueError`; the lemma suffix is kept |
| IspellRules.RuleParts | spacy_pl/lemmatizer/convert_ispell_to_json_rules.py:8 | a code with one `>` is its lemma suffix and its ending |
| IspellRules.AppendingRule | spacy_pl/lemmatizer/convert_ispell_to_json_rules.py:14-16 | an ending without `,` is appended to the lemma suffix |
| IspellRules.ReplaceEnding | spacy_pl/lemmatizer/convert_ispell_to_json_rules.py:9-13 | an ending `S,Y` drops as many characters as `S` has after its first one, then appends the stripped `Y` |
| IspellRules.ReplacingRule | spacy_pl/lemmatizer/convert_ispell_to_json_rules.py:7-17 | the usual code `STEMX>-X,Y` gives the rule `[STEMY, STEMX]` |
| IspellRules.NothingToStrip | spacy_pl/lemmatizer/convert_ispell_to_json_rules.py:11-13 | with `-,Y`, Python's `s[:-0]` is empty, so the word suffix is `Y` alone and not the lemma suffix plus `Y` |
| IspellRules.SplitOnComment | spacy_pl/lemmatizer/convert_ispell_to_json_rules.py:47-58 | fails with `IndexError` iff the line is empty; the code holds no space and no `#` |
| IspellRules.CommentLine | spacy_pl/lemmatizer/convert_ispell_to_json_rules.py:48-50 | a line opening with `#` is all comment, later `#`s included |
| IspellRules.CodeLine | spacy_pl/lemmatizer/convert_ispell_to_json_rules.py:52-58 | a line without `#` is all code, stripped and without spaces |
| IspellRules.CodeAndComment | spacy_pl/lemmatizer/convert_ispell_to_json_rules.py:52-58 | code, then the comment up to the end or to the next `#` |
| IspellRules.SplitOnCommentChars | spacy_pl/lemmatizer/convert_ispell_to_json_rules.py:47-58 | code and comment hold only characters of the line |
| IspellRules.Skipped | spacy_pl/lemmatizer/convert_ispell_to_json_rules.py:40-44 | the lines after the header; `IspellRules.SkippedMeaning` states that it succeeds iff some line contains `suffixes` and then gives the lines after the first such line, and fails with `IndexError` otherwise |
| IspellRules.SkippedMeaning | spacy_pl/lemmatizer/convert_ispell_to_json_rules.py:40-44 | succeeds iff some line contains `suffixes`, then gives the lines after the first such line; otherwise `IndexError` |
| IspellRules.SkipUninteresting | spacy_pl/lemmatizer/convert_ispell_to_json_rules.py:40-44 | the `while` loop computes `Skipped` |
| IspellRules.Extracted | spacy_pl/lemmatizer/convert_ispell_to_json_rules.py:29-37 | the lines of the rule section, split into code and comment; `IspellRules.ExtractedLines` states when it fails and what every kept line is like |
| IspellRules.ExtractInformation | spacy_pl/lemmatizer/convert_ispell_to_json_rules.py:29-37 | the sequence of comprehensions computes `Extracted` |
| IspellRules.ExtractedLines | spacy_pl/lemmatizer/convert_ispell_to_json_rules.py:29-37 | fails, with `IndexError`, iff no stripped line contains `suffixes`; every line kept has a code or a comment, no tab, and a code without spaces or `#` |
| IspellRules.Flagged | spacy_pl/lemmatizer/convert_ispell_to_json_rules.py:20-26 | the entries `read_flag` yields; `IspellRules.FlaggedMeaning`, `IspellRules.FlaggedLines` and `IspellRules.FlaggedFlags` state when it fails and what each entry is |
| IspellRules.FlaggedMeaning | spacy_pl/lemmatizer/convert_ispell_to_json_rules.py:20-26 | fails, with `IndexError`, iff some `flag*` line has no character after `flag*` |
| IspellRules.FlaggedLines | spacy_pl/lemmatizer/convert_ispell_to_json_rules.py:20-26 | the entries are the lines that are not flag lines, in order, each with its code and its comment, and a flag that is either the starting flag or one character |
| IspellRules.LastFlag | spacy_pl/lemmatizer/convert_ispell_to_json_rules.py:20-26 | the flag in force after some lines: the starting flag when none of them is a flag line, otherwise the flag character of the last flag line among them |
| IspellRules.FlaggedFlags | spacy_pl/lemmatizer/convert_ispell_to_json_rules.py:20-26 | a line that is not a flag line yields, at its place among such lines, the entry of its code, its comment and the flag of the last flag line before it, or the starting flag (`NO_FLAG` from `parse_aff_lines`) when there is none |
| IspellRules.FlaggedEntries | spacy_pl/lemmatizer/convert_ispell_to_json_rules.py:20-26 | entries of entry lines have a code or a comment |
| IspellRules.ReadFlag | spacy_pl/lemmatizer/convert_ispell_to_json_rules.py:20-26 | the generator, run to the end, yields exactly `Flagged(lines, "NO_FLAG")` |
| IspellRules.RuleTableAdd | spacy_pl/lemmatizer/convert_ispell_to_json_rules.py:71-73 | a rule entry appends its rule to the list of its flag and leaves every other flag unchanged |
| IspellRules.CommentTableAdd | spacy_pl/lemmatizer/convert_ispell_to_json_rules.py:68-69 | a comment entry appends its comment to the list of its flag |
| IspellRules.Step | spacy_pl/lemmatizer/convert_ispell_to_json_rules.py:66-76 | one turn of the loop body over the tables; `IspellRules.StepTables` states when it accepts an entry and that it then adds exactly that entry |
| IspellRules.StepTables | spacy_pl/lemmatizer/convert_ispell_to_json_rules.py:66-76 | the loop body accepts an entry iff it is a comment or a valid rule, and then extends the tables by exactly that entry |
| IspellRules.Parse | spacy_pl/lemmatizer/convert_ispell_to_json_rules.py:61-78 | the loop over the lazy generator; `IspellRules.ParseMeaning` and `IspellRules.ParseErrors` state when it succeeds, what tables it builds and which errors it can raise |
| IspellRules.ParseMeaning | spacy_pl/lemmatizer/convert_ispell_to_json_rules.py:61-78 | the loop over the lazy generator succeeds iff every flag line names a flag and every entry is accepted; then the tables are those of all entries, per flag and in file order |
| IspellRules.ParseErrors | spacy_pl/lemmatizer/convert_ispell_to_json_rules.py:66-76 | on extracted lines the "Unexpected empty line" exception cannot occur; only `IndexError` or `ValueError` can |
| IspellRules.ParseAffLines | spacy_pl/lemmatizer/convert_ispell_to_json_rules.py:61-78 | the loop with its two `defaultdict`s computes `ParseAff` |
| IspellRules.TablesEmpty | spacy_pl/lemmatizer/convert_ispell_to_json_rules.py:64-65 | no entries give two empty tables |
| IspellRules.ParseAffMeaning | spacy_pl/lemmatizer/convert_ispell_to_json_rules.py:61-78 | succeeds iff there is a `suffixes` line, every flag line names a flag and every rule code is valid; errors are `IndexError` or `ValueError`; the result holds, per flag, the rules and the comments of its entries in file order |
| LemmaIndex.DecodeAndSplit | spacy_pl/lemmatizer/build_lemma_index.py:14-18 | one item per line: the stripped line split on `/`, or the word with `NO_FLAG` |
| LemmaIndex.SplitLine | spacy_pl/lemmatizer/build_lemma_index.py:16-17 | the parts of one line; `LemmaIndex.SplitLinePair`, `LemmaIndex.WordWithFlags` and `LemmaIndex.BareWord` state what they are |
| LemmaIndex.SplitLinePair | spacy_pl/lemmatizer/build_lemma_index.py:16-17 | an item is a pair iff the line has at most one `/`; it never has fewer than two parts |
| LemmaIndex.WordWithFlags | spacy_pl/lemmatizer/build_lemma_index.py:16 | `word/flags` gives the word and its flags |
| LemmaIndex.BareWord | spacy_pl/lemmatizer/build_lemma_index.py:16-17 | a word without `/` gets the flag string `NO_FLAG` |
| LemmaIndex.DecodedPairs | spacy_pl/lemmatizer/build_lemma_index.py:14-18 | the decoded list unpacks into pairs iff no stripped line has two `/` |
| LemmaIndex.WordsForCount | spacy_pl/lemmatizer/build_lemma_index.py:6-11 | the list of `f` holds one word per occurrence of `f` in the flag strings |
| LemmaIndex.WordsForMembers | spacy_pl/lemmatizer/build_lemma_index.py:6-11 | a word is under `f` iff some item has that word and `f` among its flags (both directions) |
| LemmaIndex.NoFlagCounts | spacy_pl/lemmatizer/build_lemma_index.py:16 | each character of `NO_FLAG` occurs in it once |
| LemmaIndex.BareWordIndex | spacy_pl/lemmatizer/build_lemma_index.py:6-17 | a bare word is filed once under each of `N`, `O`, `_`, `F`, `L`, `A`, `G` |
| LemmaIndex.MakeFlagWordDict | spacy_pl/lemmatizer/build_lemma_index.py:6-11 | the nested loops succeed iff every item is a pair, otherwise `ValueError` from unpacking; the result is the index `WordIndex` |

## Left out

- File and terminal I/O is not modelled. This covers the `click` commands,
  `open`/`json.load`/`json.dump`, `os.makedirs`, directory listing
  (`get_subdirs`) and reading the KPWr index (`get_file_paths`). Inputs are
  parameters and outputs are results.
- The XML parsing of KPWr files is not modelled (`ET.parse`,
  `get_file_iterator`, `get_sentence_iterator`). A file is given as its
  sentences of `<tok>` records, each with its `orth` text and its
  `(chan, text)` `<ann>` records.
- The assertion in `get_file_iterator` on file names ending in `rel.xml` or
  `.ini` is not modelled, because file names are not modelled.
- The NLTK `TaggedCorpusReader` of the POS converter is not modelled. Its
  tagged paragraphs are the input.
- Byte decoding from ISO-8859-2 is not modelled. Lines are given already
  decoded, as strings.
- `random.sample` in `get_any_label` is a nondeterministic choice of a set
  member. The picker's results are stated for every possible choice. This
  follows Python before 3.11, where `random.sample` still accepts a set.
  From Python 3.11 on it raises `TypeError` for a set, so there `pick_tags`
  raises `TypeError` wherever the model reports a run.
- The `print` warnings of `make_sentence` are an output list of the tags
  named, in print order.
- The key order of the dicts `json.dump` writes is not modelled. Each JSON
  object is a record.
- `get_common_tag`, `get_all_labels` and `get_all_labels_with_cardinalities`
  are not modelled. They are defined in both KPWr readers but never called.
- `Token.__str__` is not modelled. It only formats text for printing.
- Code duplicated in the KPWr readers is modelled once. This covers
  `setCounter`, `process_token`, `extract_corpus`, `map_labels`,
  `still_in_sequence`, `get_longest_sequences`, `pick_tags` and
  `convert_to_biluo`. Each copy is identical, up to formatting, to the other
  copy or to the standalone module's version. For example, `set_biluo.py`
  writes `assert False` where `wroc_to_raw_spacy.py` writes `assert (False)`.
- The label map commented out in `wroc_to_raw_internal.py` `main` is not
  modelled.
- Only the rule table of `parse_aff_lines` is written by its `main`. The
  model still computes and specifies the comment table.
- The laziness of `read_flag` is not modelled as a generator. Its effect on
  the error order is kept: `Parse` interleaves the generator with the loop
  body, so the first error in file order is the one raised.
- The benchmark, flag-to-POS mapping, language-model preprocessing and
  training scripts are not part of this model.

## Findings

| source | as written | input that shows it | evidently intended | confidence | as-written member | corrected member |
|---|---|---|---|---|---|---|
| spacy_pl/ner/conversion/data_types.py:110-116 | `TokenSpacy.to_json` calls `get_NE()`. It iterates over the dicts of `attribs`, but a `TokenSpacy` holds its tag string (or `None`) there, so indexing a character with a character raises `TypeError` | a corpus holding a token tagged `U-GPE`, converted by `internal_to_spacy.py` | write the tag itself as `'ner'`, as the writer of `wroc_to_raw_spacy.py:58-65` does | not executed | DataTypes.TokenSpacy.ToJsonAsWritten, InternalToSpacy.InternalToSpacyFails | DataTypes.TokenSpacy.ToJson, InternalToSpacy.ConvertedJson |
| spacy_pl/conversion/converter.py:32 | `sentence_size = len(converted_sentence)` takes the length of the dict `{"tokens": …}`, which is always 1, so ids overlap from the second sentence on | two sentences of two pairs each are numbered `0, 1, 1, 2` | `len(converted_sentence["tokens"])`, which numbers a document's tokens `0, 1, …, n-1` | not executed | PosConverter.OverlappingIds, PosConverter.AsWrittenExample | PosConverter.ContiguousParagraph, PosConverter.ContiguousDocument |
