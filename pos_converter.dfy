/** The NKJP part-of-speech converter: tagged paragraphs of `(word, tag)`
    pairs become spaCy training documents whose tokens carry an id, a `head`
    of 0, an optionally converted tag and the word. Token ids run on from
    sentence to sentence and from paragraph to paragraph of a document, by
    the amount each sentence reports as its size. */
module PosConverter {
  import opened Wrappers

  /** One `(word, tag)` pair as the tagged-corpus reader yields it. */
  datatype TaggedWord = TaggedWord(word: string, tag: string)

  /** The output records: the dicts `make_token`, `make_sentence`,
      `make_paragraph` and `make_document` build. */
  datatype PosToken = PosToken(id: int, head: int, tag: string, orth: string)
  datatype PosSentence = PosSentence(tokens: seq<PosToken>)
  datatype PosParagraph = PosParagraph(sentences: seq<PosSentence>)
  datatype PosDocument = PosDocument(id: int, paragraphs: seq<PosParagraph>)

  /** The conversion table, `None` when no table file is given. */
  type ConversionMap = Option<map<string, string>>

  /** `make_token`: the dependency head is not known and is always 0. */
  function MakeToken(id: int, orth: string, tag: string): PosToken
  {
    PosToken(id, 0, tag, orth)
  }

  /** `if conversion_map:` is false for `None` and for an empty table. */
  predicate Active(m: ConversionMap)
  {
    m.Some? && |m.value| > 0
  }

  /** The tag `make_sentence` writes: the table's entry when the table is
      active and has one, and otherwise the tag itself. */
  function ConvertTag(m: ConversionMap, tag: string): string
  {
    if Active(m) && tag in m.value then m.value[tag] else tag
  }

  /** A tag is warned about when the table is active and lacks it. */
  predicate Warned(m: ConversionMap, tag: string)
  {
    Active(m) && tag !in m.value
  }

  /** A tag changes only through the table, and stays as it is without an
      active table or with one that lacks it. */
  lemma TagConversion(m: ConversionMap, tag: string)
    ensures ConvertTag(m, tag) != tag ==> m.Some? && tag in m.value && ConvertTag(m, tag) == m.value[tag]
    ensures !Active(m) || Warned(m, tag) ==> ConvertTag(m, tag) == tag
    ensures Active(m) && !Warned(m, tag) ==> ConvertTag(m, tag) == m.value[tag]
  {
  }

  /** The sentence `make_sentence` builds from `tokens` starting at id
      `start`. */
  function SentenceOf(tokens: seq<TaggedWord>, start: int, m: ConversionMap): PosSentence
  {
    PosSentence(seq(|tokens|, i requires 0 <= i < |tokens| => MakeToken(start + i, tokens[i].word, ConvertTag(m, tokens[i].tag))))
  }

  /** The warnings `make_sentence` prints, as the list of the tags named, in
      input order. */
  function Warnings(tokens: seq<TaggedWord>, m: ConversionMap): seq<string>
  {
    if tokens == [] then []
    else Warnings(tokens[..|tokens| - 1], m) + (if Warned(m, tokens[|tokens| - 1].tag) then [tokens[|tokens| - 1].tag] else [])
  }

  /** A tag is warned about exactly when some token carries it and the active
      table lacks it; without an active table nothing is printed. */
  lemma {:induction false} WarningsMeaning(tokens: seq<TaggedWord>, m: ConversionMap, w: string)
    ensures w in Warnings(tokens, m) <==> Warned(m, w) && exists i :: 0 <= i < |tokens| && tokens[i].tag == w
    ensures !Active(m) ==> Warnings(tokens, m) == []
  {
    if tokens != [] {
      var pre := tokens[..|tokens| - 1];
      WarningsMeaning(pre, m, w);
      if Warned(m, w) && (exists i :: 0 <= i < |tokens| && tokens[i].tag == w) {
        var i :| 0 <= i < |tokens| && tokens[i].tag == w;
        if i < |pre| {
          assert pre[i].tag == w;
        }
      }
      if exists i :: 0 <= i < |pre| && pre[i].tag == w {
        var i :| 0 <= i < |pre| && pre[i].tag == w;
        assert tokens[i].tag == w;
      }
    }
  }

  /** `make_sentence`: one token per pair, numbered from `starting_id` in
      input order, with the tag converted; `warnings` is what it prints. */
  method MakeSentence(tokens: seq<TaggedWord>, startingId: int, m: ConversionMap)
    returns (sentence: PosSentence, warnings: seq<string>)
    ensures sentence == SentenceOf(tokens, startingId, m)
    ensures warnings == Warnings(tokens, m)
  {
    var converted: seq<PosToken> := [];
    warnings := [];
    var id := startingId;
    for i := 0 to |tokens|
      invariant id == startingId + i
      invariant converted == SentenceOf(tokens[..i], startingId, m).tokens
      invariant warnings == Warnings(tokens[..i], m)
    {
      var tag := tokens[i].tag;
      if Active(m) {
        if tag in m.value {
          tag := m.value[tag];
        } else {
          warnings := warnings + [tag];
        }
      }
      converted := converted + [MakeToken(id, tokens[i].word, tag)];
      id := id + 1;
      assert tokens[..i + 1][..i] == tokens[..i];
    }
    assert tokens[..|tokens|] == tokens;
    sentence := PosSentence(converted);
  }

  /** The ids of a sentence's tokens, in order. */
  function SentenceIds(s: PosSentence): seq<int>
  {
    seq(|s.tokens|, i requires 0 <= i < |s.tokens| => s.tokens[i].id)
  }

  /** `start, start + 1, ..., start + n - 1`. */
  function Range(start: int, n: nat): seq<int>
  {
    seq(n, i requires 0 <= i < n => start + i)
  }

  /** `ids` is `start, start + 1, ...`: no gap and no repeat. */
  ghost predicate NumberedFrom(ids: seq<int>, start: int)
  {
    forall i :: 0 <= i < |ids| ==> ids[i] == start + i
  }

  lemma NumberedRange(ids: seq<int>, start: int)
    ensures NumberedFrom(ids, start) <==> ids == Range(start, |ids|)
  {
  }

  lemma NumberedAppend(a: seq<int>, b: seq<int>, start: int)
    requires NumberedFrom(a, start) && NumberedFrom(b, start + |a|)
    ensures NumberedFrom(a + b, start)
  {
  }

  /** A sentence keeps the number and order of its pairs, numbers them from
      `start` without gaps, gives every token head 0, keeps the word and
      converts the tag. */
  lemma SentenceMeaning(tokens: seq<TaggedWord>, start: int, m: ConversionMap)
    ensures var s := SentenceOf(tokens, start, m);
            && |s.tokens| == |tokens|
            && SentenceIds(s) == Range(start, |tokens|)
            && forall i :: 0 <= i < |tokens| ==>
                 s.tokens[i].head == 0 && s.tokens[i].orth == tokens[i].word
                 && s.tokens[i].tag == ConvertTag(m, tokens[i].tag)
  {
  }

  /** The ids of a converted sentence are numbered from its start. */
  lemma SentenceNumbered(tokens: seq<TaggedWord>, start: int, m: ConversionMap)
    ensures |SentenceOf(tokens, start, m).tokens| == |tokens| && NumberedFrom(SentenceIds(SentenceOf(tokens, start, m)), start)
  {
  }

  /** How far `make_paragraph` moves the id counter after a converted
      sentence. The source uses `len(converted_sentence)`, the number of keys
      of the dict `{"tokens": [...]}`, which is always 1; the evidently
      intended measure is the number of tokens. */
  datatype Numbering = AsWritten | Contiguous

  function SentenceSize(n: Numbering, s: PosSentence): nat
  {
    match n
    case AsWritten => 1
    case Contiguous => |s.tokens|
  }

  /** The size of the sentence converted from `tokens`. */
  function Advance(n: Numbering, tokens: seq<TaggedWord>): nat
  {
    match n
    case AsWritten => 1
    case Contiguous => |tokens|
  }

  /** The size does not depend on the start id or the table. */
  lemma AdvanceOfConverted(n: Numbering, tokens: seq<TaggedWord>, start: int, m: ConversionMap)
    ensures SentenceSize(n, SentenceOf(tokens, start, m)) == Advance(n, tokens)
  {
  }

  /** The sum of the sizes of the sentences converted from `sentences`. */
  function SentencesSize(n: Numbering, sentences: seq<seq<TaggedWord>>): nat
  {
    if sentences == [] then 0 else SentencesSize(n, sentences[..|sentences| - 1]) + Advance(n, sentences[|sentences| - 1])
  }

  /** How far the counter has moved after the first `k` sentences. */
  function Offset(n: Numbering, sentences: seq<seq<TaggedWord>>, k: nat): nat
    requires k <= |sentences|
  {
    SentencesSize(n, sentences[..k])
  }

  lemma OffsetStep(n: Numbering, sentences: seq<seq<TaggedWord>>, k: nat)
    requires k < |sentences|
    ensures Offset(n, sentences, k + 1) == Offset(n, sentences, k) + Advance(n, sentences[k])
  {
    assert sentences[..k + 1][..k] == sentences[..k];
  }

  /** The sentences `make_paragraph` builds: sentence `k` is numbered from
      `start` plus the sizes of the sentences before it. */
  function ParagraphOf(sentences: seq<seq<TaggedWord>>, start: int, m: ConversionMap, n: Numbering): seq<PosSentence>
  {
    seq(|sentences|, k requires 0 <= k < |sentences| => SentenceOf(sentences[k], start + Offset(n, sentences, k), m))
  }

  lemma ParagraphAt(sentences: seq<seq<TaggedWord>>, start: int, m: ConversionMap, n: Numbering, j: nat)
    requires j < |sentences|
    ensures |ParagraphOf(sentences, start, m, n)| == |sentences|
    ensures ParagraphOf(sentences, start, m, n)[j] == SentenceOf(sentences[j], start + Offset(n, sentences, j), m)
  {
  }

  /** What the first `k` sentences of a paragraph print, in order. */
  function ParagraphWarnings(sentences: seq<seq<TaggedWord>>, m: ConversionMap): seq<string>
  {
    if sentences == [] then []
    else ParagraphWarnings(sentences[..|sentences| - 1], m) + Warnings(sentences[|sentences| - 1], m)
  }

  lemma ParagraphWarningsStep(sentences: seq<seq<TaggedWord>>, k: nat, m: ConversionMap)
    requires k < |sentences|
    ensures ParagraphWarnings(sentences[..k + 1], m) == ParagraphWarnings(sentences[..k], m) + Warnings(sentences[k], m)
  {
    assert sentences[..k + 1][..k] == sentences[..k];
  }

  /** `make_paragraph`: the sentences converted in order, the counter moved
      by each converted sentence's size; `tokensNum` is the sum of those
      sizes. */
  method MakeParagraph(sentences: seq<seq<TaggedWord>>, startingId: int, m: ConversionMap, n: Numbering)
    returns (paragraph: PosParagraph, tokensNum: int, warnings: seq<string>)
    ensures paragraph == PosParagraph(ParagraphOf(sentences, startingId, m, n))
    ensures tokensNum == SentencesSize(n, sentences)
    ensures warnings == ParagraphWarnings(sentences, m)
  {
    var converted: seq<PosSentence> := [];
    tokensNum := 0;
    warnings := [];
    var start := startingId;
    for k := 0 to |sentences|
      invariant |converted| == k
      invariant forall j {:trigger converted[j]} :: 0 <= j < k ==> converted[j] == SentenceOf(sentences[j], startingId + Offset(n, sentences, j), m)
      invariant tokensNum == Offset(n, sentences, k)
      invariant start == startingId + tokensNum
      invariant warnings == ParagraphWarnings(sentences[..k], m)
    {
      var sentence, printed := MakeSentence(sentences[k], start, m);
      converted := converted + [sentence];
      warnings := warnings + printed;
      var size := SentenceSize(n, sentence);
      AdvanceOfConverted(n, sentences[k], start, m);
      OffsetStep(n, sentences, k);
      ParagraphWarningsStep(sentences, k, m);
      start := start + size;
      tokensNum := tokensNum + size;
    }
    assert sentences[..|sentences|] == sentences;
    ghost var spec := ParagraphOf(sentences, startingId, m, n);
    forall j | 0 <= j < |sentences| ensures converted[j] == spec[j] {
    }
    assert converted == spec;
    paragraph := PosParagraph(converted);
  }

  /** As written every sentence moves the counter by one, so sentence `k`
      starts at `start + k` and `tokens_num` is the number of sentences. */
  lemma {:induction false} OffsetAsWritten(sentences: seq<seq<TaggedWord>>, k: nat)
    requires k <= |sentences|
    ensures Offset(AsWritten, sentences, k) == k
  {
    if k > 0 {
      OffsetAsWritten(sentences, k - 1);
      OffsetStep(AsWritten, sentences, k - 1);
    }
  }

  /** Two ids collide as written: the second token of a sentence of two or
      more tokens has the id of the first token of the next sentence. */
  lemma OverlappingIds(sentences: seq<seq<TaggedWord>>, start: int, m: ConversionMap, k: nat)
    requires k + 1 < |sentences| && |sentences[k]| >= 2 && |sentences[k + 1]| >= 1
    ensures var ps := ParagraphOf(sentences, start, m, AsWritten);
            ps[k].tokens[1].id == ps[k + 1].tokens[0].id == start + k + 1
  {
    OffsetAsWritten(sentences, k);
    OffsetAsWritten(sentences, k + 1);
  }

  /** The ids of all tokens of a list of sentences, in order. */
  function ParagraphIds(ss: seq<PosSentence>): seq<int>
  {
    if ss == [] then [] else ParagraphIds(ss[..|ss| - 1]) + SentenceIds(ss[|ss| - 1])
  }

  lemma ParagraphIdsStep(ss: seq<PosSentence>, k: nat)
    requires k < |ss|
    ensures ParagraphIds(ss[..k + 1]) == ParagraphIds(ss[..k]) + SentenceIds(ss[k])
  {
    assert ss[..k + 1][..k] == ss[..k];
  }

  /** A two-sentence paragraph of two tokens each, numbered as written:
      the ids are 0, 1 and then 1, 2. */
  lemma AsWrittenExample()
    ensures var example := [[TaggedWord("Ala", "subst"), TaggedWord("ma", "fin")],
                            [TaggedWord("kota", "subst"), TaggedWord(".", "interp")]];
            ParagraphIds(ParagraphOf(example, 0, None, AsWritten)) == [0, 1, 1, 2]
  {
    var example := [[TaggedWord("Ala", "subst"), TaggedWord("ma", "fin")],
                    [TaggedWord("kota", "subst"), TaggedWord(".", "interp")]];
    var ps := ParagraphOf(example, 0, None, AsWritten);
    OffsetAsWritten(example, 1);
    assert SentenceIds(ps[0]) == [0, 1];
    assert SentenceIds(ps[1]) == [1, 2];
    ParagraphIdsStep(ps, 0);
    ParagraphIdsStep(ps, 1);
    assert ps[..0] == [];
    assert ps[..2] == ps;
  }

  /** Sentences of the sizes of `sentences` whose ids are numbered from
      their offsets give consecutive ids: the first `k` are numbered from
      `start` and there are as many as their pairs. */
  lemma {:induction false} ConsecutiveSentences(ss: seq<PosSentence>, sentences: seq<seq<TaggedWord>>, start: int, k: nat)
    requires |ss| == |sentences| && k <= |ss|
    requires forall j {:trigger ss[j]} :: 0 <= j < |ss| ==>
               |ss[j].tokens| == |sentences[j]| && NumberedFrom(SentenceIds(ss[j]), start + Offset(Contiguous, sentences, j))
    ensures |ParagraphIds(ss[..k])| == Offset(Contiguous, sentences, k) && NumberedFrom(ParagraphIds(ss[..k]), start)
  {
    if k == 0 {
      assert ss[..0] == [];
      assert sentences[..0] == [];
    } else {
      ConsecutiveSentences(ss, sentences, start, k - 1);
      ParagraphIdsStep(ss, k - 1);
      OffsetStep(Contiguous, sentences, k - 1);
      assert |ss[k - 1].tokens| == |sentences[k - 1]|;
      NumberedAppend(ParagraphIds(ss[..k - 1]), SentenceIds(ss[k - 1]), start);
    }
  }

  lemma ParagraphSentenceNumbered(sentences: seq<seq<TaggedWord>>, start: int, m: ConversionMap, j: nat)
    requires j < |sentences|
    ensures |ParagraphOf(sentences, start, m, Contiguous)| == |sentences|
    ensures var s := ParagraphOf(sentences, start, m, Contiguous)[j];
            |s.tokens| == |sentences[j]| && NumberedFrom(SentenceIds(s), start + Offset(Contiguous, sentences, j))
  {
    ParagraphAt(sentences, start, m, Contiguous, j);
    SentenceNumbered(sentences[j], start + Offset(Contiguous, sentences, j), m);
  }

  /** So with the intended size a paragraph numbers its tokens
      `start, start + 1, ...` across its sentences, and its `tokens_num` is
      the number of pairs, which moves the next paragraph past them. */
  lemma ContiguousParagraph(sentences: seq<seq<TaggedWord>>, start: int, m: ConversionMap)
    ensures var ids := ParagraphIds(ParagraphOf(sentences, start, m, Contiguous));
            |ids| == SentencesSize(Contiguous, sentences) && NumberedFrom(ids, start)
  {
    var ps := ParagraphOf(sentences, start, m, Contiguous);
    forall j | 0 <= j < |ps|
      ensures |ps[j].tokens| == |sentences[j]| && NumberedFrom(SentenceIds(ps[j]), start + Offset(Contiguous, sentences, j))
    {
      ParagraphSentenceNumbered(sentences, start, m, j);
    }
    ConsecutiveSentences(ps, sentences, start, |ps|);
    assert ps[..|sentences|] == ps;
    assert sentences[..|sentences|] == sentences;
  }

  /** `starting_id` after the first `k` paragraphs: the sum of their
      `tokens_num`. */
  function ParagraphsSize(n: Numbering, paragraphs: seq<seq<seq<TaggedWord>>>): nat
  {
    if paragraphs == [] then 0
    else ParagraphsSize(n, paragraphs[..|paragraphs| - 1]) + SentencesSize(n, paragraphs[|paragraphs| - 1])
  }

  function DocumentOffset(n: Numbering, paragraphs: seq<seq<seq<TaggedWord>>>, k: nat): nat
    requires k <= |paragraphs|
  {
    ParagraphsSize(n, paragraphs[..k])
  }

  lemma DocumentOffsetStep(n: Numbering, paragraphs: seq<seq<seq<TaggedWord>>>, k: nat)
    requires k < |paragraphs|
    ensures DocumentOffset(n, paragraphs, k + 1) == DocumentOffset(n, paragraphs, k) + SentencesSize(n, paragraphs[k])
  {
    assert paragraphs[..k + 1][..k] == paragraphs[..k];
  }

  /** The paragraphs `make_document` builds: paragraph `k` starts at the sum
      of the `tokens_num` of the paragraphs before it. */
  function DocumentOf(paragraphs: seq<seq<seq<TaggedWord>>>, m: ConversionMap, n: Numbering): seq<PosParagraph>
  {
    seq(|paragraphs|, k requires 0 <= k < |paragraphs| => PosParagraph(ParagraphOf(paragraphs[k], DocumentOffset(n, paragraphs, k), m, n)))
  }

  /** What the first `k` paragraphs of a document print, in order. */
  function DocumentWarnings(paragraphs: seq<seq<seq<TaggedWord>>>, m: ConversionMap): seq<string>
  {
    if paragraphs == [] then []
    else DocumentWarnings(paragraphs[..|paragraphs| - 1], m) + ParagraphWarnings(paragraphs[|paragraphs| - 1], m)
  }

  lemma DocumentWarningsStep(paragraphs: seq<seq<seq<TaggedWord>>>, k: nat, m: ConversionMap)
    requires k < |paragraphs|
    ensures DocumentWarnings(paragraphs[..k + 1], m) == DocumentWarnings(paragraphs[..k], m) + ParagraphWarnings(paragraphs[k], m)
  {
    assert paragraphs[..k + 1][..k] == paragraphs[..k];
  }

  /** Without an active table a document prints no warning. */
  lemma {:induction false} NoTableNoWarnings(paragraphs: seq<seq<seq<TaggedWord>>>, m: ConversionMap)
    requires !Active(m)
    ensures DocumentWarnings(paragraphs, m) == []
  {
    if paragraphs != [] {
      NoTableNoWarnings(paragraphs[..|paragraphs| - 1], m);
      ParagraphNoWarnings(paragraphs[|paragraphs| - 1], m);
    }
  }

  lemma {:induction false} ParagraphNoWarnings(sentences: seq<seq<TaggedWord>>, m: ConversionMap)
    requires !Active(m)
    ensures ParagraphWarnings(sentences, m) == []
  {
    if sentences != [] {
      ParagraphNoWarnings(sentences[..|sentences| - 1], m);
      WarningsMeaning(sentences[|sentences| - 1], m, "");
    }
  }

  /** `make_document`: the paragraphs converted in order from id 0, each
      moving the counter by its `tokens_num`, under the id `index`. */
  method MakeDocument(index: int, paragraphs: seq<seq<seq<TaggedWord>>>, m: ConversionMap, n: Numbering)
    returns (document: PosDocument, warnings: seq<string>)
    ensures document == PosDocument(index, DocumentOf(paragraphs, m, n))
    ensures warnings == DocumentWarnings(paragraphs, m)
  {
    var converted: seq<PosParagraph> := [];
    warnings := [];
    var start := 0;
    for k := 0 to |paragraphs|
      invariant |converted| == k
      invariant forall j {:trigger converted[j]} :: 0 <= j < k ==>
                  converted[j] == PosParagraph(ParagraphOf(paragraphs[j], DocumentOffset(n, paragraphs, j), m, n))
      invariant start == DocumentOffset(n, paragraphs, k)
      invariant warnings == DocumentWarnings(paragraphs[..k], m)
    {
      var paragraph, tokensNum, printed := MakeParagraph(paragraphs[k], start, m, n);
      converted := converted + [paragraph];
      warnings := warnings + printed;
      DocumentOffsetStep(n, paragraphs, k);
      DocumentWarningsStep(paragraphs, k, m);
      start := start + tokensNum;
    }
    assert paragraphs[..|paragraphs|] == paragraphs;
    ghost var spec := DocumentOf(paragraphs, m, n);
    forall j | 0 <= j < |paragraphs| ensures converted[j] == spec[j] {
    }
    assert converted == spec;
    document := PosDocument(index, converted);
  }

  /** Every output token of a document sits at the position of its input
      pair, keeps the word, converts the tag and has head 0; its id is the
      document offset of its paragraph plus the paragraph offset of its
      sentence plus its position. */
  lemma DocumentTokens(paragraphs: seq<seq<seq<TaggedWord>>>, m: ConversionMap, n: Numbering, p: nat, s: nat, i: nat)
    requires p < |paragraphs| && s < |paragraphs[p]| && i < |paragraphs[p][s]|
    ensures var ds := DocumentOf(paragraphs, m, n);
            && |ds| == |paragraphs| && |ds[p].sentences| == |paragraphs[p]|
            && |ds[p].sentences[s].tokens| == |paragraphs[p][s]|
            && ds[p].sentences[s].tokens[i]
               == PosToken(DocumentOffset(n, paragraphs, p) + Offset(n, paragraphs[p], s) + i, 0,
                           ConvertTag(m, paragraphs[p][s][i].tag), paragraphs[p][s][i].word)
  {
  }

  /** As written a token's id is the number of sentences of the paragraphs
      before its own, plus the number of sentences before its own in its
      paragraph, plus its position. */
  lemma {:induction false} DocumentOffsetAsWritten(paragraphs: seq<seq<seq<TaggedWord>>>, k: nat)
    requires k <= |paragraphs|
    ensures DocumentOffset(AsWritten, paragraphs, k) == SentenceCount(paragraphs, k)
  {
    if k > 0 {
      DocumentOffsetAsWritten(paragraphs, k - 1);
      DocumentOffsetStep(AsWritten, paragraphs, k - 1);
      OffsetAsWritten(paragraphs[k - 1], |paragraphs[k - 1]|);
      assert paragraphs[k - 1][..|paragraphs[k - 1]|] == paragraphs[k - 1];
    }
  }

  /** The number of sentences of the first `k` paragraphs. */
  function SentenceCount(paragraphs: seq<seq<seq<TaggedWord>>>, k: nat): nat
    requires k <= |paragraphs|
  {
    if k == 0 then 0 else SentenceCount(paragraphs, k - 1) + |paragraphs[k - 1]|
  }

  /** The ids of all tokens of a document, in order. */
  function DocumentIds(ds: seq<PosParagraph>): seq<int>
  {
    if ds == [] then [] else DocumentIds(ds[..|ds| - 1]) + ParagraphIds(ds[|ds| - 1].sentences)
  }

  lemma DocumentIdsStep(ds: seq<PosParagraph>, k: nat)
    requires k < |ds|
    ensures DocumentIds(ds[..k + 1]) == DocumentIds(ds[..k]) + ParagraphIds(ds[k].sentences)
  {
    assert ds[..k + 1][..k] == ds[..k];
  }

  /** Paragraphs whose ids are consecutive blocks give consecutive ids: the
      first `k` are numbered from 0 and there are `offs[k]` of them. */
  lemma {:induction false} ConsecutiveParagraphs(ds: seq<PosParagraph>, offs: seq<int>, k: nat)
    requires |offs| == |ds| + 1 && offs[0] == 0 && k <= |ds|
    requires forall j {:trigger ds[j]} :: 0 <= j < |ds| ==>
               offs[j + 1] == offs[j] + |ParagraphIds(ds[j].sentences)| && NumberedFrom(ParagraphIds(ds[j].sentences), offs[j])
    ensures |DocumentIds(ds[..k])| == offs[k] && NumberedFrom(DocumentIds(ds[..k]), 0)
  {
    if k == 0 {
      assert ds[..0] == [];
    } else {
      ConsecutiveParagraphs(ds, offs, k - 1);
      DocumentIdsStep(ds, k - 1);
      assert offs[k] == offs[k - 1] + |ParagraphIds(ds[k - 1].sentences)|;
      NumberedAppend(DocumentIds(ds[..k - 1]), ParagraphIds(ds[k - 1].sentences), 0);
    }
  }

  /** So with the intended size the tokens of a document are numbered
      `0, 1, ...` across all its sentences and paragraphs: one id per input
      pair, none repeated and none skipped. */
  lemma ContiguousDocument(paragraphs: seq<seq<seq<TaggedWord>>>, m: ConversionMap)
    ensures DocumentIds(DocumentOf(paragraphs, m, Contiguous)) == Range(0, ParagraphsSize(Contiguous, paragraphs))
  {
    var ds := DocumentOf(paragraphs, m, Contiguous);
    var offs := seq(|paragraphs| + 1, j requires 0 <= j <= |paragraphs| => DocumentOffset(Contiguous, paragraphs, j));
    forall j | 0 <= j < |ds|
      ensures offs[j + 1] == offs[j] + |ParagraphIds(ds[j].sentences)| && NumberedFrom(ParagraphIds(ds[j].sentences), offs[j])
    {
      ContiguousParagraph(paragraphs[j], offs[j], m);
      DocumentOffsetStep(Contiguous, paragraphs, j);
    }
    assert paragraphs[..0] == [];
    ConsecutiveParagraphs(ds, offs, |ds|);
    assert ds[..|paragraphs|] == ds;
    assert paragraphs[..|paragraphs|] == paragraphs;
    NumberedRange(DocumentIds(ds), 0);
  }
}
