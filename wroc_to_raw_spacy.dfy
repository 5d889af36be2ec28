/** The KPWr reader that writes spaCy training data directly: extract the
    corpus, pick one label per nested span, optionally rename the labels,
    encode them as BILUO tags and write each token's tag as `'ner'`. Its
    picker and encoder are textually the same as the standalone ones and
    are modelled once, in `PickLabels` and `Biluo`. */
module WrocToRawSpacy {
  import opened Wrappers
  import opened DataTypes
  import opened PickLabels
  import Biluo
  import MapLabels
  import InternalToSpacy
  import opened RawCorpus

  /** This reader's own `Sentence.to_json`: each token as its text, its id
      and its `get_NE()` tag, and no brackets. */
  function SentenceJsonOf(ts: seq<Token>): SentenceJson<SpacyTokenJson>
  {
    SentenceJson(Some(seq(|ts|, i requires 0 <= i < |ts| => SpacyTokenJson(ts[i].orth, ts[i].id, ts[i].NE()))), Some([]))
  }

  function ParagraphJsonOf(p: seq<seq<Token>>): ParagraphJson<SpacyTokenJson>
  {
    ParagraphJson(Some(seq(|p|, s requires 0 <= s < |p| => SentenceJsonOf(p[s]))))
  }

  function DocumentJsonOf(d: DocumentView): DocumentJson<SpacyTokenJson>
  {
    DocumentJson(Some(d.id), Some(seq(|d.paragraphs|, p requires 0 <= p < |d.paragraphs| => ParagraphJsonOf(d.paragraphs[p]))))
  }

  function CorpusJsonOf(v: seq<DocumentView>): CorpusJson<SpacyTokenJson>
  {
    seq(|v|, d requires 0 <= d < |v| => DocumentJsonOf(v[d]))
  }

  lemma SentenceWriter(ts: seq<Token>)
    ensures SentenceJsonOf(ts) == InternalToSpacy.SentenceToJson(InternalToSpacy.ConvertTokensToSpacy(ts))
  {
    var spacy := InternalToSpacy.ConvertTokensToSpacy(ts);
    var a := SentenceJsonOf(ts).tokens.value;
    var b := InternalToSpacy.SentenceToJson(spacy).tokens.value;
    assert |a| == |b|;
    forall i | 0 <= i < |ts| ensures a[i] == b[i] {
      assert b[i] == spacy[i].ToJson();
    }
    assert a == b;
  }

  /** This writer is the spaCy projection followed by the intended spaCy
      writer: it serialises what `convert_tokens_to_spacy` would produce. */
  lemma WriterIsSpacyProjection(v: seq<DocumentView>)
    ensures CorpusJsonOf(v) == InternalToSpacy.CorpusToJson(InternalToSpacy.ConvertCorpus(v))
  {
    var c := InternalToSpacy.ConvertCorpus(v);
    forall d | 0 <= d < |v| ensures DocumentJsonOf(v[d]) == InternalToSpacy.DocumentToJson(c[d]) {
      var ps := v[d].paragraphs;
      var cps := c[d].paragraphs;
      assert |cps| == |ps|;
      forall p | 0 <= p < |ps| ensures ParagraphJsonOf(ps[p]) == InternalToSpacy.ParagraphToJson(cps[p]) {
        assert cps[p] == InternalToSpacy.ConvertParagraph(ps[p]);
        forall s | 0 <= s < |ps[p]|
          ensures SentenceJsonOf(ps[p][s]) == InternalToSpacy.SentenceToJson(cps[p][s])
        {
          SentenceWriter(ps[p][s]);
        }
        assert ParagraphJsonOf(ps[p]).sentences.value == InternalToSpacy.ParagraphToJson(cps[p]).sentences.value;
      }
      assert DocumentJsonOf(v[d]).paragraphs.value == InternalToSpacy.DocumentToJson(c[d]).paragraphs.value;
    }
  }

  /** After BILUO encoding, `'ner'` holds the token's tag string itself. */
  lemma NerAfterBiluo(ts: seq<Token>, i: nat)
    requires i < |ts|
    ensures var j := SentenceJsonOf(Biluo.Encoded(ts));
            j.brackets == Some([]) && j.tokens.Some? && |j.tokens.value| == |ts|
            && j.tokens.value[i] == SpacyTokenJson(ts[i].orth, ts[i].id, Some(Biluo.TagString(Biluo.Tags(Biluo.Ents(ts))[i])))
  {
    Biluo.TagMeaning(ts, i);
  }

  /** The renaming step, through the KPWr table. */
  function RenameStep(ts: seq<Token>): Result<seq<Token>>
  {
    MapLabels.MapSentence(MapLabels.NerLabelMap, ts)
  }

  /** Every sentence stamped along its runs. */
  ghost function Picked(xs: seq<seq<Token>>, runs: seq<seq<Run>>): seq<seq<Token>>
    requires |runs| == |xs|
  {
    seq(|xs|, k requires 0 <= k < |xs| => Stamp(xs[k], runs[k]))
  }

  /** The optional renaming pass over all sentences. */
  function Renamed(xs: seq<seq<Token>>, useLabelMap: bool): Result<seq<seq<Token>>>
  {
    if useLabelMap then MapAll(RenameStep, xs) else Ok(xs)
  }

  /** Renaming keeps the number of sentences and the length of each. */
  lemma RenamedLengths(xs: seq<seq<Token>>, useLabelMap: bool)
    requires Renamed(xs, useLabelMap).Ok?
    ensures |Renamed(xs, useLabelMap).value| == |xs|
    ensures forall k :: 0 <= k < |xs| ==> |Renamed(xs, useLabelMap).value[k]| == |xs[k]|
  {
    if useLabelMap {
      var ys := Renamed(xs, useLabelMap).value;
      forall k | 0 <= k < |xs| ensures |ys[k]| == |xs[k]| {
        assert RenameStep(xs[k]) == Ok(ys[k]);
        MapLabels.MapLabelsEffect(xs[k], MapLabels.NerLabelMap);
      }
    }
  }

  /** Every sentence picked along runs `get_longest_sequences` can report
      keeps its tokens, so none is empty. */
  lemma PickedNonEmpty(xs: seq<seq<Token>>, runs: seq<seq<Run>>)
    requires |runs| == |xs| && forall k :: 0 <= k < |xs| ==> IsLongestSequences(xs[k], runs[k])
    ensures forall k :: 0 <= k < |xs| ==> |Picked(xs, runs)[k]| == |xs[k]| > 0
  {
    forall k | 0 <= k < |xs| ensures |Picked(xs, runs)[k]| == |xs[k]| > 0 {
      PickTagsEffect(xs[k], runs[k], 0);
    }
  }

  /** The errors a renaming pass can raise. */
  lemma RenameError(xs: seq<seq<Token>>)
    requires MapAll(RenameStep, xs).Err?
    ensures MapAll(RenameStep, xs).error.KeyError?
  {
    var i :| 0 <= i < |xs| && RenameStep(xs[i]) == Err(MapAll(RenameStep, xs).error);
    MapLabels.MapLabelsEffect(xs[i], MapLabels.NerLabelMap);
  }

  /** The encoding pass fails only on an empty sentence. */
  lemma BiluoError(xs: seq<seq<Token>>)
    requires MapAll(Biluo.BiluoSentence, xs).Err?
    ensures MapAll(Biluo.BiluoSentence, xs).error.IndexError?
    ensures exists k :: 0 <= k < |xs| && xs[k] == []
  {
    var i :| 0 <= i < |xs| && Biluo.BiluoSentence(xs[i]) == Err(MapAll(Biluo.BiluoSentence, xs).error);
  }

  /** After renaming, the encoding pass fails only with `IndexError`, and
      only when some sentence was empty before renaming. */
  lemma EncodingError(xs: seq<seq<Token>>, useLabelMap: bool)
    requires Renamed(xs, useLabelMap).Ok? && MapAll(Biluo.BiluoSentence, Renamed(xs, useLabelMap).value).Err?
    ensures MapAll(Biluo.BiluoSentence, Renamed(xs, useLabelMap).value).error.IndexError?
    ensures exists k :: 0 <= k < |xs| && xs[k] == []
  {
    var zs := Renamed(xs, useLabelMap).value;
    RenamedLengths(xs, useLabelMap);
    BiluoError(zs);
    var k :| 0 <= k < |zs| && zs[k] == [];
    assert xs[k] == [];
  }

  /** The first pass of `main`: `pick_tags` on every sentence, choosing
      `runs`. */
  method PickPass(c: Corpus) returns (r: Result<()>, ghost runs: seq<seq<Run>>)
    requires c.Valid()
    modifies set s | s in c.Sentences()
    ensures c.Sentences() == old(c.Sentences()) && c.Valid()
    ensures Shape(c.View()) == old(Shape(c.View()))
    ensures r.Err? ==> r.error.IndexError? && SomeMayFail(old(TokenLists(c.Sentences())))
    ensures r.Ok? ==>
              var x := old(TokenLists(c.Sentences()));
              && |runs| == |x|
              && (forall k :: 0 <= k < |x| ==> IsLongestSequences(x[k], runs[k]))
              && TokenLists(c.Sentences()) == Picked(x, runs)
  {
    ParagraphsOfAllocated(c.documents);
    CorpusShape(c);
    ghost var x := TokenLists(c.Sentences());
    r, runs := PickTagsCorpus(c);
    CorpusShape(c);
    if r.Ok? {
      ghost var y := TokenLists(c.Sentences());
      forall k | 0 <= k < |x| ensures IsLongestSequences(x[k], runs[k]) && y[k] == Stamp(x[k], runs[k]) {
        assert PickedAlong(x[k], c.Sentences()[k].tokens, runs[k]);
      }
    }
  }

  /** The second and third passes of `main`: the optional `map_labels`,
      then `convert_to_biluo`, on every sentence. */
  method TagPasses(c: Corpus, useLabelMap: bool) returns (r: Result<()>)
    requires c.Valid()
    modifies set s | s in c.Sentences()
    ensures c.Sentences() == old(c.Sentences()) && c.Valid()
    ensures Shape(c.View()) == old(Shape(c.View()))
    ensures var y := old(TokenLists(c.Sentences()));
            r.Ok? <==> Renamed(y, useLabelMap).Ok? && MapAll(Biluo.BiluoSentence, Renamed(y, useLabelMap).value).Ok?
    ensures r.Ok? ==>
              var y := old(TokenLists(c.Sentences()));
              && Renamed(y, useLabelMap).Ok?
              && MapAll(Biluo.BiluoSentence, Renamed(y, useLabelMap).value) == Ok(TokenLists(c.Sentences()))
    ensures r.Err? ==>
              var y := old(TokenLists(c.Sentences()));
              || (useLabelMap && r.error.KeyError? && MapAll(RenameStep, y).Err?)
              || (r.error.IndexError? && exists k :: 0 <= k < |y| && y[k] == [])
  {
    ghost var y := TokenLists(c.Sentences());
    if useLabelMap {
      var renamed := UpdateSentences(c, RenameStep);
      if renamed.Err? {
        RenameError(y);
        return Err(renamed.error);
      }
    }
    ghost var z := TokenLists(c.Sentences());
    assert Renamed(y, useLabelMap) == Ok(z);
    r := UpdateSentences(c, Biluo.BiluoSentence);
    if r.Err? {
      EncodingError(y, useLabelMap);
    }
  }

  /** `main`: the extracted corpus through its three passes, in the source's
      order, each over every sentence of every paragraph of every document
      before the next begins, then written.
      `runs` are the spans picked, `v` the corpus that is written. Only the
      picker's `IndexError`, on a sentence where it can fail, and with the
      table a `KeyError`, on a channel the table lacks, can stop it. */
  method Convert(files: seq<RawFile>, useLabelMap: bool)
    returns (r: Result<CorpusJson<SpacyTokenJson>>, ghost runs: seq<seq<Run>>, ghost v: seq<DocumentView>)
    ensures r.Err? ==>
              var x := Flat(Extracted(files));
              || (r.error.IndexError? && SomeMayFail(x))
              || (&& useLabelMap && r.error.KeyError?
                  && |runs| == |x|
                  && (forall k :: 0 <= k < |x| ==> IsLongestSequences(x[k], runs[k]))
                  && MapAll(RenameStep, Picked(x, runs)).Err?)
    ensures r.Ok? ==>
              var x := Flat(Extracted(files));
              && |runs| == |x|
              && (forall k :: 0 <= k < |x| ==> IsLongestSequences(x[k], runs[k]))
              && Renamed(Picked(x, runs), useLabelMap).Ok?
              && MapAll(Biluo.BiluoSentence, Renamed(Picked(x, runs), useLabelMap).value) == Ok(Flat(v))
              && Shape(v) == Shape(Extracted(files))
              && r.value == CorpusJsonOf(v)
  {
    var c := ExtractCorpus(files);
    CorpusFlat(c);
    ghost var x := TokenLists(c.Sentences());
    var picked;
    picked, runs := PickPass(c);
    if picked.Err? {
      return Err(picked.error), runs, [];
    }
    ghost var y := TokenLists(c.Sentences());
    assert y == Picked(x, runs);
    PickedNonEmpty(x, runs);
    var tagged := TagPasses(c, useLabelMap);
    if tagged.Err? {
      return Err(tagged.error), runs, [];
    }
    CorpusFlat(c);
    v := c.View();
    return Ok(CorpusJsonOf(c.View())), runs, v;
  }
}
