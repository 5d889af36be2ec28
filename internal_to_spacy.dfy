/** Projection of the internal annotation format onto the spaCy one: each
    token keeps its text and id and carries its `get_NE` tag in place of the
    annotation dicts. */
module InternalToSpacy {
  import opened Wrappers
  import opened DataTypes
  import Biluo

  /** `convert_tokens_to_spacy`: one spaCy token per token, in order, whose
      tag is the token's first active channel. */
  function ConvertTokensToSpacy(tokens: seq<Token>): (r: seq<TokenSpacy>)
    ensures |r| == |tokens|
    ensures forall i :: 0 <= i < |tokens| ==>
              r[i].orth == tokens[i].orth && r[i].id == tokens[i].id && r[i].attribs == tokens[i].NE()
  {
    seq(|tokens|, i requires 0 <= i < |tokens| => TokenSpacy(tokens[i].orth, tokens[i].NE(), tokens[i].id))
  }

  /** After BILUO encoding, every spaCy token carries exactly its BILUO tag
      string: never `None`, and "O" exactly on the non-entities. */
  lemma AfterBiluo(tokens: seq<Token>, i: nat)
    requires i < |tokens|
    ensures var tag := Biluo.Tags(Biluo.Ents(tokens))[i];
            ConvertTokensToSpacy(Biluo.Encoded(tokens))[i].attribs == Some(Biluo.TagString(tag))
            && (tag.O? <==> !tokens[i].IsNE())
  {
    Biluo.TagMeaning(tokens, i);
  }

  /** A document whose sentences hold spaCy tokens. */
  datatype SpacyDocumentView = SpacyDocumentView(id: int, paragraphs: seq<seq<seq<TokenSpacy>>>)

  function ConvertParagraph(p: seq<seq<Token>>): (r: seq<seq<TokenSpacy>>)
    ensures |r| == |p| && forall s :: 0 <= s < |p| ==> r[s] == ConvertTokensToSpacy(p[s])
  {
    seq(|p|, s requires 0 <= s < |p| => ConvertTokensToSpacy(p[s]))
  }

  function ConvertDocument(d: DocumentView): (r: SpacyDocumentView)
    ensures r.id == d.id && |r.paragraphs| == |d.paragraphs|
    ensures forall p :: 0 <= p < |d.paragraphs| ==> r.paragraphs[p] == ConvertParagraph(d.paragraphs[p])
  {
    SpacyDocumentView(d.id, seq(|d.paragraphs|, p requires 0 <= p < |d.paragraphs| => ConvertParagraph(d.paragraphs[p])))
  }

  /** The main loop of `internal_to_spacy`: every sentence of every paragraph
      of every document converted on its own; ids, document, paragraph and
      sentence structure are kept. */
  function ConvertCorpus(v: seq<DocumentView>): (r: seq<SpacyDocumentView>)
    ensures |r| == |v| && forall d :: 0 <= d < |v| ==> r[d] == ConvertDocument(v[d])
  {
    seq(|v|, d requires 0 <= d < |v| => ConvertDocument(v[d]))
  }

  /** The corpus written with the source's `TokenSpacy.to_json`. */
  function SentenceAsWritten(ts: seq<TokenSpacy>): Result<SentenceJson<SpacyTokenJson>>
  {
    match MapAll((t: TokenSpacy) => t.ToJsonAsWritten(), ts)
    case Ok(js) => Ok(SentenceJson(Some(js), Some([])))
    case Err(e) => Err(e)
  }

  function ParagraphAsWritten(p: seq<seq<TokenSpacy>>): Result<ParagraphJson<SpacyTokenJson>>
  {
    match MapAll(SentenceAsWritten, p)
    case Ok(js) => Ok(ParagraphJson(Some(js)))
    case Err(e) => Err(e)
  }

  function DocumentAsWritten(d: SpacyDocumentView): Result<DocumentJson<SpacyTokenJson>>
  {
    match MapAll(ParagraphAsWritten, d.paragraphs)
    case Ok(js) => Ok(DocumentJson(Some(d.id), Some(js)))
    case Err(e) => Err(e)
  }

  function CorpusAsWritten(v: seq<SpacyDocumentView>): Result<CorpusJson<SpacyTokenJson>>
  {
    MapAll(DocumentAsWritten, v)
  }

  /** The source's output step raises as soon as the corpus holds one token
      whose tag is not the empty string, that is, on any real corpus. */
  lemma InternalToSpacyFails(v: seq<DocumentView>, d: nat, p: nat, s: nat, i: nat)
    requires d < |v| && p < |v[d].paragraphs| && s < |v[d].paragraphs[p]| && i < |v[d].paragraphs[p][s]|
    requires v[d].paragraphs[p][s][i].NE() != Some("")
    ensures CorpusAsWritten(ConvertCorpus(v)).Err?
  {
    var c := ConvertCorpus(v);
    var ts := c[d].paragraphs[p][s];
    assert ts[i].attribs == v[d].paragraphs[p][s][i].NE();
    assert ((t: TokenSpacy) => t.ToJsonAsWritten())(ts[i]).Err?;
    assert SentenceAsWritten(ts).Err?;
    assert ParagraphAsWritten(c[d].paragraphs[p]).Err?;
    assert DocumentAsWritten(c[d]).Err?;
  }

  /** `main` without the file I/O: read the corpus, convert every sentence
      and write it with the source's writer. */
  function InternalToSpacyMain(j: CorpusJson<TokenJson>): Result<CorpusJson<SpacyTokenJson>>
  {
    match CorpusFromJson(j)
    case Err(e) => Err(e)
    case Ok(v) => CorpusAsWritten(ConvertCorpus(v))
  }

  /** So `main` fails on every input that reads as a corpus holding at least
      one token with a tag other than the empty string. */
  lemma InternalToSpacyMainFails(j: CorpusJson<TokenJson>, d: nat, p: nat, s: nat, i: nat)
    requires CorpusFromJson(j).Ok?
    requires var v := CorpusFromJson(j).value;
             d < |v| && p < |v[d].paragraphs| && s < |v[d].paragraphs[p]| && i < |v[d].paragraphs[p][s]|
             && v[d].paragraphs[p][s][i].NE() != Some("")
    ensures InternalToSpacyMain(j).Err?
  {
    InternalToSpacyFails(CorpusFromJson(j).value, d, p, s, i);
  }

  /** The corpus written with the intended `TokenSpacy.to_json`. */
  function SentenceToJson(ts: seq<TokenSpacy>): SentenceJson<SpacyTokenJson>
  {
    SentenceJson(Some(seq(|ts|, i requires 0 <= i < |ts| => ts[i].ToJson())), Some([]))
  }

  function ParagraphToJson(p: seq<seq<TokenSpacy>>): ParagraphJson<SpacyTokenJson>
  {
    ParagraphJson(Some(seq(|p|, s requires 0 <= s < |p| => SentenceToJson(p[s]))))
  }

  function DocumentToJson(d: SpacyDocumentView): DocumentJson<SpacyTokenJson>
  {
    DocumentJson(Some(d.id), Some(seq(|d.paragraphs|, p requires 0 <= p < |d.paragraphs| => ParagraphToJson(d.paragraphs[p]))))
  }

  function CorpusToJson(v: seq<SpacyDocumentView>): CorpusJson<SpacyTokenJson>
  {
    seq(|v|, d requires 0 <= d < |v| => DocumentToJson(v[d]))
  }

  /** With the intended writer every token of the output is the input token's
      text and id and its first active channel, at the same document,
      paragraph, sentence and token position. */
  lemma ConvertedJson(v: seq<DocumentView>, d: nat, p: nat, s: nat, i: nat)
    requires d < |v| && p < |v[d].paragraphs| && s < |v[d].paragraphs[p]| && i < |v[d].paragraphs[p][s]|
    ensures var j := CorpusToJson(ConvertCorpus(v));
            var t := v[d].paragraphs[p][s][i];
            && |j| == |v| && j[d].id == Some(v[d].id)
            && j[d].paragraphs.Some? && |j[d].paragraphs.value| == |v[d].paragraphs|
            && j[d].paragraphs.value[p].sentences.Some?
            && |j[d].paragraphs.value[p].sentences.value| == |v[d].paragraphs[p]|
            && j[d].paragraphs.value[p].sentences.value[s].tokens.Some?
            && |j[d].paragraphs.value[p].sentences.value[s].tokens.value| == |v[d].paragraphs[p][s]|
            && j[d].paragraphs.value[p].sentences.value[s].tokens.value[i] == SpacyTokenJson(t.orth, t.id, t.NE())
  {
    var c := ConvertCorpus(v);
    assert c[d].paragraphs[p][s][i].attribs == v[d].paragraphs[p][s][i].NE();
  }
}
