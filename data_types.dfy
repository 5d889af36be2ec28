/** The annotation tree of the NER conversion pipeline: tokens carrying
    ordered `{channel: value}` annotation dicts, the Sentence / Paragraph /
    Document / Corpus containers that own them, and the JSON shape the tree is
    read from and written to. */
module DataTypes {
  import opened Wrappers

  /** One `channel: value` item of an annotation dict. */
  datatype Pair = Pair(channel: string, value: string)

  /** A Python annotation dict, as its items in iteration order. */
  type Attrib = seq<Pair>

  /** All items of all dicts of a token, in iteration order. */
  function Pairs(attribs: seq<Attrib>): seq<Pair>
  {
    if attribs == [] then [] else attribs[0] + Pairs(attribs[1..])
  }

  lemma {:induction false} PairsAppend(a: seq<Attrib>, b: seq<Attrib>)
    ensures Pairs(a + b) == Pairs(a) + Pairs(b)
  {
    if a == [] {
      assert a + b == b;
    } else {
      assert (a + b)[1..] == a[1..] + b;
      PairsAppend(a[1..], b);
    }
  }

  /** The first channel whose value is not "0", if any. */
  function FirstActive(ps: seq<Pair>): (r: Option<string>)
    ensures r.None? <==> forall i :: 0 <= i < |ps| ==> ps[i].value == "0"
    ensures r.Some? ==> exists i :: 0 <= i < |ps| && ps[i].value != "0" && ps[i].channel == r.value
                                    && forall k :: 0 <= k < i ==> ps[k].value == "0"
  {
    if ps == [] then None
    else if ps[0].value != "0" then Some(ps[0].channel)
    else
      var r := FirstActive(ps[1..]);
      assert r.Some? ==> exists i :: 1 <= i < |ps| && ps[i].value != "0" && ps[i].channel == r.value
                                     && forall k :: 0 <= k < i ==> ps[k].value == "0" by {
        if r.Some? {
          var i :| 0 <= i < |ps[1..]| && ps[1..][i].value != "0" && ps[1..][i].channel == r.value
                   && forall k :: 0 <= k < i ==> ps[1..][k].value == "0";
          assert forall k :: 0 <= k < i + 1 ==> ps[k].value == "0" by {
            forall k | 0 <= k < i + 1 ensures ps[k].value == "0" {
              if k > 0 { assert ps[k] == ps[1..][k - 1]; }
            }
          }
        }
      }
      r
  }

  /** A token: its text, its annotation dicts and its position in the document. */
  datatype Token = Token(orth: string, attribs: seq<Attrib>, id: int)
  {
    /** The channel names of all items, in order. */
    function Channels(): seq<string>
    {
      var ps := Pairs(attribs);
      seq(|ps|, i requires 0 <= i < |ps| => ps[i].channel)
    }

    /** The values of all items, in order. */
    function Values(): seq<string>
    {
      var ps := Pairs(attribs);
      seq(|ps|, i requires 0 <= i < |ps| => ps[i].value)
    }

    /** `get_NE`: the first channel whose value is not "0", or `None`. */
    function NE(): Option<string>
    {
      FirstActive(Pairs(attribs))
    }

    /** `is_NE`: the token has an active channel and it is not "O". */
    predicate IsNE()
    {
      NE().Some? && NE().value != "O"
    }

    /** `to_json`; reading the result back gives the same token. */
    function ToJson(): (j: TokenJson)
      ensures j.orth.Some? && j.ner.Some? && j.id.Some?
    {
      TokenJson(Some(orth), Some(id), Some(attribs))
    }

    /** `from_json`: `cls(json['orth'], json['ner'], json['id'])`, so a missing
        key raises `KeyError`, looked up in that order. */
    static function FromJson(j: TokenJson): (r: Result<Token>)
      ensures r.Ok? <==> j.orth.Some? && j.ner.Some? && j.id.Some?
      ensures r.Ok? ==> r.value.ToJson() == j
      ensures j.orth.None? ==> r == Err(KeyError("orth"))
      ensures j.orth.Some? && j.ner.None? ==> r == Err(KeyError("ner"))
      ensures j.orth.Some? && j.ner.Some? && j.id.None? ==> r == Err(KeyError("id"))
    {
      if j.orth.None? then Err(KeyError("orth"))
      else if j.ner.None? then Err(KeyError("ner"))
      else if j.id.None? then Err(KeyError("id"))
      else Ok(Token(j.orth.value, j.ner.value, j.id.value))
    }
  }

  /** `get_NE` as the source writes it: a nested loop over the dicts and their
      keys that returns at the first value other than "0". */
  method GetNE(t: Token) returns (r: Option<string>)
    ensures r == t.NE()
  {
    var i := 0;
    while i < |t.attribs|
      invariant 0 <= i <= |t.attribs|
      invariant t.NE() == FirstActive(Pairs(t.attribs[i..]))
    {
      var attrib := t.attribs[i];
      assert t.attribs[i..] == [attrib] + t.attribs[i + 1..];
      var j := 0;
      while j < |attrib|
        invariant 0 <= j <= |attrib|
        invariant t.NE() == FirstActive(attrib[j..] + Pairs(t.attribs[i + 1..]))
      {
        assert (attrib[j..] + Pairs(t.attribs[i + 1..]))[1..] == attrib[j + 1..] + Pairs(t.attribs[i + 1..]);
        if attrib[j].value != "0" {
          return Some(attrib[j].channel);
        }
        j := j + 1;
      }
      assert attrib[j..] + Pairs(t.attribs[i + 1..]) == Pairs(t.attribs[i + 1..]);
      i := i + 1;
    }
    return None;
  }

  /** `is_NE` holds exactly when some value is not "0" and the first such
      item's channel is not "O". */
  lemma IsNEMeaning(t: Token)
    ensures t.IsNE() <==> exists i :: 0 <= i < |Pairs(t.attribs)| && Pairs(t.attribs)[i].value != "0"
                                      && Pairs(t.attribs)[i].channel != "O"
                                      && forall k :: 0 <= k < i ==> Pairs(t.attribs)[k].value == "0"
  {
    var ps := Pairs(t.attribs);
    if t.IsNE() {
      var i :| 0 <= i < |ps| && ps[i].value != "0" && ps[i].channel == t.NE().value
               && forall k :: 0 <= k < i ==> ps[k].value == "0";
    }
    if exists i :: 0 <= i < |ps| && ps[i].value != "0" && ps[i].channel != "O"
                   && forall k :: 0 <= k < i ==> ps[k].value == "0" {
      var i :| 0 <= i < |ps| && ps[i].value != "0" && ps[i].channel != "O"
               && forall k :: 0 <= k < i ==> ps[k].value == "0";
      var i' :| 0 <= i' < |ps| && ps[i'].value != "0" && ps[i'].channel == t.NE().value
                && forall k :: 0 <= k < i' ==> ps[k].value == "0";
      if i < i' { assert false; }
      if i' < i { assert false; }
    }
  }

  /** A token of the spaCy output format, whose `attribs` field holds the tag
      itself (a string or `None`) instead of a list of dicts. */
  datatype TokenSpacy = TokenSpacy(orth: string, attribs: Option<string>, id: int)
  {
    /** `TokenSpacy.to_json` as written: it calls `get_NE()`, which iterates
        `self.attribs`. On `None` that raises `TypeError`; on a non-empty string
        the first character `c` is iterated as a "dict" and `c[c]` raises
        `TypeError`; only the empty string gets through, giving `'ner': None`. */
    function ToJsonAsWritten(): (r: Result<SpacyTokenJson>)
      ensures r.Ok? <==> attribs == Some("")
      ensures r.Ok? ==> r.value == SpacyTokenJson(orth, id, None)
    {
      match attribs
      case None => Err(TypeError("'NoneType' object is not iterable"))
      case Some(tag) =>
        if tag == "" then Ok(SpacyTokenJson(orth, id, None))
        else Err(TypeError("string indices must be integers"))
    }

    /** `TokenSpacy.to_json` as intended: `'ner'` is the tag the token carries. */
    function ToJson(): (j: SpacyTokenJson)
      ensures j.orth == orth && j.id == id && j.ner == attribs
    {
      SpacyTokenJson(orth, id, attribs)
    }
  }

  /** Counterexample: the tagged token "Warszawa" cannot be serialised by the
      source's `TokenSpacy.to_json`, and neither can an untagged one. */
  lemma SpacyToJsonFails()
    ensures TokenSpacy("Warszawa", Some("U-GPE"), 0).ToJsonAsWritten().Err?
    ensures TokenSpacy("i", None, 1).ToJsonAsWritten().Err?
    ensures TokenSpacy("Warszawa", Some("U-GPE"), 0).ToJson().ner == Some("U-GPE")
  {
  }

  // ---------------------------------------------------------------- JSON shape

  /** Any JSON value (used for contents the code never inspects). */
  datatype Json =
    | JNull
    | JBool(b: bool)
    | JNumber(n: int)
    | JString(s: string)
    | JArray(items: seq<Json>)
    | JObject(members: seq<(string, Json)>)

  /** A token object of the internal format; a field is `None` when its key is absent. */
  datatype TokenJson = TokenJson(orth: Option<string>, id: Option<int>, ner: Option<seq<Attrib>>)

  /** A token object of the spaCy format, as written by the converters. */
  datatype SpacyTokenJson = SpacyTokenJson(orth: string, id: int, ner: Option<string>)

  datatype SentenceJson<T> = SentenceJson(tokens: Option<seq<T>>, brackets: Option<seq<Json>>)
  datatype ParagraphJson<T> = ParagraphJson(sentences: Option<seq<SentenceJson<T>>>)
  datatype DocumentJson<T> = DocumentJson(id: Option<int>, paragraphs: Option<seq<ParagraphJson<T>>>)
  type CorpusJson<T> = seq<DocumentJson<T>>

  // ------------------------------------------------- the tree as plain values

  /** What a document holds: its id and, per paragraph, per sentence, the tokens. */
  datatype DocumentView = DocumentView(id: int, paragraphs: seq<seq<seq<Token>>>)

  function SentenceToJson(tokens: seq<Token>): SentenceJson<TokenJson>
  {
    SentenceJson(Some(seq(|tokens|, i requires 0 <= i < |tokens| => tokens[i].ToJson())), Some([]))
  }

  /** `Sentence.from_json`: no `'tokens'` key gives an empty sentence. */
  function SentenceFromJson(j: SentenceJson<TokenJson>): Result<seq<Token>>
  {
    if j.tokens.None? then Ok([]) else MapAll(Token.FromJson, j.tokens.value)
  }

  function ParagraphToJson(sentences: seq<seq<Token>>): ParagraphJson<TokenJson>
  {
    ParagraphJson(Some(seq(|sentences|, i requires 0 <= i < |sentences| => SentenceToJson(sentences[i]))))
  }

  /** `Paragraph.from_json`: no `'sentences'` key gives an empty paragraph. */
  function ParagraphFromJson(j: ParagraphJson<TokenJson>): Result<seq<seq<Token>>>
  {
    if j.sentences.None? then Ok([]) else MapAll(SentenceFromJson, j.sentences.value)
  }

  function DocumentToJson(d: DocumentView): DocumentJson<TokenJson>
  {
    DocumentJson(Some(d.id),
                 Some(seq(|d.paragraphs|, i requires 0 <= i < |d.paragraphs| => ParagraphToJson(d.paragraphs[i]))))
  }

  /** The error `Document.from_json` raises when it calls `cls()` without the
      required `id`. */
  const MissingId := TypeError("__init__() missing 1 required positional argument: 'id'")

  /** `Document.from_json`: a missing `'id'` or `'paragraphs'` key calls `cls()`
      without its required `id` and raises, rather than giving an empty document. */
  function DocumentFromJson(j: DocumentJson<TokenJson>): Result<DocumentView>
  {
    if j.id.None? || j.paragraphs.None? then Err(MissingId)
    else
      match MapAll(ParagraphFromJson, j.paragraphs.value)
      case Ok(ps) => Ok(DocumentView(j.id.value, ps))
      case Err(e) => Err(e)
  }

  function CorpusToJson(docs: seq<DocumentView>): CorpusJson<TokenJson>
  {
    seq(|docs|, i requires 0 <= i < |docs| => DocumentToJson(docs[i]))
  }

  /** `Corpus.from_json`: every element becomes a document, in order. */
  function CorpusFromJson(j: CorpusJson<TokenJson>): (r: Result<seq<DocumentView>>)
    ensures r.Ok? ==> |r.value| == |j|
    ensures r.Ok? ==> forall i :: 0 <= i < |j| ==> DocumentFromJson(j[i]) == Ok(r.value[i])
    ensures r.Ok? <==> forall i :: 0 <= i < |j| ==> DocumentFromJson(j[i]).Ok?
  {
    MapAll(DocumentFromJson, j)
  }

  /** Reading back what `Token.to_json` wrote reproduces the token. */
  lemma TokenRoundTrip(t: Token)
    ensures Token.FromJson(t.ToJson()) == Ok(t)
  {
  }

  lemma SentenceRoundTrip(ts: seq<Token>)
    ensures SentenceFromJson(SentenceToJson(ts)) == Ok(ts)
  {
    MapAllPointwise(Token.FromJson, SentenceToJson(ts).tokens.value, ts);
  }

  lemma ParagraphRoundTrip(ss: seq<seq<Token>>)
    ensures ParagraphFromJson(ParagraphToJson(ss)) == Ok(ss)
  {
    var js := ParagraphToJson(ss).sentences.value;
    forall k | 0 <= k < |ss| ensures SentenceFromJson(js[k]) == Ok(ss[k]) {
      SentenceRoundTrip(ss[k]);
    }
    MapAllPointwise(SentenceFromJson, js, ss);
  }

  lemma DocumentRoundTrip(d: DocumentView)
    ensures DocumentFromJson(DocumentToJson(d)) == Ok(d)
  {
    var js := DocumentToJson(d).paragraphs.value;
    forall k | 0 <= k < |d.paragraphs| ensures ParagraphFromJson(js[k]) == Ok(d.paragraphs[k]) {
      ParagraphRoundTrip(d.paragraphs[k]);
    }
    MapAllPointwise(ParagraphFromJson, js, d.paragraphs);
  }

  /** Reading back what `Corpus.to_json` wrote reproduces the corpus. */
  lemma CorpusRoundTrip(docs: seq<DocumentView>)
    ensures CorpusFromJson(CorpusToJson(docs)) == Ok(docs)
  {
    var js := CorpusToJson(docs);
    forall k | 0 <= k < |docs| ensures DocumentFromJson(js[k]) == Ok(docs[k]) {
      DocumentRoundTrip(docs[k]);
    }
    MapAllPointwise(DocumentFromJson, js, docs);
  }

  /** Input in exactly the shape `to_json` writes: every key present and
      `'brackets'` empty. */
  predicate WellFormedSentence(j: SentenceJson<TokenJson>)
  {
    && j.tokens.Some? && j.brackets == Some([])
    && forall k :: 0 <= k < |j.tokens.value| ==> Token.FromJson(j.tokens.value[k]).Ok?
  }

  predicate WellFormedParagraph(j: ParagraphJson<TokenJson>)
  {
    j.sentences.Some? && forall k :: 0 <= k < |j.sentences.value| ==> WellFormedSentence(j.sentences.value[k])
  }

  predicate WellFormedDocument(j: DocumentJson<TokenJson>)
  {
    && j.id.Some? && j.paragraphs.Some?
    && forall k :: 0 <= k < |j.paragraphs.value| ==> WellFormedParagraph(j.paragraphs.value[k])
  }

  lemma SentenceJsonRoundTrip(j: SentenceJson<TokenJson>)
    requires WellFormedSentence(j)
    ensures SentenceFromJson(j).Ok? && SentenceToJson(SentenceFromJson(j).value) == j
  {
    var ts := SentenceFromJson(j).value;
    assert SentenceToJson(ts).tokens.value == j.tokens.value;
  }

  lemma ParagraphJsonRoundTrip(j: ParagraphJson<TokenJson>)
    requires WellFormedParagraph(j)
    ensures ParagraphFromJson(j).Ok? && ParagraphToJson(ParagraphFromJson(j).value) == j
  {
    var js := j.sentences.value;
    forall k | 0 <= k < |js| ensures SentenceFromJson(js[k]).Ok? {
      SentenceJsonRoundTrip(js[k]);
    }
    var ss := ParagraphFromJson(j).value;
    forall k | 0 <= k < |js| ensures SentenceToJson(ss[k]) == js[k] {
      SentenceJsonRoundTrip(js[k]);
    }
    assert ParagraphToJson(ss).sentences.value == js;
  }

  lemma DocumentJsonRoundTrip(j: DocumentJson<TokenJson>)
    requires WellFormedDocument(j)
    ensures DocumentFromJson(j).Ok? && DocumentToJson(DocumentFromJson(j).value) == j
  {
    var js := j.paragraphs.value;
    forall k | 0 <= k < |js| ensures ParagraphFromJson(js[k]).Ok? {
      ParagraphJsonRoundTrip(js[k]);
    }
    var ps := MapAll(ParagraphFromJson, js).value;
    forall k | 0 <= k < |js| ensures ParagraphToJson(ps[k]) == js[k] {
      ParagraphJsonRoundTrip(js[k]);
    }
    assert DocumentToJson(DocumentFromJson(j).value).paragraphs.value == js;
  }

  /** On input in the written shape, `to_json` after `from_json` is the identity. */
  lemma CorpusJsonRoundTrip(j: CorpusJson<TokenJson>)
    requires forall k :: 0 <= k < |j| ==> WellFormedDocument(j[k])
    ensures CorpusFromJson(j).Ok? && CorpusToJson(CorpusFromJson(j).value) == j
  {
    forall k | 0 <= k < |j| ensures DocumentFromJson(j[k]).Ok? {
      DocumentJsonRoundTrip(j[k]);
    }
    var ds := CorpusFromJson(j).value;
    forall k | 0 <= k < |j| ensures DocumentToJson(ds[k]) == j[k] {
      DocumentJsonRoundTrip(j[k]);
    }
  }

  // ------------------------------------------------------- the tree as objects

  /** Pairwise distinct elements. */
  ghost predicate Distinct<T>(s: seq<T>)
  {
    forall i, j :: 0 <= i < j < |s| ==> s[i] != s[j]
  }

  lemma DistinctAppend<T>(a: seq<T>, b: seq<T>)
    requires Distinct(a) && Distinct(b)
    requires forall x :: x in b ==> x !in a
    ensures Distinct(a + b)
  {
    forall i, j | 0 <= i < j < |a + b| ensures (a + b)[i] != (a + b)[j] {
      if j >= |a| && i < |a| { assert (a + b)[j] in b; }
    }
  }

  class Sentence {
    var tokens: seq<Token>

    constructor (tokens: seq<Token>)
      ensures this.tokens == tokens
    {
      this.tokens := tokens;
    }

    /** `add`: appends at the end, earlier tokens unchanged. */
    method Add(token: Token)
      modifies this
      ensures tokens == old(tokens) + [token]
    {
      tokens := tokens + [token];
    }

    function ToJson(): SentenceJson<TokenJson>
      reads this
    {
      SentenceToJson(tokens)
    }

    static method FromJson(j: SentenceJson<TokenJson>) returns (r: Result<Sentence>)
      ensures r.Err? <==> SentenceFromJson(j).Err?
      ensures r.Err? ==> r.error == SentenceFromJson(j).error
      ensures r.Ok? ==> fresh(r.value) && r.value.tokens == SentenceFromJson(j).value
    {
      match SentenceFromJson(j)
      case Err(e) => return Err(e);
      case Ok(ts) =>
        var s := new Sentence(ts);
        return Ok(s);
    }
  }

  /** The token lists of a list of sentences. */
  function TokenLists(ss: seq<Sentence>): (r: seq<seq<Token>>)
    reads ss
    ensures |r| == |ss| && forall k :: 0 <= k < |ss| ==> r[k] == ss[k].tokens
  {
    seq(|ss|, k requires 0 <= k < |ss| reads ss => ss[k].tokens)
  }

  class Paragraph {
    var sentences: seq<Sentence>

    constructor (sentences: seq<Sentence>)
      ensures this.sentences == sentences
    {
      this.sentences := sentences;
    }

    /** `add`: appends at the end, earlier sentences unchanged. */
    method Add(sentence: Sentence)
      modifies this
      ensures sentences == old(sentences) + [sentence]
    {
      sentences := sentences + [sentence];
    }

    function View(): seq<seq<Token>>
      reads this, sentences
    {
      TokenLists(sentences)
    }

    function ToJson(): ParagraphJson<TokenJson>
      reads this, sentences
    {
      ParagraphToJson(View())
    }

    /** Fresh objects holding `v`, one new sentence per token list. */
    static method Build(v: seq<seq<Token>>) returns (p: Paragraph)
      ensures fresh(p) && p.View() == v
      ensures Distinct(p.sentences) && forall s :: s in p.sentences ==> fresh(s)
    {
      var ss: seq<Sentence> := [];
      for i := 0 to |v|
        invariant |ss| == i && forall k :: 0 <= k < i ==> ss[k].tokens == v[k]
        invariant Distinct(ss) && forall s :: s in ss ==> fresh(s)
      {
        var s := new Sentence(v[i]);
        ss := ss + [s];
      }
      p := new Paragraph(ss);
    }

    static method FromJson(j: ParagraphJson<TokenJson>) returns (r: Result<Paragraph>)
      ensures r.Err? <==> ParagraphFromJson(j).Err?
      ensures r.Err? ==> r.error == ParagraphFromJson(j).error
      ensures r.Ok? ==> fresh(r.value) && r.value.View() == ParagraphFromJson(j).value
    {
      match ParagraphFromJson(j)
      case Err(e) => return Err(e);
      case Ok(v) =>
        var p := Build(v);
        return Ok(p);
    }
  }

  /** All sentences of a list of paragraphs, in order. */
  function SentencesOf(ps: seq<Paragraph>): seq<Sentence>
    reads ps
  {
    if ps == [] then [] else ps[0].sentences + SentencesOf(ps[1..])
  }

  lemma {:induction false} ParagraphViewsAppend(a: seq<Paragraph>, b: seq<Paragraph>)
    ensures ParagraphViews(a + b) == ParagraphViews(a) + ParagraphViews(b)
  {
    if a == [] {
      assert a + b == b;
    } else {
      assert (a + b)[1..] == a[1..] + b;
      ParagraphViewsAppend(a[1..], b);
    }
  }

  lemma {:induction false} SentencesOfAppend(a: seq<Paragraph>, b: seq<Paragraph>)
    ensures SentencesOf(a + b) == SentencesOf(a) + SentencesOf(b)
  {
    if a == [] {
      assert a + b == b;
    } else {
      assert (a + b)[1..] == a[1..] + b;
      SentencesOfAppend(a[1..], b);
    }
  }

  /** The per-paragraph token lists of a list of paragraphs. */
  function ParagraphViews(ps: seq<Paragraph>): (r: seq<seq<seq<Token>>>)
    reads ps, set s | s in SentencesOf(ps)
    ensures |r| == |ps|
  {
    if ps == [] then [] else [ps[0].View()] + ParagraphViews(ps[1..])
  }

  lemma {:induction false} ParagraphViewsAt(ps: seq<Paragraph>, k: nat)
    requires k < |ps|
    ensures ParagraphViews(ps)[k] == ps[k].View()
  {
    if k > 0 { ParagraphViewsAt(ps[1..], k - 1); }
  }

  /** The paragraphs `ps` followed by a fresh paragraph holding `x`. */
  method AppendBuiltParagraph(ps: seq<Paragraph>, x: seq<seq<Token>>) returns (r: seq<Paragraph>)
    requires Distinct(SentencesOf(ps))
    requires forall s :: s in SentencesOf(ps) ==> allocated(s)
    ensures ParagraphViews(r) == old(ParagraphViews(ps)) + [x]
    ensures Distinct(SentencesOf(r))
    ensures forall s :: s in SentencesOf(r) ==> s in old(SentencesOf(ps)) || fresh(s)
    ensures forall s :: s in SentencesOf(r) ==> allocated(s)
  {
    ghost var sentences := SentencesOf(ps);
    ghost var views := ParagraphViews(ps);
    var p := Paragraph.Build(x);
    assert forall s :: s in p.sentences ==> s !in sentences;
    assert SentencesOf(ps) == sentences;
    assert ParagraphViews(ps) == views;
    SentencesOfAppend(ps, [p]);
    ParagraphViewsAppend(ps, [p]);
    assert SentencesOf([p]) == p.sentences;
    assert ParagraphViews([p]) == [p.View()];
    DistinctAppend(sentences, p.sentences);
    r := ps + [p];
  }

  class Document {
    const id: int
    var paragraphs: seq<Paragraph>

    constructor (id: int, paragraphs: seq<Paragraph>)
      ensures this.id == id && this.paragraphs == paragraphs
    {
      this.id := id;
      this.paragraphs := paragraphs;
    }

    /** `add`: appends at the end, earlier paragraphs unchanged. */
    method Add(paragraph: Paragraph)
      modifies this
      ensures paragraphs == old(paragraphs) + [paragraph]
    {
      paragraphs := paragraphs + [paragraph];
    }

    function View(): DocumentView
      reads this, paragraphs, set s | s in SentencesOf(paragraphs)
    {
      DocumentView(id, ParagraphViews(paragraphs))
    }

    function ToJson(): DocumentJson<TokenJson>
      reads this, paragraphs, set s | s in SentencesOf(paragraphs)
    {
      DocumentToJson(View())
    }

    /** Fresh objects holding `v`, with a new sentence object per token list. */
    static method Build(v: DocumentView) returns (d: Document)
      ensures fresh(d) && d.View() == v
      ensures Distinct(SentencesOf(d.paragraphs))
      ensures forall s :: s in SentencesOf(d.paragraphs) ==> fresh(s) && allocated(s)
    {
      var ps: seq<Paragraph> := [];
      for i := 0 to |v.paragraphs|
        invariant ParagraphViews(ps) == v.paragraphs[..i]
        invariant Distinct(SentencesOf(ps))
        invariant forall s :: s in SentencesOf(ps) ==> fresh(s) && allocated(s)
      {
        assert v.paragraphs[..i + 1] == v.paragraphs[..i] + [v.paragraphs[i]];
        ps := AppendBuiltParagraph(ps, v.paragraphs[i]);
      }
      assert v.paragraphs[..|v.paragraphs|] == v.paragraphs;
      ghost var sentences := SentencesOf(ps);
      d := new Document(v.id, ps);
      assert SentencesOf(ps) == sentences;
      assert ParagraphViews(ps) == v.paragraphs;
    }

    static method FromJson(j: DocumentJson<TokenJson>) returns (r: Result<Document>)
      ensures r.Err? <==> DocumentFromJson(j).Err?
      ensures r.Err? ==> r.error == DocumentFromJson(j).error
      ensures r.Ok? ==> fresh(r.value) && r.value.View() == DocumentFromJson(j).value
    {
      match DocumentFromJson(j)
      case Err(e) => return Err(e);
      case Ok(v) =>
        var d := Build(v);
        return Ok(d);
    }
  }

  /** All paragraphs of a list of documents, in order. */
  function ParagraphsOf(ds: seq<Document>): seq<Paragraph>
    reads ds
  {
    if ds == [] then [] else ds[0].paragraphs + ParagraphsOf(ds[1..])
  }

  /** The paragraphs of allocated documents are allocated. */
  lemma {:induction false} ParagraphsOfAllocated(ds: seq<Document>)
    requires forall d :: d in ds ==> allocated(d)
    ensures forall p :: p in ParagraphsOf(ds) ==> allocated(p)
  {
    if ds != [] {
      ParagraphsOfAllocated(ds[1..]);
    }
  }

  /** All sentences of a list of documents, in order. */
  function SentencesOfDocs(ds: seq<Document>): seq<Sentence>
    reads ds, set p | p in ParagraphsOf(ds)
  {
    if ds == [] then [] else SentencesOf(ds[0].paragraphs) + SentencesOfDocs(ds[1..])
  }

  function DocumentViews(ds: seq<Document>): (r: seq<DocumentView>)
    reads ds, set p | p in ParagraphsOf(ds), set s | s in SentencesOfDocs(ds)
    ensures |r| == |ds|
  {
    if ds == [] then [] else [ds[0].View()] + DocumentViews(ds[1..])
  }

  lemma {:induction false} DocumentViewsAt(ds: seq<Document>, k: nat)
    requires k < |ds|
    ensures DocumentViews(ds)[k] == ds[k].View()
  {
    if k > 0 { DocumentViewsAt(ds[1..], k - 1); }
  }

  lemma {:induction false} DocsAppend(a: seq<Document>, b: seq<Document>)
    ensures ParagraphsOf(a + b) == ParagraphsOf(a) + ParagraphsOf(b)
    ensures SentencesOfDocs(a + b) == SentencesOfDocs(a) + SentencesOfDocs(b)
    ensures DocumentViews(a + b) == DocumentViews(a) + DocumentViews(b)
  {
    if a == [] {
      assert a + b == b;
    } else {
      assert (a + b)[1..] == a[1..] + b;
      DocsAppend(a[1..], b);
    }
  }

  lemma DocsSnoc(ds: seq<Document>, d: Document)
    ensures ParagraphsOf(ds + [d]) == ParagraphsOf(ds) + d.paragraphs
    ensures SentencesOfDocs(ds + [d]) == SentencesOfDocs(ds) + SentencesOf(d.paragraphs)
    ensures DocumentViews(ds + [d]) == DocumentViews(ds) + [d.View()]
  {
    DocsAppend(ds, [d]);
    assert ParagraphsOf([d]) == d.paragraphs;
    assert SentencesOfDocs([d]) == SentencesOf(d.paragraphs);
  }

  /** The documents `ds` followed by a fresh document holding `x`. */
  method AppendBuilt(ds: seq<Document>, x: DocumentView) returns (r: seq<Document>)
    requires Distinct(SentencesOfDocs(ds))
    requires forall p :: p in ParagraphsOf(ds) ==> allocated(p)
    requires forall s :: s in SentencesOfDocs(ds) ==> allocated(s)
    ensures DocumentViews(r) == old(DocumentViews(ds)) + [x]
    ensures Distinct(SentencesOfDocs(r))
    ensures forall p :: p in ParagraphsOf(r) ==> allocated(p)
    ensures forall s :: s in SentencesOfDocs(r) ==> allocated(s)
    ensures forall s :: s in SentencesOfDocs(r) ==> s in old(SentencesOfDocs(ds)) || fresh(s)
  {
    ghost var paragraphs := ParagraphsOf(ds);
    ghost var sentences := SentencesOfDocs(ds);
    ghost var views := DocumentViews(ds);
    var d := Document.Build(x);
    ghost var added := SentencesOf(d.paragraphs);
    assert forall s :: s in added ==> allocated(s) && s !in sentences;
    assert ParagraphsOf(ds) == paragraphs;
    assert SentencesOfDocs(ds) == sentences;
    assert DocumentViews(ds) == views;
    DocsSnoc(ds, d);
    DistinctAppend(sentences, added);
    r := ds + [d];
  }

  /** Fresh documents holding `v`, with a new sentence object per token list. */
  method BuildDocuments(v: seq<DocumentView>) returns (ds: seq<Document>)
    ensures DocumentViews(ds) == v && Distinct(SentencesOfDocs(ds))
    ensures forall p :: p in ParagraphsOf(ds) ==> allocated(p)
    ensures forall s :: s in SentencesOfDocs(ds) ==> allocated(s) && fresh(s)
  {
    ds := [];
    for i := 0 to |v|
      invariant DocumentViews(ds) == v[..i] && Distinct(SentencesOfDocs(ds))
      invariant forall p :: p in ParagraphsOf(ds) ==> allocated(p)
      invariant forall s :: s in SentencesOfDocs(ds) ==> allocated(s) && fresh(s)
    {
      assert v[..i + 1] == v[..i] + [v[i]];
      ds := AppendBuilt(ds, v[i]);
    }
    assert v[..|v|] == v;
  }

  class Corpus {
    var documents: seq<Document>

    constructor (documents: seq<Document>)
      ensures this.documents == documents
    {
      this.documents := documents;
    }

    /** `add`: appends at the end, earlier documents unchanged. */
    method Add(document: Document)
      modifies this
      ensures documents == old(documents) + [document]
    {
      documents := documents + [document];
    }

    /** Every sentence of every paragraph of every document, in order. */
    function Sentences(): seq<Sentence>
      reads this, documents, set p | p in ParagraphsOf(documents)
    {
      SentencesOfDocs(documents)
    }

    /** Each sentence object occurs once in the tree (the tree owns it). */
    ghost predicate Valid()
      reads this, documents, set p | p in ParagraphsOf(documents)
    {
      Distinct(Sentences())
    }

    function View(): seq<DocumentView>
      reads this, documents, set p | p in ParagraphsOf(documents), set s | s in Sentences()
    {
      DocumentViews(documents)
    }

    function ToJson(): CorpusJson<TokenJson>
      reads this, documents, set p | p in ParagraphsOf(documents), set s | s in Sentences()
    {
      CorpusToJson(View())
    }

    /** Fresh objects holding `v`, with a new sentence object per token list. */
    static method Build(v: seq<DocumentView>) returns (c: Corpus)
      ensures fresh(c) && c.View() == v && c.Valid()
      ensures forall s :: s in c.Sentences() ==> fresh(s)
    {
      var ds := BuildDocuments(v);
      ghost var paragraphs := ParagraphsOf(ds);
      ghost var sentences := SentencesOfDocs(ds);
      c := new Corpus(ds);
      assert ParagraphsOf(ds) == paragraphs;
      assert SentencesOfDocs(ds) == sentences;
      assert DocumentViews(ds) == v;
    }

    static method FromJson(j: CorpusJson<TokenJson>) returns (r: Result<Corpus>)
      ensures r.Err? <==> CorpusFromJson(j).Err?
      ensures r.Err? ==> r.error == CorpusFromJson(j).error
      ensures r.Ok? ==> fresh(r.value) && r.value.View() == CorpusFromJson(j).value && r.value.Valid()
    {
      match CorpusFromJson(j)
      case Err(e) => return Err(e);
      case Ok(v) =>
        var c := Build(v);
        return Ok(c);
    }
  }

  // ------------------------------------------------- flat and shape views

  /** The sentences of a list of paragraphs, in order. */
  function FlatParagraphs(ps: seq<seq<seq<Token>>>): seq<seq<Token>>
  {
    if ps == [] then [] else ps[0] + FlatParagraphs(ps[1..])
  }

  /** Every sentence of a corpus, in document, paragraph and sentence order. */
  function Flat(v: seq<DocumentView>): seq<seq<Token>>
  {
    if v == [] then [] else FlatParagraphs(v[0].paragraphs) + Flat(v[1..])
  }

  /** A document without its tokens: its id and the number of sentences of
      each of its paragraphs. */
  datatype DocumentShape = DocumentShape(id: int, sizes: seq<nat>)

  function Sizes(ps: seq<seq<seq<Token>>>): seq<nat>
  {
    seq(|ps|, p requires 0 <= p < |ps| => |ps[p]|)
  }

  function Shape(v: seq<DocumentView>): seq<DocumentShape>
  {
    if v == [] then [] else [DocumentShape(v[0].id, Sizes(v[0].paragraphs))] + Shape(v[1..])
  }

  /** The shape of a tree of objects, read from the documents and
      paragraphs only. */
  function ParagraphSizes(ps: seq<Paragraph>): seq<nat>
    reads ps
  {
    seq(|ps|, p requires 0 <= p < |ps| reads ps => |ps[p].sentences|)
  }

  function ShapeOf(ds: seq<Document>): seq<DocumentShape>
    reads ds, set p | p in ParagraphsOf(ds)
  {
    if ds == [] then [] else [DocumentShape(ds[0].id, ParagraphSizes(ds[0].paragraphs))] + ShapeOf(ds[1..])
  }

  lemma {:induction false} ViewShape(ds: seq<Document>)
    ensures Shape(DocumentViews(ds)) == ShapeOf(ds)
  {
    if ds != [] {
      ViewShape(ds[1..]);
      var ps := ds[0].paragraphs;
      forall p | 0 <= p < |ps| ensures |ParagraphViews(ps)[p]| == |ps[p].sentences| {
        ParagraphViewsAt(ps, p);
      }
      assert Sizes(ParagraphViews(ps)) == ParagraphSizes(ps);
      assert DocumentViews(ds)[1..] == DocumentViews(ds[1..]);
    }
  }

  lemma TokenListsAppend(a: seq<Sentence>, b: seq<Sentence>)
    ensures TokenLists(a + b) == TokenLists(a) + TokenLists(b)
  {
  }

  lemma {:induction false} ParagraphFlat(ps: seq<Paragraph>)
    ensures FlatParagraphs(ParagraphViews(ps)) == TokenLists(SentencesOf(ps))
  {
    if ps != [] {
      ParagraphFlat(ps[1..]);
      TokenListsAppend(ps[0].sentences, SentencesOf(ps[1..]));
      assert ParagraphViews(ps)[1..] == ParagraphViews(ps[1..]);
    }
  }

  lemma {:induction false} ViewFlat(ds: seq<Document>)
    ensures Flat(DocumentViews(ds)) == TokenLists(SentencesOfDocs(ds))
  {
    if ds != [] {
      ViewFlat(ds[1..]);
      ParagraphFlat(ds[0].paragraphs);
      TokenListsAppend(SentencesOf(ds[0].paragraphs), SentencesOfDocs(ds[1..]));
      assert DocumentViews(ds)[1..] == DocumentViews(ds[1..]);
    }
  }

  /** The corpus's sentences in order are the sentences of its view in
      order. */
  lemma CorpusFlat(c: Corpus)
    ensures Flat(c.View()) == TokenLists(c.Sentences())
  {
    ViewFlat(c.documents);
  }

  /** The shape of a corpus is fixed by its documents and paragraphs alone. */
  lemma CorpusShape(c: Corpus)
    ensures Shape(c.View()) == ShapeOf(c.documents)
  {
    ViewShape(c.documents);
  }

  /** The per-sentence loop of the converters' `main`s: `sent.tokens =
      f(sent.tokens)` for every sentence of every paragraph of every document,
      in order. The tree's shape is unchanged and the first exception ends
      the loop. */
  method UpdateSentences(c: Corpus, f: seq<Token> -> Result<seq<Token>>) returns (r: Result<()>)
    requires c.Valid()
    modifies set s | s in c.Sentences()
    ensures c.Sentences() == old(c.Sentences()) && c.Valid()
    ensures Shape(c.View()) == old(Shape(c.View()))
    ensures r.Ok? <==> old(MapAll(f, TokenLists(c.Sentences()))).Ok?
    ensures r.Ok? ==> TokenLists(c.Sentences()) == old(MapAll(f, TokenLists(c.Sentences()))).value
    ensures r.Err? ==> r.error == old(MapAll(f, TokenLists(c.Sentences()))).error
  {
    ParagraphsOfAllocated(c.documents);
    CorpusShape(c);
    var ss := c.Sentences();
    ghost var before := TokenLists(ss);
    ghost var shape := ShapeOf(c.documents);
    assert Distinct(ss);
    for k := 0 to |ss|
      invariant c.Sentences() == ss && ShapeOf(c.documents) == shape
      invariant forall j :: 0 <= j < k ==> f(before[j]) == Ok(ss[j].tokens)
      invariant forall j :: k <= j < |ss| ==> ss[j].tokens == before[j]
    {
      var res := f(ss[k].tokens);
      if res.Err? {
        MapAllFirstError(f, before, k);
        CorpusShape(c);
        return Err(res.error);
      }
      assert forall j :: 0 <= j < |ss| && j != k ==> ss[j] != ss[k];
      ss[k].tokens := res.value;
    }
    MapAllPointwise(f, before, TokenLists(ss));
    CorpusShape(c);
    return Ok(());
  }
}
