/** What the two KPWr readers share (`wroc_to_raw_internal.py` and
    `wroc_to_raw_spacy.py` hold textually identical copies): the counting
    map, the per-token annotation filter and the numbering of documents and
    tokens while the corpus tree is assembled. The XML is taken as already
    parsed: a file is its sentences, a sentence its tokens, a token its text
    and its `<ann chan="...">text</ann>` records in document order. */
module RawCorpus {
  import opened Wrappers
  import opened Strings
  import opened DataTypes

  // ------------------------------------------------------------ setCounter

  /** The count of `k`, zero when absent. */
  function Get(m: map<string, int>, k: string): int
  {
    if k in m then m[k] else 0
  }

  /** The counts after counting `k` for `times` more occurrences. */
  function Counted(m: map<string, int>, k: string, times: int): map<string, int>
  {
    m[k := Get(m, k) + times]
  }

  /** Counting adds `times` to `k`, creating it when absent, and leaves every
      other key and its count as it was. */
  lemma CountedMeaning(m: map<string, int>, k: string, times: int)
    ensures Counted(m, k, times).Keys == m.Keys + {k}
    ensures Counted(m, k, times)[k] == Get(m, k) + times
    ensures forall j :: j in m && j != k ==> Counted(m, k, times)[j] == m[j]
  {
  }

  /** The counts of `b` added into `a`. */
  function Merged(a: map<string, int>, b: map<string, int>): (r: map<string, int>)
  {
    map k | k in a.Keys + b.Keys :: Get(a, k) + Get(b, k)
  }

  /** `b` restricted to the keys in `ks`. */
  function Restrict(b: map<string, int>, ks: set<string>): map<string, int>
  {
    map k | k in b && k in ks :: b[k]
  }

  /** Merging into an empty counter copies the other counter. */
  lemma MergeIntoEmpty(b: map<string, int>)
    ensures Merged(map[], b) == b
  {
  }

  /** Merging a counter into itself doubles every count. */
  lemma MergeSelf(a: map<string, int>)
    ensures Merged(a, a) == map k | k in a :: 2 * a[k]
  {
  }

  /** Every key of either side is kept and holds the sum of both counts. */
  lemma MergedCounts(a: map<string, int>, b: map<string, int>, k: string)
    ensures k in Merged(a, b) <==> k in a || k in b
    ensures Get(Merged(a, b), k) == Get(a, k) + Get(b, k)
  {
  }

  /** Counting one more key of `b` extends the part of `b` merged so far. */
  lemma MergeStep(a: map<string, int>, b: map<string, int>, done: set<string>, k: string)
    requires k in b && k !in done
    ensures Merged(a, Restrict(b, done + {k})) == Counted(Merged(a, Restrict(b, done)), k, b[k])
  {
    var lhs := Merged(a, Restrict(b, done + {k}));
    var rhs := Counted(Merged(a, Restrict(b, done)), k, b[k]);
    assert lhs.Keys == rhs.Keys;
    forall j | j in lhs.Keys ensures lhs[j] == rhs[j] {
      if j == k {
        assert Get(Restrict(b, done), k) == 0;
      }
    }
  }

  lemma RestrictAll(b: map<string, int>)
    ensures Restrict(b, b.Keys) == b
  {
  }

  /** The counting map: `count` adds to one key, `merge` adds a whole counter. */
  class SetCounter {
    var contents: map<string, int>

    constructor ()
      ensures contents == map[]
    {
      contents := map[];
    }

    /** `count`: adds `times` to `k`, creating it with `times` when absent;
        every other key keeps its count. */
    method Count(k: string, times: int)
      modifies this
      ensures contents == Counted(old(contents), k, times)
    {
      if k in contents {
        contents := contents[k := contents[k] + times];
      } else {
        contents := contents[k := times];
      }
    }

    /** `merge`: counts every key of `other` with its count there. The keys
        are visited in some order and each count is read when its key is
        visited, before anything has added to it, so the counts read are
        those `other` held on entry even when `other` is this counter. */
    method Merge(other: SetCounter)
      modifies this
      ensures contents == Merged(old(contents), old(other.contents))
    {
      var src := other.contents;
      var keys := src.Keys;
      ghost var start := contents;
      ghost var done: set<string> := {};
      assert Merged(start, Restrict(src, {})) == start;
      while keys != {}
        invariant keys !! done && keys + done == src.Keys
        invariant contents == Merged(start, Restrict(src, done))
        decreases |keys|
      {
        var k :| k in keys;
        MergeStep(start, src, done, k);
        Count(k, src[k]);
        keys := keys - {k};
        done := done + {k};
      }
      assert done == src.Keys;
      RestrictAll(src);
    }
  }

  // --------------------------------------------------------- process_token

  /** An `<ann>` record: its `chan` attribute and its text. */
  datatype Ann = Ann(chan: string, text: string)

  /** A `<tok>` element: the text of its `<orth>` child and its `<ann>`s. */
  datatype RawToken = RawToken(orth: string, anns: seq<Ann>)

  /** The kept annotations: those whose channel ends in "nam", each as the
      one-item dict `{chan: text}`, in document order and whatever the text
      (a "0" included). */
  function NamAttribs(anns: seq<Ann>): seq<Attrib>
  {
    if anns == [] then []
    else
      var a := anns[|anns| - 1];
      NamAttribs(anns[..|anns| - 1]) + (if EndsWith(a.chan, "nam") then [[Pair(a.chan, a.text)]] else [])
  }

  /** The filter works record by record: one record gives its dict or
      nothing, and a concatenation gives the concatenation of the results. */
  lemma NamAttribsOne(a: Ann)
    ensures NamAttribs([a]) == if EndsWith(a.chan, "nam") then [[Pair(a.chan, a.text)]] else []
  {
    assert [a][..0] == [];
  }

  lemma {:induction false} NamAttribsAppend(x: seq<Ann>, y: seq<Ann>)
    ensures NamAttribs(x + y) == NamAttribs(x) + NamAttribs(y)
    decreases |y|
  {
    if y == [] {
      assert x + y == x;
    } else {
      var y' := y[..|y| - 1];
      assert (x + y)[..|x + y| - 1] == x + y';
      assert (x + y)[|x + y| - 1] == y[|y| - 1];
      NamAttribsAppend(x, y');
    }
  }

  /** Every kept dict is one `{chan: text}` of a record on a "nam" channel,
      and every record on a "nam" channel is kept. */
  lemma {:induction false} NamAttribsKept(anns: seq<Ann>)
    ensures forall i :: 0 <= i < |NamAttribs(anns)| ==>
              |NamAttribs(anns)[i]| == 1 && EndsWith(NamAttribs(anns)[i][0].channel, "nam")
              && Ann(NamAttribs(anns)[i][0].channel, NamAttribs(anns)[i][0].value) in anns
    ensures forall a :: a in anns && EndsWith(a.chan, "nam") ==> [Pair(a.chan, a.text)] in NamAttribs(anns)
  {
    if anns != [] {
      var init := anns[..|anns| - 1];
      NamAttribsKept(init);
      assert anns == init + [anns[|anns| - 1]];
      forall a | a in anns && EndsWith(a.chan, "nam") ensures [Pair(a.chan, a.text)] in NamAttribs(anns) {
        if a in init {
          assert [Pair(a.chan, a.text)] in NamAttribs(init);
        }
      }
    }
  }

  /** `process_token`: the loop over the token's `<ann>`s that keeps the
      "nam" channels; the id is the one handed in. */
  method ProcessToken(tok: RawToken, id: int) returns (t: Token)
    ensures t == Token(tok.orth, NamAttribs(tok.anns), id)
  {
    var attribs: seq<Attrib> := [];
    for i := 0 to |tok.anns|
      invariant attribs == NamAttribs(tok.anns[..i])
    {
      var ann := tok.anns[i];
      assert tok.anns[..i + 1][..i] == tok.anns[..i];
      if EndsWith(ann.chan, "nam") {
        attribs := attribs + [[Pair(ann.chan, ann.text)]];
      }
    }
    assert tok.anns[..|tok.anns|] == tok.anns;
    return Token(tok.orth, attribs, id);
  }

  // -------------------------------------------------------- extract_corpus

  /** A parsed file: its sentences, each a list of tokens. */
  type RawFile = seq<seq<RawToken>>

  /** The tokens of one sentence, numbered from `start`. */
  function NumberedSentence(sent: seq<RawToken>, start: int): seq<Token>
  {
    seq(|sent|, i requires 0 <= i < |sent| => Token(sent[i].orth, NamAttribs(sent[i].anns), start + i))
  }

  /** The sentences of a file, numbered on from `start` across sentences. */
  function Numbered(sents: RawFile, start: int): seq<seq<Token>>
  {
    if sents == [] then [] else [NumberedSentence(sents[0], start)] + Numbered(sents[1..], start + |sents[0]|)
  }

  /** The corpus `extract_corpus` assembles from the files. */
  function Extracted(files: seq<RawFile>): seq<DocumentView>
  {
    seq(|files|, k requires 0 <= k < |files| => DocumentView(k, [Numbered(files[k], 0)]))
  }

  /** The number of tokens of a file. */
  function Total(sents: RawFile): nat
  {
    if sents == [] then 0 else |sents[0]| + Total(sents[1..])
  }

  /** The ids of all tokens of a list of sentences, in order. */
  function Ids(ss: seq<seq<Token>>): seq<int>
  {
    if ss == [] then [] else seq(|ss[0]|, i requires 0 <= i < |ss[0]| => ss[0][i].id) + Ids(ss[1..])
  }

  /** `start, start + 1, ..., start + n - 1`. */
  function Range(start: int, n: nat): seq<int>
  {
    seq(n, i requires 0 <= i < n => start + i)
  }

  /** Numbering runs on across sentences: the ids of a file's tokens are
      `start, start + 1, ...`, one per token, with no gap and no repeat. */
  lemma {:induction false} NumberedIds(sents: RawFile, start: int)
    ensures Ids(Numbered(sents, start)) == Range(start, Total(sents))
  {
    if sents != [] {
      var n := |sents[0]|;
      NumberedIds(sents[1..], start + n);
      var ss := Numbered(sents, start);
      assert ss[0] == NumberedSentence(sents[0], start);
      assert ss[1..] == Numbered(sents[1..], start + n);
      assert Ids(ss) == Range(start, n) + Range(start + n, Total(sents[1..]));
    }
  }

  /** Each token keeps its text and its "nam" annotations, in the sentence
      and at the position it had in the file. */
  lemma {:induction false} NumberedTokens(sents: RawFile, start: int, s: nat, i: nat)
    requires s < |sents| && i < |sents[s]|
    ensures |Numbered(sents, start)| == |sents| && |Numbered(sents, start)[s]| == |sents[s]|
    ensures Numbered(sents, start)[s][i].orth == sents[s][i].orth
    ensures Numbered(sents, start)[s][i].attribs == NamAttribs(sents[s][i].anns)
  {
    if s > 0 {
      NumberedTokens(sents[1..], start + |sents[0]|, s - 1, i);
    } else {
      NumberedLength(sents, start);
    }
  }

  lemma {:induction false} NumberedLength(sents: RawFile, start: int)
    ensures |Numbered(sents, start)| == |sents|
  {
    if sents != [] {
      NumberedLength(sents[1..], start + |sents[0]|);
    }
  }

  /** What `extract_corpus` promises: document ids `0..k-1` in file order,
      exactly one paragraph per document holding the file's sentences, and
      token ids `0, 1, 2, ...` across all sentences of a document, starting
      again at 0 for the next file. */
  lemma ExtractedLayout(files: seq<RawFile>, k: nat)
    requires k < |files|
    ensures |Extracted(files)| == |files|
    ensures Extracted(files)[k].id == k && |Extracted(files)[k].paragraphs| == 1
    ensures |Extracted(files)[k].paragraphs[0]| == |files[k]|
    ensures Ids(Extracted(files)[k].paragraphs[0]) == Range(0, Total(files[k]))
  {
    NumberedIds(files[k], 0);
    NumberedLength(files[k], 0);
  }

  /** The sentences of the file from sentence `s` on, numbered from `id`,
      are sentence `s` followed by the rest numbered after it. */
  lemma NumberedFrom(sents: RawFile, s: nat, id: int)
    requires s < |sents|
    ensures Numbered(sents[s..], id) == [NumberedSentence(sents[s], id)] + Numbered(sents[s + 1..], id + |sents[s]|)
  {
    assert sents[s..][1..] == sents[s + 1..];
  }

  /** The tokens of one sentence, numbered from `id`; `id` is advanced past
      them. */
  method ExtractSentence(sent: seq<RawToken>, id: int) returns (tokens: seq<Token>, next: int)
    ensures tokens == NumberedSentence(sent, id) && next == id + |sent|
  {
    tokens := [];
    next := id;
    for i := 0 to |sent|
      invariant next == id + i
      invariant tokens == NumberedSentence(sent, id)[..i]
    {
      var token := ProcessToken(sent[i], next);
      next := next + 1;
      tokens := tokens + [token];
    }
  }

  /** The per-file loops of `extract_corpus`, with `doc_idx` and
      `token_idx_in_doc` as counters. */
  method ExtractDocuments(files: seq<RawFile>) returns (v: seq<DocumentView>)
    ensures v == Extracted(files)
  {
    v := [];
    var docIdx := 0;
    for f := 0 to |files|
      invariant docIdx == f && v == Extracted(files)[..f]
    {
      var sents := files[f];
      var tokenIdx := 0;
      var paragraph: seq<seq<Token>> := [];
      for s := 0 to |sents|
        invariant paragraph + Numbered(sents[s..], tokenIdx) == Numbered(sents, 0)
      {
        NumberedFrom(sents, s, tokenIdx);
        var sentence;
        sentence, tokenIdx := ExtractSentence(sents[s], tokenIdx);
        paragraph := paragraph + [sentence];
      }
      assert paragraph == Numbered(sents, 0) by {
        assert sents[|sents|..] == [];
      }
      assert Extracted(files)[..f + 1] == Extracted(files)[..f] + [DocumentView(f, [Numbered(files[f], 0)])];
      v := v + [DocumentView(docIdx, [paragraph])];
      docIdx := docIdx + 1;
    }
    assert Extracted(files)[..|files|] == Extracted(files);
  }

  /** `extract_corpus`: the corpus tree of fresh objects. */
  method ExtractCorpus(files: seq<RawFile>) returns (c: Corpus)
    ensures fresh(c) && c.Valid() && c.View() == Extracted(files)
    ensures forall s :: s in c.Sentences() ==> fresh(s)
  {
    var v := ExtractDocuments(files);
    c := Corpus.Build(v);
  }

  /** `wroc_to_raw_internal`'s `main`: the extracted corpus in the internal
      format, which reads back as exactly that corpus. */
  method ToInternalJson(files: seq<RawFile>) returns (j: CorpusJson<TokenJson>)
    ensures j == CorpusToJson(Extracted(files))
    ensures CorpusFromJson(j) == Ok(Extracted(files))
  {
    var c := ExtractCorpus(files);
    j := c.ToJson();
    CorpusRoundTrip(c.View());
  }
}
