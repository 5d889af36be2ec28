/** BILUO encoding of a sentence's entity labels: every token gets one tag,
    `B-T` (begins), `I-T` (inside), `L-T` (last), `U-T` (unit) or `O`
    (outside), where `T` is the token's `get_NE` label. */
module Biluo {
  import opened Wrappers
  import opened DataTypes

  datatype Tag = O | B(t: string) | I(t: string) | L(t: string) | U(t: string)

  /** The tag as written into the token. */
  function TagString(tag: Tag): (s: string)
    ensures tag.O? <==> s == "O"
  {
    match tag
    case O => "O"
    case B(t) => "B-" + t
    case I(t) => "I-" + t
    case L(t) => "L-" + t
    case U(t) => "U-" + t
  }

  /** The entity label of a token: its `get_NE` value when `is_NE` holds,
      and nothing otherwise. */
  function Ent(token: Token): (r: Option<string>)
    ensures r.Some? <==> token.IsNE()
    ensures r.Some? ==> token.NE() == r && r.value != "O"
  {
    if token.IsNE() then token.NE() else None
  }

  function Ents(tokens: seq<Token>): (r: seq<Option<string>>)
    ensures |r| == |tokens| && forall i :: 0 <= i < |tokens| ==> r[i] == Ent(tokens[i])
  {
    seq(|tokens|, i requires 0 <= i < |tokens| => Ent(tokens[i]))
  }

  /** Positions `a` and `b` are both entities with the same label: the test
      that continues an entity from `a` to `b`. */
  predicate Same(ents: seq<Option<string>>, a: nat, b: nat)
    requires a < |ents| && b < |ents|
  {
    ents[a].Some? && ents[a] == ents[b]
  }

  /** The tag at position `i`: inside a run that began earlier it is `I` or
      `L`, otherwise `B`, `U` or `O`, with one position of lookahead. */
  function TagAt(ents: seq<Option<string>>, i: nat): Tag
    requires i < |ents|
  {
    var next := i + 1 < |ents| && Same(ents, i, i + 1);
    if i > 0 && Same(ents, i - 1, i) then
      (if next then I(ents[i].value) else L(ents[i].value))
    else if ents[i].Some? then
      (if next then B(ents[i].value) else U(ents[i].value))
    else O
  }

  function Tags(ents: seq<Option<string>>): (r: seq<Tag>)
    ensures |r| == |ents| && forall i :: 0 <= i < |ents| ==> r[i] == TagAt(ents, i)
  {
    seq(|ents|, i requires 0 <= i < |ents| => TagAt(ents, i))
  }

  /** A new token with the same text and id and the single item `{tag: '1'}`. */
  function Tagged(token: Token, tag: Tag): (r: Token)
    ensures r.orth == token.orth && r.id == token.id && r.NE() == Some(TagString(tag))
    ensures r.IsNE() <==> !tag.O?
  {
    Token(token.orth, [[Pair(TagString(tag), "1")]], token.id)
  }

  /** The sentence the encoder produces. */
  function Encoded(tokens: seq<Token>): (r: seq<Token>)
    ensures |r| == |tokens| && forall i :: 0 <= i < |tokens| ==> r[i] == Tagged(tokens[i], Tags(Ents(tokens))[i])
  {
    var tags := Tags(Ents(tokens));
    seq(|tokens|, i requires 0 <= i < |tokens| => Tagged(tokens[i], tags[i]))
  }

  /** The sentence `convert_to_biluo` returns, or the `IndexError` of an
      empty one. */
  function BiluoSentence(tokens: seq<Token>): Result<seq<Token>>
  {
    if tokens == [] then Err(IndexError("list index out of range")) else Ok(Encoded(tokens))
  }

  /** `convert_to_biluo`: one pass over all tokens but the last carrying the
      `in_ne` flag, then the last token on its own. The branch the source
      guards with `assert False` (inside an entity, on a token that is not
      one) cannot be reached. An empty sentence fails at `tokens[-1]`. */
  method ConvertToBiluo(tokens: seq<Token>) returns (r: Result<seq<Token>>)
    ensures tokens == [] <==> r.Err?
    ensures r.Err? ==> r.error.IndexError?
    ensures r.Ok? ==> r.value == Encoded(tokens)
    ensures r == BiluoSentence(tokens)
  {
    if |tokens| == 0 {
      return Err(IndexError("list index out of range"));
    }
    ghost var ents := Ents(tokens);
    ghost var tags := Tags(ents);
    var out: seq<Token> := [];
    var inNe := false;
    for i := 0 to |tokens| - 1
      invariant |out| == i
      invariant forall k :: 0 <= k < i ==> out[k] == Tagged(tokens[k], tags[k])
      invariant inNe <==> i > 0 && Same(ents, i - 1, i)
    {
      var token := tokens[i];
      assert ents[i] == Ent(token) && ents[i + 1] == Ent(tokens[i + 1]);
      var tag: Tag;
      if inNe {
        if token.IsNE() {
          if tokens[i + 1].IsNE() && token.NE() == tokens[i + 1].NE() {
            tag := I(token.NE().value);
          } else {
            tag := L(token.NE().value);
            inNe := false;
          }
        } else {
          assert false;
        }
      } else {
        if token.IsNE() {
          if tokens[i + 1].IsNE() && token.NE() == tokens[i + 1].NE() {
            tag := B(token.NE().value);
            inNe := true;
          } else {
            tag := U(token.NE().value);
            inNe := false;
          }
        } else {
          tag := O;
        }
      }
      assert tag == tags[i];
      out := out + [Tagged(token, tag)];
    }
    var token := tokens[|tokens| - 1];
    assert ents[|tokens| - 1] == Ent(token);
    var tag: Tag;
    if inNe {
      tag := L(token.NE().value);
    } else {
      if token.IsNE() {
        tag := U(token.NE().value);
      } else {
        tag := O;
      }
    }
    assert tag == tags[|tokens| - 1];
    out := out + [Tagged(token, tag)];
    return Ok(out);
  }

  /** The per-sentence loop of `main`: `convert_to_biluo` on every sentence
      of every paragraph of every document. The tree keeps its shape; an
      empty sentence ends the loop with `IndexError`. */
  method BiluoCorpus(c: Corpus) returns (r: Result<()>)
    requires c.Valid()
    modifies set s | s in c.Sentences()
    ensures c.Sentences() == old(c.Sentences()) && c.Valid()
    ensures Shape(c.View()) == old(Shape(c.View()))
    ensures r.Ok? <==> forall k :: 0 <= k < |c.Sentences()| ==> old(TokenLists(c.Sentences()))[k] != []
    ensures r.Ok? ==> forall k :: 0 <= k < |c.Sentences()| ==>
              c.Sentences()[k].tokens == Encoded(old(TokenLists(c.Sentences()))[k])
    ensures r.Err? ==> r.error.IndexError?
  {
    ghost var x := TokenLists(c.Sentences());
    r := UpdateSentences(c, BiluoSentence);
    BiluoAll(x);
  }

  /** Encoding every sentence of a list succeeds exactly when none is empty,
      and then gives each sentence's encoding at its own position. */
  lemma BiluoAll(xs: seq<seq<Token>>)
    ensures MapAll(BiluoSentence, xs).Ok? <==> forall k :: 0 <= k < |xs| ==> xs[k] != []
    ensures MapAll(BiluoSentence, xs).Ok? ==>
              forall k :: 0 <= k < |xs| ==> MapAll(BiluoSentence, xs).value[k] == Encoded(xs[k])
    ensures MapAll(BiluoSentence, xs).Err? ==> MapAll(BiluoSentence, xs).error.IndexError?
  {
    var r := MapAll(BiluoSentence, xs);
    if r.Err? {
      var k :| 0 <= k < |xs| && BiluoSentence(xs[k]) == Err(r.error);
    } else {
      forall k | 0 <= k < |xs| ensures xs[k] != [] && r.value[k] == Encoded(xs[k]) {
        assert BiluoSentence(xs[k]) == Ok(r.value[k]);
      }
    }
  }

  /** Every output token has one item `{tag: '1'}`, where the tag is "O"
      exactly for the non-entities and otherwise carries the token's own
      entity label; text and id are copied from the same position. */
  lemma TagMeaning(tokens: seq<Token>, i: nat)
    requires i < |tokens|
    ensures var tag := Tags(Ents(tokens))[i];
            && (tag.O? <==> !tokens[i].IsNE())
            && (!tag.O? ==> tokens[i].NE() == Some(tag.t))
            && Encoded(tokens)[i] == Token(tokens[i].orth, [[Pair(TagString(tag), "1")]], tokens[i].id)
  {
    var ents := Ents(tokens);
    assert ents[i] == Ent(tokens[i]);
    assert i > 0 ==> ents[i - 1] == Ent(tokens[i - 1]);
  }

  /** A one-token sentence is `U-T` for an entity and `O` otherwise. */
  lemma SingleToken(t: Token)
    ensures Tags(Ents([t])) == [if t.IsNE() then U(t.NE().value) else O]
  {
    assert Ents([t])[0] == Ent(t);
  }

  /** The tag grammar: `B-T I-T* L-T` or `U-T` or `O`, so `I` and `L` only
      continue an open entity of the same label and nothing is left open at
      the end. `open` is the label of the entity in progress, if any. */
  ghost predicate WellFormedFrom(tags: seq<Tag>, k: nat, open: Option<string>)
    requires k <= |tags|
    decreases |tags| - k
  {
    if k == |tags| then open.None?
    else
      match tags[k]
      case O => open.None? && WellFormedFrom(tags, k + 1, None)
      case U(_) => open.None? && WellFormedFrom(tags, k + 1, None)
      case B(t) => open.None? && WellFormedFrom(tags, k + 1, Some(t))
      case I(t) => open == Some(t) && WellFormedFrom(tags, k + 1, open)
      case L(t) => open == Some(t) && WellFormedFrom(tags, k + 1, None)
  }

  ghost predicate WellFormed(tags: seq<Tag>)
  {
    WellFormedFrom(tags, 0, None)
  }

  /** The label that is open after token `k - 1`. */
  function OpenAt(ents: seq<Option<string>>, k: nat): Option<string>
    requires k <= |ents|
  {
    if 0 < k < |ents| && Same(ents, k - 1, k) then ents[k] else None
  }

  lemma {:induction false} WellFormedSuffix(ents: seq<Option<string>>, k: nat)
    requires k <= |ents|
    ensures WellFormedFrom(Tags(ents), k, OpenAt(ents, k))
    decreases |ents| - k
  {
    if k < |ents| {
      WellFormedSuffix(ents, k + 1);
    }
  }

  /** The encoder's tags are always a well-formed sequence. */
  lemma BiluoWellFormed(tokens: seq<Token>)
    ensures WellFormed(Tags(Ents(tokens)))
  {
    WellFormedSuffix(Ents(tokens), 0);
  }

  /** Tags `b..e` spell one entity labelled `t`: `U-T`, or `B-T I-T* L-T`. */
  ghost predicate IsSpan(tags: seq<Tag>, b: nat, e: nat, t: string)
    requires b <= e < |tags|
  {
    if b == e then tags[b] == U(t)
    else tags[b] == B(t) && tags[e] == L(t) && forall k :: b < k < e ==> tags[k] == I(t)
  }

  /** Positions `b..e` are a maximal run of consecutive entities labelled `t`. */
  ghost predicate IsMaximalRun(ents: seq<Option<string>>, b: nat, e: nat, t: string)
    requires b <= e < |ents|
  {
    && (forall k :: b <= k <= e ==> ents[k] == Some(t))
    && (b == 0 || ents[b - 1] != Some(t))
    && (e == |ents| - 1 || ents[e + 1] != Some(t))
  }

  /** Decoding the tags gives back exactly the maximal runs of equally
      labelled entities, so adjacent entities with one label merge into one
      span. */
  lemma SpansAreMaximalRuns(ents: seq<Option<string>>, b: nat, e: nat, t: string)
    requires b <= e < |ents|
    ensures IsSpan(Tags(ents), b, e, t) <==> IsMaximalRun(ents, b, e, t)
  {
    var tags := Tags(ents);
    if IsSpan(tags, b, e, t) {
      forall k | b <= k <= e ensures ents[k] == Some(t) {
        assert tags[k] == TagAt(ents, k);
      }
    }
    if IsMaximalRun(ents, b, e, t) {
      forall k | b < k < e ensures tags[k] == I(t) {
        assert Same(ents, k - 1, k) && Same(ents, k, k + 1);
      }
      if b < e {
        assert Same(ents, b, b + 1);
        assert Same(ents, e - 1, e);
      }
    }
  }

  /** The same, for the tokens of a sentence. */
  lemma SentenceSpans(tokens: seq<Token>, b: nat, e: nat, t: string)
    requires b <= e < |tokens|
    ensures IsSpan(Tags(Ents(tokens)), b, e, t) <==>
              && (forall k :: b <= k <= e ==> tokens[k].IsNE() && tokens[k].NE() == Some(t))
              && (b == 0 || !(tokens[b - 1].IsNE() && tokens[b - 1].NE() == Some(t)))
              && (e == |tokens| - 1 || !(tokens[e + 1].IsNE() && tokens[e + 1].NE() == Some(t)))
  {
    var ents := Ents(tokens);
    SpansAreMaximalRuns(ents, b, e, t);
    forall k | 0 <= k < |tokens| ensures ents[k] == Some(t) <==> tokens[k].IsNE() && tokens[k].NE() == Some(t) {
      assert ents[k] == Ent(tokens[k]);
    }
  }
}
