/** The index from ispell flags to the words that carry them: every line of
    the word list is `word/flags` or a bare `word`, and the index files each
    word under every flag character of its line. */
module LemmaIndex {
  import opened Wrappers
  import opened Strings

  /** The flag string given to a word without flags. */
  const NoFlag: string := "NO_FLAG"

  /** One stripped line of the word list: split on `/`, or the bare word with
      `NO_FLAG`. */
  function SplitLine(line: string): seq<string>
  {
    if '/' in line then Split(line, '/') else [line, NoFlag]
  }

  /** `decode_and_split` on lines already decoded: every line stripped and
      split, in order. */
  function DecodeAndSplit(lines: seq<string>): (r: seq<seq<string>>)
    ensures |r| == |lines| && forall i :: 0 <= i < |lines| ==> r[i] == SplitLine(Strip(lines[i]))
  {
    seq(|lines|, i requires 0 <= i < |lines| => SplitLine(Strip(lines[i])))
  }

  /** A line splits into a word and a flag string exactly when it has at most
      one `/`. */
  lemma SplitLinePair(line: string)
    ensures |SplitLine(line)| == 2 <==> Count(line, '/') <= 1
    ensures |SplitLine(line)| >= 2
  {
    CountZero(line, '/');
  }

  /** `word/flags` is the word and its flags. */
  lemma WordWithFlags(word: string, flags: string)
    requires '/' !in word && '/' !in flags
    ensures SplitLine(word + "/" + flags) == [word, flags]
  {
    assert word + "/" + flags == word + ['/'] + flags;
    assert (word + ['/'] + flags)[|word|] == '/';
    SplitFirst(word, '/', flags);
    SplitNone(flags, '/');
  }

  /** A bare word gets the flag string `NO_FLAG`. */
  lemma BareWord(word: string)
    requires '/' !in word
    ensures SplitLine(word) == [word, NoFlag]
  {
  }

  /** Every item is a `(word, flags)` pair. */
  predicate AllPairs(items: seq<seq<string>>)
  {
    forall i :: 0 <= i < |items| ==> |items[i]| == 2
  }

  /** The decoded word list unpacks into pairs exactly when no stripped line
      has two `/`. */
  lemma DecodedPairs(lines: seq<string>)
    ensures AllPairs(DecodeAndSplit(lines)) <==> forall i :: 0 <= i < |lines| ==> Count(Strip(lines[i]), '/') <= 1
  {
    forall i | 0 <= i < |lines| {
      SplitLinePair(Strip(lines[i]));
    }
  }

  /** `n` copies of `w`. */
  function Repeat(w: string, n: nat): (r: seq<string>)
    ensures |r| == n && forall i :: 0 <= i < n ==> r[i] == w
  {
    if n == 0 then [] else Repeat(w, n - 1) + [w]
  }

  /** The flag strings of all items, one after the other. */
  function FlagText(items: seq<seq<string>>): string
    requires AllPairs(items)
  {
    if items == [] then [] else FlagText(items[..|items| - 1]) + items[|items| - 1][1]
  }

  /** The words filed under `f`: in item order, each word once per occurrence
      of `f` in its flag string. */
  function WordsFor(items: seq<seq<string>>, f: char): seq<string>
    requires AllPairs(items)
  {
    if items == [] then []
    else
      var last := items[|items| - 1];
      WordsFor(items[..|items| - 1], f) + Repeat(last[0], Count(last[1], f))
  }

  /** The index as a dict: a key for every character of a flag string, mapped
      to the words filed under it. */
  function WordIndex(items: seq<seq<string>>): map<char, seq<string>>
    requires AllPairs(items)
  {
    map f | f in FlagText(items) :: WordsFor(items, f)
  }

  lemma PrefixPairs(items: seq<seq<string>>, i: nat)
    requires i < |items| && AllPairs(items[..i]) && |items[i]| == 2
    ensures AllPairs(items[..i + 1]) && items[..i + 1][..i] == items[..i] && items[..i + 1][i] == items[i]
  {
    assert items[..i + 1][..i] == items[..i];
    assert forall k :: 0 <= k < i ==> items[..i + 1][k] == items[..i][k];
  }

  /** The list of `f` holds one word per occurrence of `f` across all flag
      strings. */
  lemma {:induction false} WordsForCount(items: seq<seq<string>>, f: char)
    requires AllPairs(items)
    ensures |WordsFor(items, f)| == Count(FlagText(items), f)
  {
    if items != [] {
      var pre := items[..|items| - 1];
      assert AllPairs(pre);
      WordsForCount(pre, f);
      CountAppend(FlagText(pre), items[|items| - 1][1], f);
    }
  }

  /** A word is under `f` exactly when some item has that word and `f` among
      its flags. */
  lemma {:induction false} WordsForMembers(items: seq<seq<string>>, f: char, w: string)
    requires AllPairs(items)
    ensures w in WordsFor(items, f) <==> exists k :: 0 <= k < |items| && items[k][0] == w && f in items[k][1]
  {
    if items != [] {
      var pre := items[..|items| - 1];
      var last := items[|items| - 1];
      assert AllPairs(pre);
      WordsForMembers(pre, f, w);
      CountZero(last[1], f);
      assert w in Repeat(last[0], Count(last[1], f)) <==> last[0] == w && f in last[1];
      assert forall k :: 0 <= k < |pre| ==> pre[k] == items[k];
      if exists k :: 0 <= k < |items| && items[k][0] == w && f in items[k][1] {
        var k :| 0 <= k < |items| && items[k][0] == w && f in items[k][1];
        if k < |pre| {
          assert pre[k][0] == w && f in pre[k][1];
        }
      }
    }
  }

  /** How often each character occurs in `NO_FLAG`. */
  lemma NoFlagCounts(f: char)
    ensures Count(NoFlag, f) == if f in NoFlag then 1 else 0
  {
    var t := NoFlag;
    assert t[1..] == "O_FLAG" && t[2..] == "_FLAG" && t[3..] == "FLAG";
    assert t[4..] == "LAG" && t[5..] == "AG" && t[6..] == "G" && t[7..] == [];
    assert Count(t[6..], f) == if f == 'G' then 1 else 0;
    assert Count(t[5..], f) == (if f == 'A' then 1 else 0) + Count(t[6..], f);
    assert Count(t[4..], f) == (if f == 'L' then 1 else 0) + Count(t[5..], f);
    assert Count(t[3..], f) == (if f == 'F' then 1 else 0) + Count(t[4..], f);
    assert Count(t[2..], f) == (if f == '_' then 1 else 0) + Count(t[3..], f);
    assert Count(t[1..], f) == (if f == 'O' then 1 else 0) + Count(t[2..], f);
    assert Count(t, f) == (if f == 'N' then 1 else 0) + Count(t[1..], f);
    var named := f == 'N' || f == 'O' || f == '_' || f == 'F' || f == 'L' || f == 'A' || f == 'G';
    if f in t {
      var i :| 0 <= i < |t| && t[i] == f;
      assert named by {
        assert i == 0 || i == 1 || i == 2 || i == 3 || i == 4 || i == 5 || i == 6;
      }
    }
    if named {
      assert f in t by {
        assert t[0] == 'N' && t[1] == 'O' && t[2] == '_' && t[3] == 'F' && t[4] == 'L' && t[5] == 'A' && t[6] == 'G';
      }
    }
  }

  /** A bare word is filed once under each of the seven characters of
      `NO_FLAG`, and under no key `"NO_FLAG"`. */
  lemma BareWordIndex(w: string)
    ensures AllPairs([[w, NoFlag]])
    ensures WordIndex([[w, NoFlag]])
         == map['N' := [w], 'O' := [w], '_' := [w], 'F' := [w], 'L' := [w], 'A' := [w], 'G' := [w]]
  {
    var items := [[w, NoFlag]];
    assert items[..0] == [];
    assert FlagText(items) == NoFlag;
    forall f | f in NoFlag ensures WordsFor(items, f) == Repeat(w, Count(NoFlag, f)) {
    }
    var m := map['N' := [w], 'O' := [w], '_' := [w], 'F' := [w], 'L' := [w], 'A' := [w], 'G' := [w]];
    assert WordIndex(items).Keys == m.Keys;
    forall f | f in m ensures WordIndex(items)[f] == m[f] {
      NoFlagCounts(f);
    }
  }

  /** The unpacking error of `for word, flags in splitted`. */
  function UnpackError(item: seq<string>): PyError
  {
    if |item| > 2 then ValueError("too many values to unpack") else ValueError("not enough values to unpack")
  }

  /** The inner loop of `make_flag_word_dict` after one more flag character. */
  lemma AppendStep(d: map<char, seq<string>>, pre: seq<seq<string>>, word: string, flags: string, j: nat)
    requires AllPairs(pre) && j < |flags|
    requires forall f :: f in d <==> f in FlagText(pre) + flags[..j]
    requires forall f :: f in d ==> d[f] == WordsFor(pre, f) + Repeat(word, Count(flags[..j], f))
    ensures var d' := Append(d, flags[j], word);
            && (forall f :: f in d' <==> f in FlagText(pre) + flags[..j + 1])
            && (forall f :: f in d' ==> d'[f] == WordsFor(pre, f) + Repeat(word, Count(flags[..j + 1], f)))
  {
    var d' := Append(d, flags[j], word);
    var c := flags[j];
    assert flags[..j + 1] == flags[..j] + [c];
    assert FlagText(pre) + flags[..j + 1] == (FlagText(pre) + flags[..j]) + [c];
    forall f | f in d' ensures d'[f] == WordsFor(pre, f) + Repeat(word, Count(flags[..j + 1], f)) {
      CountAppend(flags[..j], [c], f);
      assert Count([c], f) == if c == f then 1 else 0;
      if f == c && f !in d {
        assert f !in FlagText(pre) && f !in flags[..j];
        WordsForCount(pre, f);
        CountZero(FlagText(pre), f);
        CountZero(flags[..j], f);
      }
    }
  }

  /** `make_flag_word_dict`: for each `(word, flags)` pair in turn, appends
      the word to the list of each character of `flags`. An item that is not
      a pair fails the unpacking with `ValueError`. */
  method MakeFlagWordDict(splitted: seq<seq<string>>) returns (r: Result<map<char, seq<string>>>)
    ensures r.Ok? <==> AllPairs(splitted)
    ensures r.Err? ==> r.error.ValueError?
    ensures r.Ok? ==> AllPairs(splitted) && r.value == WordIndex(splitted)
  {
    var d: map<char, seq<string>> := map[];
    for i := 0 to |splitted|
      invariant AllPairs(splitted[..i])
      invariant forall f :: f in d <==> f in FlagText(splitted[..i])
      invariant forall f :: f in d ==> d[f] == WordsFor(splitted[..i], f)
    {
      if |splitted[i]| != 2 {
        return Err(UnpackError(splitted[i]));
      }
      var word := splitted[i][0];
      var flags := splitted[i][1];
      ghost var pre := splitted[..i];
      PrefixPairs(splitted, i);
      for j := 0 to |flags|
        invariant forall f :: f in d <==> f in FlagText(pre) + flags[..j]
        invariant forall f :: f in d ==> d[f] == WordsFor(pre, f) + Repeat(word, Count(flags[..j], f))
      {
        AppendStep(d, pre, word, flags, j);
        d := Append(d, flags[j], word);
      }
      assert flags[..|flags|] == flags;
      assert FlagText(splitted[..i + 1]) == FlagText(pre) + flags;
    }
    assert splitted[..|splitted|] == splitted;
    assert d == WordIndex(splitted);
    return Ok(d);
  }
}
