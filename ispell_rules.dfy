/** The reader of an ispell affix file: the lines after the `suffixes`
    header become, per affix flag, a list of `[word suffix, lemma suffix]`
    rules and a list of comments. */
module IspellRules {
  import opened Wrappers
  import opened Strings

  /** A rule as `get_rule` returns it, the list `[word_suf, lemma_suf]`. */
  datatype Rule = Rule(wordSuffix: string, lemmaSuffix: string)

  /** `get_rule`: the text before the `>` is the lemma suffix, the text
      after it the ending. Tuple unpacking raises `ValueError` unless there
      is exactly one `>`. */
  function GetRule(code: string): Result<Rule>
  {
    var parts := Split(code, '>');
    if |parts| != 2 then Err(ValueError("wrong number of values to unpack"))
    else ApplyEnding(parts[0], parts[1])
  }

  /** `get_rule` fails, with `ValueError`, exactly when the code does not
      have one `>` or its ending has more than one `,`; the lemma suffix of
      its rule is the text before the `>`. */
  lemma GetRuleMeaning(code: string)
    ensures GetRule(code).Err? ==> GetRule(code).error.ValueError?
    ensures GetRule(code).Ok? <==> Count(code, '>') == 1 && Count(Split(code, '>')[1], ',') <= 1
    ensures GetRule(code).Ok? ==> GetRule(code).value.lemmaSuffix == Split(code, '>')[0] && '>' !in GetRule(code).value.lemmaSuffix
  {
  }

  /** The rule for a lemma suffix and an ending: an ending `-X,Y` takes
      `len(X)` characters off the lemma suffix and appends `Y`, any other
      ending is appended as it is. An ending with two or more `,` raises
      `ValueError`. */
  function ApplyEnding(lemmaSuf: string, ends: string): (r: Result<Rule>)
    ensures r.Err? ==> r.error.ValueError?
    ensures r.Ok? <==> Count(ends, ',') <= 1
    ensures r.Ok? ==> r.value.lemmaSuffix == lemmaSuf
  {
    if ',' in ends then
      var pieces := Split(ends, ',');
      if |pieces| != 2 then Err(ValueError("too many values to unpack"))
      else
        var lemmaEnd := Tail(Strip(pieces[0]));
        var wordEnd := Strip(pieces[1]);
        Ok(Rule(DropLast(lemmaSuf, |lemmaEnd|) + wordEnd, lemmaSuf))
    else
      CountZero(ends, ',');
      Ok(Rule(lemmaSuf + ends, lemmaSuf))
  }

  /** A code with one `>` is its lemma suffix and its ending. */
  lemma RuleParts(lemmaSuf: string, ends: string)
    requires '>' !in lemmaSuf && '>' !in ends
    ensures GetRule(lemmaSuf + ['>'] + ends) == ApplyEnding(lemmaSuf, ends)
  {
    SplitFirst(lemmaSuf, '>', ends);
    SplitNone(ends, '>');
  }

  /** An ending without `,` is appended to the lemma suffix. */
  lemma AppendingRule(lemmaSuf: string, ends: string)
    requires '>' !in lemmaSuf && '>' !in ends && ',' !in ends
    ensures GetRule(lemmaSuf + ">" + ends) == Ok(Rule(lemmaSuf + ends, lemmaSuf))
  {
    assert lemmaSuf + ">" + ends == lemmaSuf + ['>'] + ends;
    RuleParts(lemmaSuf, ends);
  }

  /** An ending `S,Y` with one `,`: its two sides. */
  lemma EndingParts(s: string, y: string)
    requires ',' !in s && ',' !in y
    ensures ',' in s + [','] + y && Split(s + [','] + y, ',') == [s, y]
  {
    assert (s + [','] + y)[|s|] == ',';
    SplitFirst(s, ',', y);
    SplitNone(y, ',');
  }

  /** An ending `S,Y` with one `,` strips the characters of `S` after its
      first from the lemma suffix and appends `Y`, both sides stripped. */
  lemma ReplaceEnding(lemmaSuf: string, s: string, y: string)
    requires ',' !in s && ',' !in y
    ensures ApplyEnding(lemmaSuf, s + [','] + y) == Ok(Rule(DropLast(lemmaSuf, |Tail(Strip(s))|) + Strip(y), lemmaSuf))
  {
    EndingParts(s, y);
  }

  /** The usual ending `-X,Y`: the word suffix is the lemma suffix with its
      final `X` replaced by `Y`, so taking `Y` off the word suffix and putting
      `X` back gives the lemma suffix again. */
  lemma ReplacingRule(stem: string, x: string, y: string)
    requires '>' !in stem + x + y && ',' !in x + y
    requires x != [] && NoSpace(x) && NoSpace(y)
    ensures GetRule(stem + x + ">-" + x + "," + y) == Ok(Rule(stem + y, stem + x))
  {
    var lemmaSuf := stem + x;
    var minus := "-" + x;
    var ends := minus + [','] + y;
    assert stem + x + ">-" + x + "," + y == lemmaSuf + ['>'] + ends;
    assert '>' !in lemmaSuf && '>' !in ends && ',' !in minus && ',' !in y by {
      assert forall c :: c in lemmaSuf ==> c in stem + x + y;
      assert forall c :: c in minus ==> c == '-' || c in x + y;
      assert forall c :: c in y ==> c in x + y;
      assert forall c :: c in ends ==> c == ',' || c in minus || c in y;
    }
    RuleParts(lemmaSuf, ends);
    assert ApplyEnding(lemmaSuf, ends) == Ok(Rule(stem + y, lemmaSuf)) by {
      StripUnchanged(minus);
      StripUnchanged(y);
      assert DropLast(lemmaSuf, |x|) == stem by {
        assert lemmaSuf[..|lemmaSuf| - |x|] == stem;
      }
      ReplaceEnding(lemmaSuf, minus, y);
    }
  }

  /** The ending `-,Y` has nothing after its `-`. */
  lemma DashEnding(lemmaSuf: string, y: string)
    requires ',' !in y && NoSpace(y)
    ensures ApplyEnding(lemmaSuf, "-" + [','] + y) == Ok(Rule(DropLast(lemmaSuf, 0) + y, lemmaSuf))
  {
    NoSpaceStrip(y);
    DashStrip();
    ReplaceEnding(lemmaSuf, "-", y);
  }

  /** A string without whitespace is its own `strip()`. */
  lemma NoSpaceStrip(y: string)
    requires NoSpace(y)
    ensures Strip(y) == y
  {
    if y != [] {
      assert !IsSpace(y[0]) && !IsSpace(y[|y| - 1]);
    }
    StripUnchanged(y);
  }

  /** `"-".strip()[1:]` is empty. */
  lemma DashStrip()
    ensures Tail(Strip("-")) == []
  {
    var dash := ['-'];
    assert dash[0] == '-' && !IsSpace('-');
    assert StripLeft(dash) == dash;
    assert StripRight(dash) == dash;
    assert Strip("-") == dash;
  }

  /** With nothing to take off (`-,Y`), Python's `s[:-0]` is the empty
      string: the lemma suffix is lost and the word suffix is `Y` alone. */
  lemma NothingToStrip(lemmaSuf: string, y: string)
    requires '>' !in lemmaSuf + y && ',' !in y && NoSpace(y)
    ensures GetRule(lemmaSuf + ">-," + y) == Ok(Rule(y, lemmaSuf))
  {
    var ends := "-" + [','] + y;
    assert lemmaSuf + ">-," + y == lemmaSuf + ['>'] + ends;
    assert '>' !in lemmaSuf && '>' !in ends by {
      assert forall c :: c in lemmaSuf ==> c in lemmaSuf + y;
      assert forall c :: c in ends ==> c == '-' || c == ',' || c in lemmaSuf + y;
    }
    RuleParts(lemmaSuf, ends);
    DashEnding(lemmaSuf, y);
    assert DropLast(lemmaSuf, 0) + y == y;
  }

  /** A line of the suffix section as `split_on_comment` returns it. */
  datatype Line = Line(code: string, comment: string)

  /** `split_on_comment`: a line opening with `#` is all comment; otherwise
      the code is the text before the first `#` and the comment the text
      between the first and the second `#`. The code loses its spaces, both
      are stripped. The empty line raises `IndexError` at `line[0]`. */
  function SplitOnComment(line: string): (r: Result<Line>)
    ensures r.Err? <==> line == []
    ensures r.Err? ==> r.error.IndexError?
    ensures r.Ok? ==> ' ' !in r.value.code && '#' !in r.value.code
  {
    if line == [] then Err(IndexError("string index out of range"))
    else if line[0] == '#' then Ok(Line([], Strip(line[1..])))
    else
      var parts := Split(line, '#');
      StripChars(parts[0], '#');
      Ok(Line(Remove(Strip(parts[0]), ' '), if |parts| > 1 then Strip(parts[1]) else []))
  }

  /** A line opening with `#` is all comment, later `#`s included. */
  lemma CommentLine(rest: string)
    ensures SplitOnComment("#" + rest) == Ok(Line([], Strip(rest)))
  {
    assert ("#" + rest)[1..] == rest;
  }

  /** A line without `#` is all code. */
  lemma CodeLine(code: string)
    requires code != [] && '#' !in code
    ensures SplitOnComment(code) == Ok(Line(Remove(Strip(code), ' '), []))
  {
    SplitNone(code, '#');
  }

  /** Code, then a comment up to the end or to the next `#`. */
  lemma CodeAndComment(code: string, comment: string, rest: string)
    requires code != [] && '#' !in code && '#' !in comment
    requires rest == [] || rest[0] == '#'
    ensures SplitOnComment(code + "#" + comment + rest) == Ok(Line(Remove(Strip(code), ' '), Strip(comment)))
  {
    assert code + "#" + comment + rest == code + ['#'] + (comment + rest);
    SplitFirst(code, '#', comment + rest);
    if rest == [] {
      assert comment + rest == comment;
      SplitNone(comment, '#');
    } else {
      assert comment + rest == comment + ['#'] + rest[1..];
      SplitFirst(comment, '#', rest[1..]);
    }
  }

  /** The characters of the code and the comment are characters of the line. */
  lemma SplitOnCommentChars(line: string, c: char)
    requires line != [] && c !in line
    ensures c !in SplitOnComment(line).value.code && c !in SplitOnComment(line).value.comment
  {
    if line[0] == '#' {
      StripChars(line[1..], c);
    } else {
      var parts := Split(line, '#');
      SplitChars(line, '#', 0, c);
      StripChars(parts[0], c);
      if |parts| > 1 {
        SplitChars(line, '#', 1, c);
        StripChars(parts[1], c);
      }
    }
  }

  /** The header line that opens the suffix section. */
  predicate IsHeader(line: string)
  {
    Contains(line, "suffixes")
  }

  /** The lines after the first header, or the `IndexError` of running off
      the end. */
  function Skipped(lines: seq<string>): Result<seq<string>>
  {
    if lines == [] then Err(IndexError("list index out of range"))
    else if IsHeader(lines[0]) then Ok(lines[1..])
    else Skipped(lines[1..])
  }

  /** `skip_uninteresting` succeeds exactly when some line is a header, and
      then returns the lines after the first one. */
  lemma {:induction false} SkippedMeaning(lines: seq<string>)
    ensures Skipped(lines).Ok? <==> exists i :: 0 <= i < |lines| && IsHeader(lines[i])
    ensures Skipped(lines).Err? ==> Skipped(lines).error.IndexError?
    ensures Skipped(lines).Ok? ==>
              exists i :: 0 <= i < |lines| && IsHeader(lines[i]) && (forall k :: 0 <= k < i ==> !IsHeader(lines[k]))
                          && Skipped(lines).value == lines[i + 1..]
  {
    if lines != [] && !IsHeader(lines[0]) {
      var rest := lines[1..];
      SkippedMeaning(rest);
      if exists i :: 0 <= i < |lines| && IsHeader(lines[i]) {
        var i :| 0 <= i < |lines| && IsHeader(lines[i]);
        assert IsHeader(rest[i - 1]);
      }
      if Skipped(lines).Ok? {
        var i :| 0 <= i < |rest| && IsHeader(rest[i]) && (forall k :: 0 <= k < i ==> !IsHeader(rest[k]))
                 && Skipped(rest).value == rest[i + 1..];
        assert lines[i + 1] == rest[i];
        assert rest[i + 1..] == lines[i + 2..];
        assert forall k :: 0 <= k < i + 1 ==> !IsHeader(lines[k]) by {
          forall k | 0 < k < i + 1 ensures !IsHeader(lines[k]) {
            assert lines[k] == rest[k - 1];
          }
        }
      }
    }
  }

  /** `skip_uninteresting`: advances to the first header. */
  method SkipUninteresting(lines: seq<string>) returns (r: Result<seq<string>>)
    ensures r == Skipped(lines)
  {
    var i := 0;
    while i < |lines| && !IsHeader(lines[i])
      invariant 0 <= i <= |lines|
      invariant Skipped(lines) == Skipped(lines[i..])
    {
      assert lines[i..][1..] == lines[i + 1..];
      i := i + 1;
    }
    if i == |lines| {
      return Err(IndexError("list index out of range"));
    }
    assert lines[i..][1..] == lines[i + 1..];
    return Ok(lines[i + 1..]);
  }

  /** A line that is not blank once its spaces are removed. */
  predicate NotBlank(line: string)
  {
    Remove(line, ' ') != []
  }

  /** A line with a code or a comment. */
  predicate IsEntry(line: Line)
  {
    line.code != [] || line.comment != []
  }

  function StripAll(lines: seq<string>): (r: seq<string>)
    ensures |r| == |lines| && forall i :: 0 <= i < |lines| ==> r[i] == Strip(lines[i])
  {
    seq(|lines|, i requires 0 <= i < |lines| => Strip(lines[i]))
  }

  function RemoveTabs(lines: seq<string>): (r: seq<string>)
    ensures |r| == |lines| && forall i :: 0 <= i < |lines| ==> r[i] == Remove(lines[i], '\t')
  {
    seq(|lines|, i requires 0 <= i < |lines| => Remove(lines[i], '\t'))
  }

  function SplitAll(lines: seq<string>): (r: seq<Line>)
    requires forall i :: 0 <= i < |lines| ==> lines[i] != []
    ensures |r| == |lines| && forall i :: 0 <= i < |lines| ==> r[i] == SplitOnComment(lines[i]).value
  {
    seq(|lines|, i requires 0 <= i < |lines| => SplitOnComment(lines[i]).value)
  }

  /** What `extract_information` returns: the stripped lines after the
      header, without tabs, without blank lines, split on comments, without
      entries that are empty on both sides. */
  function Extracted(lines: seq<string>): Result<seq<Line>>
  {
    match Skipped(StripAll(lines))
    case Err(e) => Err(e)
    case Ok(kept) =>
      var nonBlank := Filter(NotBlank, RemoveTabs(kept));
      Ok(Filter(IsEntry, SplitAll(nonBlank)))
  }

  /** `extract_information`. */
  method ExtractInformation(lines: seq<string>) returns (r: Result<seq<Line>>)
    ensures r == Extracted(lines)
  {
    var kept := SkipUninteresting(StripAll(lines));
    if kept.Err? {
      return Err(kept.error);
    }
    var nonBlank := Filter(NotBlank, RemoveTabs(kept.value));
    return Ok(Filter(IsEntry, SplitAll(nonBlank)));
  }

  /** An extracted line: a code or a comment, no tab anywhere, no space and
      no `#` in the code. */
  predicate Clean(line: Line)
  {
    && IsEntry(line)
    && '\t' !in line.code && '\t' !in line.comment
    && ' ' !in line.code && '#' !in line.code
  }

  /** The lines kept after the header are all clean once split. */
  lemma CleanAfterSplit(kept: seq<string>, k: nat)
    requires k < |Filter(IsEntry, SplitAll(Filter(NotBlank, RemoveTabs(kept))))|
    ensures Clean(Filter(IsEntry, SplitAll(Filter(NotBlank, RemoveTabs(kept))))[k])
  {
    var noTabs := RemoveTabs(kept);
    var nonBlank := Filter(NotBlank, noTabs);
    var split := SplitAll(nonBlank);
    var out := Filter(IsEntry, split);
    assert out[k] in split && IsEntry(out[k]);
    var j :| 0 <= j < |split| && split[j] == out[k];
    assert nonBlank[j] in noTabs;
    assert '\t' !in nonBlank[j];
    SplitOnCommentChars(nonBlank[j], '\t');
  }

  /** `extract_information` fails only without a header, and leaves only
      clean lines; so `parse_aff_lines` never meets an entry that is empty
      on both sides. */
  lemma ExtractedLines(lines: seq<string>)
    ensures Extracted(lines).Ok? <==> exists i :: 0 <= i < |lines| && IsHeader(Strip(lines[i]))
    ensures Extracted(lines).Err? ==> Extracted(lines).error.IndexError?
    ensures Extracted(lines).Ok? ==> forall k :: 0 <= k < |Extracted(lines).value| ==> Clean(Extracted(lines).value[k])
  {
    var stripped := StripAll(lines);
    SkippedMeaning(stripped);
    if exists i :: 0 <= i < |lines| && IsHeader(Strip(lines[i])) {
      var i :| 0 <= i < |lines| && IsHeader(Strip(lines[i]));
      assert IsHeader(stripped[i]);
    }
    if Skipped(stripped).Ok? {
      var i :| 0 <= i < |stripped| && IsHeader(stripped[i]);
      assert IsHeader(Strip(lines[i]));
      forall k | 0 <= k < |Extracted(lines).value| ensures Clean(Extracted(lines).value[k]) {
        CleanAfterSplit(Skipped(stripped).value, k);
      }
    }
  }

  /** The flag of the entries before the first `flag*` line. */
  const NoFlag: string := "NO_FLAG"

  /** A `flag*X` line sets the flag for the entries that follow it. */
  predicate IsFlagLine(line: Line)
  {
    StartsWith(line.code, "flag*")
  }

  /** An entry as `read_flag` yields it: the current flag, the code and the
      comment. */
  datatype Entry = Entry(flag: string, code: string, comment: string)

  /** The entries `read_flag` yields, collected: every line that is not a
      flag line, with the flag of the last flag line before it. A flag line
      of just `flag*` raises `IndexError` at `aff_code[5]`. */
  function Flagged(lines: seq<Line>, flag: string): Result<seq<Entry>>
  {
    if lines == [] then Ok([])
    else if IsFlagLine(lines[0]) then
      if |lines[0].code| <= 5 then Err(IndexError("string index out of range"))
      else Flagged(lines[1..], [lines[0].code[5]])
    else
      match Flagged(lines[1..], flag)
      case Ok(es) => Ok([Entry(flag, lines[0].code, lines[0].comment)] + es)
      case Err(e) => Err(e)
  }

  /** The flag lines of `lines` all name a flag. */
  predicate FlagsNamed(lines: seq<Line>)
  {
    forall i :: 0 <= i < |lines| && IsFlagLine(lines[i]) ==> |lines[i].code| > 5
  }

  /** `read_flag` fails exactly on a flag line without a flag character, and
      then with `IndexError`; it yields one entry per other line, in order,
      with the code and the comment of that line. */
  lemma {:induction false} FlaggedMeaning(lines: seq<Line>, flag: string)
    ensures Flagged(lines, flag).Ok? <==> FlagsNamed(lines)
    ensures Flagged(lines, flag).Err? ==> Flagged(lines, flag).error.IndexError?
  {
    if lines != [] {
      if IsFlagLine(lines[0]) && |lines[0].code| > 5 {
        FlaggedMeaning(lines[1..], [lines[0].code[5]]);
      } else if !IsFlagLine(lines[0]) {
        FlaggedMeaning(lines[1..], flag);
      }
      assert FlagsNamed(lines) <==> (IsFlagLine(lines[0]) ==> |lines[0].code| > 5) && FlagsNamed(lines[1..]) by {
        assert forall i :: 0 < i < |lines| ==> lines[i] == lines[1..][i - 1];
      }
    }
  }

  predicate NotFlagLine(line: Line)
  {
    !IsFlagLine(line)
  }

  /** `es` are the lines `kept` with their code and comment, each with the
      flag `flag` or a one-character flag. */
  predicate EntriesOf(es: seq<Entry>, kept: seq<Line>, flag: string)
  {
    && |es| == |kept|
    && forall k :: 0 <= k < |es| ==>
         es[k].code == kept[k].code && es[k].comment == kept[k].comment
         && (es[k].flag == flag || |es[k].flag| == 1)
  }

  lemma EntriesCons(e: Entry, es: seq<Entry>, line: Line, kept: seq<Line>, flag: string)
    requires EntriesOf(es, kept, flag)
    requires e.code == line.code && e.comment == line.comment && e.flag == flag
    ensures EntriesOf([e] + es, [line] + kept, flag)
  {
    assert forall k :: 0 < k < |es| + 1 ==> ([e] + es)[k] == es[k - 1] && ([line] + kept)[k] == kept[k - 1];
  }

  lemma EntriesWiden(es: seq<Entry>, kept: seq<Line>, flag: string, flag': string)
    requires EntriesOf(es, kept, flag') && |flag'| == 1
    ensures EntriesOf(es, kept, flag)
  {
  }

  /** The entries are the lines that are not flag lines, in order, with
      their code and comment; each carries the starting flag or a
      one-character flag. */
  lemma {:induction false} FlaggedLines(lines: seq<Line>, flag: string)
    requires Flagged(lines, flag).Ok?
    ensures EntriesOf(Flagged(lines, flag).value, Filter(NotFlagLine, lines), flag)
  {
    if lines != [] {
      assert Filter(NotFlagLine, lines) == (if NotFlagLine(lines[0]) then [lines[0]] else []) + Filter(NotFlagLine, lines[1..]);
      if IsFlagLine(lines[0]) {
        var flag' := [lines[0].code[5]];
        FlaggedLines(lines[1..], flag');
        EntriesWiden(Flagged(lines[1..], flag').value, Filter(NotFlagLine, lines[1..]), flag, flag');
        assert Filter(NotFlagLine, lines) == [] + Filter(NotFlagLine, lines[1..]) == Filter(NotFlagLine, lines[1..]);
      } else {
        FlaggedLines(lines[1..], flag);
        EntriesCons(Entry(flag, lines[0].code, lines[0].comment), Flagged(lines[1..], flag).value,
                    lines[0], Filter(NotFlagLine, lines[1..]), flag);
      }
    }
  }

  /** The flag in force after reading `lines` from flag `flag`: the flag
      character of the last flag line among them, or `flag` when there is
      none. */
  function LastFlag(lines: seq<Line>, flag: string): (r: string)
    requires FlagsNamed(lines)
    ensures (forall i :: 0 <= i < |lines| ==> !IsFlagLine(lines[i])) ==> r == flag
    ensures (exists i :: 0 <= i < |lines| && IsFlagLine(lines[i])) ==>
              exists i :: 0 <= i < |lines| && IsFlagLine(lines[i]) && r == [lines[i].code[5]]
                          && forall k :: i < k < |lines| ==> !IsFlagLine(lines[k])
  {
    if lines == [] then flag
    else
      assert forall i :: 0 <= i < |lines| - 1 ==> lines[1..][i] == lines[i + 1];
      LastFlag(lines[1..], if IsFlagLine(lines[0]) then [lines[0].code[5]] else flag)
  }

  /** Each line that is not a flag line yields, at its place among those
      lines, an entry with its code, its comment and the flag in force
      before it. */
  lemma {:induction false} FlaggedFlags(lines: seq<Line>, flag: string, j: nat)
    requires Flagged(lines, flag).Ok? && j < |lines| && !IsFlagLine(lines[j])
    ensures FlagsNamed(lines[..j])
    ensures var es := Flagged(lines, flag).value;
            var n := |Filter(NotFlagLine, lines[..j])|;
            n < |es| && es[n] == Entry(LastFlag(lines[..j], flag), lines[j].code, lines[j].comment)
  {
    FlaggedMeaning(lines, flag);
    var pre := lines[..j];
    assert FlagsNamed(pre) by {
      assert forall i :: 0 <= i < j ==> pre[i] == lines[i];
    }
    if j > 0 {
      var rest := lines[1..];
      assert pre[0] == lines[0] && pre[1..] == rest[..j - 1];
      var flag' := if IsFlagLine(lines[0]) then [lines[0].code[5]] else flag;
      FlaggedFlags(rest, flag', j - 1);
      assert LastFlag(pre, flag) == LastFlag(rest[..j - 1], flag');
      assert Filter(NotFlagLine, pre)
          == (if NotFlagLine(lines[0]) then [lines[0]] else []) + Filter(NotFlagLine, rest[..j - 1]);
    }
  }

  /** The entries come from lines that are entries themselves. */
  lemma {:induction false} FlaggedEntries(lines: seq<Line>, flag: string)
    requires forall i :: 0 <= i < |lines| ==> IsEntry(lines[i])
    requires Flagged(lines, flag).Ok?
    ensures forall k :: 0 <= k < |Flagged(lines, flag).value| ==>
              Flagged(lines, flag).value[k].code != [] || Flagged(lines, flag).value[k].comment != []
  {
    if lines != [] {
      assert forall i :: 0 <= i < |lines[1..]| ==> lines[1..][i] == lines[i + 1];
      if IsFlagLine(lines[0]) {
        FlaggedEntries(lines[1..], [lines[0].code[5]]);
      } else {
        FlaggedEntries(lines[1..], flag);
      }
    }
  }

  /** What `parse_aff_lines` builds: per flag, its rules and its comments,
      in file order. */
  datatype AffTables = AffTables(ruleGroups: map<string, seq<Rule>>, comments: map<string, seq<string>>)

  /** One entry handled by the loop of `parse_aff_lines`: a comment entry
      goes to the comments of its flag, a rule entry to the rules of its
      flag; an entry that is empty on both sides raises. */
  function Step(t: AffTables, e: Entry): Result<AffTables>
  {
    if e.code == [] && e.comment != [] then Ok(t.(comments := Append(t.comments, e.flag, e.comment)))
    else if e.code != [] then
      match GetRule(e.code)
      case Ok(rule) => Ok(t.(ruleGroups := Append(t.ruleGroups, e.flag, rule)))
      case Err(err) => Err(err)
    else Err(Exception("Unexpected empty line! (on flag: " + e.flag + ")"))
  }

  /** The loop of `parse_aff_lines` over the lazy `read_flag`, from the flag
      `flag` and the tables `t`: the entries are handled as they are
      yielded, so the first error in file order, of the flag reader or of
      the loop body, is the one raised. */
  function Parse(lines: seq<Line>, flag: string, t: AffTables): Result<AffTables>
  {
    if lines == [] then Ok(t)
    else if IsFlagLine(lines[0]) then
      if |lines[0].code| <= 5 then Err(IndexError("string index out of range"))
      else Parse(lines[1..], [lines[0].code[5]], t)
    else
      match Step(t, Entry(flag, lines[0].code, lines[0].comment))
      case Ok(t') => Parse(lines[1..], flag, t')
      case Err(e) => Err(e)
  }

  /** An entry the loop accepts. */
  predicate GoodEntry(e: Entry)
  {
    if e.code == [] then e.comment != [] else GetRule(e.code).Ok?
  }

  predicate AllGood(es: seq<Entry>)
  {
    forall k :: 0 <= k < |es| ==> GoodEntry(es[k])
  }

  /** The rules of flag `f`, in order. */
  function RulesOf(es: seq<Entry>, f: string): seq<Rule>
    requires AllGood(es)
  {
    if es == [] then []
    else
      var e := es[|es| - 1];
      RulesOf(es[..|es| - 1], f) + (if e.flag == f && e.code != [] then [GetRule(e.code).value] else [])
  }

  /** The comments of flag `f`, in order. */
  function CommentsOf(es: seq<Entry>, f: string): seq<string>
  {
    if es == [] then []
    else
      var e := es[|es| - 1];
      CommentsOf(es[..|es| - 1], f) + (if e.flag == f && e.code == [] then [e.comment] else [])
  }

  function RuleFlags(es: seq<Entry>): set<string>
  {
    set k | 0 <= k < |es| && es[k].code != [] :: es[k].flag
  }

  function CommentFlags(es: seq<Entry>): set<string>
  {
    set k | 0 <= k < |es| && es[k].code == [] :: es[k].flag
  }

  /** The tables for a list of accepted entries, defined per flag: a flag is
      a key when one of its entries is a rule (a comment), and maps to its
      rules (comments) in order. */
  function Tables(es: seq<Entry>): AffTables
    requires AllGood(es)
  {
    AffTables(map f | f in RuleFlags(es) :: RulesOf(es, f), map f | f in CommentFlags(es) :: CommentsOf(es, f))
  }

  lemma {:induction false} RulesOfAbsent(es: seq<Entry>, f: string)
    requires AllGood(es) && f !in RuleFlags(es)
    ensures RulesOf(es, f) == []
  {
    if es != [] {
      var pre := es[..|es| - 1];
      assert forall k :: 0 <= k < |pre| ==> pre[k] == es[k];
      assert RuleFlags(pre) <= RuleFlags(es);
      RulesOfAbsent(pre, f);
    }
  }

  lemma {:induction false} CommentsOfAbsent(es: seq<Entry>, f: string)
    requires f !in CommentFlags(es)
    ensures CommentsOf(es, f) == []
  {
    if es != [] {
      var pre := es[..|es| - 1];
      assert forall k :: 0 <= k < |pre| ==> pre[k] == es[k];
      assert CommentFlags(pre) <= CommentFlags(es);
      CommentsOfAbsent(pre, f);
    }
  }

  lemma GoodSnoc(es: seq<Entry>, e: Entry)
    requires AllGood(es) && GoodEntry(e)
    ensures AllGood(es + [e]) && (es + [e])[..|es|] == es
  {
    assert forall k :: 0 <= k < |es| ==> (es + [e])[k] == es[k];
    assert (es + [e])[..|es|] == es;
  }

  lemma RulesOfSnoc(es: seq<Entry>, e: Entry, f: string)
    requires AllGood(es) && GoodEntry(e)
    ensures AllGood(es + [e])
    ensures RulesOf(es + [e], f) == RulesOf(es, f) + (if e.flag == f && e.code != [] then [GetRule(e.code).value] else [])
  {
    GoodSnoc(es, e);
  }

  lemma CommentsOfSnoc(es: seq<Entry>, e: Entry, f: string)
    ensures CommentsOf(es + [e], f) == CommentsOf(es, f) + (if e.flag == f && e.code == [] then [e.comment] else [])
  {
    assert (es + [e])[..|es|] == es;
  }

  lemma FlagsSnoc(es: seq<Entry>, e: Entry)
    ensures RuleFlags(es + [e]) == RuleFlags(es) + (if e.code != [] then {e.flag} else {})
    ensures CommentFlags(es + [e]) == CommentFlags(es) + (if e.code == [] then {e.flag} else {})
  {
    var es2 := es + [e];
    assert forall k :: 0 <= k < |es| ==> es2[k] == es[k];
    assert es2[|es|] == e;
  }

  /** A comment entry leaves the rule table as it is. */
  lemma RuleTableKeep(es: seq<Entry>, e: Entry)
    requires AllGood(es) && GoodEntry(e) && e.code == []
    ensures AllGood(es + [e]) && Tables(es + [e]).ruleGroups == Tables(es).ruleGroups
  {
    GoodSnoc(es, e);
    FlagsSnoc(es, e);
    var m1 := Tables(es).ruleGroups;
    var m2 := Tables(es + [e]).ruleGroups;
    forall f | f in m2.Keys ensures m2[f] == m1[f] {
      RulesOfSnoc(es, e, f);
    }
  }

  /** A rule entry appends its rule to the rules of its flag. */
  lemma RuleTableAdd(es: seq<Entry>, e: Entry)
    requires AllGood(es) && GoodEntry(e) && e.code != []
    ensures AllGood(es + [e])
    ensures Tables(es + [e]).ruleGroups == Append(Tables(es).ruleGroups, e.flag, GetRule(e.code).value)
  {
    GoodSnoc(es, e);
    var m2 := Tables(es + [e]).ruleGroups;
    var a := Append(Tables(es).ruleGroups, e.flag, GetRule(e.code).value);
    assert m2.Keys == a.Keys by {
      FlagsSnoc(es, e);
    }
    assert forall f :: f in m2.Keys ==> m2[f] == a[f] by {
      forall f | f in m2.Keys ensures m2[f] == a[f] {
        RulesOfSnoc(es, e, f);
        if f == e.flag && f !in RuleFlags(es) {
          RulesOfAbsent(es, f);
        }
      }
    }
    assert m2 == a;
  }

  /** A rule entry leaves the comment table as it is. */
  lemma CommentTableKeep(es: seq<Entry>, e: Entry)
    requires AllGood(es) && GoodEntry(e) && e.code != []
    ensures AllGood(es + [e]) && Tables(es + [e]).comments == Tables(es).comments
  {
    GoodSnoc(es, e);
    FlagsSnoc(es, e);
    var m1 := Tables(es).comments;
    var m2 := Tables(es + [e]).comments;
    forall f | f in m2.Keys ensures m2[f] == m1[f] {
      CommentsOfSnoc(es, e, f);
    }
  }

  /** A comment entry appends its comment to the comments of its flag. */
  lemma CommentTableAdd(es: seq<Entry>, e: Entry)
    requires AllGood(es) && GoodEntry(e) && e.code == []
    ensures AllGood(es + [e])
    ensures Tables(es + [e]).comments == Append(Tables(es).comments, e.flag, e.comment)
  {
    GoodSnoc(es, e);
    var m2 := Tables(es + [e]).comments;
    var a := Append(Tables(es).comments, e.flag, e.comment);
    assert m2.Keys == a.Keys by {
      FlagsSnoc(es, e);
    }
    assert forall f :: f in m2.Keys ==> m2[f] == a[f] by {
      forall f | f in m2.Keys ensures m2[f] == a[f] {
        CommentsOfSnoc(es, e, f);
        if f == e.flag && f !in CommentFlags(es) {
          CommentsOfAbsent(es, f);
        }
      }
    }
    assert m2 == a;
  }

  /** The loop body on an accepted entry extends the tables by that entry. */
  lemma StepTables(es: seq<Entry>, e: Entry)
    requires AllGood(es)
    ensures Step(Tables(es), e).Ok? <==> GoodEntry(e)
    ensures GoodEntry(e) ==> AllGood(es + [e]) && Step(Tables(es), e) == Ok(Tables(es + [e]))
  {
    if GoodEntry(e) && e.code == [] {
      RuleTableKeep(es, e);
      CommentTableAdd(es, e);
    } else if GoodEntry(e) {
      RuleTableAdd(es, e);
      CommentTableKeep(es, e);
    }
  }

  lemma AllGoodCons(e: Entry, es: seq<Entry>)
    ensures AllGood([e] + es) <==> GoodEntry(e) && AllGood(es)
  {
    assert forall k :: 0 < k < |[e] + es| ==> ([e] + es)[k] == es[k - 1];
    assert forall k :: 0 <= k < |es| ==> es[k] == ([e] + es)[k + 1];
    assert ([e] + es)[0] == e;
    if AllGood([e] + es) {
      forall k | 0 <= k < |es| ensures GoodEntry(es[k]) {
        assert GoodEntry(([e] + es)[k + 1]);
      }
    }
    if GoodEntry(e) && AllGood(es) {
      forall k | 0 <= k < |[e] + es| ensures GoodEntry(([e] + es)[k]) {
        if k > 0 {
          assert GoodEntry(es[k - 1]);
        }
      }
    }
  }

  /** The loop of `parse_aff_lines`, run on top of the tables of the
      accepted entries `done`, succeeds exactly when the flag reader
      succeeds and every entry it yields is accepted; the tables are then
      those of `done` followed by the yielded entries. */
  lemma {:induction false} ParseMeaning(lines: seq<Line>, flag: string, done: seq<Entry>)
    requires AllGood(done)
    ensures Parse(lines, flag, Tables(done)).Ok? <==> Flagged(lines, flag).Ok? && AllGood(Flagged(lines, flag).value)
    ensures Parse(lines, flag, Tables(done)).Ok? ==>
              AllGood(done + Flagged(lines, flag).value)
              && Parse(lines, flag, Tables(done)).value == Tables(done + Flagged(lines, flag).value)
    decreases |lines|, 1
  {
    if lines == [] {
      assert done + [] == done;
    } else if IsFlagLine(lines[0]) {
      if |lines[0].code| > 5 {
        ParseMeaning(lines[1..], [lines[0].code[5]], done);
      }
    } else {
      ParseEntry(lines, flag, done);
    }
  }

  /** The case of `ParseMeaning` where the first line is an entry. */
  lemma {:induction false} ParseEntry(lines: seq<Line>, flag: string, done: seq<Entry>)
    requires AllGood(done) && lines != [] && !IsFlagLine(lines[0])
    ensures Parse(lines, flag, Tables(done)).Ok? <==> Flagged(lines, flag).Ok? && AllGood(Flagged(lines, flag).value)
    ensures Parse(lines, flag, Tables(done)).Ok? ==>
              AllGood(done + Flagged(lines, flag).value)
              && Parse(lines, flag, Tables(done)).value == Tables(done + Flagged(lines, flag).value)
    decreases |lines|, 0
  {
    var e := Entry(flag, lines[0].code, lines[0].comment);
    StepTables(done, e);
    if GoodEntry(e) {
      ParseMeaning(lines[1..], flag, done + [e]);
      if Flagged(lines[1..], flag).Ok? {
        var es := Flagged(lines[1..], flag).value;
        assert Flagged(lines, flag) == Ok([e] + es);
        assert done + [e] + es == done + ([e] + es);
        AllGoodCons(e, es);
      }
    } else if Flagged(lines, flag).Ok? {
      assert Flagged(lines, flag).value[0] == e;
    }
  }

  /** On lines that are all entries, the "Unexpected empty line" exception
      cannot happen: the loop fails only with the flag reader's `IndexError`
      or `get_rule`'s `ValueError`. */
  lemma {:induction false} ParseErrors(lines: seq<Line>, flag: string, t: AffTables)
    requires forall i :: 0 <= i < |lines| ==> IsEntry(lines[i])
    ensures Parse(lines, flag, t).Err? ==> Parse(lines, flag, t).error.IndexError? || Parse(lines, flag, t).error.ValueError?
  {
    if lines != [] {
      assert forall i :: 0 <= i < |lines[1..]| ==> lines[1..][i] == lines[i + 1];
      assert IsEntry(lines[0]);
      if IsFlagLine(lines[0]) {
        if |lines[0].code| > 5 {
          ParseErrors(lines[1..], [lines[0].code[5]], t);
        }
      } else {
        var e := Entry(flag, lines[0].code, lines[0].comment);
        GetRuleMeaning(e.code);
        match Step(t, e)
        case Ok(t') => ParseErrors(lines[1..], flag, t');
        case Err(_) =>
      }
    }
  }

  /** The entries yielded after `done` has been collected. */
  function Then(done: seq<Entry>, r: Result<seq<Entry>>): Result<seq<Entry>>
  {
    match r
    case Ok(es) => Ok(done + es)
    case Err(e) => Err(e)
  }

  /** `read_flag`, run to the end: collects what the generator yields. */
  method ReadFlag(lines: seq<Line>) returns (r: Result<seq<Entry>>)
    ensures r == Flagged(lines, NoFlag)
  {
    var flag := NoFlag;
    var out: seq<Entry> := [];
    assert lines[0..] == lines;
    if Flagged(lines, NoFlag).Ok? {
      assert out + Flagged(lines, NoFlag).value == Flagged(lines, NoFlag).value;
    }
    for i := 0 to |lines|
      invariant Flagged(lines, NoFlag) == Then(out, Flagged(lines[i..], flag))
    {
      assert lines[i..][1..] == lines[i + 1..];
      var line := lines[i];
      if StartsWith(line.code, "flag*") {
        if |line.code| <= 5 {
          return Err(IndexError("string index out of range"));
        }
        flag := [line.code[5]];
      } else {
        if Flagged(lines[i + 1..], flag).Ok? {
          assert out + ([Entry(flag, line.code, line.comment)] + Flagged(lines[i + 1..], flag).value)
              == (out + [Entry(flag, line.code, line.comment)]) + Flagged(lines[i + 1..], flag).value;
        }
        out := out + [Entry(flag, line.code, line.comment)];
      }
    }
    assert out + [] == out;
    return Ok(out);
  }

  /** `Parse` on a non-empty list, case by case. */
  lemma ParseCons(lines: seq<Line>, flag: string, t: AffTables)
    requires lines != []
    ensures var l := lines[0];
            IsFlagLine(l) && |l.code| <= 5 ==> Parse(lines, flag, t) == Err(IndexError("string index out of range"))
    ensures var l := lines[0];
            IsFlagLine(l) && |l.code| > 5 ==> Parse(lines, flag, t) == Parse(lines[1..], [l.code[5]], t)
    ensures var l := lines[0];
            !IsFlagLine(l) && l.code == [] && l.comment != [] ==>
              Parse(lines, flag, t) == Parse(lines[1..], flag, t.(comments := Append(t.comments, flag, l.comment)))
    ensures var l := lines[0];
            !IsFlagLine(l) && l.code != [] && GetRule(l.code).Err? ==> Parse(lines, flag, t) == Err(GetRule(l.code).error)
    ensures var l := lines[0];
            !IsFlagLine(l) && l.code != [] && GetRule(l.code).Ok? ==>
              Parse(lines, flag, t) == Parse(lines[1..], flag, t.(ruleGroups := Append(t.ruleGroups, flag, GetRule(l.code).value)))
    ensures var l := lines[0];
            !IsFlagLine(l) && l.code == [] && l.comment == [] ==>
              Parse(lines, flag, t) == Err(Exception("Unexpected empty line! (on flag: " + flag + ")"))
  {
  }

  /** `parse_aff_lines` without the file: the extracted lines through the
      loop, from no flag and empty tables. */
  function ParseAff(lines: seq<string>): Result<AffTables>
  {
    match Extracted(lines)
    case Err(e) => Err(e)
    case Ok(ls) => Parse(ls, NoFlag, AffTables(map[], map[]))
  }

  /** `parse_aff_lines`: the loop over `read_flag(extract_information(lines))`
      that appends each comment and each rule to the list of its flag. */
  method ParseAffLines(lines: seq<string>) returns (r: Result<AffTables>)
    ensures r == ParseAff(lines)
  {
    var processed := ExtractInformation(lines);
    if processed.Err? {
      return Err(processed.error);
    }
    var ls := processed.value;
    var ruleGroups: map<string, seq<Rule>> := map[];
    var comments: map<string, seq<string>> := map[];
    var flag := NoFlag;
    for i := 0 to |ls|
      invariant Parse(ls, NoFlag, AffTables(map[], map[])) == Parse(ls[i..], flag, AffTables(ruleGroups, comments))
    {
      assert ls[i..][1..] == ls[i + 1..];
      ParseCons(ls[i..], flag, AffTables(ruleGroups, comments));
      var code := ls[i].code;
      var comment := ls[i].comment;
      if StartsWith(code, "flag*") {
        if |code| <= 5 {
          return Err(IndexError("string index out of range"));
        }
        flag := [code[5]];
      } else if code == [] && comment != [] {
        comments := Append(comments, flag, comment);
      } else if code != [] {
        var rule := GetRule(code);
        if rule.Err? {
          return Err(rule.error);
        }
        ruleGroups := Append(ruleGroups, flag, rule.value);
      } else {
        return Err(Exception("Unexpected empty line! (on flag: " + flag + ")"));
      }
    }
    return Ok(AffTables(ruleGroups, comments));
  }

  lemma TablesEmpty()
    ensures Tables([]) == AffTables(map[], map[])
  {
    assert RuleFlags([]) == {};
    assert CommentFlags([]) == {};
  }

  /** What `parse_aff_lines` promises: it succeeds exactly when there is a
      header, the flag reader succeeds on the extracted lines and every rule
      code parses; it then returns, per flag, that flag's rules and comments
      in file order. It fails with `IndexError` (no header, or a bare
      `flag*`) or `ValueError` (a malformed rule code), never with the
      "Unexpected empty line" exception. */
  lemma ParseAffMeaning(lines: seq<string>)
    ensures ParseAff(lines).Ok? <==>
              && Extracted(lines).Ok?
              && Flagged(Extracted(lines).value, NoFlag).Ok?
              && AllGood(Flagged(Extracted(lines).value, NoFlag).value)
    ensures ParseAff(lines).Err? ==> ParseAff(lines).error.IndexError? || ParseAff(lines).error.ValueError?
    ensures ParseAff(lines).Ok? ==>
              && Extracted(lines).Ok?
              && Flagged(Extracted(lines).value, NoFlag).Ok?
              && AllGood(Flagged(Extracted(lines).value, NoFlag).value)
              && ParseAff(lines).value == Tables(Flagged(Extracted(lines).value, NoFlag).value)
  {
    ExtractedLines(lines);
    if Extracted(lines).Ok? {
      var ls := Extracted(lines).value;
      TablesEmpty();
      ParseMeaning(ls, NoFlag, []);
      assert forall i :: 0 <= i < |ls| ==> IsEntry(ls[i]) by {
        assert forall i :: 0 <= i < |ls| ==> Clean(ls[i]);
      }
      ParseErrors(ls, NoFlag, AffTables(map[], map[]));
      if Flagged(ls, NoFlag).Ok? {
        assert [] + Flagged(ls, NoFlag).value == Flagged(ls, NoFlag).value;
      }
    }
  }
}
