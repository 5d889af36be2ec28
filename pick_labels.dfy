/** Choosing one label per run of tokens from KPWr's nested annotation
    channels: a run is a stretch of tokens that share an instance value on
    some channel, and its tokens are re-annotated with that channel alone. */
module PickLabels {
  import opened Wrappers
  import opened DataTypes

  /** `still_in_sequence`: the two value lists agree, on some position both
      have, on a value other than "0". */
  function StillInSequence(v1: seq<string>, v2: seq<string>): (r: bool)
    ensures r <==> exists i :: 0 <= i < |v1| && i < |v2| && v1[i] == v2[i] && v2[i] != "0"
  {
    if v1 == [] || v2 == [] then false
    else if v1[0] == v2[0] && v2[0] != "0" then true
    else
      var rest := StillInSequence(v1[1..], v2[1..]);
      assert rest <==> exists i :: 1 <= i < |v1| && i < |v2| && v1[i] == v2[i] && v2[i] != "0" by {
        if rest {
          var i :| 0 <= i < |v1[1..]| && i < |v2[1..]| && v1[1..][i] == v2[1..][i] && v2[1..][i] != "0";
          assert v1[i + 1] == v2[i + 1] && v2[i + 1] != "0";
        }
        if exists i :: 1 <= i < |v1| && i < |v2| && v1[i] == v2[i] && v2[i] != "0" {
          var i :| 1 <= i < |v1| && i < |v2| && v1[i] == v2[i] && v2[i] != "0";
          assert v1[1..][i - 1] == v2[1..][i - 1] && v2[1..][i - 1] != "0";
        }
      }
      rest
  }

  /** The positions whose value is not "0". */
  function NonZero(v: seq<string>): set<nat>
  {
    set i | 0 <= i < |v| && v[i] != "0"
  }

  /** `get_label_set`: collects the non-"0" positions one by one. */
  method GetLabelSet(v: seq<string>) returns (res: set<nat>)
    ensures res == NonZero(v)
  {
    res := {};
    for i := 0 to |v|
      invariant res == set k | 0 <= k < i && v[k] != "0"
    {
      if v[i] != "0" {
        res := res + {i};
      }
    }
  }

  /** `get_last_label`: despite its name, the first position whose value is
      not "0". */
  method GetLastLabel(v: seq<string>) returns (r: Option<nat>)
    ensures r.None? <==> NonZero(v) == {}
    ensures r.Some? ==> r.value in NonZero(v) && forall k :: 0 <= k < r.value ==> v[k] == "0"
  {
    for i := 0 to |v|
      invariant forall k :: 0 <= k < i ==> v[k] == "0"
    {
      if v[i] != "0" {
        assert i in NonZero(v);
        return Some(i);
      }
    }
    return None;
  }

  /** `get_any_label`: `None` for the empty set, otherwise any member (the
      source picks one at random; here the choice is left open). */
  method GetAnyLabel(s: set<nat>) returns (r: Option<nat>)
    ensures r.None? <==> s == {}
    ensures r.Some? ==> r.value in s
  {
    if s == {} {
      return None;
    }
    var x :| x in s;
    return Some(x);
  }

  /** A break found by the scan: the run `[b, e]` and the channel positions
      that stayed non-zero over all of it. */
  datatype Candidate = Candidate(b: nat, e: nat, labels: set<nat>)

  /** A reported run: `(b, e, label)`. */
  datatype Run = Run(b: nat, e: nat, channel: string)

  /** The flattened values of every token. */
  function TokenValues(tokens: seq<Token>): (r: seq<seq<string>>)
    ensures |r| == |tokens| && forall i :: 0 <= i < |tokens| ==> r[i] == tokens[i].Values()
  {
    seq(|tokens|, i requires 0 <= i < |tokens| => tokens[i].Values())
  }

  /** The scan of `get_longest_sequences` from loop index `e`, with run start
      `b`, previous value list `last` and surviving positions `labels`. It
      stops before the last token, which it never inspects. */
  function ScanFrom(vals: seq<seq<string>>, e: nat, b: nat, last: Option<seq<string>>, labels: set<nat>): seq<Candidate>
    requires e < |vals|
    decreases |vals| - e
  {
    if e == |vals| - 1 then []
    else if last.None? || labels == {} then
      ScanFrom(vals, e + 1, e, Some(vals[e]), NonZero(vals[e]))
    else
      var kept := labels * NonZero(vals[e]);
      if !StillInSequence(last.value, vals[e]) then
        [Candidate(b, e, kept)] + ScanFrom(vals, e + 1, e, Some(vals[e]), {})
      else
        ScanFrom(vals, e + 1, b, Some(vals[e]), kept)
  }

  /** Every break of the whole scan, in order. */
  function Candidates(vals: seq<seq<string>>): seq<Candidate>
    requires |vals| > 0
  {
    ScanFrom(vals, 0, 0, None, {})
  }

  /** What holds at the head of the scanning loop. */
  ghost predicate ScanState(vals: seq<seq<string>>, e: nat, b: nat, last: Option<seq<string>>, labels: set<nat>)
  {
    && e < |vals| && b <= e
    && (last.Some? ==> 0 < e && last.value == vals[e - 1] && labels <= NonZero(last.value))
    && (last.Some? && labels != {} ==>
          b < e && forall id, t :: id in labels && b <= t < e ==> id < |vals[t]| && vals[t][id] != "0")
  }

  /** A break lies strictly before the last token, spans at least two tokens,
      and each surviving position is non-zero on every token of it. */
  ghost predicate CandidateOk(vals: seq<seq<string>>, c: Candidate)
  {
    && c.b < c.e <= |vals| - 2
    && forall id, t :: id in c.labels && c.b <= t <= c.e ==> id < |vals[t]| && vals[t][id] != "0"
  }

  /** Breaks in strictly increasing position, each ending before the next
      begins. */
  ghost predicate Ordered(cs: seq<Candidate>)
  {
    forall i, j :: 0 <= i < j < |cs| ==> cs[i].e < cs[j].b
  }

  /** One step of the scan keeps `ScanState`, and unfolds the scan by one
      token. */
  lemma ScanStep(vals: seq<seq<string>>, e: nat, b: nat, last: Option<seq<string>>, labels: set<nat>)
    requires ScanState(vals, e, b, last, labels) && e < |vals| - 1
    ensures last.None? || labels == {} ==>
              && ScanState(vals, e + 1, e, Some(vals[e]), NonZero(vals[e]))
              && ScanFrom(vals, e, b, last, labels) == ScanFrom(vals, e + 1, e, Some(vals[e]), NonZero(vals[e]))
    ensures last.Some? && labels != {} && StillInSequence(last.value, vals[e]) ==>
              && ScanState(vals, e + 1, b, Some(vals[e]), labels * NonZero(vals[e]))
              && ScanFrom(vals, e, b, last, labels) == ScanFrom(vals, e + 1, b, Some(vals[e]), labels * NonZero(vals[e]))
    ensures last.Some? && labels != {} && !StillInSequence(last.value, vals[e]) ==>
              ScanState(vals, e + 1, e, Some(vals[e]), {})
  {
    if last.Some? && labels != {} && StillInSequence(last.value, vals[e]) {
      var kept := labels * NonZero(vals[e]);
      forall id, t | id in kept && b <= t < e + 1 ensures id < |vals[t]| && vals[t][id] != "0" {
        if t == e { assert id in NonZero(vals[e]); }
      }
    }
  }

  lemma {:induction false} ScanFromProps(vals: seq<seq<string>>, e: nat, b: nat, last: Option<seq<string>>, labels: set<nat>)
    requires ScanState(vals, e, b, last, labels)
    ensures forall c :: c in ScanFrom(vals, e, b, last, labels) ==> CandidateOk(vals, c)
    ensures forall c :: c in ScanFrom(vals, e, b, last, labels) ==>
              c.e >= e && c.b >= (if last.Some? && labels != {} then b else e)
    ensures Ordered(ScanFrom(vals, e, b, last, labels))
    decreases |vals| - e
  {
    if e == |vals| - 1 {
    } else if last.None? || labels == {} {
      assert ScanFrom(vals, e, b, last, labels) == ScanFrom(vals, e + 1, e, Some(vals[e]), NonZero(vals[e]));
      ScanFromProps(vals, e + 1, e, Some(vals[e]), NonZero(vals[e]));
    } else {
      var kept := labels * NonZero(vals[e]);
      if !StillInSequence(last.value, vals[e]) {
        var c := Candidate(b, e, kept);
        var rest := ScanFrom(vals, e + 1, e, Some(vals[e]), {});
        ScanFromProps(vals, e + 1, e, Some(vals[e]), {});
        assert CandidateOk(vals, c) by {
          forall id, t | id in kept && b <= t <= e ensures id < |vals[t]| && vals[t][id] != "0" {
            if t == e { assert id in NonZero(vals[e]); }
          }
        }
        var r := [c] + rest;
        assert ScanFrom(vals, e, b, last, labels) == r;
        forall i, j | 0 <= i < j < |r| ensures r[i].e < r[j].b {
          assert r[j] == rest[j - 1];
          assert rest[j - 1] in rest;
          assert rest[j - 1].b >= e + 1;
          if i > 0 {
            assert r[i] == rest[i - 1];
            assert rest[i - 1].e < rest[j - 1].b;
          } else {
            assert r[i] == c;
          }
        }
      } else {
        ScanStep(vals, e, b, last, labels);
        ScanFromProps(vals, e + 1, b, Some(vals[e]), kept);
        assert ScanFrom(vals, e, b, last, labels) == ScanFrom(vals, e + 1, b, Some(vals[e]), kept);
      }
    }
  }

  /** The scan never reads the last token. */
  lemma {:induction false} ScanFromIgnoresLast(vals: seq<seq<string>>, vals': seq<seq<string>>, e: nat, b: nat,
                                               last: Option<seq<string>>, labels: set<nat>)
    requires |vals| == |vals'| && e < |vals|
    requires vals[..|vals| - 1] == vals'[..|vals| - 1]
    ensures ScanFrom(vals, e, b, last, labels) == ScanFrom(vals', e, b, last, labels)
    decreases |vals| - e
  {
    if e < |vals| - 1 {
      assert vals[e] == vals[..|vals| - 1][e] == vals'[e];
      var kept := labels * NonZero(vals[e]);
      ScanFromIgnoresLast(vals, vals', e + 1, e, Some(vals[e]), NonZero(vals[e]));
      ScanFromIgnoresLast(vals, vals', e + 1, e, Some(vals[e]), {});
      ScanFromIgnoresLast(vals, vals', e + 1, b, Some(vals[e]), kept);
    }
  }

  /** With every value "0" or "1", no position survives to any break: two
      non-zero values on one channel are then always equal, so the scan only
      breaks where no channel is shared. */
  lemma {:induction false} ScanFromBinary(vals: seq<seq<string>>, e: nat, b: nat, last: Option<seq<string>>, labels: set<nat>)
    requires ScanState(vals, e, b, last, labels)
    requires forall t, i :: 0 <= t < |vals| && 0 <= i < |vals[t]| ==> vals[t][i] == "0" || vals[t][i] == "1"
    ensures forall c :: c in ScanFrom(vals, e, b, last, labels) ==> c.labels == {}
    decreases |vals| - e
  {
    if e == |vals| - 1 {
    } else if last.None? || labels == {} {
      ScanFromBinary(vals, e + 1, e, Some(vals[e]), NonZero(vals[e]));
    } else {
      var kept := labels * NonZero(vals[e]);
      if !StillInSequence(last.value, vals[e]) {
        ScanFromBinary(vals, e + 1, e, Some(vals[e]), {});
        if id :| id in kept {
          assert false;
        }
      } else {
        ScanFromBinary(vals, e + 1, b, Some(vals[e]), kept);
      }
    }
  }

  /** The breaks that report a run: those with a surviving position. */
  function Eligible(cands: seq<Candidate>): (r: seq<Candidate>)
    ensures forall c :: c in r ==> c in cands && c.labels != {}
  {
    if cands == [] then []
    else
      var rest := Eligible(cands[..|cands| - 1]);
      if cands[|cands| - 1].labels == {} then rest else rest + [cands[|cands| - 1]]
  }

  lemma {:induction false} EligibleOrdered(cands: seq<Candidate>)
    requires Ordered(cands)
    ensures Ordered(Eligible(cands))
  {
    if cands != [] {
      var init := cands[..|cands| - 1];
      var c := cands[|cands| - 1];
      EligibleOrdered(init);
      var rest := Eligible(init);
      if c.labels != {} {
        var r := rest + [c];
        forall i, j | 0 <= i < j < |r| ensures r[i].e < r[j].b {
          if j == |rest| {
            assert r[i] == rest[i] && rest[i] in rest;
            assert r[i] in init;
            var k :| 0 <= k < |init| && init[k] == r[i];
            assert cands[k] == r[i] && r[j] == cands[|cands| - 1];
          } else {
            assert r[i] == rest[i] && r[j] == rest[j];
          }
        }
      }
    }
  }

  lemma {:induction false} EligibleEmpty(cands: seq<Candidate>)
    requires forall c :: c in cands ==> c.labels == {}
    ensures Eligible(cands) == []
  {
    if cands != [] {
      EligibleEmpty(cands[..|cands| - 1]);
    }
  }

  /** `run` reports break `c` with the channel of token 0 at one of its
      surviving positions. */
  ghost predicate Reports(run: Run, c: Candidate, channels: seq<string>)
  {
    run.b == c.b && run.e == c.e && exists id :: id in c.labels && id < |channels| && run.channel == channels[id]
  }

  /** `runs` is a possible result of `get_longest_sequences` for these breaks. */
  ghost predicate Picks(runs: seq<Run>, cands: seq<Candidate>, channels: seq<string>)
  {
    var el := Eligible(cands);
    |runs| == |el| && forall k :: 0 <= k < |runs| ==> Reports(runs[k], el[k], channels)
  }

  /** Some choice of label can index past token 0's channels. */
  ghost predicate MayOverrun(cands: seq<Candidate>, channels: seq<string>)
  {
    exists c, id :: c in cands && id in c.labels && id >= |channels|
  }

  /** Possible results of `get_longest_sequences` on a non-empty token list. */
  ghost predicate IsLongestSequences(tokens: seq<Token>, runs: seq<Run>)
  {
    |tokens| > 0 && Picks(runs, Candidates(TokenValues(tokens)), tokens[0].Channels())
  }

  /** One break of the scan, appended to the breaks already found. */
  lemma BreakStep(vals: seq<seq<string>>, e: nat, b: nat, last: Option<seq<string>>, labels: set<nat>, done: seq<Candidate>)
    requires e < |vals| - 1 && last.Some? && labels != {} && !StillInSequence(last.value, vals[e])
    ensures done + ScanFrom(vals, e, b, last, labels)
         == (done + [Candidate(b, e, labels * NonZero(vals[e]))]) + ScanFrom(vals, e + 1, e, Some(vals[e]), {})
  {
    var c := Candidate(b, e, labels * NonZero(vals[e]));
    var rest := ScanFrom(vals, e + 1, e, Some(vals[e]), {});
    assert ScanFrom(vals, e, b, last, labels) == [c] + rest;
    assert done + ([c] + rest) == (done + [c]) + rest;
  }

  lemma EligibleSnoc(done: seq<Candidate>, c: Candidate)
    ensures Eligible(done + [c]) == Eligible(done) + (if c.labels == {} then [] else [c])
  {
    assert (done + [c])[..|done|] == done;
  }

  /** Reporting one more break keeps `Picks`. */
  lemma PicksSnoc(runs: seq<Run>, done: seq<Candidate>, c: Candidate, channels: seq<string>, run: Option<Run>)
    requires Picks(runs, done, channels)
    requires run.None? <==> c.labels == {}
    requires run.Some? ==> Reports(run.value, c, channels)
    ensures Picks(runs + (if run.Some? then [run.value] else []), done + [c], channels)
  {
    EligibleSnoc(done, c);
    var runs' := runs + (if run.Some? then [run.value] else []);
    var el := Eligible(done + [c]);
    forall k | 0 <= k < |runs'| ensures Reports(runs'[k], el[k], channels) {
      if k < |runs| {
        assert runs'[k] == runs[k] && el[k] == Eligible(done)[k];
      }
    }
  }

  /** A break that can index past the channels makes the scan one that may
      overrun. */
  lemma OverrunAt(cands: seq<Candidate>, done: seq<Candidate>, c: Candidate, rest: seq<Candidate>, channels: seq<string>)
    requires cands == (done + [c]) + rest
    requires exists id :: id in c.labels && id >= |channels|
    ensures MayOverrun(cands, channels)
  {
    assert cands[|done|] == c;
  }

  /** The report made at a break of `get_longest_sequences`: nothing when no
      position survived, otherwise the channel of token 0 at any surviving
      position, which fails when that position is past its channels. */
  method ReportRun(b: nat, e: nat, labels: set<nat>, channels: seq<string>) returns (r: Result<Option<Run>>)
    ensures r.Err? ==> r.error.IndexError? && exists id :: id in labels && id >= |channels|
    ensures r.Ok? ==> (r.value.None? <==> labels == {})
    ensures r.Ok? && r.value.Some? ==> Reports(r.value.value, Candidate(b, e, labels), channels)
    ensures (forall id :: id in labels ==> id < |channels|) ==> r.Ok?
  {
    var labelId := GetAnyLabel(labels);
    if labelId == None {
      return Ok(None);
    }
    if labelId.value >= |channels| {
      return Err(IndexError("list index out of range"));
    }
    return Ok(Some(Run(b, e, channels[labelId.value])));
  }

  /** `get_longest_sequences`. */
  method GetLongestSequences(tokens: seq<Token>) returns (r: Result<seq<Run>>)
    ensures tokens == [] ==> r.Err? && r.error.IndexError?
    ensures r.Ok? ==> IsLongestSequences(tokens, r.value)
    ensures r.Err? && tokens != [] ==>
              r.error.IndexError? && MayOverrun(Candidates(TokenValues(tokens)), tokens[0].Channels())
    ensures |tokens| == 1 ==> r == Ok([])
  {
    if |tokens| == 0 {
      return Err(IndexError("list index out of range"));
    }
    ghost var vals := TokenValues(tokens);
    var res: seq<Run> := [];
    var b: nat := 0;
    var e: nat := 0;
    var attribs := tokens[0].Channels();
    var lastSet: Option<seq<string>> := None;
    var labelSet: set<nat> := {};
    ghost var done: seq<Candidate> := [];
    while e != |tokens| - 1
      invariant ScanState(vals, e, b, lastSet, labelSet)
      invariant Candidates(vals) == done + ScanFrom(vals, e, b, lastSet, labelSet)
      invariant Picks(res, done, attribs)
      decreases |tokens| - e
    {
      var currentToken := tokens[e];
      var newSet := currentToken.Values();
      assert newSet == vals[e];
      ScanStep(vals, e, b, lastSet, labelSet);
      if lastSet.None? || labelSet == {} {
        labelSet := GetLabelSet(newSet);
        b := e;
      } else {
        var nz := GetLabelSet(newSet);
        if !StillInSequence(lastSet.value, newSet) {
          BreakStep(vals, e, b, lastSet, labelSet, done);
          ghost var c := Candidate(b, e, labelSet * nz);
          labelSet := labelSet * nz;
          var run := ReportRun(b, e, labelSet, attribs);
          if run.Err? {
            OverrunAt(Candidates(vals), done, c, ScanFrom(vals, e + 1, e, Some(vals[e]), {}), attribs);
            return Err(run.error);
          }
          PicksSnoc(res, done, c, attribs, run.value);
          if run.value.Some? {
            res := res + [run.value.value];
          }
          done := done + [c];
          b := e;
          labelSet := {};
        } else {
          labelSet := labelSet * nz;
        }
      }
      lastSet := Some(newSet);
      e := e + 1;
    }
    assert ScanFrom(vals, e, b, lastSet, labelSet) == [];
    assert done + [] == done;
    return Ok(res);
  }

  /** Every run lies before the last token, spans at least one token and
      ends before the next run begins, and its channel is token 0's channel
      at a position that is non-zero on every token from `b` through `e`. */
  ghost predicate RunsOk(tokens: seq<Token>, runs: seq<Run>)
  {
    && (forall k :: 0 <= k < |runs| ==> runs[k].b < runs[k].e <= |tokens| - 2)
    && (forall k, l :: 0 <= k < l < |runs| ==> runs[k].e < runs[l].b)
    && forall k :: 0 <= k < |runs| ==> RunActive(tokens, runs[k])
  }

  ghost predicate RunActive(tokens: seq<Token>, run: Run)
  {
    && run.e < |tokens|
    && exists id: nat :: id < |tokens[0].Channels()| && run.channel == tokens[0].Channels()[id]
                 && forall t :: run.b <= t <= run.e ==> id < |tokens[t].Values()| && tokens[t].Values()[id] != "0"
  }

  lemma RunsOkFromPicks(tokens: seq<Token>, runs: seq<Run>)
    requires IsLongestSequences(tokens, runs)
    ensures RunsOk(tokens, runs)
  {
    var vals := TokenValues(tokens);
    var cands := Candidates(vals);
    var el := Eligible(cands);
    var channels := tokens[0].Channels();
    ScanFromProps(vals, 0, 0, None, {});
    EligibleOrdered(cands);
    forall k | 0 <= k < |runs| ensures runs[k].b < runs[k].e <= |tokens| - 2 && RunActive(tokens, runs[k]) {
      assert Reports(runs[k], el[k], channels);
      assert el[k] in cands;
      assert CandidateOk(vals, el[k]);
      var id :| id in el[k].labels && id < |channels| && runs[k].channel == channels[id];
      forall t | runs[k].b <= t <= runs[k].e ensures id < |tokens[t].Values()| && tokens[t].Values()[id] != "0" {
        assert vals[t] == tokens[t].Values();
      }
    }
    forall k, l | 0 <= k < l < |runs| ensures runs[k].e < runs[l].b {
      assert Reports(runs[k], el[k], channels) && Reports(runs[l], el[l], channels);
    }
  }

  /** Values only "0" or "1" (the flat binary annotation): no run is
      reported. */
  lemma BinaryHasNoRuns(tokens: seq<Token>, runs: seq<Run>)
    requires IsLongestSequences(tokens, runs)
    requires forall t, i :: 0 <= t < |tokens| && 0 <= i < |tokens[t].Values()| ==>
               tokens[t].Values()[i] == "0" || tokens[t].Values()[i] == "1"
    ensures runs == []
  {
    var vals := TokenValues(tokens);
    ScanFromBinary(vals, 0, 0, None, {});
    EligibleEmpty(Candidates(vals));
  }

  /** The runs reported for a token list do not depend on its last token. */
  lemma LastTokenIgnored(tokens: seq<Token>, tokens': seq<Token>, runs: seq<Run>)
    requires |tokens| == |tokens'| >= 2 && tokens[..|tokens| - 1] == tokens'[..|tokens| - 1]
    ensures IsLongestSequences(tokens, runs) <==> IsLongestSequences(tokens', runs)
  {
    var vals := TokenValues(tokens);
    var vals' := TokenValues(tokens');
    assert vals[..|vals| - 1] == vals'[..|vals| - 1] by {
      forall i | 0 <= i < |vals| - 1 ensures vals[i] == vals'[i] {
        assert tokens[i] == tokens[..|tokens| - 1][i] == tokens'[i];
      }
    }
    ScanFromIgnoresLast(vals, vals', 0, 0, None, {});
    assert tokens[0] == tokens[..|tokens| - 1][0] == tokens'[0];
  }

  /** A token re-annotated with the single channel `channel`. */
  function Relabel(t: Token, channel: string): (r: Token)
    ensures r.orth == t.orth && r.id == t.id && r.NE() == Some(channel)
  {
    t.(attribs := [[Pair(channel, "1")]])
  }

  /** The tokens `[run.b, run.e)` relabelled, the others as they were. */
  function ApplyRun(ts: seq<Token>, run: Run): (r: seq<Token>)
    ensures |r| == |ts|
  {
    seq(|ts|, i requires 0 <= i < |ts| => if run.b <= i < run.e then Relabel(ts[i], run.channel) else ts[i])
  }

  /** The runs applied in order. */
  function Stamp(ts: seq<Token>, runs: seq<Run>): (r: seq<Token>)
    ensures |r| == |ts|
  {
    if runs == [] then ts else ApplyRun(Stamp(ts, runs[..|runs| - 1]), runs[|runs| - 1])
  }

  /** What `Stamp` does to each token, for runs that do not overlap: inside
      run `k` the token carries that run's channel alone, outside every run
      it is unchanged. */
  lemma {:induction false} StampAt(ts: seq<Token>, runs: seq<Run>, i: nat)
    requires i < |ts|
    requires forall k, l :: 0 <= k < l < |runs| ==> runs[k].e <= runs[l].b
    ensures forall k :: 0 <= k < |runs| && runs[k].b <= i < runs[k].e ==>
              Stamp(ts, runs)[i] == Relabel(ts[i], runs[k].channel)
    ensures (forall k :: 0 <= k < |runs| ==> !(runs[k].b <= i < runs[k].e)) ==> Stamp(ts, runs)[i] == ts[i]
  {
    if runs != [] {
      var init := runs[..|runs| - 1];
      var last := runs[|runs| - 1];
      StampAt(ts, init, i);
      forall k | 0 <= k < |runs| && runs[k].b <= i < runs[k].e
        ensures Stamp(ts, runs)[i] == Relabel(ts[i], runs[k].channel)
      {
        if k < |runs| - 1 {
          assert runs[k] == init[k];
          assert !(last.b <= i < last.e);
        } else {
          forall l | 0 <= l < |init| ensures !(init[l].b <= i < init[l].e) {
            assert init[l] == runs[l];
          }
        }
      }
      if forall k :: 0 <= k < |runs| ==> !(runs[k].b <= i < runs[k].e) {
        forall l | 0 <= l < |init| ensures !(init[l].b <= i < init[l].e) {
          assert init[l] == runs[l];
        }
      }
    }
  }

  /** `pick_tags` can fail on these tokens: there are none, or some choice
      of label indexes past token 0's channels. */
  ghost predicate MayFail(tokens: seq<Token>)
  {
    tokens == [] || MayOverrun(Candidates(TokenValues(tokens)), tokens[0].Channels())
  }

  /** Some sentence of `xs` can make `pick_tags` fail. */
  ghost predicate SomeMayFail(xs: seq<seq<Token>>)
  {
    exists k :: 0 <= k < |xs| && MayFail(xs[k])
  }

  /** `pick_tags`: relabels each run found by `get_longest_sequences`. */
  method PickTags(tokens: seq<Token>) returns (r: Result<seq<Token>>, ghost runs: seq<Run>)
    ensures r.Ok? ==> IsLongestSequences(tokens, runs) && r.value == Stamp(tokens, runs)
    ensures r.Err? ==> r.error.IndexError? && MayFail(tokens)
  {
    var longest := GetLongestSequences(tokens);
    if longest.Err? {
      return Err(longest.error), [];
    }
    var found := longest.value;
    RunsOkFromPicks(tokens, found);
    var ts := tokens;
    for k := 0 to |found|
      invariant |ts| == |tokens|
      invariant ts == Stamp(tokens, found[..k])
    {
      var run := found[k];
      ghost var before := ts;
      for t := run.b to run.e
        invariant |ts| == |before|
        invariant forall i :: 0 <= i < |ts| ==> ts[i] == if run.b <= i < t then Relabel(before[i], run.channel) else before[i]
      {
        ts := ts[t := Relabel(ts[t], run.channel)];
      }
      assert ts == ApplyRun(before, run);
      assert found[..k + 1][..k] == found[..k];
    }
    assert found[..|found|] == found;
    return Ok(ts), found;
  }

  /** What `pick_tags` promises about its result: the same tokens in the
      same order with the same text and ids; each token of a run carries
      only the picked channel, which was active on it at the picked
      position; every other token, the last one among them, is unchanged. */
  lemma PickTagsEffect(tokens: seq<Token>, runs: seq<Run>, i: nat)
    requires IsLongestSequences(tokens, runs) && i < |tokens|
    ensures |Stamp(tokens, runs)| == |tokens|
    ensures Stamp(tokens, runs)[i].orth == tokens[i].orth && Stamp(tokens, runs)[i].id == tokens[i].id
    ensures forall k :: 0 <= k < |runs| && runs[k].b <= i < runs[k].e ==>
              Stamp(tokens, runs)[i] == Relabel(tokens[i], runs[k].channel) && RunActive(tokens, runs[k])
    ensures (forall k :: 0 <= k < |runs| ==> !(runs[k].b <= i < runs[k].e)) ==> Stamp(tokens, runs)[i] == tokens[i]
    ensures i == |tokens| - 1 ==> Stamp(tokens, runs)[i] == tokens[i]
  {
    RunsOkFromPicks(tokens, runs);
    StampAt(tokens, runs, i);
  }

  /** On binary annotation `pick_tags` leaves every token as it was. */
  lemma PickTagsBinary(tokens: seq<Token>, runs: seq<Run>)
    requires IsLongestSequences(tokens, runs)
    requires forall t, i :: 0 <= t < |tokens| && 0 <= i < |tokens[t].Values()| ==>
               tokens[t].Values()[i] == "0" || tokens[t].Values()[i] == "1"
    ensures Stamp(tokens, runs) == tokens
  {
    BinaryHasNoRuns(tokens, runs);
  }

  /** `after` is `before` picked along `runs`, as `pick_tags` does. */
  ghost predicate PickedAlong(before: seq<Token>, after: seq<Token>, runs: seq<Run>)
  {
    IsLongestSequences(before, runs) && after == Stamp(before, runs)
  }

  /** The main loop of the label picker: `pick_tags` on every sentence of
      the corpus, in order, each sentence's tokens replaced in place. The
      first failure ends the run; it can only come from a sentence on which
      `pick_tags` can fail, so a corpus without one is always picked. */
  method PickTagsCorpus(c: Corpus) returns (r: Result<()>, ghost runs: seq<seq<Run>>)
    requires c.Valid()
    modifies set s | s in c.Sentences()
    ensures c.Sentences() == old(c.Sentences()) && c.Valid()
    ensures r.Err? ==> r.error.IndexError? && SomeMayFail(old(TokenLists(c.Sentences())))
    ensures r.Ok? ==> |runs| == |c.Sentences()|
    ensures r.Ok? ==> forall k :: 0 <= k < |runs| ==>
              PickedAlong(old(TokenLists(c.Sentences()))[k], c.Sentences()[k].tokens, runs[k])
  {
    ParagraphsOfAllocated(c.documents);
    var ss := c.Sentences();
    ghost var before := TokenLists(ss);
    assert Distinct(ss);
    runs := [];
    for k := 0 to |ss|
      invariant c.Sentences() == ss
      invariant |runs| == k
      invariant forall j :: 0 <= j < k ==> PickedAlong(before[j], ss[j].tokens, runs[j])
      invariant forall j :: k <= j < |ss| ==> ss[j].tokens == before[j]
    {
      var res, rs := PickTags(ss[k].tokens);
      if res.Err? {
        assert MayFail(before[k]);
        return Err(res.error), runs;
      }
      assert forall j :: 0 <= j < |ss| && j != k ==> ss[j] != ss[k];
      ss[k].tokens := res.value;
      runs := runs + [rs];
    }
    return Ok(()), runs;
  }
}
