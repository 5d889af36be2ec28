/** Renaming annotation channels through a label table: every item
    `{k: v}` of every dict of a token becomes its own dict `{map[k]: v}`. */
module MapLabels {
  import opened Wrappers
  import opened DataTypes

  /** One item renamed, as a dict of its own; a channel missing from the table
      raises `KeyError`. */
  function MapPair(m: map<string, string>, p: Pair): (r: Result<Attrib>)
    ensures r.Ok? <==> p.channel in m
    ensures r.Ok? ==> r.value == [Pair(m[p.channel], p.value)]
    ensures r.Err? ==> r.error == KeyError(p.channel)
  {
    if p.channel in m then Ok([Pair(m[p.channel], p.value)]) else Err(KeyError(p.channel))
  }

  /** The items of a list of one-item dicts are those items, in order. */
  lemma {:induction false} PairsOfSingletons(dicts: seq<Attrib>)
    requires forall i :: 0 <= i < |dicts| ==> |dicts[i]| == 1
    ensures Pairs(dicts) == seq(|dicts|, i requires 0 <= i < |dicts| => dicts[i][0])
  {
    if dicts != [] {
      PairsOfSingletons(dicts[1..]);
    }
  }

  /** `MapPair` through the table `m`, as a function value. */
  function Renamer(m: map<string, string>): Pair -> Result<Attrib>
  {
    p => MapPair(m, p)
  }

  /** Renaming a list of items succeeds exactly when every channel is in
      the table. */
  lemma RenamerOk(m: map<string, string>, ps: seq<Pair>)
    ensures MapAll(Renamer(m), ps).Ok? <==> forall i :: 0 <= i < |ps| ==> ps[i].channel in m
  {
    var res := MapAll(Renamer(m), ps);
    if !res.Ok? {
      var i :| 0 <= i < |ps| && Renamer(m)(ps[i]) == Err(res.error);
      assert ps[i].channel !in m;
    } else {
      forall i | 0 <= i < |ps| ensures ps[i].channel in m {
        assert Renamer(m)(ps[i]).Ok?;
      }
    }
  }

  /** The new `attribs` of a token: one dict per original item, in the
      original order, channel renamed and value kept. The first channel
      missing from the table raises `KeyError`. */
  function MapAttribs(m: map<string, string>, attribs: seq<Attrib>): (r: Result<seq<Attrib>>)
    ensures var ps := Pairs(attribs);
            r.Ok? <==> forall i :: 0 <= i < |ps| ==> ps[i].channel in m
    ensures var ps := Pairs(attribs);
            r.Ok? ==> |r.value| == |ps| &&
                      forall i :: 0 <= i < |ps| ==> r.value[i] == [Pair(m[ps[i].channel], ps[i].value)]
    ensures var ps := Pairs(attribs);
            r.Err? ==> exists i :: 0 <= i < |ps| && ps[i].channel !in m && r.error == KeyError(ps[i].channel)
                                   && forall k :: 0 <= k < i ==> ps[k].channel in m
  {
    RenamerOk(m, Pairs(attribs));
    MapAll(Renamer(m), Pairs(attribs))
  }

  /** The items with each channel looked up in the table. */
  function Renamed(m: map<string, string>, ps: seq<Pair>): seq<Pair>
    requires forall i :: 0 <= i < |ps| ==> ps[i].channel in m
  {
    seq(|ps|, i requires 0 <= i < |ps| => Pair(m[ps[i].channel], ps[i].value))
  }

  /** The items of a mapped token are the original items renamed, so their
      number is the total number of keys of the original dicts. */
  lemma MappedPairs(m: map<string, string>, attribs: seq<Attrib>)
    requires MapAttribs(m, attribs).Ok?
    ensures Pairs(MapAttribs(m, attribs).value) == Renamed(m, Pairs(attribs))
  {
    PairsOfSingletons(MapAttribs(m, attribs).value);
  }

  /** One token with its channels renamed. */
  function MapToken(m: map<string, string>, t: Token): (r: Result<Token>)
    ensures r.Ok? <==> MapAttribs(m, t.attribs).Ok?
    ensures r.Ok? ==> r.value == t.(attribs := MapAttribs(m, t.attribs).value)
    ensures r.Err? ==> r.error == MapAttribs(m, t.attribs).error
  {
    match MapAttribs(m, t.attribs)
    case Ok(a) => Ok(t.(attribs := a))
    case Err(e) => Err(e)
  }

  /** The sentence `map_labels` hands back: every token renamed, or the
      first token's `KeyError`. */
  function MapSentence(m: map<string, string>, tokens: seq<Token>): Result<seq<Token>>
  {
    MapAll(t => MapToken(m, t), tokens)
  }

  /** `map_labels`: reassigns each token's `attribs` in turn and hands back
      the same list; the first missing channel ends it with `KeyError`. */
  method MapLabels(tokens: seq<Token>, m: map<string, string>) returns (r: Result<seq<Token>>)
    ensures r == MapSentence(m, tokens)
  {
    var ts := tokens;
    for i := 0 to |tokens|
      invariant |ts| == |tokens|
      invariant forall k :: 0 <= k < i ==> MapToken(m, tokens[k]) == Ok(ts[k])
      invariant forall k :: i <= k < |tokens| ==> ts[k] == tokens[k]
    {
      var attribs := MapAttribs(m, ts[i].attribs);
      if attribs.Err? {
        MapAllFirstError(t => MapToken(m, t), tokens, i);
        return Err(attribs.error);
      }
      ts := ts[i := ts[i].(attribs := attribs.value)];
    }
    MapAllPointwise(t => MapToken(m, t), tokens, ts);
    return Ok(ts);
  }

  /** What `map_labels` promises: the list keeps its length, order, texts and
      ids, and each token's items become one-item dicts holding the renamed
      items; it fails exactly when some channel is missing from the table. */
  lemma MapLabelsEffect(tokens: seq<Token>, m: map<string, string>)
    ensures var r := MapSentence(m, tokens);
            r.Ok? <==> forall i :: 0 <= i < |tokens| ==> MapAttribs(m, tokens[i].attribs).Ok?
    ensures var r := MapSentence(m, tokens);
            r.Ok? ==> |r.value| == |tokens| &&
                      forall i :: 0 <= i < |tokens| ==>
                        && r.value[i].orth == tokens[i].orth && r.value[i].id == tokens[i].id
                        && Pairs(r.value[i].attribs) == Renamed(m, Pairs(tokens[i].attribs))
    ensures var r := MapSentence(m, tokens);
            r.Err? ==> r.error.KeyError? && r.error.key !in m
  {
    var f := t => MapToken(m, t);
    var r := MapSentence(m, tokens);
    assert r == MapAll(f, tokens);
    if r.Ok? {
      forall i | 0 <= i < |tokens| ensures Pairs(r.value[i].attribs) == Renamed(m, Pairs(tokens[i].attribs)) {
        assert f(tokens[i]) == Ok(r.value[i]);
        MappedPairs(m, tokens[i].attribs);
      }
    } else {
      var i :| 0 <= i < |tokens| && f(tokens[i]) == Err(r.error);
    }
  }

  /** The per-sentence loop of `main`: `map_labels` through the table `m` on
      every sentence of every paragraph of every document. The tree keeps its
      shape; the first channel missing from the table ends the loop. */
  method MapLabelsCorpus(c: Corpus, m: map<string, string>) returns (r: Result<()>)
    requires c.Valid()
    modifies set s | s in c.Sentences()
    ensures c.Sentences() == old(c.Sentences()) && c.Valid()
    ensures Shape(c.View()) == old(Shape(c.View()))
    ensures |TokenLists(c.Sentences())| == |old(TokenLists(c.Sentences()))|
    ensures r.Ok? <==> forall k :: 0 <= k < |c.Sentences()| ==> MapSentence(m, old(TokenLists(c.Sentences()))[k]).Ok?
    ensures r.Ok? ==> forall k :: 0 <= k < |c.Sentences()| ==>
              MapSentence(m, old(TokenLists(c.Sentences()))[k]) == Ok(c.Sentences()[k].tokens)
    ensures r.Err? ==> r.error.KeyError? && r.error.key !in m
  {
    ghost var x := TokenLists(c.Sentences());
    r := UpdateSentences(c, ts => MapSentence(m, ts));
    if r.Err? {
      ghost var k :| 0 <= k < |x| && MapSentence(m, x[k]) == Err(r.error);
      MapLabelsEffect(x[k], m);
    }
  }

  /** The table used by the KPWr converters, from KPWr's `*_nam` channels to
      the OntoNotes-style labels spaCy uses. */
  const NerLabelMap: map<string, string> := map[
    "person_nam" := "PERSON", "institution_nam" := "ORG", "city_nam" := "GPE",
    "document_nam" := "WORK_OF_ART",
    "event_nam" := "EVENT", "organization_nam" := "ORG", "country_nam" := "GPE",
    "title_nam" := "WORK_OF_ART", "band_nam" := "ORG", "periodic_nam" := "PRODUCT",
    "company_nam" := "ORG", "facility_nam" := "ORG", "brand_nam" := "ORG",
    "political_party_nam" := "NORP", "road_nam" := "FAC", "admin1_nam" := "GPE",
    "person_add_nam" := "PERSON", "software_nam" := "PRODUCT", "nation_nam" := "GPE",
    "tech_nam" := "PRODUCT", "nam" := "PERSON", "treaty_nam" := "LAW",
    "web_nam" := "PRODUCT", "admin2_nam" := "GPE", "award_nam" := "EVENT",
    "continent_nam" := "LOC", "astronomical_nam" := "LOC", "media_nam" := "ORG",
    "river_nam" := "LOC", "currency_nam" := "MONEY", "toponym_nam" := "LOC",
    "mountain_nam" := "LOC", "historical_region_nam" := "LOC", "district_nam" := "LOC",
    "country_region_nam" := "GPE", "subdivision_nam" := "ORG", "admin3_nam" := "GPE",
    "region_nam" := "LOC", "square_nam" := "LOC", "park_nam" := "LOC",
    "island_nam" := "LOC", "system_nam" := "PRODUCT", "www_nam" := "PRODUCT",
    "person_group_nam" := "NORP", "license_nam" := "LAW", "lake_nam" := "LOC",
    "animal_nam" := "MISC", "sea_nam" := "LOC", "person_adj_nam" := "PERSON",
    "bay_nam" := "LOC", "peninsula_nam" := "LOC", "conurbation_nam" := "LOC",
    "vehicle_nam" := "PRODUCT", "organization_sub_nam" := "ORG", "ocean_nam" := "LOC",
    "cape_nam" := "LOC", "person_last_nam" := "PERSON", "person_first_nam" := "PERSON"]

  /** The table is many-to-one and the renaming does not check for clashes: a
      token annotated on both the first-name and the last-name channel ends up
      with two `PERSON` dicts. */
  lemma ManyToOne()
    ensures MapAttribs(NerLabelMap, [[Pair("person_first_nam", "1"), Pair("person_last_nam", "2")]])
         == Ok([[Pair("PERSON", "1")], [Pair("PERSON", "2")]])
  {
    var attribs := [[Pair("person_first_nam", "1"), Pair("person_last_nam", "2")]];
    var ps := [Pair("person_first_nam", "1"), Pair("person_last_nam", "2")];
    assert Pairs(attribs) == ps by {
      assert Pairs(attribs[1..]) == [];
    }
    assert NerLabelMap["person_first_nam"] == "PERSON";
    assert "person_last_nam" != "person_first_nam";
    assert NerLabelMap["person_last_nam"] == "PERSON";
    MapAllPointwise(Renamer(NerLabelMap), ps, [[Pair("PERSON", "1")], [Pair("PERSON", "2")]]);
  }
}
