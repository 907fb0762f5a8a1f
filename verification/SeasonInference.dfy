/** Season inference from structured evidence (app/season_inference.py). */
module SeasonInference {
  import opened PyText
  import opened EpisodeKeys

  // ---------- parse_episode_key ----------

  /** `^S0*([1-9]\d*)E0*([1-9]\d*)$`, letters in either case, on the stripped text: digits on both sides, neither
      of them zero, of any length. */
  function ParseEpisodeKey(text: string): Option<(nat, nat)> {
    var t := Upper(Strip(text));
    if t == "" || t[0] != 'S' then None else
      var i := IndexOfE(t[1..]);
      if i == |t| - 1 || !AllDigits(t[1..][..i]) || !AllDigits(t[1..][i + 1..]) then None else
        var season, episode := Value(t[1..][..i]), Value(t[1..][i + 1..]);
        if season >= 1 && episode >= 1 then Some((season, episode)) else None
  }

  /** Every written key is read back, without the three-digit limit of the canonical reader. */
  lemma StrictReadsWritten(season: nat, episode: nat)
    ensures ParseEpisodeKey(FormatKey(season, episode)) ==
            if season >= 1 && episode >= 1 then Some((season, episode)) else None
  {
    FormatPlain(season, episode);
    SplitFormatted(season, episode);
    ValueOfPad2(season);
    ValueOfPad2(episode);
  }

  // ---------- infer_season ----------

  datatype Sources = Sources(resource: seq<Field>, payload: seq<Field>, watchlist: seq<Field>, candidate: seq<Field>)

  /** `_normalized`: the positive numbers among the values. */
  function PositiveNumbers(values: seq<Field>): set<int> {
    set i | 0 <= i < |values| && values[i].Number? && values[i].n > 0 :: values[i].n
  }

  method Normalized(values: seq<Field>) returns (normalized: set<int>)
    ensures normalized == PositiveNumbers(values)
  {
    normalized := {};
    for i := 0 to |values|
      invariant normalized == PositiveNumbers(values[..i])
    {
      if values[i].Number? && values[i].n > 0 {
        normalized := normalized + {values[i].n};
      }
    }
    assert values[..|values|] == values;
  }

  /** The source names exactly one season, and another one. */
  predicate Contradicts(values: seq<Field>, season: int) {
    exists i :: 0 <= i < |values| && IsOnly(values, i) && values[i].n != season
  }

  /** Position i holds the only positive number. */
  predicate IsOnly(values: seq<Field>, i: nat)
    requires i < |values|
  {
    && values[i].Number? && values[i].n > 0
    && forall j | 0 <= j < |values| && values[j].Number? && values[j].n > 0 :: values[j].n == values[i].n
  }

  /** SAFE_INFER with its season, or None for NEEDS_REVIEW. */
  function Infer(key: string, sources: Sources): (season: Option<int>)
    ensures season.Some? ==> season.value >= 1
  {
    var parsed := ParseEpisodeKey(key);
    if parsed.None? || Contradicts(sources.resource, parsed.value.0) || Contradicts(sources.payload, parsed.value.0)
       || Contradicts(sources.watchlist, parsed.value.0) || Contradicts(sources.candidate, parsed.value.0)
    then None
    else Some(parsed.value.0)
  }

  lemma OnlyIsSingleton(values: seq<Field>, season: int)
    ensures Contradicts(values, season) <==> |PositiveNumbers(values)| == 1 && season !in PositiveNumbers(values)
  {
    var numbers := PositiveNumbers(values);
    if Contradicts(values, season) {
      var i :| 0 <= i < |values| && IsOnly(values, i) && values[i].n != season;
      assert numbers == {values[i].n};
    }
    if |numbers| == 1 && season !in numbers {
      var n := Sole(numbers);
      var i :| 0 <= i < |values| && values[i].Number? && values[i].n > 0 && values[i].n == n;
      forall j | 0 <= j < |values| && values[j].Number? && values[j].n > 0
        ensures values[j].n == values[i].n
      {
        assert values[j].n in numbers;
      }
      assert IsOnly(values, i);
    }
  }

  lemma NoMember(s: set<int>)
    ensures (forall x :: x !in s) ==> s == {}
  {
    if forall x :: x !in s {
      assert s == {};
    }
  }

  lemma Sole(s: set<int>) returns (x: int)
    requires |s| == 1
    ensures s == {x}
  {
    if y :| y in s {
      x := y;
      assert |s - {y}| == 0;
    } else {
      NoMember(s);
      assert false;
    }
  }

  /** One label of the evidence loop: the season it supplies, if it names exactly one. */
  method Supply(supplied: set<int>, values: seq<Field>, ghost season: int) returns (more: set<int>)
    requires season in supplied
    ensures season in more
    ensures more == {season} <==> supplied == {season} && !Contradicts(values, season)
  {
    var normalized := Normalized(values);
    OnlyIsSingleton(values, season);
    more := supplied;
    if |normalized| == 1 {
      more := supplied + normalized;
      ghost var n := Sole(normalized);
      assert n in more;
    }
  }

  /** `infer_season`: the loop over the four labels. */
  method InferSeason(key: string, sources: Sources) returns (season: Option<int>)
    ensures season == Infer(key, sources)
  {
    var parsed := ParseEpisodeKey(key);
    if parsed.None? {
      return None;
    }
    var n := parsed.value.0;
    var supplied := {n};
    supplied := Supply(supplied, sources.resource, n);
    supplied := Supply(supplied, sources.payload, n);
    supplied := Supply(supplied, sources.watchlist, n);
    supplied := Supply(supplied, sources.candidate, n);
    if |supplied| == 1 {
      ghost var m := Sole(supplied);
      assert n in {m};
    }
    season := if |supplied| == 1 then Some(n) else None;
  }
}
