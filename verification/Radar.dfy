/** The gap classification of the season radar (app/follow/enhanced_radar_service.py). */
module Radar {
  import opened PyText
  import opened Gathering

  function Elements(s: seq<int>): set<int> {
    set x | x in s
  }

  /** `max(aired) if aired else 0`. */
  function MaxAired(aired: seq<int>): (m: int)
    ensures aired == [] ==> m == 0
    ensures aired != [] ==> m in aired
    ensures forall x | x in aired :: x <= m
  {
    if aired == [] then 0 else
      var front, last := aired[..|aired| - 1], aired[|aired| - 1];
      assert aired == front + [last];
      if front == [] || MaxAired(front) < last then last else MaxAired(front)
  }

  /** The numbers from lo to hi, ascending. */
  ghost predicate IsRun(run: seq<int>, lo: int, hi: int) {
    |run| == (if lo <= hi then hi - lo + 1 else 0) && forall i | 0 <= i < |run| :: run[i] == lo + i
  }

  /** Where the missing run ending at `top` starts: the lowest episode from 1 on with everything up to `top` missing. */
  ghost predicate RunStart(missing: set<int>, top: int, lo: int) {
    && (forall e | lo <= e <= top :: e in missing)
    && (lo == top + 1 || (1 <= lo <= top))
    && (lo <= 1 || lo - 1 !in missing || top < 1)
  }

  datatype Breakdown = Breakdown(trailing: seq<int>, mid: set<int>, early: seq<int>)

  /** The tiers, described by what they contain: the maximal missing run lo..top that ends at the newest aired episode,
      the maximal missing run 1..hi outside it, and everything else. */
  ghost predicate Tiers(missing: set<int>, top: int, lo: int, hi: nat, b: Breakdown) {
    && RunStart(missing, top, lo) && IsRun(b.trailing, lo, top)
    && IsRun(b.early, 1, hi) && (hi == 0 || (hi < lo && hi <= top)) && (forall e | 1 <= e <= hi :: e in missing)
    && (hi + 1 > top || hi + 1 !in missing || hi + 1 >= lo)
    && b.mid == missing - Elements(b.trailing) - Elements(b.early)
  }

  ghost predicate Classified(missing: set<int>, aired: seq<int>, b: Breakdown) {
    exists lo: int, hi: nat :: Tiers(missing, MaxAired(aired), lo, hi, b)
  }

  method ClassifyMissing(missing: set<int>, aired: seq<int>) returns (b: Breakdown)
    ensures missing == {} ==> b == Breakdown([], {}, [])
    ensures missing != {} ==> Classified(missing, aired, b)
  {
    if missing == {} {
      return Breakdown([], {}, []);
    }
    var top := MaxAired(aired);
    var trailing: seq<int> := [];  // filled downwards, kept ascending
    var ep := top;
    while ep >= 1 && ep in missing
      invariant ep <= top && (top >= 1 ==> ep >= 0) && (top < 1 ==> ep == top)
      invariant IsRun(trailing, ep + 1, top)
      invariant forall e | ep + 1 <= e <= top :: e in missing
    {
      trailing := [ep] + trailing;
      ep := ep - 1;
    }
    ghost var lo := ep + 1;
    RunElements(trailing, lo, top);
    assert forall e :: e in trailing <==> e in Elements(trailing);
    var early: seq<int> := [];
    ep := 1;
    while ep <= top && ep in missing && ep !in trailing
      invariant 1 <= ep && IsRun(early, 1, ep - 1)
      invariant ep == 1 || (ep - 1 < lo && ep - 1 <= top)
      invariant forall e | 1 <= e < ep :: e in missing
      decreases top - ep
    {
      early := early + [ep];
      ep := ep + 1;
    }
    b := Breakdown(trailing, missing - Elements(trailing) - Elements(early), early);
    assert Tiers(missing, top, lo, ep - 1, b);
  }

  // ---------- what the tiers promise ----------

  /** The tiers part the missing episodes. */
  lemma TiersPart(missing: set<int>, aired: seq<int>, b: Breakdown)
    requires Classified(missing, aired, b)
    ensures Elements(b.trailing) + b.mid + Elements(b.early) == missing
    ensures Elements(b.trailing) !! b.mid && b.mid !! Elements(b.early) && Elements(b.trailing) !! Elements(b.early)
  {
    var top := MaxAired(aired);
    var lo, hi: nat :| Tiers(missing, top, lo, hi, b);
    RunElements(b.trailing, lo, top);
    RunElements(b.early, 1, hi);
  }

  lemma RunElements(run: seq<int>, lo: int, hi: int)
    requires IsRun(run, lo, hi)
    ensures forall e :: e in Elements(run) <==> lo <= e <= hi
    ensures run == [] <==> lo > hi
  {
    forall e
      ensures e in run <==> lo <= e <= hi
    {
      if lo <= e <= hi {
        assert run[e - lo] == e;
      }
    }
  }

  /** Every early episode below every mid one below every trailing one. */
  ghost predicate Ordered(b: Breakdown) {
    && (forall e, m | e in Elements(b.early) && m in b.mid :: e < m)
    && (forall m, t | m in b.mid && t in Elements(b.trailing) :: m < t)
    && (forall e, t | e in Elements(b.early) && t in Elements(b.trailing) :: e < t)
  }

  /** The two inputs that spoil the order: a missing number below 1 beside a run from episode 1 that stops short of the
      newest episode, and a missing number above the newest aired one while that one is missing too. */
  ghost predicate Spoiled(missing: set<int>, top: int) {
    || (1 in missing && (exists e :: e in missing && e < 1) && exists g :: 1 <= g <= top && g !in missing)
    || (top >= 1 && top in missing && exists e :: e in missing && e > top)
  }

  /** The order holds for exactly the inputs that are not spoiled. */
  lemma OrderedIff(missing: set<int>, aired: seq<int>, b: Breakdown)
    requires Classified(missing, aired, b)
    ensures Ordered(b) <==> !Spoiled(missing, MaxAired(aired))
  {
    var top := MaxAired(aired);
    var lo, hi: nat :| Tiers(missing, top, lo, hi, b);
    RunElements(b.trailing, lo, top);
    RunElements(b.early, 1, hi);
    if 1 in missing && (exists e :: e in missing && e < 1) && exists g :: 1 <= g <= top && g !in missing {
      var e :| e in missing && e < 1;
      var g :| 1 <= g <= top && g !in missing;
      assert lo > 1;
      assert 1 in Elements(b.early) && e in b.mid;
    }
    if top >= 1 && top in missing && exists e :: e in missing && e > top {
      var e :| e in missing && e > top;
      assert top in Elements(b.trailing) && e in b.mid;
    }
    if !Spoiled(missing, top) {
      forall e, m | e in Elements(b.early) && m in b.mid
        ensures e < m
      {
        assert 1 in missing;
        assert lo > 1;
        assert lo - 1 !in missing;
      }
    }
  }

  /** In particular: missing episodes among the aired ones, numbered from 1, are always ordered. */
  lemma RegularIsOrdered(missing: set<int>, aired: seq<int>, b: Breakdown)
    requires Classified(missing, aired, b)
    requires forall e | e in missing :: e >= 1 && e in aired
    ensures Ordered(b)
  {
    OrderedIff(missing, aired, b);
  }

  // ---------- one season of build_enhanced ----------

  /** An episode as TMDB lists it; a date that is missing or unreadable is None. */
  datatype EpisodeInfo = EpisodeInfo(number: Option<int>, airDate: Option<int>)

  function Numbers(total: int): seq<int> {
    if total < 1 then [] else Numbers(total - 1) + [total]
  }

  function IfAired(today: int): EpisodeInfo -> Option<int> {
    (ep: EpisodeInfo) => if ep.number.Some? && ep.airDate.Some? && ep.airDate.value <= today then ep.number else None
  }

  /** What counts as aired; without a listing, every episode up to the total does. */
  function AiredEpisodes(episodes: seq<EpisodeInfo>, today: int, total: int): seq<int> {
    if episodes == [] then Numbers(total) else Gather(episodes, IfAired(today))
  }

  function IfAiringToday(today: int): EpisodeInfo -> Option<int> {
    (ep: EpisodeInfo) => if ep.number.Some? && ep.airDate == Some(today) then ep.number else None
  }

  /** The episode has aired: some entry says so, or nothing is listed and it is within the total. */
  predicate HasAired(episodes: seq<EpisodeInfo>, today: int, total: int, e: int) {
    if episodes == [] then 1 <= e <= total
    else exists i :: 0 <= i < |episodes| && episodes[i].number == Some(e) && episodes[i].airDate.Some? &&
                     episodes[i].airDate.value <= today
  }

  lemma {:induction false} NumbersUpTo(total: int, e: int)
    ensures e in Numbers(total) <==> 1 <= e <= total
    decreases if total < 1 then 0 else total
  {
    if total >= 1 {
      NumbersUpTo(total - 1, e);
    }
  }

  lemma AiredIff(episodes: seq<EpisodeInfo>, today: int, total: int, e: int)
    ensures e in AiredEpisodes(episodes, today, total) <==> HasAired(episodes, today, total, e)
  {
    NumbersUpTo(total, e);
    GatherIn(episodes, IfAired(today), e);
  }

  /** An episode airs today where its entry has today's date. */
  lemma AiringIff(episodes: seq<EpisodeInfo>, today: int, e: int)
    ensures e in Gather(episodes, IfAiringToday(today)) <==> EpisodeInfo(Some(e), Some(today)) in episodes
  {
    GatherIn(episodes, IfAiringToday(today), e);
  }

  method PartitionAired(episodes: seq<EpisodeInfo>, today: int, total: int)
      returns (aired: seq<int>, airingToday: seq<int>)
    ensures aired == AiredEpisodes(episodes, today, total)
    ensures airingToday == Gather(episodes, IfAiringToday(today))
    ensures forall e | e in airingToday :: e in aired
  {
    if episodes == [] {
      return Numbers(total), [];
    }
    aired, airingToday := [], [];
    for i := 0 to |episodes|
      invariant aired == Gather(episodes[..i], IfAired(today))
      invariant airingToday == Gather(episodes[..i], IfAiringToday(today))
      invariant forall e | e in airingToday :: e in aired
    {
      var ep := episodes[i];
      GatherStep(episodes, i, IfAired(today));
      GatherStep(episodes, i, IfAiringToday(today));
      assert aired + [] == aired && airingToday + [] == airingToday;
      if ep.number.None? || ep.airDate.None? {
        continue;
      }
      if ep.airDate.value <= today {
        aired := aired + [ep.number.value];
      }
      if ep.airDate.value == today {
        airingToday := airingToday + [ep.number.value];
      }
    }
    assert episodes[..|episodes|] == episodes;
  }

  /** `set(aired) - set(lib_eps) - set(ignored_eps)`; episode 0 ignores the whole season. */
  function Missing(aired: seq<int>, library: seq<int>, ignored: set<int>): set<int> {
    if 0 in ignored then {} else Elements(aired) - Elements(library) - ignored
  }

  predicate Reported(b: Breakdown, e: int) {
    e in b.trailing || e in b.mid || e in b.early
  }

  /** One season: an episode appears in the report, in exactly one tier, if and only if it has aired, is not in the
      library and is not ignored. */
  method ScanSeason(episodes: seq<EpisodeInfo>, today: int, total: int, library: seq<int>, ignored: set<int>)
      returns (b: Breakdown)
    ensures var aired := AiredEpisodes(episodes, today, total);
            && (forall e :: Reported(b, e) <==>
                            HasAired(episodes, today, total, e) && e !in library && e !in ignored && 0 !in ignored)
            && Elements(b.trailing) !! b.mid && b.mid !! Elements(b.early) && Elements(b.trailing) !! Elements(b.early)
            && (Ordered(b) <==> !Spoiled(Missing(aired, library, ignored), MaxAired(aired)))
  {
    var aired, airingToday := PartitionAired(episodes, today, total);
    var missing := Missing(aired, library, ignored);
    b := ClassifyMissing(missing, aired);
    if missing != {} {
      TiersPart(missing, aired, b);
      OrderedIff(missing, aired, b);
    }
    assert Elements(b.trailing) + b.mid + Elements(b.early) == missing;
    forall e
      ensures Reported(b, e) <==> e in missing
      ensures e in aired <==> HasAired(episodes, today, total, e)
    {
      AiredIff(episodes, today, total, e);
      assert e in missing <==> e in Elements(b.trailing) + b.mid + Elements(b.early);
    }
  }

  /** A season is spoiled only by an aired episode numbered below 1. */
  lemma SpoiledByNumber(aired: seq<int>, library: seq<int>, ignored: set<int>)
    requires Spoiled(Missing(aired, library, ignored), MaxAired(aired))
    ensures exists e :: e in aired && e < 1
  {
    var missing := Missing(aired, library, ignored);
    assert forall e | e in missing :: e in aired;
  }

  /** The specials listed as episode 0 show it: whatever the classification makes of it, 0 is in the middle, behind the
      early gap 1. */
  lemma EpisodeZeroSpoils(b: Breakdown)
    requires Classified(Missing([0, 1, 2, 3], [2], {}), [0, 1, 2, 3], b)
    ensures b == Breakdown([3], {0}, [1]) && !Ordered(b)
  {
    var aired := [0, 1, 2, 3];
    assert Elements(aired) == {0, 1, 2, 3} by {
      assert aired[0] == 0 && aired[1] == 1 && aired[2] == 2 && aired[3] == 3;
    }
    assert Elements([2]) == {2};
    assert Missing(aired, [2], {}) == {0, 1, 3};
    assert MaxAired(aired) == 3;
    ZeroInTheMiddle({0, 1, 3}, b);
  }

  lemma ZeroInTheMiddle(missing: set<int>, b: Breakdown)
    requires missing == {0, 1, 3}
    requires exists lo: int, hi: nat :: Tiers(missing, 3, lo, hi, b)
    ensures b == Breakdown([3], {0}, [1]) && !Ordered(b)
  {
    var lo: int, hi: nat :| Tiers(missing, 3, lo, hi, b);
    RunElements(b.trailing, lo, 3);
    RunElements(b.early, 1, hi);
    assert 2 !in missing;
    assert lo == 3 && hi == 1;
    assert b.trailing == [3] && b.early == [1];
    assert Elements([3]) == {3} && Elements([1]) == {1};
    assert missing - {3} - {1} == {0};
    assert 1 in Elements(b.early) && 0 in b.mid;
  }
}
