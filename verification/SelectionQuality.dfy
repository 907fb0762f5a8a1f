/** Which of several files of one episode is taken, in every mode that chooses (app/transfer/file_selection.py). */
module SelectionQuality {
  import opened PyText
  import opened Ranking
  import opened EpisodeKeys
  import opened EpisodeMatcher
  import opened FileSelection

  /** f is no worse than g: resolution first, among equals the source, then dynamic range, codec and size; names and ids
      only break ties. */
  ghost predicate NoWorse(f: RemoteFile, g: RemoteFile) {
    && f.name.resolution >= g.name.resolution
    && (f.name.resolution == g.name.resolution ==>
          && f.name.source >= g.name.source
          && (f.name.source == g.name.source ==>
                && f.name.hdr >= g.name.hdr
                && (f.name.hdr == g.name.hdr ==>
                      && f.name.codec >= g.name.codec
                      && (f.name.codec == g.name.codec ==>
                            f.size >= g.size && (f.size == g.size ==> LaterText(f, g))))))
  }

  /** The later folded name, and under equal names the later id. */
  predicate LaterText(f: RemoteFile, g: RemoteFile) {
    if f.name.folded == g.name.folded then f.id == g.id || TextLess(g.id, f.id)
    else TextLess(g.name.folded, f.name.folded)
  }

  lemma BetterIsNoWorse(f: RemoteFile, g: RemoteFile)
    requires f == g || Better(f, g)
    ensures NoWorse(f, g)
  {
  }

  /** No other file of the list that meets the condition is better. */
  ghost predicate Top(u: seq<RemoteFile>, eligible: RemoteFile -> bool, f: RemoteFile) {
    f in u && eligible(f) && forall g | g in u && eligible(g) :: NoWorse(f, g)
  }

  lemma BestIsTop<K>(u: seq<RemoteFile>, keyOf: RemoteFile -> Option<K>, k: K, eligible: RemoteFile -> bool,
                     f: RemoteFile)
    requires IsBest(u, keyOf, Better, k, f)
    requires forall g | g in u :: eligible(g) <==> keyOf(g) == Some(k)
    ensures Top(u, eligible, f)
  {
    forall g | g in u && eligible(g)
      ensures NoWorse(f, g)
    {
      BetterIsNoWorse(f, g);
    }
  }

  /** The first token of the name is the target, or the first short form is, under the season of the request. */
  predicate Hits(target: Token, season: Option<int>, name: FileName) {
    && name.isVideo && !name.isCollection && !name.isSpecial
    && if name.full != [] then name.full[0] == target
       else name.short != [] && season == Some(target.season as int) && name.short[0] == target.episode
  }

  lemma HitsIsMatch(target: Token, season: Option<int>, name: FileName)
    ensures Hits(target, season, name) <==> Matches(Key(target.season, target.episode), season, name)
  {
  }

  /** SINGLE_EPISODE takes a top file among those that hit the target, or none if none does. */
  lemma SingleIsTop(u: seq<RemoteFile>, target: Token, q: Request)
    requires DistinctFiles(u)
    ensures var s := SelectSingle(u, Some(target), q);
            if exists f :: f in u && Hits(target, q.season, f.name) then
              |s.selected| == 1 && Top(u, (f: RemoteFile) => Hits(target, q.season, f.name), s.selected[0])
            else s.choice == EpisodeMismatch && s.selected == []
  {
    SingleIsBest(u, target, q);
    forall f | f in u
      ensures Hits(target, q.season, f.name) <==> Matches(Key(target.season, target.episode), q.season, f.name)
    {
      HitsIsMatch(target, q.season, f.name);
    }
    var s := SelectSingle(u, Some(target), q);
    if s.choice != EpisodeMismatch {
      BestIsTop(u, MatchRuleUnit(target, q.season), (), (f: RemoteFile) => Hits(target, q.season, f.name),
                s.selected[0]);
    } else {
      MatchedNone(u, target, q);
    }
  }

  lemma MatchedNone(u: seq<RemoteFile>, target: Token, q: Request)
    requires SelectSingle(u, Some(target), q).choice == EpisodeMismatch
    ensures SelectSingle(u, Some(target), q).selected == []
  {
  }

  /** MISSING_EPISODES takes, for every requested episode, a top file among those that show just this episode. */
  lemma MissingAreTop(u: seq<RemoteFile>, target: Option<Token>, q: Request, i: nat)
    requires DistinctFiles(u) && SelectMissing(u, target, q).choice == MissingChosen
    ensures var s := SelectMissing(u, target, q);
            && |s.selected| == |s.requestedKeys|
            && (i < |s.selected| ==>
                  Top(u, (f: RemoteFile) => FileKeys(f.name, q.season) == {s.requestedKeys[i]}, s.selected[i]))
  {
    var s := SelectMissing(u, target, q);
    MissingIsOneToOne(u, target, q);
    if i < |s.selected| {
      var k := s.requestedKeys[i];
      forall f | f in u
        ensures FileKeys(f.name, q.season) == {k} <==> EpisodeRule(q.season)(f) == Some(k)
      {
        SoleKeyIsSingleton(f.name, q.season);
      }
      BestIsTop(u, EpisodeRule(q.season), k, (f: RemoteFile) => FileKeys(f.name, q.season) == {k}, s.selected[i]);
    }
  }

  /** The file shows just this episode, has an id, and its key is sliced to the season of the request, if there is
      one. */
  predicate Counts(f: RemoteFile, season: Option<int>, k: Key) {
    k.season >= 0 && f.id != "" && FileKeys(f.name, season) == {k} &&
    (season == None || season == Some(k.Slice() as int))
  }

  /** WHOLE_SHARE maps exactly the episodes some counting file shows, each to the id of a top one. */
  lemma WholeAreTop(u: seq<RemoteFile>, target: Option<Token>, q: Request, k: Key)
    requires DistinctFiles(u)
    ensures var m := SelectWhole(u, target, q).fileMap;
            && (k in m <==> exists f :: f in u && Counts(f, q.season, k))
            && (k in m ==> exists f :: Top(u, (f: RemoteFile) => Counts(f, q.season, k), f) && f.id == m[k])
  {
    WholeMapIsBest(u, target, q, k);
    forall f | f in u
      ensures Counts(f, q.season, k) <==> WholeRule(q.season)(f) == Some(k)
    {
      SoleKeyIsSingleton(f.name, q.season);
    }
    var best := BestPerKey(u, WholeRule(q.season), Better);
    if k in best {
      BestIsTop(u, WholeRule(q.season), k, (f: RemoteFile) => Counts(f, q.season, k), best[k]);
    }
  }
}
