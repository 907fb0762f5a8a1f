/** The selection does not depend on the order in which the provider lists the files, nor on repeated pages. */
module SelectionOrder {
  import opened PyText
  import opened Sorting
  import opened Gathering
  import opened Ranking
  import opened EpisodeKeys
  import opened EpisodeMatcher
  import opened FileSelection

  ghost predicate SameRecords(a: seq<RemoteFile>, b: seq<RemoteFile>) {
    forall f :: f in a <==> f in b
  }

  /** Equal in everything that is transferred or recorded; where the whole share or a collection is taken, the files
      are the same up to their order. */
  ghost predicate SameOutcome(x: Outcome, y: Outcome) {
    match (x, y)
    case (Refused(r), Refused(r1)) => r == r1
    case (Chosen(s), Chosen(s1)) => SameSelection(s, s1)
    case _ => false
  }

  ghost predicate SameSelection(s: Selection, s1: Selection) {
    && s.mode == s1.mode && s.choice == s1.choice
    && s.requestedKeys == s1.requestedKeys && s.selectedKeys == s1.selectedKeys && s.fileMap == s1.fileMap
    && SameRecords(s.selected, s1.selected)
    && (s.mode == SingleEpisode || s.mode == MissingEpisodes ==> s.selected == s1.selected)
  }

  lemma {:induction false} DistinctCount(s: seq<RemoteFile>)
    requires Distinct(s)
    ensures |set f | f in s| == |s|
  {
    if s == [] {
      assert (set f | f in s) == {};
    } else {
      var front, last := s[..|s| - 1], s[|s| - 1];
      DistinctCount(front);
      assert (set f | f in s) == (set f | f in front) + {last};
    }
  }

  lemma SameCount(a: seq<RemoteFile>, b: seq<RemoteFile>)
    requires Distinct(a) && Distinct(b) && SameRecords(a, b)
    ensures |a| == |b|
  {
    DistinctCount(a);
    DistinctCount(b);
    assert (set f | f in a) == (set f | f in b);
  }

  lemma {:induction false} MatchedDistinct(u: seq<RemoteFile>, target: Token, season: Option<int>)
    requires Distinct(u)
    ensures Distinct(Matched(u, Some(target), season))
  {
    if u != [] {
      var front := u[..|u| - 1];
      MatchedDistinct(front, target, season);
      MatchedIn(front, target, season, u[|u| - 1]);
    }
  }

  lemma SameMatched(u: seq<RemoteFile>, v: seq<RemoteFile>, target: Token, season: Option<int>)
    requires SameRecords(u, v)
    ensures SameRecords(Matched(u, Some(target), season), Matched(v, Some(target), season))
  {
    forall f
      ensures f in Matched(u, Some(target), season) <==> f in Matched(v, Some(target), season)
    {
      GatherSame(u, v, MatchRule(target, season), f);
    }
  }

  /** The two deduplicated listings: the same distinct files, in possibly different order. */
  ghost predicate Twins(u: seq<RemoteFile>, v: seq<RemoteFile>) {
    SameRecords(u, v) && DistinctFiles(u) && DistinctFiles(v)
  }

  lemma SamePreferred(a: seq<RemoteFile>, b: seq<RemoteFile>, u: seq<RemoteFile>)
    requires a != [] && SameRecords(a, b) && DistinctFiles(u) && forall f | f in a :: f in u
    ensures b != [] && Preferred(a) == Preferred(b)
  {
    assert a[0] in b;
    RanksDistinctFiles(u);
    assert Ranks(a, Better);
    BestPerKeyOrderInsensitive(a, b, AnyRule(), Better);
  }

  lemma SameSingle(u: seq<RemoteFile>, v: seq<RemoteFile>, target: Option<Token>, q: Request)
    requires Twins(u, v)
    ensures SameSelection(SelectSingle(u, target, q), SelectSingle(v, target, q))
  {
    if target.Some? {
      var a, b := Matched(u, target, q.season), Matched(v, target, q.season);
      SameMatched(u, v, target.value, q.season);
      assert Distinct(u) && Distinct(v);
      MatchedDistinct(u, target.value, q.season);
      MatchedDistinct(v, target.value, q.season);
      SameCount(a, b);
      if a != [] {
        forall f | f in a
          ensures f in u
        {
          MatchedIn(u, target.value, q.season, f);
        }
        SamePreferred(a, b, u);
        assert a[0] in b;
      }
    }
  }

  lemma SameMap(u: seq<RemoteFile>, v: seq<RemoteFile>, season: Option<int>)
    requires Twins(u, v)
    ensures EpisodeMap(u, season) == EpisodeMap(v, season)
    ensures BestPerKey(u, WholeRule(season), Better) == BestPerKey(v, WholeRule(season), Better)
  {
    RanksDistinctFiles(u);
    BestPerKeyOrderInsensitive(u, v, EpisodeRule(season), Better);
    BestPerKeyOrderInsensitive(u, v, WholeRule(season), Better);
  }

  lemma SameDecision(s: Selection, s1: Selection, m: map<Key, RemoteFile>)
    requires SameSelection(s, s1) && s.selected == s1.selected
    ensures SameSelection(DecideMissing(s, m), DecideMissing(s1, m))
  {
  }

  lemma SameMissing(u: seq<RemoteFile>, v: seq<RemoteFile>, target: Option<Token>, q: Request)
    requires Twins(u, v)
    ensures SameSelection(SelectMissing(u, target, q), SelectMissing(v, target, q))
  {
    SameMap(u, v, q.season);
    var s, s1 := MissingStart(u, target, q), MissingStart(v, target, q);
    var m := EpisodeMap(u, q.season);
    if m.Some? {
      SameDecision(s, s1, m.value);
    }
  }

  lemma SameCollection(u: seq<RemoteFile>, v: seq<RemoteFile>, target: Option<Token>, q: Request)
    requires Twins(u, v)
    ensures SameSelection(SelectCollection(u, target, q), SelectCollection(v, target, q))
  {
    var ids := Cleaned(q.selectedIds);
    var names :=
      if ids == [] && Cleaned(q.selectedNames) == [] then Cleaned(q.wantedNames) else Cleaned(q.selectedNames);
    var rule := WantedRule(ids, names);
    forall f
      ensures f in Gather(u, rule) <==> f in Gather(v, rule)
    {
      GatherSame(u, v, rule, f);
    }
    forall id | id in ids
      ensures id in Ids(Gather(u, rule)) <==> id in Ids(Gather(v, rule))
    {
      GatherSame(Gather(u, rule), Gather(v, rule), IdOf, id);
    }
  }

  lemma SameSelectIn(mode: SelectionMode, u: seq<RemoteFile>, v: seq<RemoteFile>, target: Option<Token>, q: Request)
    requires Twins(u, v)
    ensures SameSelection(SelectIn(mode, u, target, q), SelectIn(mode, v, target, q))
  {
    match mode
    case SingleEpisode => SameSingle(u, v, target, q);
    case MissingEpisodes => SameMissing(u, v, target, q);
    case WholeShare => SameMap(u, v, q.season);
    case Collection => SameCollection(u, v, target, q);
  }

  lemma SameDedup(a: seq<RemoteFile>, b: seq<RemoteFile>)
    requires SameRecords(a, b) && SizesAgree(a)
    ensures Dedup(a).None? <==> Dedup(b).None?
    ensures Dedup(a).Some? ==> Twins(Dedup(a).value, Dedup(b).value)
  {
    RefusedIffClash(a);
    RefusedIffClash(b);
    if Dedup(a).Some? {
      DedupRepresents(a);
      DedupRepresents(b);
      DedupIsSet(a);
      DedupIsSet(b);
    }
  }

  /** Whatever sizes are reported: listings for which deduplication keeps the same records lead to the same outcome. */
  lemma SelectByKept(a: seq<RemoteFile>, b: seq<RemoteFile>, q: Request)
    requires Dedup(a).None? <==> Dedup(b).None?
    requires Dedup(a).Some? ==> SameRecords(Dedup(a).value, Dedup(b).value)
    ensures SameOutcome(Select(a, q), Select(b, q))
  {
    if Select(a, q).Chosen? {
      DedupRepresents(a);
      DedupRepresents(b);
      SameSelectIn(ResolveMode(q).value, Dedup(a).value, Dedup(b).value,
                   if TargetText(q) == "" then None else TargetParts(TargetText(q)), q);
    }
  }

  /** Any two listings of the same records, in any order and with any repetitions, lead to the same outcome. */
  lemma SelectOrderInsensitive(a: seq<RemoteFile>, b: seq<RemoteFile>, q: Request)
    requires SameRecords(a, b) && SizesAgree(a)
    ensures SameOutcome(Select(a, q), Select(b, q))
  {
    SameDedup(a, b);
    SelectByKept(a, b, q);
  }

  // ---------- without agreeing sizes the order does matter ----------

  function ClipFile(text: string, id: string, size: nat): RemoteFile {
    RemoteFile(FileName(text, text, true, false, false, false, [Token(1, 1)], [], 0, 0, 0, 0, None), id, size)
  }

  const WHOLE := Request(Mode(WholeShare), "", [], None, [], [], [])

  lemma ClipKey(text: string, id: string, size: nat)
    requires id != ""
    ensures WholeRule(None)(ClipFile(text, id, size)) == Some(Key(1, 1))
  {
    var token := Token(1, 1);
    assert TokenKey(token) == Some(Key(1, 1));
    assert Gather([token][..0], TokenKey) == [];
    assert FullKeys([token]) == [Key(1, 1)];
  }

  lemma DedupNew(files: seq<RemoteFile>, u: seq<RemoteFile>, f: RemoteFile)
    requires Dedup(files) == Some(u) && IsVideoFile(f) && forall g | g in u :: DedupKeyOf(g) != DedupKeyOf(f)
    ensures Dedup(files + [f]) == Some(u + [f])
  {
    assert (files + [f])[..|files|] == files;
  }

  lemma DedupRepeat(files: seq<RemoteFile>, u: seq<RemoteFile>, f: RemoteFile, g: RemoteFile)
    requires Dedup(files) == Some(u) && IsVideoFile(f) && g in u && DedupKeyOf(g) == DedupKeyOf(f)
    requires forall h | h in u :: !Clash(h, f)
    ensures Dedup(files + [f]) == Some(u)
  {
    assert (files + [f])[..|files|] == files;
  }

  lemma DedupThree(p: RemoteFile, r: RemoteFile, y: RemoteFile)
    requires IsVideoFile(p) && IsVideoFile(r) && IsVideoFile(y)
    requires p.id == r.id != "" && p.name == r.name && y.id != "" && y.id != p.id
    ensures Dedup([p, r, y]) == Some([p, y])
  {
    DedupNew([], [], p);
    assert [] + [p] == [p];
    DedupRepeat([p], [p], r, p);
    assert [p] + [r] == [p, r];
    DedupNew([p, r], [p], y);
    assert [p, r] + [y] == [p, r, y] && [p] + [y] == [p, y];
  }

  lemma BestOfTwo(p: RemoteFile, y: RemoteFile, k: Key)
    requires WholeRule(None)(p) == Some(k) && WholeRule(None)(y) == Some(k)
    ensures BestPerKey([p, y], WholeRule(None), Better) == map[k := if Better(y, p) then y else p]
  {
    assert [p, y][..1] == [p] && [p][..0] == [];
    assert BestPerKey([p], WholeRule(None), Better) == map[k := p];
  }

  lemma WholeMap(files: seq<RemoteFile>, p: RemoteFile, y: RemoteFile, k: Key)
    requires Dedup(files) == Some([p, y])
    requires WholeRule(None)(p) == Some(k) && WholeRule(None)(y) == Some(k)
    ensures Select(files, WHOLE).Chosen?
    ensures Select(files, WHOLE).selection.fileMap == map[k := if Better(y, p) then y.id else p.id]
  {
    BestOfTwo(p, y, k);
  }

  /** Two listings of the same three records: the first reports file x with size m and then with size n, the second the
      other way round; both report y with size k.  They choose different files for the episode exactly when y ranks
      between the two records of x, as it does when its size lies strictly between theirs. */
  lemma SizesMatter(m: nat, n: nat, k: nat)
    ensures var xm, xn, y := ClipFile("x", "x", m), ClipFile("x", "x", n), ClipFile("y", "y", k);
            var a, b := Select([xm, xn, y], WHOLE), Select([xn, xm, y], WHOLE);
            && SameRecords([xm, xn, y], [xn, xm, y]) && a.Chosen? && b.Chosen?
            && (a.selection.fileMap != b.selection.fileMap <==> (Better(y, xm) <==> !Better(y, xn)))
            && (m < k < n || n < k < m ==> !SameOutcome(a, b))
  {
    var xm, xn, y := ClipFile("x", "x", m), ClipFile("x", "x", n), ClipFile("y", "y", k);
    ClipKey("x", "x", m);
    ClipKey("x", "x", n);
    ClipKey("y", "y", k);
    DedupThree(xm, xn, y);
    DedupThree(xn, xm, y);
    WholeMap([xm, xn, y], xm, y, Key(1, 1));
    WholeMap([xn, xm, y], xn, y, Key(1, 1));
    var map1: map<Key, string> := map[Key(1, 1) := "x"];
    assert map1[Key(1, 1)] == "x" != "y";
  }
}
