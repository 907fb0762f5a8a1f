/** What a selection reports, and exactly which selections the final check lets through
    (app/transfer/file_selection.py). */
module SelectionReport {
  import opened PyText
  import opened Sorting
  import opened Gathering
  import opened EpisodeKeys
  import opened EpisodeMatcher
  import opened FileSelection
  import opened SelectionQuality

  // ---------- the listing without repetitions ----------

  predicate NamedVideo(f: RemoteFile) {
    f.name.text != "" && f.name.isVideo
  }

  /** Records of one remote file: the same id, or neither has one and the names are the same up to letter case. */
  predicate SameFile(f: RemoteFile, g: RemoteFile) {
    if f.id == "" then g.id == "" && f.name.folded == g.name.folded else g.id == f.id
  }

  /** The first record of its file. */
  predicate FirstOf(files: seq<RemoteFile>, i: nat) {
    i < |files| && NamedVideo(files[i]) &&
    forall j | 0 <= j < i && NamedVideo(files[j]) :: !SameFile(files[i], files[j])
  }

  /** What is kept of a listing is the first record of every video, in listing order. */
  lemma {:induction false} FirstRecords(files: seq<RemoteFile>) returns (at: seq<nat>)
    requires Dedup(files).Some?
    ensures |at| == |Dedup(files).value| && forall i: nat :: i in at <==> FirstOf(files, i)
    ensures forall k | 0 <= k < |at| :: at[k] < |files| && Dedup(files).value[k] == files[at[k]]
    ensures forall j, k | 0 <= j < k < |at| :: at[j] < at[k]
  {
    if files == [] {
      at := [];
    } else {
      var n := |files| - 1;
      at := FirstRecords(files[..n]);
      var before := Dedup(files[..n]).value;
      FirstOfFront(files, n);
      SeenBefore(files, n, at, before);
      if NamedVideo(files[n]) && !exists g :: g in before && DedupKeyOf(g) == DedupKeyOf(files[n]) {
        at := at + [n];
      }
    }
  }

  lemma FirstOfFront(files: seq<RemoteFile>, n: nat)
    requires n <= |files|
    ensures forall i: nat | i < n :: FirstOf(files, i) <==> FirstOf(files[..n], i)
  {
    forall i: nat | i < n
      ensures FirstOf(files, i) <==> FirstOf(files[..n], i)
    {
      assert forall j | 0 <= j <= i :: files[..n][j] == files[j];
    }
  }

  lemma SeenBefore(files: seq<RemoteFile>, n: nat, at: seq<nat>, before: seq<RemoteFile>)
    requires n + 1 == |files| && |at| == |before| && forall k | 0 <= k < |at| :: at[k] < n && before[k] == files[at[k]]
    requires forall i: nat | i < n :: i in at <==> FirstOf(files, i)
    ensures FirstOf(files, n) <==>
            NamedVideo(files[n]) && !exists g :: g in before && DedupKeyOf(g) == DedupKeyOf(files[n])
  {
    if g :| g in before && DedupKeyOf(g) == DedupKeyOf(files[n]) {
      var k :| 0 <= k < |before| && before[k] == g;
      assert at[k] in at;
      assert SameFile(files[n], files[at[k]]);
    }
    if j: nat :| j < n && NamedVideo(files[j]) && SameFile(files[n], files[j]) {
      var i := FirstLike(files, j);
      assert i in at;
      var k :| 0 <= k < |at| && at[k] == i;
      assert before[k] == files[i] && DedupKeyOf(files[i]) == DedupKeyOf(files[n]);
      assert before[k] in before;
    }
  }

  lemma {:induction false} FirstLike(files: seq<RemoteFile>, j: nat) returns (i: nat)
    requires j < |files| && NamedVideo(files[j])
    ensures i <= j && FirstOf(files, i) && SameFile(files[j], files[i])
    decreases j
  {
    if k: nat :| k < j && NamedVideo(files[k]) && SameFile(files[j], files[k]) {
      i := FirstLike(files, k);
    } else {
      i := j;
    }
  }

  // ---------- MISSING_EPISODES ----------

  function Reading(season: Option<int>): string -> Option<Key> {
    (value: string) => KeyOf(season, TextValue(value))
  }

  /** All values read as something, pairwise as different things. */
  predicate AllDifferent<T, K(==)>(values: seq<T>, read: T -> Option<K>) {
    && (forall i | 0 <= i < |values| :: read(values[i]).Some?)
    && (forall i, j | 0 <= i < j < |values| :: read(values[i]) != read(values[j]))
  }

  /** The keys are what the values read as, one by one. */
  predicate OneByOne<T, K(==)>(values: seq<T>, read: T -> Option<K>, keys: seq<K>) {
    |keys| == |values| && forall i | 0 <= i < |values| :: read(values[i]) == Some(keys[i])
  }

  lemma AllDifferentStep<T, K>(front: seq<T>, value: T, read: T -> Option<K>)
    ensures AllDifferent(front + [value], read) <==>
            AllDifferent(front, read) && read(value).Some? &&
            forall i | 0 <= i < |front| :: read(front[i]) != read(value)
  {
    var values := front + [value];
    assert forall i | 0 <= i < |front| :: values[i] == front[i];
    assert values[|front|] == value;
  }

  lemma OneMoreKey<T, K>(front: seq<T>, keys: seq<K>, value: T, read: T -> Option<K>)
    requires OneByOne(front, read, keys) && read(value).Some?
    ensures read(value).value in keys <==> exists i :: 0 <= i < |front| && read(front[i]) == read(value)
    ensures OneByOne(front + [value], read, keys + [read(value).value])
  {
  }

  /** What the values read as, each thing once, at its first place. */
  function Firsts<T, K(==)>(values: seq<T>, read: T -> Option<K>): seq<K> {
    if values == [] then [] else
      var before, last := Firsts(values[..|values| - 1], read), read(values[|values| - 1]);
      if last.Some? && last.value !in before then before + [last.value] else before
  }

  lemma {:induction false} RequestedAreFirsts(season: Option<int>, values: seq<string>)
    ensures RequestedKeys(values, season) == Firsts(values, Reading(season))
  {
    if values != [] {
      RequestedAreFirsts(season, values[..|values| - 1]);
    }
  }

  lemma {:induction false} FirstsInOrder<T, K>(values: seq<T>, read: T -> Option<K>)
    ensures |Firsts(values, read)| <= |values|
    ensures |Firsts(values, read)| == |values| <==> AllDifferent(values, read)
    ensures AllDifferent(values, read) ==> OneByOne(values, read, Firsts(values, read))
  {
    if values != [] {
      var front, last := values[..|values| - 1], values[|values| - 1];
      FirstsInOrder(front, read);
      assert values == front + [last];
      AllDifferentStep(front, last, read);
      if AllDifferent(front, read) && read(last).Some? {
        OneMoreKey(front, Firsts(front, read), last, read);
      }
    }
  }

  /** Then, and only then, as many keys are requested as values given: just their keys, in the order of the values. */
  lemma RequestedInOrder(season: Option<int>, values: seq<string>)
    ensures |RequestedKeys(values, season)| == |values| <==> AllDifferent(values, Reading(season))
    ensures AllDifferent(values, Reading(season)) ==> OneByOne(values, Reading(season), RequestedKeys(values, season))
  {
    RequestedAreFirsts(season, values);
    FirstsInOrder(values, Reading(season));
  }

  /** A file that a share may hold beside the missing episodes: no range, an id, and one episode of the season. */
  ghost predicate Usable(f: RemoteFile, season: Option<int>) {
    !f.name.isRange && exists k :: Counts(f, season, k)
  }

  lemma UsableIff(f: RemoteFile, season: Option<int>)
    ensures Usable(f, season) <==> !Unusable(f, season)
  {
    SoleKeyIsSingleton(f.name, season);
    var key := SoleKey(f.name, season);
    if key.Some? && !Unusable(f, season) {
      assert Counts(f, season, key.value);
    }
    if k :| Counts(f, season, k) {
      assert key == Some(k);
    }
  }

  predicate ShowsOnly(u: seq<RemoteFile>, season: Option<int>, k: Key) {
    exists f :: f in u && FileKeys(f.name, season) == {k}
  }

  /** Every value asks for an episode of its own, and every file of the share can be told apart. */
  ghost predicate Decidable(u: seq<RemoteFile>, q: Request) {
    && Cleaned(q.episodeKeys) != [] && AllDifferent(Cleaned(q.episodeKeys), Reading(q.season))
    && forall f | f in u :: Usable(f, q.season)
  }

  /** The i-th value asked for is an episode that some file shows. */
  predicate AskedIsShown(u: seq<RemoteFile>, q: Request, i: nat)
    requires i < |Cleaned(q.episodeKeys)|
  {
    var key := Reading(q.season)(Cleaned(q.episodeKeys)[i]);
    key.Some? && ShowsOnly(u, q.season, key.value)
  }

  lemma ShownIff(u: seq<RemoteFile>, season: Option<int>, k: Key)
    ensures Shown(u, season, k) <==> ShowsOnly(u, season, k)
  {
    forall f | f in u
      ensures SoleKey(f.name, season) == Some(k) <==> FileKeys(f.name, season) == {k}
    {
      SoleKeyIsSingleton(f.name, season);
    }
  }

  /** The decision, said of the listing and the values given. */
  lemma MissingDecided(u: seq<RemoteFile>, target: Option<Token>, q: Request)
    requires DistinctFiles(u)
    ensures var s, n := SelectMissing(u, target, q), |Cleaned(q.episodeKeys)|;
            && (s.choice == ReviewNeeded <==> !Decidable(u, q))
            && (s.choice == MissingChosen <==> Decidable(u, q) && forall i | 0 <= i < n :: AskedIsShown(u, q, i))
            && (s.choice == EpisodeMismatch <==> Decidable(u, q) && exists i :: 0 <= i < n && !AskedIsShown(u, q, i))
  {
    var values := Cleaned(q.episodeKeys);
    var keys := RequestedKeys(values, q.season);
    MissingShape(u, target, q);
    MissingChosenIff(u, target, q);
    RequestedInOrder(q.season, values);
    forall f | f in u
      ensures Usable(f, q.season) <==> !Unusable(f, q.season)
    {
      UsableIff(f, q.season);
    }
    if |keys| == |values| {
      forall i | 0 <= i < |values|
        ensures AskedIsShown(u, q, i) <==> Shown(u, q.season, keys[i])
      {
        ShownIff(u, q.season, keys[i]);
      }
      forall k | k in keys
        ensures exists i :: 0 <= i < |values| && keys[i] == k
      {
      }
    }
  }

  lemma ChosenKeys(u: seq<RemoteFile>, target: Option<Token>, q: Request)
    requires SelectMissing(u, target, q).choice == MissingChosen
    ensures OneByOne(Cleaned(q.episodeKeys), Reading(q.season), SelectMissing(u, target, q).requestedKeys)
  {
    RequestedInOrder(q.season, Cleaned(q.episodeKeys));
  }

  lemma OneToOneAt(u: seq<RemoteFile>, q: Request, s: Selection, i: nat)
    requires OneToOne(u, q, s) && i < |s.requestedKeys|
    ensures |s.selected| == |s.requestedKeys| && s.selectedKeys == s.requestedKeys
    ensures FileKeys(s.selected[i].name, q.season) == {s.requestedKeys[i]}
    ensures s.requestedKeys[i] in s.fileMap && s.fileMap[s.requestedKeys[i]] == s.selected[i].id != ""
  {
    assert s.requestedKeys[i] in s.requestedKeys;
    SoleKeyIsSingleton(s.selected[i].name, q.season);
  }

  /** The i-th file selected is for the i-th value asked for, and mapped to it. */
  lemma MissingInOrder(u: seq<RemoteFile>, target: Option<Token>, q: Request, i: nat)
    requires DistinctFiles(u) && SelectMissing(u, target, q).choice == MissingChosen
    requires i < |Cleaned(q.episodeKeys)|
    ensures var s, key := SelectMissing(u, target, q), Reading(q.season)(Cleaned(q.episodeKeys)[i]);
            && |s.selected| == |s.selectedKeys| == |Cleaned(q.episodeKeys)|
            && key.Some? && s.selectedKeys[i] == key.value && FileKeys(s.selected[i].name, q.season) == {key.value}
            && key.value in s.fileMap && s.fileMap[key.value] == s.selected[i].id != ""
  {
    MissingIsOneToOne(u, target, q);
    ChosenKeys(u, target, q);
    OneToOneAt(u, q, SelectMissing(u, target, q), i);
  }

  // ---------- SINGLE_EPISODE ----------

  /** Whether several files hit the target, and what is said about the one taken. */
  lemma SingleReport(u: seq<RemoteFile>, target: Token, q: Request)
    ensures var s := SelectSingle(u, Some(target), q);
            var key := KeyOf(q.season, TextValue(TargetText(q)));
            && (s.choice == PreferredSingle <==> HitTwice(u, target, q.season))
            && (s.choice == ExactSingle || s.choice == PreferredSingle <==>
                exists i :: 0 <= i < |u| && Hits(target, q.season, u[i].name))
            && s.requestedKeys == s.selectedKeys
            && (s.choice != EpisodeMismatch && key.Some? ==>
                  s.selectedKeys == [key.value] && s.fileMap == map[key.value := s.selected[0].id])
            && (s.choice == EpisodeMismatch || key.None? ==> s.selectedKeys == [] && s.fileMap == map[])
  {
    HitsCounted(u, target, q.season);
    SingleShape(u, Some(target), q);
  }

  predicate HitTwice(u: seq<RemoteFile>, target: Token, season: Option<int>) {
    exists i, j :: 0 <= i < j < |u| && Hits(target, season, u[i].name) && Hits(target, season, u[j].name)
  }

  lemma {:induction false} HitsCounted(u: seq<RemoteFile>, target: Token, season: Option<int>)
    ensures |Matched(u, Some(target), season)| > 1 <==> HitTwice(u, target, season)
    ensures Matched(u, Some(target), season) != [] <==> exists i :: 0 <= i < |u| && Hits(target, season, u[i].name)
  {
    if u != [] {
      var n := |u| - 1;
      HitsCounted(u[..n], target, season);
      HitsIsMatch(target, season, u[n].name);
      assert forall i | 0 <= i < n :: u[..n][i] == u[i];
    }
  }

  // ---------- ids ----------

  /** A file of the list has this id. */
  predicate HasId(files: seq<RemoteFile>, id: string) {
    id != "" && exists f :: f in files && f.id == id
  }

  lemma IdsAre(files: seq<RemoteFile>, id: string)
    ensures id in Ids(files) <==> HasId(files, id)
  {
    GatherIn(files, IdOf, id);
  }

  predicate HitHasId(u: seq<RemoteFile>, target: Token, season: Option<int>, id: string) {
    id != "" && exists f :: f in u && f.id == id && Hits(target, season, f.name)
  }

  lemma MatchedIdsAre(u: seq<RemoteFile>, target: Option<Token>, season: Option<int>, id: string)
    ensures id in Ids(Matched(u, target, season)) <==> target.Some? && HitHasId(u, target.value, season, id)
  {
    IdsAre(Matched(u, target, season), id);
    if target.Some? {
      forall f
        ensures f in Matched(u, target, season) <==> f in u && Hits(target.value, season, f.name)
      {
        MatchedIn(u, target.value, season, f);
        HitsIsMatch(target.value, season, f.name);
      }
    }
  }

  lemma IdsShape(mode: SelectionMode, u: seq<RemoteFile>, target: Option<Token>, q: Request)
    ensures var s := SelectIn(mode, u, target, q);
            && s.mode == mode && s.uniqueIds == Ids(u)
            && (mode != MissingEpisodes ==>
                  s.choice != MissingChosen && s.matchedIds == Ids(Matched(u, target, q.season)))
  {
  }

  /** Every selection lists the ids of the whole share, and those that hit the target or, for missing episodes that were
      found, those of the files selected. */
  lemma IdsReported(mode: SelectionMode, u: seq<RemoteFile>, target: Option<Token>, q: Request, id: string)
    ensures var s := SelectIn(mode, u, target, q);
            && s.mode == mode
            && (id in s.uniqueIds <==> HasId(u, id))
            && (s.choice == MissingChosen ==> (id in s.matchedIds <==> HasId(s.selected, id)))
            && (mode != MissingEpisodes ==>
                  (id in s.matchedIds <==> target.Some? && HitHasId(u, target.value, q.season, id)))
  {
    var s := SelectIn(mode, u, target, q);
    IdsShape(mode, u, target, q);
    IdsAre(u, id);
    MatchedIdsAre(u, target, q.season, id);
    if s.choice == MissingChosen {
      IdsAre(s.selected, id);
      FoundFiles(u, target, q);
    }
  }

  lemma FoundFiles(u: seq<RemoteFile>, target: Option<Token>, q: Request)
    requires SelectMissing(u, target, q).choice == MissingChosen
    ensures var s := SelectMissing(u, target, q);
            s.matchedIds == Ids(s.selected)
  {
    var m := EpisodeMap(u, q.season).value;
    var keys := RequestedKeys(Cleaned(q.episodeKeys), q.season);
    GatherAll(keys, FileRule(m));
    assert Gather(keys, FileRule(m)) == FilesFor(keys, m);
  }

  // ---------- the final check ----------

  /** The only id among the selected files, those without an id aside. */
  predicate SoleId(files: seq<RemoteFile>, id: string) {
    HasId(files, id) && forall f | f in files :: f.id == "" || f.id == id
  }

  lemma {:induction false} FirstPlacesOnce(s: seq<string>)
    ensures Distinct(FirstPlaces(s)) && |FirstPlaces(s)| <= |s|
    ensures |FirstPlaces(s)| == |s| ==> FirstPlaces(s) == s
  {
    if s != [] {
      FirstPlacesOnce(s[..|s| - 1]);
    }
  }

  lemma OneElement(ids: seq<string>, id: string)
    requires Distinct(ids)
    ensures ids == [id] <==> id in ids && forall x | x in ids :: x == id
  {
    if |ids| > 1 {
      assert ids[0] in ids && ids[1] in ids;
    }
  }

  lemma FinalIdsAre(s: Selection, id: string)
    ensures id in FinalIds(s) <==> HasId(s.selected, id)
    ensures FinalIds(s) == [id] <==> SoleId(s.selected, id)
  {
    FirstPlacesIn(Ids(s.selected));
    FirstPlacesOnce(Ids(s.selected));
    forall x
      ensures x in FinalIds(s) <==> HasId(s.selected, x)
    {
      IdsAre(s.selected, x);
    }
    OneElement(FinalIds(s), id);
    if FinalIds(s) == [id] {
      forall f | f in s.selected && f.id != ""
        ensures f.id == id
      {
        assert HasId(s.selected, f.id);
      }
    }
  }

  /** A single episode passes iff the selected files carry one id between them, and that id is a match. */
  lemma SinglePasses(s: Selection)
    ensures GuardSingle(s) == None <==>
            s.choice !in {ReviewNeeded, EpisodeMismatch} && exists id :: SoleId(s.selected, id) && id in s.matchedIds
  {
    var ids := FinalIds(s);
    forall id
      ensures ids == [id] <==> SoleId(s.selected, id)
    {
      FinalIdsAre(s, id);
    }
    assert |ids| == 1 ==> ids == [ids[0]];
  }

  /** Some selected file carries an id, and all that do are of the share. */
  predicate SomeOfShare(s: Selection) {
    && (exists f :: f in s.selected && f.id != "")
    && (forall f | f in s.selected && f.id != "" :: f.id in s.uniqueIds)
  }

  /** A whole share or a collection passes iff the files selected are of the share, some of them with an id. */
  lemma OthersPass(s: Selection)
    ensures GuardWhole(s) == None <==> SomeOfShare(s)
    ensures GuardCollection(s) == None <==> s.choice != CollectionMismatch && SomeOfShare(s)
  {
    var ids := FinalIds(s);
    forall id
      ensures id in ids <==> HasId(s.selected, id)
    {
      FinalIdsAre(s, id);
    }
    assert ids != [] ==> ids[0] in ids && HasId(s.selected, ids[0]);
    forall f | f in s.selected && f.id != ""
      ensures f.id in ids
    {
      assert HasId(s.selected, f.id);
    }
  }

  /** One file per key, each with the id the key is mapped to, no two the same. */
  ghost predicate Paired(files: seq<RemoteFile>, keys: seq<Key>, m: map<Key, string>) {
    && |files| == |keys|
    && (forall i | 0 <= i < |files| :: files[i].id != "" && keys[i] in m && m[keys[i]] == files[i].id)
    && (forall i, j | 0 <= i < j < |files| :: files[i].id != files[j].id)
  }

  /** One selected file per requested key, all of the share. */
  ghost predicate MappedOneToOne(s: Selection) {
    && s.choice == MissingChosen && s.requestedKeys != [] && s.selectedKeys == s.requestedKeys
    && (forall k :: k in s.fileMap <==> k in s.requestedKeys)
    && Paired(s.selected, s.requestedKeys, s.fileMap)
    && (forall f | f in s.selected :: f.id in s.uniqueIds)
  }

  lemma WithinIff(files: seq<RemoteFile>, unique: seq<string>)
    requires |Ids(files)| == |files| && forall i | 0 <= i < |files| :: Ids(files)[i] == files[i].id
    ensures Within(Ids(files), unique) <==> forall f | f in files :: f.id in unique
  {
    forall f | f in files
      ensures f.id in Ids(files)
    {
      var i :| 0 <= i < |files| && files[i] == f;
      assert Ids(files)[i] == f.id;
    }
  }

  lemma {:induction false} AllIdentified(files: seq<RemoteFile>)
    requires |Ids(files)| == |files|
    ensures forall i | 0 <= i < |files| :: files[i].id == Ids(files)[i] != ""
  {
    if files != [] {
      GatherIn(files[..|files| - 1], IdOf, "");
      AllIdentified(files[..|files| - 1]);
    }
  }

  lemma PairedIds(keys: seq<Key>, m: map<Key, string>, ids: seq<string>)
    requires ids == MappedIds(keys, m) && "" !in ids
    ensures |ids| == |keys| && forall i | 0 <= i < |keys| :: keys[i] in m && m[keys[i]] == ids[i]
  {
    forall i | 0 <= i < |keys|
      ensures keys[i] in m && m[keys[i]] == ids[i]
    {
      assert ids[i] in ids;
    }
  }

  lemma MappedArePaired(files: seq<RemoteFile>, keys: seq<Key>, m: map<Key, string>)
    requires |files| == |keys| && FirstPlaces(Ids(files)) == MappedIds(keys, m) && "" !in MappedIds(keys, m)
    ensures Paired(files, keys, m)
  {
    FirstPlacesOnce(Ids(files));
    GatherIn(files, IdOf, "");
    AllIdentified(files);
    PairedIds(keys, m, Ids(files));
  }

  lemma PairedAreMapped(files: seq<RemoteFile>, keys: seq<Key>, m: map<Key, string>)
    requires Paired(files, keys, m)
    ensures FirstPlaces(Ids(files)) == MappedIds(keys, m) == Ids(files) && "" !in Ids(files) && Distinct(Ids(files))
    ensures |Ids(files)| == |files| && forall i | 0 <= i < |files| :: Ids(files)[i] == files[i].id
  {
    MappedIdsMatch(files, keys, m);
    IdsOfIdentified(files);
  }

  /** The tests of the check besides the pairing. */
  predicate Requested(s: Selection) {
    s.choice == MissingChosen && s.requestedKeys != [] && s.selectedKeys == s.requestedKeys
  }

  lemma MissingTests(s: Selection)
    ensures var ids, wanted := FinalIds(s), MappedIds(s.requestedKeys, s.fileMap);
            GuardMissing(s) == None <==>
            && Requested(s) && s.fileMap.Keys == (set k | k in s.requestedKeys) && ids == wanted && "" !in wanted
            && Distinct(ids) && |s.selected| == |s.requestedKeys| && Within(ids, s.uniqueIds)
  {
  }

  /** Missing episodes pass iff the selection is one to one. */
  lemma MissingPasses(s: Selection)
    ensures GuardMissing(s) == None <==> MappedOneToOne(s)
  {
    MissingTests(s);
    if Paired(s.selected, s.requestedKeys, s.fileMap) {
      PairedAreMapped(s.selected, s.requestedKeys, s.fileMap);
      WithinIff(s.selected, s.uniqueIds);
    } else if GuardMissing(s) == None {
      MappedArePaired(s.selected, s.requestedKeys, s.fileMap);
    }
    KeysAre(s.fileMap, s.requestedKeys);
  }

  lemma KeysAre(m: map<Key, string>, keys: seq<Key>)
    ensures m.Keys == (set k | k in keys) <==> forall k :: k in m <==> k in keys
  {
  }

  /** The check, for every selection whatsoever. */
  ghost predicate Safe(s: Selection) {
    match s.mode
    case SingleEpisode =>
      s.choice !in {ReviewNeeded, EpisodeMismatch} && exists id :: SoleId(s.selected, id) && id in s.matchedIds
    case MissingEpisodes => MappedOneToOne(s)
    case WholeShare => SomeOfShare(s)
    case Collection => s.choice != CollectionMismatch && SomeOfShare(s)
  }

  lemma GuardPassesIff(s: Selection)
    ensures Guard(s) == None <==> Safe(s)
  {
    SinglePasses(s);
    OthersPass(s);
    MissingPasses(s);
  }
}
