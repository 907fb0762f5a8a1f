/** Fail-closed choice of the remote files of a transfer, and its independent final check
    (app/transfer/file_selection.py). */
module FileSelection {
  import opened PyText
  import opened Sorting
  import opened Gathering
  import opened Ranking
  import opened EpisodeKeys
  import opened EpisodeMatcher

  /** One normalised record of a recursive share listing. */
  datatype RemoteFile = RemoteFile(name: FileName, id: string, size: nat)

  // ---------- deduplicate_video_files ----------

  datatype DedupKey = ById(id: string) | ByName(folded: string)

  predicate IsVideoFile(f: RemoteFile) {
    f.name.text != "" && f.name.isVideo
  }

  function DedupKeyOf(f: RemoteFile): DedupKey {
    if f.id != "" then ById(f.id) else ByName(f.name.folded)
  }

  /** The same remote file under two names. */
  predicate Clash(f: RemoteFile, g: RemoteFile) {
    DedupKeyOf(f) == DedupKeyOf(g) && f.name != g.name
  }

  /** The first record of every remote video, in listing order; None for DUPLICATE_FILE_ID_CONFLICT. */
  function Dedup(files: seq<RemoteFile>): Option<seq<RemoteFile>> {
    if files == [] then Some([]) else
      var last, before := files[|files| - 1], Dedup(files[..|files| - 1]);
      if before.None? || !IsVideoFile(last) then before
      else if exists g :: g in before.value && Clash(g, last) then None
      else if exists g :: g in before.value && DedupKeyOf(g) == DedupKeyOf(last) then before
      else Some(before.value + [last])
  }

  method Deduplicate(files: seq<RemoteFile>) returns (r: Option<seq<RemoteFile>>)
    ensures r == Dedup(files)
  {
    var unique: map<DedupKey, RemoteFile> := map[];
    var order: seq<RemoteFile> := [];  // the dict's insertion order
    for i := 0 to |files|
      invariant Dedup(files[..i]) == Some(order)
      invariant forall g | g in order :: DedupKeyOf(g) in unique && unique[DedupKeyOf(g)] == g
      invariant forall k | k in unique :: unique[k] in order && DedupKeyOf(unique[k]) == k
    {
      var item := files[i];
      assert files[..i + 1][..i] == files[..i];
      if !IsVideoFile(item) {
        continue;
      }
      var key := DedupKeyOf(item);
      if key in unique && unique[key].name != item.name {
        assert Clash(unique[key], item);
        ConflictStays(files, i + 1);
        return None;
      }
      if key !in unique {
        unique := unique[key := item];
        order := order + [item];
      }
    }
    assert files[..|files|] == files;
    r := Some(order);
  }

  lemma {:induction false} ConflictStays(files: seq<RemoteFile>, n: nat)
    requires n <= |files| && Dedup(files[..n]) == None
    ensures Dedup(files) == None
    decreases |files|
  {
    if n == |files| {
      assert files[..n] == files;
    } else {
      assert files[..|files| - 1][..n] == files[..n];
      ConflictStays(files[..|files| - 1], n);
    }
  }

  ghost predicate DistinctFiles(u: seq<RemoteFile>) {
    && (forall f | f in u :: IsVideoFile(f))
    && (forall i, j | 0 <= i < j < |u| :: DedupKeyOf(u[i]) != DedupKeyOf(u[j]))
  }

  /** The list holds a record of the same remote file and name. */
  predicate Represents(u: seq<RemoteFile>, f: RemoteFile) {
    exists g :: g in u && DedupKeyOf(g) == DedupKeyOf(f) && g.name == f.name
  }

  /** Every video is represented by a listed record of the same key and name, exactly one per key. */
  lemma {:induction false} DedupRepresents(files: seq<RemoteFile>)
    requires Dedup(files).Some?
    ensures DistinctFiles(Dedup(files).value)
    ensures forall g | g in Dedup(files).value :: g in files
    ensures forall f | f in files && IsVideoFile(f) :: Represents(Dedup(files).value, f)
  {
    if files != [] {
      var front, last := files[..|files| - 1], files[|files| - 1];
      DedupRepresents(front);
      assert files == front + [last];
      var before, after := Dedup(front).value, Dedup(files).value;
      forall f | f in files && IsVideoFile(f)
        ensures Represents(after, f)
      {
        if f in front {
          var g :| g in before && DedupKeyOf(g) == DedupKeyOf(f) && g.name == f.name;
          assert g in after;
        } else if g :| g in before && DedupKeyOf(g) == DedupKeyOf(last) {
          assert !Clash(g, last) && g in after;
        } else {
          assert last in after;
        }
      }
    }
  }

  lemma {:induction false} RefusedHasClash(files: seq<RemoteFile>)
    requires Dedup(files) == None
    ensures exists f, g :: f in files && g in files && IsVideoFile(f) && IsVideoFile(g) && Clash(f, g)
  {
    var front, last := files[..|files| - 1], files[|files| - 1];
    assert files == front + [last];
    if Dedup(front) == None {
      RefusedHasClash(front);
    } else {
      DedupRepresents(front);
      var g :| g in Dedup(front).value && Clash(g, last);
      assert g in files && last in files;
    }
  }

  /** The conflict is raised exactly when some remote file appears under two names, in whatever order. */
  lemma RefusedIffClash(files: seq<RemoteFile>)
    ensures Dedup(files) == None <==>
            exists f, g :: f in files && g in files && IsVideoFile(f) && IsVideoFile(g) && Clash(f, g)
  {
    if Dedup(files) == None {
      RefusedHasClash(files);
    } else {
      DedupRepresents(files);
      var u := Dedup(files).value;
      forall f, g | f in files && g in files && IsVideoFile(f) && IsVideoFile(g)
        ensures !Clash(f, g)
      {
        assert Represents(u, f) && Represents(u, g);
      }
    }
  }

  /** Records of one remote file agree on its size. */
  ghost predicate SizesAgree(files: seq<RemoteFile>) {
    forall f, g | f in files && g in files && DedupKeyOf(f) == DedupKeyOf(g) :: f.size == g.size
  }

  /** Then the deduplicated listing holds exactly the videos of the listing. */
  lemma DedupIsSet(files: seq<RemoteFile>)
    requires SizesAgree(files) && Dedup(files).Some?
    ensures forall f :: f in Dedup(files).value <==> f in files && IsVideoFile(f)
  {
    DedupRepresents(files);
    forall f | f in files && IsVideoFile(f)
      ensures f in Dedup(files).value
    {
      assert Represents(Dedup(files).value, f);
      var g :| g in Dedup(files).value && DedupKeyOf(g) == DedupKeyOf(f) && g.name == f.name;
      assert g in files && g.size == f.size && g.id == f.id;
    }
  }

  // ---------- _quality_rank ----------

  /** The comparison of the rank tuples (resolution, source, hdr, codec, size, folded name, id). */
  predicate RankLess(a: RemoteFile, b: RemoteFile) {
    if a.name.resolution != b.name.resolution then a.name.resolution < b.name.resolution
    else if a.name.source != b.name.source then a.name.source < b.name.source
    else if a.name.hdr != b.name.hdr then a.name.hdr < b.name.hdr
    else if a.name.codec != b.name.codec then a.name.codec < b.name.codec
    else if a.size != b.size then a.size < b.size
    else if a.name.folded != b.name.folded then TextLess(a.name.folded, b.name.folded)
    else TextLess(a.id, b.id)
  }

  predicate Better(a: RemoteFile, b: RemoteFile) {
    RankLess(b, a)
  }

  lemma RankTotal(a: RemoteFile, b: RemoteFile)
    ensures RankLess(a, b) || RankLess(b, a) || DedupKeyOf(a) == DedupKeyOf(b)
    ensures !(RankLess(a, b) && RankLess(b, a))
  {
    TextTotal(a.name.folded, b.name.folded);
    TextTotal(a.id, b.id);
  }

  lemma RankTransitive(a: RemoteFile, b: RemoteFile, c: RemoteFile)
    requires RankLess(a, b) && RankLess(b, c)
    ensures RankLess(a, c)
  {
    TextTotal(a.name.folded, b.name.folded);
    TextTotal(b.name.folded, c.name.folded);
    if TextLess(a.name.folded, b.name.folded) && TextLess(b.name.folded, c.name.folded) {
      TextTransitive(a.name.folded, b.name.folded, c.name.folded);
      TextTotal(a.name.folded, c.name.folded);
    }
    if TextLess(a.id, b.id) && TextLess(b.id, c.id) {
      TextTransitive(a.id, b.id, c.id);
    }
  }

  /** On deduplicated files no two ranks are equal. */
  lemma RanksDistinctFiles(u: seq<RemoteFile>)
    requires DistinctFiles(u)
    ensures Ranks(u, Better)
  {
    forall x, y | x in u && y in u
      ensures (x == y || Better(x, y) || Better(y, x)) && !(Better(x, y) && Better(y, x))
    {
      RankTotal(x, y);
    }
    forall x, y, z | x in u && y in u && z in u && Better(x, y) && Better(y, z)
      ensures Better(x, z)
    {
      RankTransitive(z, y, x);
    }
  }

  // ---------- the request ----------

  datatype SelectionMode = SingleEpisode | MissingEpisodes | WholeShare | Collection

  datatype ModeField = NoMode | UnknownMode | Mode(mode: SelectionMode)

  /** The arguments of `select_files`; the empty text stands for an absent target. */
  datatype Request = Request(
    mode: ModeField,
    target: string,
    episodeKeys: seq<string>,
    season: Option<int>,
    wantedNames: seq<string>,      // expected_files
    selectedIds: seq<string>,
    selectedNames: seq<string>
  )

  function CleanText(value: string): Option<string> {
    if Strip(value) == "" then None else Some(Strip(value))
  }

  /** `[str(v).strip() for v in values if str(v).strip()]`. */
  function Cleaned(values: seq<string>): seq<string> {
    Gather(values, CleanText)
  }

  function ResolveMode(q: Request): Option<SelectionMode> {
    match q.mode
    case Mode(m) => Some(m)
    case UnknownMode => None
    case NoMode =>
      if Cleaned(q.episodeKeys) != [] then Some(if |Cleaned(q.episodeKeys)| > 1 then MissingEpisodes else SingleEpisode)
      else if Cleaned(q.wantedNames) != [] then Some(Collection)
      else Some(WholeShare)
  }

  function TargetText(q: Request): string {
    if q.target != "" then Strip(q.target)
    else if |Cleaned(q.episodeKeys)| == 1 then Cleaned(q.episodeKeys)[0]
    else ""
  }

  // ---------- rules that pick files ----------

  function MatchRule(target: Token, season: Option<int>): RemoteFile -> Option<RemoteFile> {
    (f: RemoteFile) => if Matches(Key(target.season, target.episode), season, f.name) then Some(f) else None
  }

  /** The matching files of the target, none without a target. */
  function Matched(u: seq<RemoteFile>, target: Option<Token>, season: Option<int>): seq<RemoteFile> {
    if target.None? then [] else Gather(u, MatchRule(target.value, season))
  }

  function AnyRule(): RemoteFile -> Option<()> {
    (f: RemoteFile) => Some(())
  }

  /** `max(items, key=_quality_rank)`. */
  function Preferred(files: seq<RemoteFile>): RemoteFile
    requires files != []
  {
    assert AnyRule()(files[0]) == Some(()) && files[0] in files;
    BestPerKeyFrom(files, AnyRule(), Better, ());
    BestPerKey(files, AnyRule(), Better)[()]
  }

  function EpisodeRule(season: Option<int>): RemoteFile -> Option<Key> {
    (f: RemoteFile) => SoleKey(f.name, season)
  }

  /** A file that makes the episode map of a share ambiguous. */
  predicate Unusable(f: RemoteFile, season: Option<int>) {
    var key := SoleKey(f.name, season);
    f.name.isRange || key.None? || f.id == "" || (season.Some? && key.value.Slice() != season.value)
  }

  function WholeRule(season: Option<int>): RemoteFile -> Option<Key> {
    (f: RemoteFile) =>
      var key := SoleKey(f.name, season);
      if key.Some? && f.id != "" && (season.None? || key.value.Slice() == season.value) then key else None
  }

  /** The best file of every episode; None when some file makes the share ambiguous. */
  function EpisodeMap(u: seq<RemoteFile>, season: Option<int>): Option<map<Key, RemoteFile>> {
    if exists f :: f in u && UnusableRule(season)(f) then None else Some(BestPerKey(u, EpisodeRule(season), Better))
  }

  function UnusableRule(season: Option<int>): RemoteFile -> bool {
    (f: RemoteFile) => Unusable(f, season)
  }

  /** The requested keys in request order, each once. */
  function RequestedKeys(values: seq<string>, season: Option<int>): seq<Key> {
    if values == [] then [] else
      var before, key := RequestedKeys(values[..|values| - 1], season), KeyOf(season, TextValue(values[|values| - 1]));
      if key.Some? && key.value !in before then before + [key.value] else before
  }

  function IdOf(f: RemoteFile): Option<string> {
    if f.id != "" then Some(f.id) else None
  }

  function Ids(files: seq<RemoteFile>): seq<string> {
    Gather(files, IdOf)
  }

  // ---------- select_files ----------

  datatype Choice =
    | EpisodeMismatch
    | PreferredSingle
    | ExactSingle
    | ReviewNeeded
    | MissingChosen
    | WholeChosen
    | CollectionRequired
    | CollectionMismatch
    | CollectionChosen

  datatype Selection = Selection(
    mode: SelectionMode,
    choice: Choice,
    uniqueIds: seq<string>,
    matchedIds: seq<string>,
    selected: seq<RemoteFile>,
    requestedKeys: seq<Key>,       // in WHOLE_SHARE mode: the keys of the map, whose sorted listing is left out
    selectedKeys: seq<Key>,
    fileMap: map<Key, string>
  )

  datatype Refusal = UnknownSelectionMode | ManyTargets | DuplicateFileIdConflict | InvalidTargetEpisode

  datatype Outcome = Refused(refusal: Refusal) | Chosen(selection: Selection)

  function SelectSingle(u: seq<RemoteFile>, target: Option<Token>, q: Request): Selection {
    var matched := Matched(u, target, q.season);
    var s := Selection(SingleEpisode, EpisodeMismatch, Ids(u), Ids(matched), [], [], [], map[]);
    if matched == [] then s else
      var file := if |matched| > 1 then Preferred(matched) else matched[0];
      var key := KeyOf(q.season, TextValue(TargetText(q)));
      s.(choice := if |matched| > 1 then PreferredSingle else ExactSingle,
         selected := [file],
         requestedKeys := if key.Some? then [key.value] else [],
         selectedKeys := if key.Some? then [key.value] else [],
         fileMap := if key.Some? then map[key.value := file.id] else map[])
  }

  function FilesFor(keys: seq<Key>, byEpisode: map<Key, RemoteFile>): (r: seq<RemoteFile>)
    requires forall k | k in keys :: k in byEpisode
    ensures |r| == |keys| && forall i | 0 <= i < |r| :: r[i] == byEpisode[keys[i]]
  {
    seq(|keys|, i requires 0 <= i < |keys| => byEpisode[keys[i]])
  }

  function IdMap(keys: seq<Key>, byEpisode: map<Key, RemoteFile>): map<Key, string> {
    map k | k in keys && k in byEpisode :: byEpisode[k].id
  }

  /** Two episodes of the map share one file name, one of them requested. */
  predicate SharesName(keys: seq<Key>, byEpisode: map<Key, RemoteFile>) {
    exists k, k1 :: k in keys && k in byEpisode && k1 in byEpisode && k1 != k && byEpisode[k1].name == byEpisode[k].name
  }

  /** Before anything is matched: what a review or a mismatch returns. */
  function MissingStart(u: seq<RemoteFile>, target: Option<Token>, q: Request): Selection {
    Selection(MissingEpisodes, ReviewNeeded, Ids(u), Ids(Matched(u, target, q.season)), [],
              RequestedKeys(Cleaned(q.episodeKeys), q.season), [], map[])
  }

  /** The verdict over an unambiguous episode map. */
  function DecideMissing(s: Selection, m: map<Key, RemoteFile>): Selection {
    var keys := s.requestedKeys;
    var found := s.(matchedIds := Ids(Gather(keys, FileRule(m))));
    if SharesName(keys, m) then found
    else if exists k :: k in keys && k !in m then found.(choice := EpisodeMismatch)
    else found.(choice := MissingChosen, selected := FilesFor(keys, m), selectedKeys := keys, fileMap := IdMap(keys, m))
  }

  function SelectMissing(u: seq<RemoteFile>, target: Option<Token>, q: Request): Selection {
    var s := MissingStart(u, target, q);
    if s.requestedKeys == [] || |s.requestedKeys| != |Cleaned(q.episodeKeys)| then s else
      var m := EpisodeMap(u, q.season);
      if m.None? then s else DecideMissing(s, m.value)
  }

  function FileRule(m: map<Key, RemoteFile>): Key -> Option<RemoteFile> {
    (k: Key) => if k in m then Some(m[k]) else None
  }

  function SelectWhole(u: seq<RemoteFile>, target: Option<Token>, q: Request): Selection {
    var m := BestPerKey(u, WholeRule(q.season), Better);
    Selection(WholeShare, WholeChosen, Ids(u), Ids(Matched(u, target, q.season)), u, [], [], map k | k in m :: m[k].id)
  }

  function WantedRule(ids: seq<string>, names: seq<string>): RemoteFile -> Option<RemoteFile> {
    (f: RemoteFile) => if (f.id != "" && f.id in ids) || f.name.text in names then Some(f) else None
  }

  function SelectCollection(u: seq<RemoteFile>, target: Option<Token>, q: Request): Selection {
    var ids := Cleaned(q.selectedIds);
    var names :=
      if ids == [] && Cleaned(q.selectedNames) == [] then Cleaned(q.wantedNames) else Cleaned(q.selectedNames);
    var s := Selection(Collection, CollectionRequired, Ids(u), Ids(Matched(u, target, q.season)), [], [], [], map[]);
    if ids == [] && names == [] then s else
      var wanted := Gather(u, WantedRule(ids, names));
      if (forall n | n in names :: exists f :: f in wanted && f.name.text == n) &&
         (forall id | id in ids :: id in Ids(wanted))
      then s.(choice := CollectionChosen, selected := wanted)
      else s.(choice := CollectionMismatch)
  }

  function SelectIn(mode: SelectionMode, u: seq<RemoteFile>, target: Option<Token>, q: Request): Selection {
    match mode
    case SingleEpisode => SelectSingle(u, target, q)
    case MissingEpisodes => SelectMissing(u, target, q)
    case WholeShare => SelectWhole(u, target, q)
    case Collection => SelectCollection(u, target, q)
  }

  function Select(files: seq<RemoteFile>, q: Request): Outcome {
    var mode := ResolveMode(q);
    if mode.None? then Refused(UnknownSelectionMode)
    else if mode.value == SingleEpisode && |Cleaned(q.episodeKeys)| > 1 && q.target == "" then Refused(ManyTargets)
    else if Dedup(files).None? then Refused(DuplicateFileIdConflict)
    else if TargetText(q) != "" && TargetParts(TargetText(q)).None? then Refused(InvalidTargetEpisode)
    else Chosen(SelectIn(mode.value, Dedup(files).value,
                         if TargetText(q) == "" then None else TargetParts(TargetText(q)), q))
  }

  method CollectRequested(values: seq<string>, season: Option<int>) returns (keys: seq<Key>)
    ensures keys == RequestedKeys(values, season)
  {
    keys := [];
    for i := 0 to |values|
      invariant keys == RequestedKeys(values[..i], season)
    {
      assert values[..i + 1][..i] == values[..i];
      var key := KeyOf(season, TextValue(values[i]));
      if key.Some? && key.value !in keys {
        keys := keys + [key.value];
      }
    }
    assert values[..|values|] == values;
  }

  method SelectMissingFiles(u: seq<RemoteFile>, target: Option<Token>, q: Request) returns (s: Selection)
    ensures s == SelectMissing(u, target, q)
  {
    var values := Cleaned(q.episodeKeys);
    var keys := CollectRequested(values, q.season);
    s := Selection(MissingEpisodes, ReviewNeeded, Ids(u), Ids(Matched(u, target, q.season)), [], keys, [], map[]);
    if keys == [] || |keys| != |values| {
      return;
    }
    var byEpisode := PickBest(u, UnusableRule(q.season), EpisodeRule(q.season), Better);
    if byEpisode.Some? {
      s := DecideMissing(s, byEpisode.value);
    }
  }

  method SelectFiles(files: seq<RemoteFile>, q: Request) returns (r: Outcome)
    ensures r == Select(files, q)
  {
    var mode := ResolveMode(q);
    if mode.None? {
      return Refused(UnknownSelectionMode);
    }
    if mode.value == SingleEpisode && |Cleaned(q.episodeKeys)| > 1 && q.target == "" {
      return Refused(ManyTargets);
    }
    var unique := Deduplicate(files);
    if unique.None? {
      return Refused(DuplicateFileIdConflict);
    }
    var u, text := unique.value, TargetText(q);
    var target := if text == "" then None else TargetParts(text);
    if text != "" && target.None? {
      return Refused(InvalidTargetEpisode);
    }
    if mode.value == MissingEpisodes {
      var s := SelectMissingFiles(u, target, q);
      return Chosen(s);
    } else if mode.value == WholeShare {
      var best := PickBest(u, (f: RemoteFile) => false, WholeRule(q.season), Better);
      var m := best.value;
      return Chosen(Selection(WholeShare, WholeChosen, Ids(u), Ids(Matched(u, target, q.season)), u, [], [],
                              map k | k in m :: m[k].id));
    } else {
      return Chosen(SelectIn(mode.value, u, target, q));
    }
  }

  // ---------- assert_selection_scope ----------

  datatype GuardFailure =
    | FileSelectionReview
    | NoMatchingFile
    | SelectionTooBroad
    | ScopeViolation
    | MissingSelectionInvalid
    | WholeShareInvalid
    | CollectionNamesMissing
    | CollectionInvalid

  /** `dict.fromkeys`: each value at its first place. */
  function FirstPlaces(s: seq<string>): seq<string> {
    if s == [] then [] else
      var before, last := FirstPlaces(s[..|s| - 1]), s[|s| - 1];
      if last in before then before else before + [last]
  }

  function MappedIds(keys: seq<Key>, m: map<Key, string>): (r: seq<string>)
    ensures |r| == |keys|
  {
    seq(|keys|, i requires 0 <= i < |keys| => if keys[i] in m then m[keys[i]] else "")
  }

  predicate Within(a: seq<string>, b: seq<string>) {
    forall x | x in a :: x in b
  }

  /** The selected ids the guard looks at: each once, blank ones dropped. */
  function FinalIds(s: Selection): seq<string> {
    FirstPlaces(Ids(s.selected))
  }

  function GuardSingle(s: Selection): Option<GuardFailure> {
    if s.choice == ReviewNeeded then Some(FileSelectionReview)
    else if s.choice == EpisodeMismatch || FinalIds(s) == [] then Some(NoMatchingFile)
    else if |FinalIds(s)| != 1 then Some(SelectionTooBroad)
    else if !Within(FinalIds(s), s.matchedIds) then Some(ScopeViolation)
    else None
  }

  predicate MissingInvalid(s: Selection) {
    var wanted := MappedIds(s.requestedKeys, s.fileMap);
    || s.choice != MissingChosen || s.requestedKeys == [] || s.selectedKeys != s.requestedKeys
    || s.fileMap.Keys != (set k | k in s.requestedKeys) || "" in wanted || FinalIds(s) != wanted
    || !Distinct(FinalIds(s)) || |s.selected| != |s.requestedKeys| || !Within(FinalIds(s), s.uniqueIds)
  }

  function GuardMissing(s: Selection): Option<GuardFailure> {
    if s.choice == ReviewNeeded then Some(FileSelectionReview)
    else if s.choice == EpisodeMismatch then Some(NoMatchingFile)
    else if MissingInvalid(s) then Some(MissingSelectionInvalid)
    else None
  }

  function GuardWhole(s: Selection): Option<GuardFailure> {
    if FinalIds(s) == [] || !Within(FinalIds(s), s.uniqueIds) then Some(WholeShareInvalid) else None
  }

  function GuardCollection(s: Selection): Option<GuardFailure> {
    if s.choice == CollectionMismatch then Some(CollectionNamesMissing)
    else if FinalIds(s) == [] || !Within(FinalIds(s), s.uniqueIds) then Some(CollectionInvalid)
    else None
  }

  /** None when the check passes. */
  function Guard(s: Selection): Option<GuardFailure> {
    match s.mode
    case SingleEpisode => GuardSingle(s)
    case MissingEpisodes => GuardMissing(s)
    case WholeShare => GuardWhole(s)
    case Collection => GuardCollection(s)
  }

  // ---------- selector and guard agree ----------

  lemma {:induction false} FirstPlacesDistinct(s: seq<string>)
    requires Distinct(s)
    ensures FirstPlaces(s) == s
  {
    if s != [] {
      FirstPlacesDistinct(s[..|s| - 1]);
    }
  }

  lemma {:induction false} RequestedDistinct(values: seq<string>, season: Option<int>)
    ensures Distinct(RequestedKeys(values, season))
    ensures |RequestedKeys(values, season)| <= |values|
  {
    if values != [] {
      RequestedDistinct(values[..|values| - 1], season);
    }
  }

  lemma {:induction false} IdsOfIdentified(files: seq<RemoteFile>)
    requires forall i | 0 <= i < |files| :: files[i].id != ""
    ensures |Ids(files)| == |files| && forall i | 0 <= i < |files| :: Ids(files)[i] == files[i].id
  {
    if files != [] {
      var front := files[..|files| - 1];
      assert files == front + [files[|files| - 1]];
      IdsOfIdentified(front);
    }
  }

  lemma IdsIn(files: seq<RemoteFile>, f: RemoteFile)
    requires f in files && f.id != ""
    ensures f.id in Ids(files)
  {
    GatherIn(files, IdOf, f.id);
  }

  /** The map of an unambiguous share: exactly the episodes that some file shows, each with its best file. */
  lemma EpisodeMapExact(u: seq<RemoteFile>, season: Option<int>, k: Key)
    requires DistinctFiles(u) && EpisodeMap(u, season).Some?
    ensures var m := EpisodeMap(u, season).value;
            && (k in m <==> exists f :: f in u && SoleKey(f.name, season) == Some(k))
            && (k in m ==> IsBest(u, EpisodeRule(season), Better, k, m[k]) && m[k].id != "" && !Unusable(m[k], season))
  {
    var m := EpisodeMap(u, season).value;
    RanksDistinctFiles(u);
    BestPerKeyFrom(u, EpisodeRule(season), Better, k);
    if k in m {
      BestPerKeyIsBest(u, EpisodeRule(season), Better, k);
    }
    if f :| f in u && SoleKey(f.name, season) == Some(k) {
      assert EpisodeRule(season)(f) == Some(k);
    }
  }

  /** Files of different episodes have different names, so the shared-name test of MISSING_EPISODES never fires. */
  lemma SharedNamesNever(u: seq<RemoteFile>, season: Option<int>, keys: seq<Key>)
    requires DistinctFiles(u) && EpisodeMap(u, season).Some?
    ensures !SharesName(keys, EpisodeMap(u, season).value)
  {
    var m := EpisodeMap(u, season).value;
    forall k, k1 | k in keys && k in m && k1 in m && k1 != k
      ensures m[k1].name != m[k].name
    {
      EpisodeMapExact(u, season, k);
      EpisodeMapExact(u, season, k1);
    }
  }

  /** What a MISSING_EPISODES selection amounts to: the requested keys, all different, are matched one to one, in
      request order, with listed files; each file shows exactly its episode, carries a remote id and is outranked by no
      other. */
  ghost predicate OneToOne(u: seq<RemoteFile>, q: Request, s: Selection) {
    && s.requestedKeys != [] && Distinct(s.requestedKeys) && s.selectedKeys == s.requestedKeys
    && |s.selected| == |s.requestedKeys|
    && s.fileMap.Keys == (set k | k in s.requestedKeys)
    && (forall i | 0 <= i < |s.selected| ::
          && s.selected[i].id != "" && s.fileMap[s.requestedKeys[i]] == s.selected[i].id
          && IsBest(u, EpisodeRule(q.season), Better, s.requestedKeys[i], s.selected[i]))
    && (forall i, j | 0 <= i < j < |s.selected| :: s.selected[i].id != s.selected[j].id)
  }

  lemma DifferentFilesDifferentIds(u: seq<RemoteFile>, f: RemoteFile, g: RemoteFile)
    requires DistinctFiles(u) && f in u && g in u && f != g && f.id != "" && g.id != ""
    ensures f.id != g.id
  {
  }

  lemma PickedIsOneToOne(u: seq<RemoteFile>, q: Request, s: Selection, m: map<Key, RemoteFile>)
    requires DistinctFiles(u) && EpisodeMap(u, q.season) == Some(m)
    requires s.requestedKeys != [] && Distinct(s.requestedKeys) && s.selectedKeys == s.requestedKeys
    requires forall k | k in s.requestedKeys :: k in m
    requires s.selected == FilesFor(s.requestedKeys, m) && s.fileMap == IdMap(s.requestedKeys, m)
    ensures OneToOne(u, q, s)
  {
    var keys := s.requestedKeys;
    forall i | 0 <= i < |keys|
      ensures IsBest(u, EpisodeRule(q.season), Better, keys[i], s.selected[i]) && s.selected[i].id != ""
      ensures keys[i] in s.fileMap && s.fileMap[keys[i]] == s.selected[i].id
    {
      assert keys[i] in keys;
      EpisodeMapExact(u, q.season, keys[i]);
    }
    forall i, j | 0 <= i < j < |keys|
      ensures s.selected[i].id != s.selected[j].id
    {
      assert EpisodeRule(q.season)(s.selected[i]) != EpisodeRule(q.season)(s.selected[j]);
      DifferentFilesDifferentIds(u, s.selected[i], s.selected[j]);
    }
  }

  lemma MissingIsOneToOne(u: seq<RemoteFile>, target: Option<Token>, q: Request)
    requires DistinctFiles(u)
    ensures var s := SelectMissing(u, target, q);
            s.choice == MissingChosen ==> OneToOne(u, q, s)
  {
    var s := SelectMissing(u, target, q);
    if s.choice == MissingChosen {
      RequestedDistinct(Cleaned(q.episodeKeys), q.season);
      PickedIsOneToOne(u, q, s, EpisodeMap(u, q.season).value);
    }
  }

  lemma MappedIdsMatch(files: seq<RemoteFile>, keys: seq<Key>, m: map<Key, string>)
    requires |files| == |keys|
    requires forall i | 0 <= i < |files| :: files[i].id != "" && keys[i] in m && m[keys[i]] == files[i].id
    requires forall i, j | 0 <= i < j < |files| :: files[i].id != files[j].id
    ensures FirstPlaces(Ids(files)) == Ids(files) == MappedIds(keys, m)
    ensures Distinct(Ids(files)) && "" !in Ids(files)
  {
    IdsOfIdentified(files);
    FirstPlacesDistinct(Ids(files));
  }

  lemma OneToOneIds(u: seq<RemoteFile>, q: Request, s: Selection)
    requires OneToOne(u, q, s)
    ensures FinalIds(s) == Ids(s.selected) == MappedIds(s.requestedKeys, s.fileMap)
    ensures Distinct(FinalIds(s)) && "" !in FinalIds(s)
  {
    forall i | 0 <= i < |s.selected|
      ensures s.requestedKeys[i] in s.fileMap
    {
      assert s.requestedKeys[i] in s.requestedKeys;
    }
    MappedIdsMatch(s.selected, s.requestedKeys, s.fileMap);
  }

  lemma OneToOneWithin(u: seq<RemoteFile>, q: Request, s: Selection)
    requires OneToOne(u, q, s)
    ensures Within(Ids(s.selected), Ids(u))
  {
    forall x | x in Ids(s.selected)
      ensures x in Ids(u)
    {
      GatherIn(s.selected, IdOf, x);
      var i :| 0 <= i < |s.selected| && IdOf(s.selected[i]) == Some(x);
      IdsIn(u, s.selected[i]);
    }
  }

  /** The guard accepts every such selection. */
  lemma OneToOneAccepted(u: seq<RemoteFile>, q: Request, s: Selection)
    requires OneToOne(u, q, s) && s.choice == MissingChosen && s.uniqueIds == Ids(u)
    ensures GuardMissing(s) == None
  {
    OneToOneIds(u, q, s);
    OneToOneWithin(u, q, s);
  }

  lemma MissingShape(u: seq<RemoteFile>, target: Option<Token>, q: Request)
    ensures var s := SelectMissing(u, target, q);
            && s.mode == MissingEpisodes && s.uniqueIds == Ids(u)
            && (s.choice == ReviewNeeded || s.choice == EpisodeMismatch || s.choice == MissingChosen)
  {
  }

  /** Selector and guard agree on every MISSING_EPISODES request: the guard passes exactly when the selector decided
      MISSING_EPISODES, and then the selection is one to one. */
  lemma MissingGuardAgrees(u: seq<RemoteFile>, target: Option<Token>, q: Request, s: Selection)
    requires DistinctFiles(u) && s == SelectMissing(u, target, q)
    ensures GuardMissing(s) == None <==> s.choice == MissingChosen
    ensures s.choice == MissingChosen ==> OneToOne(u, q, s)
  {
    MissingShape(u, target, q);
    MissingIsOneToOne(u, target, q);
    if s.choice == MissingChosen {
      OneToOneAccepted(u, q, s);
    }
  }

  /** Some file of the share shows exactly this episode. */
  predicate Shown(u: seq<RemoteFile>, season: Option<int>, k: Key) {
    exists f :: f in u && SoleKey(f.name, season) == Some(k)
  }

  /** When the selector decides MISSING_EPISODES and when EPISODE_MISMATCH, in terms of the listing alone; all other
      requests end in review. */
  lemma MissingChosenIff(u: seq<RemoteFile>, target: Option<Token>, q: Request)
    requires DistinctFiles(u)
    ensures var keys := RequestedKeys(Cleaned(q.episodeKeys), q.season);
            SelectMissing(u, target, q).choice == MissingChosen <==>
            && keys != [] && |keys| == |Cleaned(q.episodeKeys)|
            && (forall f | f in u :: !Unusable(f, q.season))
            && (forall k | k in keys :: Shown(u, q.season, k))
    ensures var keys := RequestedKeys(Cleaned(q.episodeKeys), q.season);
            SelectMissing(u, target, q).choice == EpisodeMismatch <==>
            && keys != [] && |keys| == |Cleaned(q.episodeKeys)|
            && (forall f | f in u :: !Unusable(f, q.season))
            && (exists k :: k in keys && !Shown(u, q.season, k))
  {
    var keys := RequestedKeys(Cleaned(q.episodeKeys), q.season);
    if EpisodeMap(u, q.season).Some? {
      SharedNamesNever(u, q.season, keys);
      forall k | k in keys
        ensures k in EpisodeMap(u, q.season).value <==> Shown(u, q.season, k)
      {
        EpisodeMapExact(u, q.season, k);
      }
    }
  }

  /** Under a season of three digits every file is unusable, so a request for missing episodes of a share that has any
      video always ends in review. */
  lemma WideSeasonsNeverSelected(u: seq<RemoteFile>, target: Option<Token>, q: Request)
    requires u != [] && q.season.Some? && q.season.value >= 100
    ensures SelectMissing(u, target, q).choice == ReviewNeeded
  {
    var f := u[0];
    assert f in u;
    var key := SoleKey(f.name, q.season);
    if key.Some? {
      SliceOfFormatted(key.value);
    }
    assert Unusable(f, q.season);
  }

  lemma PreferredIsBest(files: seq<RemoteFile>)
    requires files != [] && Ranks(files, Better)
    ensures Preferred(files) in files
    ensures forall g | g in files :: g == Preferred(files) || Better(Preferred(files), g)
  {
    assert AnyRule()(files[0]) == Some(()) && files[0] in files;
    BestPerKeyFrom(files, AnyRule(), Better, ());
    BestPerKeyIsBest(files, AnyRule(), Better, ());
    assert forall g | g in files :: AnyRule()(g) == Some(());
  }

  lemma MatchedIn(u: seq<RemoteFile>, target: Token, season: Option<int>, f: RemoteFile)
    ensures f in Matched(u, Some(target), season) <==>
            f in u && Matches(Key(target.season, target.episode), season, f.name)
  {
    GatherIn(u, MatchRule(target, season), f);
  }

  /** The file a SINGLE_EPISODE request ends up with: the best of all matching files. */
  lemma SingleIsBest(u: seq<RemoteFile>, target: Token, q: Request)
    requires DistinctFiles(u)
    ensures var s := SelectSingle(u, Some(target), q);
            && (s.choice == EpisodeMismatch <==>
                forall f | f in u :: !Matches(Key(target.season, target.episode), q.season, f.name))
            && (s.choice != EpisodeMismatch ==>
                |s.selected| == 1 && IsBest(u, MatchRuleUnit(target, q.season), Better, (), s.selected[0]))
  {
    var matched := Matched(u, Some(target), q.season);
    RanksDistinctFiles(u);
    forall f
      ensures f in matched <==> f in u && Matches(Key(target.season, target.episode), q.season, f.name)
    {
      MatchedIn(u, target, q.season, f);
    }
    if matched != [] {
      assert matched[0] in matched;
      assert Ranks(matched, Better);
      PreferredIsBest(matched);
    }
  }

  function MatchRuleUnit(target: Token, season: Option<int>): RemoteFile -> Option<()> {
    (f: RemoteFile) => if Matches(Key(target.season, target.episode), season, f.name) then Some(()) else None
  }

  lemma SingletonIds(f: RemoteFile)
    ensures FirstPlaces(Ids([f])) == if f.id != "" then [f.id] else []
  {
    assert [f][..0] == [];
    assert Gather([f], IdOf) == Gather([], IdOf) + (if f.id != "" then [f.id] else []);
    if f.id != "" {
      FirstPlacesDistinct([f.id]);
    }
  }

  lemma PreferredListed(files: seq<RemoteFile>)
    requires files != []
    ensures Preferred(files) in files
  {
    assert AnyRule()(files[0]) == Some(()) && files[0] in files;
    BestPerKeyFrom(files, AnyRule(), Better, ());
  }

  lemma SingleShape(u: seq<RemoteFile>, target: Option<Token>, q: Request)
    ensures var s, matched := SelectSingle(u, target, q), Matched(u, target, q.season);
            && s.mode == SingleEpisode && s.matchedIds == Ids(matched) && s.choice != ReviewNeeded
            && (s.choice == EpisodeMismatch <==> matched == [])
            && (s.choice != EpisodeMismatch ==> |s.selected| == 1 && s.selected[0] in matched)
  {
    var matched := Matched(u, target, q.season);
    if |matched| > 1 {
      PreferredListed(matched);
    }
  }

  lemma GuardOfOne(s: Selection, file: RemoteFile, matched: seq<RemoteFile>)
    requires s.choice != ReviewNeeded && s.choice != EpisodeMismatch
    requires s.selected == [file] && file in matched && s.matchedIds == Ids(matched)
    ensures GuardSingle(s) == None <==> file.id != ""
  {
    SingletonIds(file);
    if file.id != "" {
      IdsIn(matched, file);
    }
  }

  /** On SINGLE_EPISODE requests the guard passes exactly when a file was chosen and that file has a remote id. */
  lemma SingleGuardAgrees(u: seq<RemoteFile>, target: Option<Token>, q: Request, s: Selection)
    requires s == SelectSingle(u, target, q)
    ensures GuardSingle(s) == None <==> s.choice != EpisodeMismatch && s.selected[0].id != ""
    ensures s.choice != EpisodeMismatch ==> |s.selected| == 1
  {
    SingleShape(u, target, q);
    if s.choice != EpisodeMismatch {
      assert s.selected == [s.selected[0]];
      GuardOfOne(s, s.selected[0], Matched(u, target, q.season));
    }
  }

  lemma {:induction false} FirstPlacesIn(s: seq<string>)
    ensures forall x :: x in FirstPlaces(s) <==> x in s
  {
    if s != [] {
      FirstPlacesIn(s[..|s| - 1]);
      assert s == s[..|s| - 1] + [s[|s| - 1]];
    }
  }

  /** Selected files taken from the share pass the subset test; what remains is that one of them has a remote id. */
  lemma GuardOfSome(selected: seq<RemoteFile>, u: seq<RemoteFile>)
    requires forall f | f in selected :: f in u
    ensures var ids := FirstPlaces(Ids(selected));
            Within(ids, Ids(u)) && (ids == [] <==> forall f | f in selected :: f.id == "")
  {
    var ids := FirstPlaces(Ids(selected));
    FirstPlacesIn(Ids(selected));
    forall x | x in ids
      ensures x in Ids(u) && exists f :: f in selected && f.id == x && f.id != ""
    {
      GatherIn(selected, IdOf, x);
      var i :| 0 <= i < |selected| && IdOf(selected[i]) == Some(x);
      IdsIn(u, selected[i]);
    }
    forall f | f in selected && f.id != ""
      ensures f.id in ids
    {
      IdsIn(selected, f);
    }
    assert ids != [] ==> ids[0] in ids;
  }

  /** A whole share maps every episode that some identified file of the season shows, to the best such file. */
  lemma WholeMapIsBest(u: seq<RemoteFile>, target: Option<Token>, q: Request, k: Key)
    requires DistinctFiles(u)
    ensures var m, best := SelectWhole(u, target, q).fileMap, BestPerKey(u, WholeRule(q.season), Better);
            && (k in m <==> exists f :: f in u && WholeRule(q.season)(f) == Some(k))
            && (k in m ==> k in best && m[k] == best[k].id != "" && IsBest(u, WholeRule(q.season), Better, k, best[k]))
  {
    RanksDistinctFiles(u);
    BestPerKeyFrom(u, WholeRule(q.season), Better, k);
    if k in BestPerKey(u, WholeRule(q.season), Better) {
      BestPerKeyIsBest(u, WholeRule(q.season), Better, k);
    }
  }

  lemma WholeGuardAgrees(u: seq<RemoteFile>, target: Option<Token>, q: Request)
    ensures GuardWhole(SelectWhole(u, target, q)) == None <==> exists f :: f in u && f.id != ""
  {
    GuardOfSome(u, u);
  }

  lemma CollectionGuardAgrees(u: seq<RemoteFile>, target: Option<Token>, q: Request, s: Selection)
    requires s == SelectCollection(u, target, q)
    ensures GuardCollection(s) == None <==> s.choice == CollectionChosen && exists f :: f in s.selected && f.id != ""
  {
    forall f | f in s.selected
      ensures f in u
    {
      var ids := Cleaned(q.selectedIds);
      var names :=
        if ids == [] && Cleaned(q.selectedNames) == [] then Cleaned(q.wantedNames) else Cleaned(q.selectedNames);
      GatherIn(u, WantedRule(ids, names), f);
    }
    GuardOfSome(s.selected, u);
  }

  /** When the selection is safe to transfer, mode by mode. */
  ghost predicate Transferable(u: seq<RemoteFile>, q: Request, s: Selection) {
    match s.mode
    case SingleEpisode => s.choice != EpisodeMismatch && |s.selected| == 1 && s.selected[0].id != ""
    case MissingEpisodes => s.choice == MissingChosen && OneToOne(u, q, s)
    case WholeShare => exists f :: f in u && f.id != ""
    case Collection => s.choice == CollectionChosen && exists f :: f in s.selected && f.id != ""
  }

  /** The independent check accepts a selection exactly when it is safe, whatever the listing and the request. */
  lemma GuardAgrees(files: seq<RemoteFile>, q: Request)
    requires Select(files, q).Chosen?
    ensures Guard(Select(files, q).selection) == None <==>
            Transferable(Dedup(files).value, q, Select(files, q).selection)
  {
    var s, u := Select(files, q).selection, Dedup(files).value;
    var target := if TargetText(q) == "" then None else TargetParts(TargetText(q));
    DedupRepresents(files);
    match ResolveMode(q).value
    case SingleEpisode => SingleGuardAgrees(u, target, q, s); SingleShape(u, target, q);
    case MissingEpisodes => MissingGuardAgrees(u, target, q, s); MissingShape(u, target, q);
    case WholeShare => WholeGuardAgrees(u, target, q);
    case Collection => CollectionGuardAgrees(u, target, q, s);
  }
}
