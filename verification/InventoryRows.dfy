/** What the write boundary, the planner and a promotion leave in the table, row by row
    (app/transfer/cloud_inventory_service.py). */
module InventoryRows {
  import opened PyText
  import opened Gathering
  import opened EpisodeKeys
  import opened EpisodeMatcher
  import opened Reconciliation
  import opened CloudInventory

  // ---------- upsert_verified_transfer ----------

  /** The episode a request is about: its key as it reads under the season, or else the only key of its file name. */
  predicate AboutKey(request: Request, k: Key) {
    request.season.Some? &&
    var given := KeyOf(request.season, TextValue(request.episodeKey));
    if request.episodeKey != "" && given.Some? then given == Some(k)
    else FileKeys(request.fileName, request.season) == {k}
  }

  /** A text, or the number where it is blank. */
  predicate TextOr(result: string, text: string, n: int) {
    if Strip(text) == "" then result == IntText(n) else result == Strip(text)
  }

  /** What the row of a written request says. */
  predicate RowSays(row: Row, request: Request, k: Key, before: Option<string>, cleaner: string -> string)
    requires request.tmdbId.Some?
  {
    && row.tmdbId == request.tmdbId && Some(row.season) == request.season && row.episode == k.episode
    && TextOr(row.title, request.title, request.tmdbId.value)
    && TextOr(row.cleanTitle, cleaner(row.title), request.tmdbId.value)
    && row.fileName == request.fileName.text
    && row.relPath == if request.relPath.Some? then request.relPath else before
  }

  /** The row has the identity of the request. */
  predicate HasIdentity(row: Row, request: Request, k: Key) {
    row.tmdbId.Some? && row.tmdbId == request.tmdbId && Some(row.season) == request.season && row.episode == k.episode
  }

  /** What a write does to the table, said of its rows. */
  ghost predicate Written(rows: seq<Row>, after: seq<Row>, request: Request, k: Key, outcome: Outcome,
                          cleaner: string -> string)
    requires request.tmdbId.Some?
  {
    match outcome
    case Inserted =>
      && (forall i | 0 <= i < |rows| :: !HasIdentity(rows[i], request, k))
      && |after| == |rows| + 1 && after[..|rows|] == rows && RowSays(after[|rows|], request, k, None, cleaner)
    case Updated =>
      |after| == |rows| && exists i ::
        && SoleRow(rows, i, request, k) && after == rows[i := after[i]] && after[i] != rows[i]
        && RowSays(after[i], request, k, rows[i].relPath, cleaner)
    case Unchanged =>
      after == rows && exists i ::
        SoleRow(rows, i, request, k) && RowSays(rows[i], request, k, rows[i].relPath, cleaner)
    case AmbiguousIdentity =>
      after == rows && exists i, j ::
        0 <= i < j < |rows| && HasIdentity(rows[i], request, k) && HasIdentity(rows[j], request, k)
    case Skipped(_) => false
  }

  ghost predicate SoleRow(rows: seq<Row>, i: int, request: Request, k: Key) {
    0 <= i < |rows| && HasIdentity(rows[i], request, k) &&
    forall j | 0 <= j < |rows| && j != i :: !HasIdentity(rows[j], request, k)
  }

  lemma {:induction false} MatchingExact(rows: seq<Row>, id: Ident)
    ensures forall i: nat :: i in Matching(rows, id) <==> i < |rows| && IdentOf(rows[i]) == Some(id)
    ensures forall a, b | 0 <= a < b < |Matching(rows, id)| :: Matching(rows, id)[a] < Matching(rows, id)[b]
  {
    if rows != [] {
      var n := |rows| - 1;
      var front := rows[..n];
      MatchingExact(front, id);
      assert forall i | 0 <= i < n :: front[i] == rows[i];
      assert forall a | 0 <= a < |Matching(front, id)| :: Matching(front, id)[a] in Matching(front, id);
    }
  }

  lemma ResolvedSays(request: Request)
    requires Resolve(request).Resolved?
    ensures var e := Resolve(request).entry;
            && request.tmdbId == Some(e.tmdbId) && request.season == Some(e.season) && e.episode == e.key.episode
            && AboutKey(request, e.key) && TextOr(e.title, request.title, e.tmdbId)
            && e.fileName == request.fileName && e.relPath == request.relPath
  {
    SoleKeyIsSingleton(request.fileName, request.season);
  }

  lemma MergedSays(before: Option<Row>, e: InventoryEntry, request: Request, cleaner: string -> string)
    requires Resolve(request) == Resolved(e)
    ensures RowSays(Merged(before, e, cleaner), request, e.key, if before.Some? then before.value.relPath else None,
                    cleaner)
  {
    ResolvedSays(request);
  }

  lemma SameSays(row: Row, e: InventoryEntry, request: Request, cleaner: string -> string)
    requires Resolve(request) == Resolved(e) && IdentOf(row) == Some(EntryIdent(e))
    ensures Differs(row, e, cleaner) <==> Merged(Some(row), e, cleaner) != row
  {
    var merged := Merged(Some(row), e, cleaner);
    assert (merged.tmdbId, merged.season, merged.episode) == (row.tmdbId, row.season, row.episode);
    assert Differs(row, e, cleaner) <==>
           (merged.title, merged.cleanTitle, merged.fileName, merged.relPath) !=
           (row.title, row.cleanTitle, row.fileName, row.relPath);
  }

  lemma IdentityIsIdent(row: Row, e: InventoryEntry, request: Request)
    requires Resolve(request) == Resolved(e)
    ensures HasIdentity(row, request, e.key) <==> IdentOf(row) == Some(EntryIdent(e))
  {
    ResolvedSays(request);
  }

  /** A request that is not refused is about one episode.  INSERTED appends the row it describes where its identity had
      none; UPDATED turns the only row of the identity into that row, which it was not before; UNCHANGED means that it
      was; and where the identity has two rows nothing is written. */
  lemma UpsertWrites(rows: seq<Row>, request: Request, cleaner: string -> string)
    requires !Upsert(rows, request, cleaner).0.Skipped?
    ensures request.tmdbId.Some?
    ensures var (outcome, after) := Upsert(rows, request, cleaner);
            exists k :: AboutKey(request, k) && Written(rows, after, request, k, outcome, cleaner)
  {
    var e := Resolve(request).entry;
    var (outcome, after) := Upsert(rows, request, cleaner);
    ResolvedSays(request);
    StoreWrites(rows, request, e, cleaner);
    assert AboutKey(request, e.key) && Written(rows, after, request, e.key, outcome, cleaner);
  }

  lemma StoreWrites(rows: seq<Row>, request: Request, e: InventoryEntry, cleaner: string -> string)
    requires Resolve(request) == Resolved(e)
    ensures request.tmdbId.Some?
    ensures var (outcome, after) := Store(rows, e, cleaner); Written(rows, after, request, e.key, outcome, cleaner)
  {
    var id := EntryIdent(e);
    var found := Matching(rows, id);
    MatchingExact(rows, id);
    forall i: nat | i < |rows|
      ensures HasIdentity(rows[i], request, e.key) <==> i in found
    {
      IdentityIsIdent(rows[i], e, request);
    }
    ResolvedSays(request);
    if |found| > 1 {
      assert found[0] in found && found[1] in found;
    } else if |found| == 0 {
      MergedSays(None, e, request, cleaner);
    } else {
      var i := found[0];
      assert i in found && SoleRow(rows, i, request, e.key);
      MergedSays(Some(rows[i]), e, request, cleaner);
      SameSays(rows[i], e, request, cleaner);
    }
  }

  /** Its season does not fit three digits, or is not what a slice of the key makes of the season given. */
  ghost predicate AboutForeignKey(request: Request) {
    exists k: Key :: AboutKey(request, k) && k.season >= 0 &&
                     (k.season >= 1000 || Some(k.Slice() as int) != request.season)
  }

  /** The refusals, each with its reason, in order. */
  lemma UpsertRefuses(rows: seq<Row>, request: Request, cleaner: string -> string)
    ensures var (outcome, after) := Upsert(rows, request, cleaner);
            var a, b := !request.verified, request.tmdbId.None? || request.tmdbId.value <= 0;
            var c := request.season.None? || request.season.value <= 0;
            var d, e := request.fileName.text == "" || !request.fileName.isVideo, forall k :: !AboutKey(request, k);
            && (outcome == Skipped(ReadbackNotVerified) <==> a)
            && (outcome == Skipped(TmdbIdRequired) <==> !a && b)
            && (outcome == Skipped(SeasonRequired) <==> !a && !b && c)
            && (outcome == Skipped(VideoFilenameRequired) <==> !a && !b && !c && d)
            && (outcome == Skipped(EpisodeKeyNotUnambiguous) <==> !a && !b && !c && !d && e)
            && (outcome == Skipped(EpisodeSeasonMismatch) <==> !a && !b && !c && !d && !e && AboutForeignKey(request))
            && (outcome.Skipped? ==> after == rows)
  {
    if request.season.Some? {
      forall k
        ensures RequestKey(request, request.season.value) == Some(k) <==> AboutKey(request, k)
      {
        SoleKeyIsSingleton(request.fileName, request.season);
      }
    }
  }

  // ---------- slashes ----------

  predicate OnlySlashes(s: string) {
    forall i | 0 <= i < |s| :: s[i] == '/'
  }

  /** No slash at either end. */
  predicate Bare(s: string) {
    s != "" ==> s[0] != '/' && s[|s| - 1] != '/'
  }

  /** `strip("/")` takes off the slashes at both ends and nothing else. */
  lemma {:induction false} StripSlashesExact(s: string) returns (front: string, back: string)
    ensures s == front + StripSlashes(s) + back && OnlySlashes(front) && OnlySlashes(back) && Bare(StripSlashes(s))
    decreases |s|
  {
    if s != "" && s[0] == '/' {
      var front1;
      front1, back := StripSlashesExact(s[1..]);
      front := "/" + front1;
      assert s == "/" + s[1..];
    } else if s != "" && s[|s| - 1] == '/' {
      var back1;
      front, back1 := StripSlashesExact(s[..|s| - 1]);
      back := back1 + "/";
      assert s == s[..|s| - 1] + "/";
    } else {
      front, back := "", "";
    }
  }

  lemma BareStays(s: string)
    requires Bare(s)
    ensures StripSlashes(s) == s
  {
  }

  // ---------- what the planner proposes ----------

  /** The entry of a listed item: a named video that shows just one episode, sliced to the season of the plan. */
  predicate EntryFor(item: CloudItem, args: PlanArgs, e: InventoryEntry) {
    && item.name.text != "" && item.name.isVideo
    && 0 <= e.key.season < 1000 && FileKeys(item.name, Some(args.season)) == {e.key} && e.key.Slice() == args.season
    && e.episode == e.key.episode
    && (e.tmdbId, e.title, e.season) == (args.tmdbId, args.title, args.season)
    && (e.fileName, e.remoteId) == (item.name, item.id)
    && e.relPath == if PrefixOf(args) == "" then None else Some(PrefixOf(args) + "/" + item.name.text)
  }

  function PrefixOf(args: PlanArgs): string {
    if args.pathPrefix.None? then "" else StripSlashes(args.pathPrefix.value)
  }

  lemma EntriesFromItems(items: seq<CloudItem>, args: PlanArgs, e: InventoryEntry)
    ensures e in Entries(items, args) <==> exists i :: 0 <= i < |items| && EntryFor(items[i], args, e)
  {
    GatherIn(items, AcceptRule(args), e);
    forall i | 0 <= i < |items|
      ensures AcceptRule(args)(items[i]) == Some(e) <==> EntryFor(items[i], args, e)
    {
      SoleKeyIsSingleton(items[i].name, Some(args.season));
    }
  }

  /** The observed entries run by season and then by episode. */
  lemma PlannedInOrder(items: seq<CloudItem>, args: PlanArgs, i: nat, j: nat)
    requires i < j < |ObservedEntries(Entries(items, args), TallyOf(Entries(items, args)))|
    ensures var es := ObservedEntries(Entries(items, args), TallyOf(Entries(items, args)));
            es[i].key.season < es[j].key.season ||
            (es[i].key.season == es[j].key.season && es[i].episode < es[j].episode)
  {
    var es := ObservedEntries(Entries(items, args), TallyOf(Entries(items, args)));
    assert es[i] in es && es[j] in es;
    EntriesFromItems(items, args, es[i]);
    EntriesFromItems(items, args, es[j]);
  }

  /** What the planner counts as ignored are the named items that are no videos. */
  lemma IgnoredAre(items: seq<CloudItem>)
    ensures |Gather(items, IfNonVideo())| ==
            |set i | 0 <= i < |items| && items[i].name.text != "" && !items[i].name.isVideo|
  {
    GatherCount(items, IfNonVideo());
    assert Yielding(items, IfNonVideo()) ==
           set i | 0 <= i < |items| && items[i].name.text != "" && !items[i].name.isVideo;
  }

  // ---------- the paths of a promoted series ----------

  /** The folder of a promoted series: the destination, or else the series folder, below the completed root; slashes at
      the ends do not count, and what is blank then is left out. */
  lemma PrefixParts(seriesFolder: string, completedRoot: string, destination: string)
    ensures var prefix := PromotedPrefix(seriesFolder, completedRoot, destination);
            var root := StripSlashes(completedRoot);
            var folder := StripSlashes(if destination == "" then seriesFolder else destination);
            prefix == if root == "" then folder else if folder == "" then root else root + "/" + folder
  {
    var root := StripSlashes(completedRoot);
    var folder := StripSlashes(if destination == "" then seriesFolder else destination);
    var _, _ := StripSlashesExact(completedRoot);
    var _, _ := StripSlashesExact(if destination == "" then seriesFolder else destination);
    if completedRoot != "" {
      if root == "" {
        assert (root + "/" + folder)[1..] == folder;
        BareStays(folder);
      } else if folder == "" {
        assert (root + "/" + folder)[..|root|] == root;
        BareStays(root);
      } else {
        BareStays(root + "/" + folder);
      }
    }
  }

  /** Season folders are used unless the relevant seasons are given and name at most one positive season. */
  lemma LayeredIff(relevant: Option<seq<int>>)
    ensures Layered(relevant) <==>
            relevant.None? || exists i, j :: 0 <= i < |relevant.value| && 0 <= j < |relevant.value| &&
                                             0 < relevant.value[i] < relevant.value[j]
  {
    if relevant.Some? {
      var values := relevant.value;
      var positive := set i | 0 <= i < |values| && values[i] > 0 :: values[i];
      if i, j :| 0 <= i < |values| && 0 <= j < |values| && 0 < values[i] < values[j] {
        assert {values[i], values[j]} <= positive;
        SubsetSize({values[i], values[j]}, positive);
      } else if i :| 0 <= i < |values| && values[i] > 0 {
        assert forall x | x in positive :: x == values[i];
        assert positive == {values[i]};
      } else {
        assert positive == {};
      }
    }
  }

  lemma SubsetSize(a: set<int>, b: set<int>)
    requires a <= b
    ensures |a| <= |b|
  {
    assert b == a + (b - a);
  }

  /** The path of a row: folder, season folder where there are any, file name, joined by slashes, blank parts left
      out. */
  lemma PathParts(prefix: string, row: Row)
    ensures var season, name := "S" + Pad2(row.season), Strip(row.fileName);
            && (prefix != "" && name != "" ==>
                  FinalPath(prefix, true, row) == prefix + "/" + season + "/" + name &&
                  FinalPath(prefix, false, row) == prefix + "/" + name)
            && (prefix != "" && name == "" ==>
                  FinalPath(prefix, true, row) == prefix + "/" + season && FinalPath(prefix, false, row) == prefix)
            && (prefix == "" && name != "" ==>
                  FinalPath(prefix, true, row) == season + "/" + name && FinalPath(prefix, false, row) == name)
            && (prefix == "" && name == "" ==>
                  FinalPath(prefix, true, row) == season && FinalPath(prefix, false, row) == "")
  {
  }
}
