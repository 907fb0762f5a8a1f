/** The inventory table, its single write boundary, and the reconciliation planner and executor over it
    (app/transfer/cloud_inventory_service.py). */
module CloudInventory {
  import opened PyText
  import opened Gathering
  import opened EpisodeKeys
  import opened EpisodeMatcher
  import opened Reconciliation

  /** A row of `cloud_disk_inventory`.  A table is its rows in the order of their ids. */
  datatype Row = Row(
    title: string,
    cleanTitle: string,
    tmdbId: Option<int>,
    season: int,
    episode: int,
    fileName: string,
    relPath: Option<string>
  )

  datatype Ident = Ident(tmdbId: int, season: int, episode: int)

  function IdentOf(row: Row): Option<Ident> {
    if row.tmdbId.None? then None else Some(Ident(row.tmdbId.value, row.season, row.episode))
  }

  /** At most one row per (tmdb, season, episode). */
  ghost predicate Unique(rows: seq<Row>) {
    forall i, j | 0 <= i < j < |rows| :: IdentOf(rows[i]).Some? ==> IdentOf(rows[i]) != IdentOf(rows[j])
  }

  /** The last row of an identity. */
  function Lookup(rows: seq<Row>, id: Ident): Option<Row> {
    if rows == [] then None
    else if IdentOf(rows[|rows| - 1]) == Some(id) then Some(rows[|rows| - 1])
    else Lookup(rows[..|rows| - 1], id)
  }

  /** The positions of all rows of an identity. */
  function Matching(rows: seq<Row>, id: Ident): (found: seq<nat>)
    ensures forall k | 0 <= k < |found| :: found[k] < |rows| && IdentOf(rows[found[k]]) == Some(id)
  {
    if rows == [] then [] else
      Matching(rows[..|rows| - 1], id) + (if IdentOf(rows[|rows| - 1]) == Some(id) then [|rows| - 1] else [])
  }

  /** `clean_title(title).strip() or str(tmdb_id)`, for whatever title cleaner is installed. */
  function CleanTitle(cleaner: string -> string, title: string, tmdbId: int): string {
    if Strip(cleaner(title)) != "" then Strip(cleaner(title)) else IntText(tmdbId)
  }

  /** `str(title or "").strip() or str(tmdb_id)`. */
  function NormTitle(title: string, tmdbId: int): string {
    if Strip(title) != "" then Strip(title) else IntText(tmdbId)
  }

  // ---------- upsert_verified_transfer ----------

  datatype Reason = ReadbackNotVerified | TmdbIdRequired | SeasonRequired | VideoFilenameRequired
                  | EpisodeKeyNotUnambiguous | EpisodeSeasonMismatch

  datatype Outcome = Skipped(reason: Reason) | Inserted | Updated | Unchanged | AmbiguousIdentity

  datatype Request = Request(
    tmdbId: Option<int>,
    title: string,
    season: Option<int>,
    fileName: FileName,
    episodeKey: string,
    verified: bool,
    relPath: Option<string>,
    remoteId: Option<string>
  )

  datatype Resolution = Refused(reason: Reason) | Resolved(entry: InventoryEntry)

  /** The key of a request: the given one if it reads as a key, else the sole key of the file name. */
  function RequestKey(request: Request, season: int): Option<Key> {
    var given := if request.episodeKey == "" then None else KeyOf(Some(season), TextValue(request.episodeKey));
    if given.Some? then given else SoleKey(request.fileName, Some(season))
  }

  /** Every check before the table is read. */
  function Resolve(request: Request): Resolution {
    if !request.verified then Refused(ReadbackNotVerified)
    else if request.tmdbId.None? || request.tmdbId.value <= 0 then Refused(TmdbIdRequired)
    else if request.season.None? || request.season.value <= 0 then Refused(SeasonRequired)
    else if request.fileName.text == "" || !request.fileName.isVideo then Refused(VideoFilenameRequired)
    else
      var tmdbId, season := request.tmdbId.value, request.season.value;
      var key := RequestKey(request, season);
      if key.None? then Refused(EpisodeKeyNotUnambiguous)
      else if key.value.season >= 1000 || key.value.Slice() != season then Refused(EpisodeSeasonMismatch)
      else Resolved(InventoryEntry(tmdbId, NormTitle(request.title, tmdbId), season, key.value.episode, key.value,
                                   request.fileName, request.relPath, request.remoteId))
  }

  function EntryIdent(e: InventoryEntry): Ident {
    Ident(e.tmdbId, e.season, e.episode)
  }

  /** The stored row is not what the entry says. */
  predicate Differs(row: Row, e: InventoryEntry, cleaner: string -> string) {
    || row.title != e.title
    || row.cleanTitle != CleanTitle(cleaner, e.title, e.tmdbId)
    || row.fileName != e.fileName.text
    || (e.relPath.Some? && row.relPath != e.relPath)
  }

  /** The row an entry is stored as, over what was there before. */
  function Merged(before: Option<Row>, e: InventoryEntry, cleaner: string -> string): Row {
    Row(e.title, CleanTitle(cleaner, e.title, e.tmdbId), Some(e.tmdbId), e.season, e.episode, e.fileName.text,
        if e.relPath.None? && before.Some? then before.value.relPath else e.relPath)
  }

  /** What the planner predicts for an entry. */
  function Verdict(before: Option<Row>, e: InventoryEntry, cleaner: string -> string): Outcome {
    if before.None? then Inserted else if Differs(before.value, e, cleaner) then Updated else Unchanged
  }

  /** The write itself, on the table as a value. */
  function Store(rows: seq<Row>, e: InventoryEntry, cleaner: string -> string): (Outcome, seq<Row>) {
    var found := Matching(rows, EntryIdent(e));
    if |found| > 1 then (AmbiguousIdentity, rows)
    else if |found| == 0 then (Inserted, rows + [Merged(None, e, cleaner)])
    else
      if Differs(rows[found[0]], e, cleaner) then (Updated, rows[found[0] := Merged(Some(rows[found[0]]), e, cleaner)])
      else (Unchanged, rows)
  }

  function Upsert(rows: seq<Row>, request: Request, cleaner: string -> string): (Outcome, seq<Row>) {
    var r := Resolve(request);
    if r.Refused? then (Skipped(r.reason), rows) else Store(rows, r.entry, cleaner)
  }

  lemma {:induction false} AbsentIdentity(rows: seq<Row>, id: Ident)
    requires forall i | 0 <= i < |rows| :: IdentOf(rows[i]) != Some(id)
    ensures Lookup(rows, id) == None && Matching(rows, id) == []
  {
    if rows != [] {
      AbsentIdentity(rows[..|rows| - 1], id);
    }
  }

  /** In a table without duplicate identities, looking a row up is finding its position. */
  lemma {:induction false} LookupAt(rows: seq<Row>, i: nat, id: Ident)
    requires Unique(rows) && i < |rows| && IdentOf(rows[i]) == Some(id)
    ensures Lookup(rows, id) == Some(rows[i])
  {
    if i < |rows| - 1 {
      LookupAt(rows[..|rows| - 1], i, id);
    }
  }

  lemma {:induction false} NoMatch(rows: seq<Row>, id: Ident)
    requires Matching(rows, id) == []
    ensures forall i | 0 <= i < |rows| :: IdentOf(rows[i]) != Some(id)
  {
    if rows != [] {
      NoMatch(rows[..|rows| - 1], id);
      assert rows == rows[..|rows| - 1] + [rows[|rows| - 1]];
    }
  }

  /** In such a table the identity query finds at most one row, the one looked up. */
  lemma {:induction false} AtMostOneMatch(rows: seq<Row>, id: Ident)
    requires Unique(rows)
    ensures |Matching(rows, id)| <= 1
    ensures Lookup(rows, id) == if Matching(rows, id) == [] then None else Some(rows[Matching(rows, id)[0]])
  {
    if rows != [] {
      var front := rows[..|rows| - 1];
      if IdentOf(rows[|rows| - 1]) == Some(id) {
        AbsentIdentity(front, id);
      } else {
        AtMostOneMatch(front, id);
      }
    }
  }

  /** Rows of other identities stay where and what they are, and no row changes its identity. */
  ghost predicate Kept(rows: seq<Row>, after: seq<Row>, ids: set<Ident>) {
    && |rows| <= |after|
    && (forall i | 0 <= i < |rows| :: IdentOf(after[i]) == IdentOf(rows[i]))
    && (forall i | 0 <= i < |rows| :: after[i] == rows[i] || (IdentOf(rows[i]).Some? && IdentOf(rows[i]).value in ids))
    && (forall i | |rows| <= i < |after| :: IdentOf(after[i]).Some? && IdentOf(after[i]).value in ids)
  }

  lemma AppendRow(rows: seq<Row>, row: Row, id: Ident)
    requires Unique(rows) && IdentOf(row) == Some(id)
    requires forall i | 0 <= i < |rows| :: IdentOf(rows[i]) != Some(id)
    ensures Unique(rows + [row]) && Kept(rows, rows + [row], {id}) && Lookup(rows + [row], id) == Some(row)
  {
    LookupAt(rows + [row], |rows|, id);
  }

  lemma ReplaceRow(rows: seq<Row>, i: nat, row: Row, id: Ident)
    requires Unique(rows) && i < |rows| && IdentOf(rows[i]) == IdentOf(row) == Some(id)
    ensures Unique(rows[i := row]) && Kept(rows, rows[i := row], {id}) && Lookup(rows[i := row], id) == Some(row)
  {
    LookupAt(rows[i := row], i, id);
  }

  /** Where nothing differs, writing the entry would change nothing. */
  lemma SameRow(rows: seq<Row>, i: nat, e: InventoryEntry, cleaner: string -> string)
    requires i < |rows| && IdentOf(rows[i]) == Some(EntryIdent(e)) && !Differs(rows[i], e, cleaner)
    ensures rows[i := Merged(Some(rows[i]), e, cleaner)] == rows
  {
  }

  /** One write into a table without duplicates: it does what the planner predicts, keeps the table free of
      duplicates, and touches the one row only. */
  lemma StoreStep(rows: seq<Row>, e: InventoryEntry, cleaner: string -> string)
    requires Unique(rows)
    ensures var id := EntryIdent(e);
            var (outcome, after) := Store(rows, e, cleaner);
            && outcome == Verdict(Lookup(rows, id), e, cleaner)
            && Unique(after)
            && Kept(rows, after, {id})
            && Lookup(after, id) == Some(Merged(Lookup(rows, id), e, cleaner))
  {
    var id := EntryIdent(e);
    var found := Matching(rows, id);
    AtMostOneMatch(rows, id);
    var row := Merged(Lookup(rows, id), e, cleaner);
    if found == [] {
      NoMatch(rows, id);
      AppendRow(rows, row, id);
    } else {
      ReplaceRow(rows, found[0], row, id);
      if !Differs(rows[found[0]], e, cleaner) {
        SameRow(rows, found[0], e, cleaner);
      }
    }
  }

  /** Identities that were not written read as before. */
  lemma KeptLookup(rows: seq<Row>, after: seq<Row>, ids: set<Ident>, id: Ident)
    requires Unique(rows) && Unique(after) && Kept(rows, after, ids) && id !in ids
    ensures Lookup(after, id) == Lookup(rows, id)
  {
    AtMostOneMatch(rows, id);
    if Matching(rows, id) != [] {
      LookupAt(after, Matching(rows, id)[0], id);
    } else {
      NoMatch(rows, id);
      AbsentIdentity(after, id);
    }
  }

  // ---------- build_reconciliation_plan ----------

  datatype Plan = Plan(
    observed: seq<InventoryEntry>,
    toInsert: seq<InventoryEntry>,
    toUpdate: seq<InventoryEntry>,
    upToDate: seq<InventoryEntry>,
    ambiguous: seq<Key>,
    unparsed: nat,
    ignored: nat
  )

  /** The order of `episode_sort_key`. */
  predicate Before(a: InventoryEntry, b: InventoryEntry) {
    a.key.season < b.key.season || (a.key.season == b.key.season && a.key.episode < b.key.episode)
  }

  ghost predicate Sorted(es: seq<InventoryEntry>) {
    forall i, j | 0 <= i < j < |es| :: !Before(es[j], es[i])
  }

  ghost predicate DistinctEpisodes(es: seq<InventoryEntry>) {
    forall i, j | 0 <= i < j < |es| :: es[i].episode != es[j].episode
  }

  function InsertEntry(e: InventoryEntry, es: seq<InventoryEntry>): (r: seq<InventoryEntry>)
    requires Sorted(es) && DistinctEpisodes(es) && forall x | x in es :: x.episode != e.episode
    ensures Sorted(r) && DistinctEpisodes(r)
    ensures forall x :: x in r <==> x == e || x in es
  {
    if es == [] then [e]
    else if Before(e, es[0]) then [e] + es
    else
      var rest := InsertEntry(e, es[1..]);
      assert forall i | 0 <= i < |rest| :: rest[i] in rest;
      assert forall x | x in es[1..] :: !Before(x, es[0]) && x.episode != es[0].episode;
      [es[0]] + rest
  }

  /** The candidate the loop left for the episode of e is e, and its key was not reported. */
  predicate IsObserved(t: Tally, e: InventoryEntry) {
    Observed(t, e.episode) && t.byEpisode[e.episode] == e
  }

  /** `cloud_observed`: the surviving candidates, sorted. */
  function ObservedEntries(entries: seq<InventoryEntry>, t: Tally): (r: seq<InventoryEntry>)
    ensures Sorted(r) && DistinctEpisodes(r)
    ensures forall e :: e in r <==> e in entries && IsObserved(t, e)
  {
    if entries == [] then [] else
      var last := entries[|entries| - 1];
      var rest := ObservedEntries(entries[..|entries| - 1], t);
      assert entries == entries[..|entries| - 1] + [last];
      if IsObserved(t, last) && last !in rest then InsertEntry(last, rest) else rest
  }

  function VerdictIs(rows: seq<Row>, cleaner: string -> string, outcome: Outcome)
    : InventoryEntry -> Option<InventoryEntry>
  {
    (e: InventoryEntry) => if Verdict(Lookup(rows, EntryIdent(e)), e, cleaner) == outcome then Some(e) else None
  }

  function PlanOf(rows: seq<Row>, items: seq<CloudItem>, args: PlanArgs, cleaner: string -> string, unparsed: nat,
                  ignored: nat): Plan {
    var entries := Entries(items, args);
    var t := TallyOf(entries);
    var observed := ObservedEntries(entries, t);
    Plan(observed,
         Gather(observed, VerdictIs(rows, cleaner, Inserted)),
         Gather(observed, VerdictIs(rows, cleaner, Updated)),
         Gather(observed, VerdictIs(rows, cleaner, Unchanged)),
         t.ambiguous, unparsed, ignored)
  }

  // ---------- apply_reconciliation_plan ----------

  function RequestOf(e: InventoryEntry): Request {
    Request(Some(e.tmdbId), e.title, Some(e.season), e.fileName, e.key.Text(), true, e.relPath, e.remoteId)
  }

  datatype Applied = Applied(rows: seq<Row>, results: seq<Outcome>, raised: bool)

  function Apply(rows: seq<Row>, es: seq<InventoryEntry>, cleaner: string -> string): Applied {
    if es == [] then Applied(rows, [], false) else
      var before := Apply(rows, es[..|es| - 1], cleaner);
      if before.raised then before else
        var (outcome, after) := Upsert(before.rows, RequestOf(es[|es| - 1]), cleaner);
        if outcome == AmbiguousIdentity then Applied(after, before.results, true)
        else Applied(after, before.results + [outcome], false)
  }

  lemma ApplyNext(rows: seq<Row>, es: seq<InventoryEntry>, i: nat, cleaner: string -> string)
    requires i < |es| && !Apply(rows, es[..i], cleaner).raised
    ensures var before := Apply(rows, es[..i], cleaner);
            var (outcome, after) := Upsert(before.rows, RequestOf(es[i]), cleaner);
            Apply(rows, es[..i + 1], cleaner) ==
            if outcome == AmbiguousIdentity then Applied(after, before.results, true)
            else Applied(after, before.results + [outcome], false)
  {
    assert es[..i + 1][..i] == es[..i];
  }

  /** What the planner guarantees of its entries. */
  ghost predicate Planned(e: InventoryEntry) {
    && e.tmdbId > 0 && e.season > 0 && e.title == NormTitle(e.title, e.tmdbId)
    && e.fileName.text != "" && e.fileName.isVideo
    && e.key.episode == e.episode && 1 <= e.key.season < 1000 && 1 <= e.key.episode < 10000 && e.key.Slice() == e.season
  }

  ghost predicate AllPlanned(es: seq<InventoryEntry>) {
    forall i | 0 <= i < |es| :: Planned(es[i])
  }

  /** The executor's own checks never refuse or alter a planned entry. */
  lemma PlannedResolves(e: InventoryEntry)
    requires Planned(e)
    ensures Resolve(RequestOf(e)) == Resolved(e)
  {
    CanonicalFormatted(Some(e.season), e.key.season, e.key.episode);
    assert RequestKey(RequestOf(e), e.season) == Some(e.key);
  }

  function Idents(es: seq<InventoryEntry>): set<Ident> {
    set i | 0 <= i < |es| :: EntryIdent(es[i])
  }

  lemma KeptTransitive(a: seq<Row>, b: seq<Row>, c: seq<Row>, ids: set<Ident>, id: Ident)
    requires Kept(a, b, ids) && Kept(b, c, {id})
    ensures Kept(a, c, ids + {id})
  {
  }

  /** What the planner predicts for entries from the table as it was. */
  function Prediction(rows: seq<Row>, cleaner: string -> string): InventoryEntry -> Outcome {
    (e: InventoryEntry) => Verdict(Lookup(rows, EntryIdent(e)), e, cleaner)
  }

  /** The row an entry will be stored as. */
  function StoredAs(rows: seq<Row>, cleaner: string -> string): InventoryEntry -> Row {
    (e: InventoryEntry) => Merged(Lookup(rows, EntryIdent(e)), e, cleaner)
  }

  /** The outcome of applying a list of entries, entry by entry, is what each of them alone was predicted to do. */
  ghost predicate AsPredicted(rows: seq<Row>, es: seq<InventoryEntry>, cleaner: string -> string, done: Applied) {
    && !done.raised
    && |done.results| == |es|
    && Unique(done.rows)
    && Kept(rows, done.rows, Idents(es))
    && (forall i | 0 <= i < |es| :: done.results[i] == Prediction(rows, cleaner)(es[i]))
    && (forall i | 0 <= i < |es| :: Lookup(done.rows, EntryIdent(es[i])) == Some(StoredAs(rows, cleaner)(es[i])))
  }

  lemma {:induction false} ApplyAsPredicted(rows: seq<Row>, es: seq<InventoryEntry>, cleaner: string -> string)
    requires Unique(rows) && DistinctEpisodes(es) && AllPlanned(es)
    ensures AsPredicted(rows, es, cleaner, Apply(rows, es, cleaner))
  {
    if es != [] {
      ApplyAsPredicted(rows, es[..|es| - 1], cleaner);
      LastApplied(rows, es, cleaner);
    }
  }

  lemma {:induction false} IdentsStep(es: seq<InventoryEntry>)
    requires es != []
    ensures Idents(es) == Idents(es[..|es| - 1]) + {EntryIdent(es[|es| - 1])}
    ensures DistinctEpisodes(es) ==> EntryIdent(es[|es| - 1]) !in Idents(es[..|es| - 1])
  {
  }

  lemma {:induction false} OthersRead(before: seq<Row>, after: seq<Row>, id: Ident, others: seq<InventoryEntry>)
    requires Unique(before) && Unique(after) && Kept(before, after, {id})
    requires forall i | 0 <= i < |others| :: EntryIdent(others[i]) != id
    ensures forall i | 0 <= i < |others| ::
              Lookup(after, EntryIdent(others[i])) == Lookup(before, EntryIdent(others[i]))
  {
    forall i | 0 <= i < |others|
      ensures Lookup(after, EntryIdent(others[i])) == Lookup(before, EntryIdent(others[i]))
    {
      KeptLookup(before, after, {id}, EntryIdent(others[i]));
    }
  }

  /** The write of the last entry, after the others were written. */
  lemma {:induction false} LastWrite(rows: seq<Row>, es: seq<InventoryEntry>, cleaner: string -> string,
                                     before: seq<Row>)
    requires es != [] && DistinctEpisodes(es)
    requires Unique(rows) && Unique(before) && Kept(rows, before, Idents(es[..|es| - 1]))
    ensures var front, last := es[..|es| - 1], es[|es| - 1];
            var (outcome, after) := Store(before, last, cleaner);
            && outcome == Prediction(rows, cleaner)(last) != AmbiguousIdentity
            && Unique(after) && Kept(rows, after, Idents(es))
            && Lookup(after, EntryIdent(last)) == Some(StoredAs(rows, cleaner)(last))
            && forall i | 0 <= i < |front| ::
                 Lookup(after, EntryIdent(front[i])) == Lookup(before, EntryIdent(front[i]))
  {
    var front, last := es[..|es| - 1], es[|es| - 1];
    var id := EntryIdent(last);
    StoreStep(before, last, cleaner);
    var after := Store(before, last, cleaner).1;
    IdentsStep(es);
    KeptLookup(rows, before, Idents(front), id);
    KeptTransitive(rows, before, after, Idents(front), id);
    OthersRead(before, after, id, front);
  }

  lemma {:induction false} LastStored(rows: seq<Row>, es: seq<InventoryEntry>, cleaner: string -> string,
                                      before: Applied, outcome: Outcome, after: seq<Row>)
    requires es != [] && DistinctEpisodes(es)
    requires Unique(rows) && AsPredicted(rows, es[..|es| - 1], cleaner, before)
    requires Store(before.rows, es[|es| - 1], cleaner) == (outcome, after)
    ensures outcome != AmbiguousIdentity
    ensures AsPredicted(rows, es, cleaner, Applied(after, before.results + [outcome], false))
  {
    LastWrite(rows, es, cleaner, before.rows);
  }

  lemma {:induction false} LastApplied(rows: seq<Row>, es: seq<InventoryEntry>, cleaner: string -> string)
    requires es != [] && DistinctEpisodes(es) && Planned(es[|es| - 1])
    requires Unique(rows) && AsPredicted(rows, es[..|es| - 1], cleaner, Apply(rows, es[..|es| - 1], cleaner))
    ensures AsPredicted(rows, es, cleaner, Apply(rows, es, cleaner))
  {
    var before := Apply(rows, es[..|es| - 1], cleaner);
    var (outcome, after) := Store(before.rows, es[|es| - 1], cleaner);
    LastStored(rows, es, cleaner, before, outcome, after);
    PlannedResolves(es[|es| - 1]);
  }

  // ---------- plan and apply agree and converge ----------

  lemma EntriesPlanned(items: seq<CloudItem>, args: PlanArgs, e: InventoryEntry)
    requires args.tmdbId > 0 && args.season > 0 && args.title == NormTitle(args.title, args.tmdbId)
    requires e in Entries(items, args)
    ensures Planned(e) && e.tmdbId == args.tmdbId && e.season == args.season
  {
    EntriesAccepted(items, args, e);
  }

  /** The three lists part the observed entries by what applying them will do. */
  lemma ListedByVerdict(rows: seq<Row>, es: seq<InventoryEntry>, cleaner: string -> string, outcome: Outcome,
                        e: InventoryEntry)
    ensures e in Gather(es, VerdictIs(rows, cleaner, outcome)) <==>
            e in es && Verdict(Lookup(rows, EntryIdent(e)), e, cleaner) == outcome
  {
    GatherIn(es, VerdictIs(rows, cleaner, outcome), e);
  }

  lemma MergedSettles(before: Option<Row>, e: InventoryEntry, cleaner: string -> string)
    ensures Verdict(Some(Merged(before, e, cleaner)), e, cleaner) == Unchanged
  {
  }

  lemma AllSettled(rows: seq<Row>, es: seq<InventoryEntry>, cleaner: string -> string)
    requires forall i | 0 <= i < |es| :: Verdict(Lookup(rows, EntryIdent(es[i])), es[i], cleaner) == Unchanged
    ensures Gather(es, VerdictIs(rows, cleaner, Inserted)) == []
    ensures Gather(es, VerdictIs(rows, cleaner, Updated)) == []
    ensures Gather(es, VerdictIs(rows, cleaner, Unchanged)) == es
  {
    GatherNothing(es, VerdictIs(rows, cleaner, Inserted));
    GatherNothing(es, VerdictIs(rows, cleaner, Updated));
    GatherEverything(es, VerdictIs(rows, cleaner, Unchanged));
  }

  ghost predicate ValidArgs(args: PlanArgs) {
    args.tmdbId > 0 && args.season > 0 && args.title == NormTitle(args.title, args.tmdbId)
  }

  /** Applying a plan to the table it was made for does exactly what its three lists say, keeps the table free of
      duplicates, leaves every other row alone, and leaves nothing to do for the same listing. */
  lemma PlanAndApplyConverge(rows: seq<Row>, items: seq<CloudItem>, args: PlanArgs, cleaner: string -> string, u: nat,
                             v: nat)
    requires Unique(rows) && ValidArgs(args)
    ensures var plan := PlanOf(rows, items, args, cleaner, u, v);
            var done := Apply(rows, plan.observed, cleaner);
            && AsPredicted(rows, plan.observed, cleaner, done)
            && PlanOf(done.rows, items, args, cleaner, u, v) ==
               plan.(toInsert := [], toUpdate := [], upToDate := plan.observed)
  {
    var entries := Entries(items, args);
    var es := ObservedEntries(entries, TallyOf(entries));
    forall e | e in es
      ensures Planned(e)
    {
      EntriesPlanned(items, args, e);
    }
    assert AllPlanned(es);
    ApplyAsPredicted(rows, es, cleaner);
    var done := Apply(rows, es, cleaner);
    forall i | 0 <= i < |es|
      ensures Verdict(Lookup(done.rows, EntryIdent(es[i])), es[i], cleaner) == Unchanged
    {
      MergedSettles(Lookup(rows, EntryIdent(es[i])), es[i], cleaner);
    }
    AllSettled(done.rows, es, cleaner);
  }

  // ---------- tables that do hold duplicates ----------

  lemma {:induction false} KeptMatching(rows: seq<Row>, after: seq<Row>, ids: set<Ident>, id: Ident)
    requires Kept(rows, after, ids) && id !in ids
    ensures Matching(after, id) == Matching(rows, id)
    decreases |after|
  {
    if after != [] {
      var front := after[..|after| - 1];
      if |after| > |rows| {
        assert Kept(rows, front, ids);
        KeptMatching(rows, front, ids, id);
      } else {
        var before := rows[..|rows| - 1];
        assert Kept(before, front, ids);
        KeptMatching(before, front, ids, id);
      }
    }
  }

  lemma AppendKept(rows: seq<Row>, row: Row, id: Ident)
    requires IdentOf(row) == Some(id)
    ensures Kept(rows, rows + [row], {id})
  {
  }

  lemma ReplaceKept(rows: seq<Row>, i: nat, row: Row, id: Ident)
    requires i < |rows| && IdentOf(rows[i]) == IdentOf(row) == Some(id)
    ensures Kept(rows, rows[i := row], {id})
  {
  }

  lemma StoreKept(rows: seq<Row>, e: InventoryEntry, cleaner: string -> string)
    ensures Kept(rows, Store(rows, e, cleaner).1, {EntryIdent(e)})
    ensures Store(rows, e, cleaner).0 == AmbiguousIdentity <==> |Matching(rows, EntryIdent(e))| > 1
  {
    var found := Matching(rows, EntryIdent(e));
    if |found| == 0 {
      AppendKept(rows, Merged(None, e, cleaner), EntryIdent(e));
    } else if |found| == 1 {
      ReplaceKept(rows, found[0], Merged(Some(rows[found[0]]), e, cleaner), EntryIdent(e));
    }
  }

  /** The table holds two rows of the identity of some entry. */
  predicate Duplicated(rows: seq<Row>, es: seq<InventoryEntry>) {
    exists e :: e in es && |Matching(rows, EntryIdent(e))| > 1
  }

  /** What applying entries may touch, and when it raises, on a table of any kind. */
  ghost predicate RaisesFor(rows: seq<Row>, es: seq<InventoryEntry>, done: Applied) {
    Kept(rows, done.rows, Idents(es)) && (done.raised <==> Duplicated(rows, es))
  }

  lemma {:induction false} ApplyRaises(rows: seq<Row>, es: seq<InventoryEntry>, cleaner: string -> string)
    requires DistinctEpisodes(es) && AllPlanned(es)
    ensures RaisesFor(rows, es, Apply(rows, es, cleaner))
  {
    if es != [] {
      ApplyRaises(rows, es[..|es| - 1], cleaner);
      RaisesStep(rows, es, cleaner);
    }
  }

  /** The last of several entries, written into a table that the others left. */
  lemma {:induction false} LastRaises(rows: seq<Row>, es: seq<InventoryEntry>, cleaner: string -> string,
                                      before: Applied)
    requires es != [] && DistinctEpisodes(es)
    requires RaisesFor(rows, es[..|es| - 1], before)
    ensures var (outcome, after) := Store(before.rows, es[|es| - 1], cleaner);
            && Kept(rows, after, Idents(es))
            && (outcome == AmbiguousIdentity <==> |Matching(rows, EntryIdent(es[|es| - 1]))| > 1)
    ensures Kept(rows, before.rows, Idents(es))
  {
    var front, last := es[..|es| - 1], es[|es| - 1];
    IdentsStep(es);
    KeptMatching(rows, before.rows, Idents(front), EntryIdent(last));
    StoreKept(before.rows, last, cleaner);
    KeptTransitive(rows, before.rows, Store(before.rows, last, cleaner).1, Idents(front), EntryIdent(last));
  }

  lemma {:induction false} RaisesStep(rows: seq<Row>, es: seq<InventoryEntry>, cleaner: string -> string)
    requires es != [] && DistinctEpisodes(es) && Planned(es[|es| - 1])
    requires RaisesFor(rows, es[..|es| - 1], Apply(rows, es[..|es| - 1], cleaner))
    ensures RaisesFor(rows, es, Apply(rows, es, cleaner))
  {
    var front := es[..|es| - 1];
    LastRaises(rows, es, cleaner, Apply(rows, front, cleaner));
    PlannedResolves(es[|es| - 1]);
    DuplicatedStep(rows, es);
  }

  lemma {:induction false} DuplicatedStep(rows: seq<Row>, es: seq<InventoryEntry>)
    requires es != []
    ensures Duplicated(rows, es) <==>
            Duplicated(rows, es[..|es| - 1]) || |Matching(rows, EntryIdent(es[|es| - 1]))| > 1
  {
    assert es == es[..|es| - 1] + [es[|es| - 1]];
  }

  /** Applying a plan fails exactly when the table holds two rows of an identity that the plan observes, whatever else
      the table holds; and even then rows of other identities stay as they are. */
  lemma ApplyRaisesIff(rows: seq<Row>, items: seq<CloudItem>, args: PlanArgs, cleaner: string -> string, u: nat, v: nat)
    requires ValidArgs(args)
    ensures var es := PlanOf(rows, items, args, cleaner, u, v).observed;
            var done := Apply(rows, es, cleaner);
            && Kept(rows, done.rows, Idents(es))
            && (done.raised <==> Duplicated(rows, es))
  {
    var entries := Entries(items, args);
    var es := ObservedEntries(entries, TallyOf(entries));
    forall e | e in es
      ensures Planned(e)
    {
      EntriesPlanned(items, args, e);
    }
    ApplyRaises(rows, es, cleaner);
  }

  /** Status by status: the i-th write reports INSERTED, UPDATED or UNCHANGED exactly when the i-th observed entry is
      in the list of that name. */
  lemma StatusesMatchLists(rows: seq<Row>, es: seq<InventoryEntry>, cleaner: string -> string, done: Applied, i: nat)
    requires AsPredicted(rows, es, cleaner, done) && i < |es|
    ensures done.results[i] == Inserted <==> es[i] in Gather(es, VerdictIs(rows, cleaner, Inserted))
    ensures done.results[i] == Updated <==> es[i] in Gather(es, VerdictIs(rows, cleaner, Updated))
    ensures done.results[i] == Unchanged <==> es[i] in Gather(es, VerdictIs(rows, cleaner, Unchanged))
    ensures done.results[i] in {Inserted, Updated, Unchanged}
  {
    ListedByVerdict(rows, es, cleaner, Inserted, es[i]);
    ListedByVerdict(rows, es, cleaner, Updated, es[i]);
    ListedByVerdict(rows, es, cleaner, Unchanged, es[i]);
  }

  /** No season of three digits is ever written. */
  lemma WideSeasonsNeverStored(rows: seq<Row>, request: Request, cleaner: string -> string)
    requires request.season.Some? && request.season.value >= 100
    ensures Upsert(rows, request, cleaner).0.Skipped? && Upsert(rows, request, cleaner).1 == rows
  {
    var season := request.season.value;
    if RequestKey(request, season).Some? && RequestKey(request, season).value.season >= 1 {
      SmallSlice(RequestKey(request, season).value.season);
    }
  }

  // ---------- update_rel_paths_after_promotion ----------

  /** `"/".join(part for part in (a, b) if part)`. */
  function Join(a: string, b: string): string {
    if a == "" then b else if b == "" then a else a + "/" + b
  }

  /** The logical folder of a promoted series. */
  function PromotedPrefix(seriesFolder: string, completedRoot: string, destination: string): string {
    var prefix := StripSlashes(if destination != "" then destination else seriesFolder);
    if completedRoot == "" then prefix else StripSlashes(StripSlashes(completedRoot) + "/" + prefix)
  }

  /** Season folders are used unless at most one season is relevant. */
  predicate Layered(relevant: Option<seq<int>>) {
    relevant.None? || |set i | 0 <= i < |relevant.value| && relevant.value[i] > 0 :: relevant.value[i]| > 1
  }

  function FinalPath(prefix: string, layered: bool, row: Row): string {
    Join(Join(prefix, if layered then "S" + Pad2(row.season) else ""), Strip(row.fileName))
  }

  function Promoted(prefix: string, layered: bool, tmdbId: int): Row -> Row {
    (row: Row) => if row.tmdbId == Some(tmdbId) then row.(relPath := Some(FinalPath(prefix, layered, row))) else row
  }

  function OfSeries(tmdbId: int): Row -> Option<Row> {
    (row: Row) => if row.tmdbId == Some(tmdbId) then Some(row) else None
  }

  function FirstSlash(s: string): nat {
    if s == "" || s[0] == '/' then 0 else 1 + FirstSlash(s[1..])
  }

  lemma {:induction false} FirstSlashAfter(a: string, b: string)
    requires '/' !in a
    ensures FirstSlash(a + "/" + b) == |a|
  {
    if a == "" {
      assert (a + "/" + b)[0] == '/';
    } else {
      assert a[0] in a && (a + "/" + b)[1..] == a[1..] + "/" + b;
      FirstSlashAfter(a[1..], b);
    }
  }

  lemma SplitAtSlash(a: string, b: string, c: string, d: string)
    requires '/' !in a && '/' !in c && a + "/" + b == c + "/" + d
    ensures a == c && b == d
  {
    FirstSlashAfter(a, b);
    FirstSlashAfter(c, d);
    assert (a + "/" + b)[..|a|] == a && (c + "/" + d)[..|c|] == c;
    assert (a + "/" + b)[|a| + 1..] == b && (c + "/" + d)[|c| + 1..] == d;
  }

  lemma JoinInjective(a: string, b: string, c: string)
    requires Join(a, b) == Join(a, c)
    ensures b == c
  {
    if b != "" && c != "" && a != "" {
      assert (a + "/" + b)[|a| + 1..] == b && (a + "/" + c)[|a| + 1..] == c;
    }
  }

  lemma SeasonFolder(a: Row, b: Row)
    requires Join("S" + Pad2(a.season), Strip(a.fileName)) == Join("S" + Pad2(b.season), Strip(b.fileName))
    ensures a.season == b.season && Strip(a.fileName) == Strip(b.fileName)
  {
    var x, y := "S" + Pad2(a.season), "S" + Pad2(b.season);
    NoSlash(a.season);
    NoSlash(b.season);
    var m, n := Strip(a.fileName), Strip(b.fileName);
    assert m != "" ==> '/' in Join(x, m) by {
      assert m != "" ==> Join(x, m)[|x|] == '/';
    }
    assert n != "" ==> '/' in Join(y, n) by {
      assert n != "" ==> Join(y, n)[|y|] == '/';
    }
    if m != "" && n != "" {
      SplitAtSlash(x, m, y, n);
    }
    assert x[1..] == Pad2(a.season) && y[1..] == Pad2(b.season);
    Pad2Injective(a.season, b.season);
  }

  lemma NoSlash(season: int)
    ensures '/' !in "S" + Pad2(season)
  {
    var t := Pad2(season);
    assert forall i | 0 <= i < |t| :: t[i] == '-' || IsDigit(t[i]) by {
      if season < 0 {
        assert t == "-" + Decimal(-season);
      }
    }
  }

  lemma JoinAssociative(a: string, b: string, c: string)
    ensures Join(Join(a, b), c) == Join(a, Join(b, c))
  {
    assert a + "/" + (b + "/" + c) == (a + "/" + b) + "/" + c;
  }

  /** When two rows of a promoted series end up at the same path: same file name, and the same season unless the layout
      has no season folders. */
  lemma PathsCollideIff(prefix: string, layered: bool, a: Row, b: Row)
    ensures FinalPath(prefix, layered, a) == FinalPath(prefix, layered, b) <==>
            Strip(a.fileName) == Strip(b.fileName) && (!layered || a.season == b.season)
  {
    if FinalPath(prefix, layered, a) == FinalPath(prefix, layered, b) {
      if layered {
        JoinAssociative(prefix, "S" + Pad2(a.season), Strip(a.fileName));
        JoinAssociative(prefix, "S" + Pad2(b.season), Strip(b.fileName));
        JoinInjective(prefix, Join("S" + Pad2(a.season), Strip(a.fileName)),
                      Join("S" + Pad2(b.season), Strip(b.fileName)));
        SeasonFolder(a, b);
      } else {
        JoinInjective(Join(prefix, ""), Strip(a.fileName), Strip(b.fileName));
      }
    }
  }

  /** Paths depend on nothing that a promotion changes, so a second one changes nothing. */
  lemma PromotedTwice(prefix: string, layered: bool, tmdbId: int, row: Row)
    ensures var p := Promoted(prefix, layered, tmdbId); p(p(row)) == p(row) && IdentOf(p(row)) == IdentOf(row)
  {
  }

  /** How many of the first n rows belong to the series. */
  function SeriesCount(rows: seq<Row>, n: nat, tmdbId: int): nat
    requires n <= |rows|
  {
    |Gather(rows[..n], OfSeries(tmdbId))|
  }

  lemma SeriesCountStep(rows: seq<Row>, n: nat, tmdbId: int)
    requires n < |rows|
    ensures SeriesCount(rows, n + 1, tmdbId) ==
            SeriesCount(rows, n, tmdbId) + (if rows[n].tmdbId == Some(tmdbId) then 1 else 0)
    ensures SeriesCount(rows, 0, tmdbId) == 0
  {
    GatherStep(rows, n, OfSeries(tmdbId));
  }

  datatype Move = OtherSeries | InPlace | Moved

  method MoveRow(row: Row, prefix: string, layered: bool, tmdbId: int) returns (after: Row, move: Move)
    ensures after == Promoted(prefix, layered, tmdbId)(row)
    ensures move == OtherSeries <==> row.tmdbId != Some(tmdbId)
    ensures move == Moved <==> after != row
  {
    if row.tmdbId != Some(tmdbId) {
      return row, OtherSeries;
    }
    var path := FinalPath(prefix, layered, row);
    if row.relPath == Some(path) {
      return row, InPlace;
    }
    return row.(relPath := Some(path)), Moved;
  }

  // ---------- the table ----------

  class InventoryTable {
    var rows: seq<Row>
    const cleaner: string -> string

    constructor (cleaner: string -> string)
      ensures rows == [] && this.cleaner == cleaner
    {
      this.cleaner := cleaner;
      rows := [];
    }

    /** The identity query. */
    method FindIdentityRows(id: Ident) returns (found: seq<nat>)
      ensures found == Matching(rows, id)
    {
      found := [];
      for i := 0 to |rows|
        invariant found == Matching(rows[..i], id)
      {
        assert rows[..i + 1][..i] == rows[..i];
        if IdentOf(rows[i]) == Some(id) {
          found := found + [i];
        }
      }
      assert rows[..|rows|] == rows;
    }

    method UpsertVerifiedTransfer(request: Request) returns (outcome: Outcome)
      modifies this
      ensures (outcome, rows) == Upsert(old(rows), request, cleaner)
    {
      var r := Resolve(request);
      if r.Refused? {
        return Skipped(r.reason);
      }
      outcome := Write(r.entry);
    }

    method Write(e: InventoryEntry) returns (outcome: Outcome)
      modifies this
      ensures (outcome, rows) == Store(old(rows), e, cleaner)
    {
      var found := FindIdentityRows(EntryIdent(e));
      if |found| > 1 {
        return AmbiguousIdentity;
      }
      var clean := CleanTitle(cleaner, e.title, e.tmdbId);
      if |found| == 0 {
        rows := rows + [Row(e.title, clean, Some(e.tmdbId), e.season, e.episode, e.fileName.text, e.relPath)];
        return Inserted;
      }
      var row := rows[found[0]];
      if row.title != e.title || row.cleanTitle != clean || row.fileName != e.fileName.text
         || (e.relPath.Some? && row.relPath != e.relPath) {
        row := row.(title := e.title, cleanTitle := clean, fileName := e.fileName.text);
        if e.relPath.Some? {
          row := row.(relPath := e.relPath);
        }
        rows := rows[found[0] := row];
        return Updated;
      }
      outcome := Unchanged;
    }

    /** `existing_by_episode`: for a season, the last row of each episode. */
    method RowsByEpisode(tmdbId: int, season: int) returns (m: map<int, Row>)
      ensures forall n :: (if n in m then Some(m[n]) else None) == Lookup(rows, Ident(tmdbId, season, n))
    {
      m := map[];
      for i := 0 to |rows|
        invariant forall n :: (if n in m then Some(m[n]) else None) == Lookup(rows[..i], Ident(tmdbId, season, n))
      {
        assert rows[..i + 1][..i] == rows[..i];
        if rows[i].tmdbId == Some(tmdbId) && rows[i].season == season {
          m := m[rows[i].episode := rows[i]];
        }
      }
      assert rows[..|rows|] == rows;
    }

    /** `build_reconciliation_plan`; None stands for its InventorySyncError. */
    method BuildReconciliationPlan(tmdbId: int, season: int, title: string, items: seq<CloudItem>,
                                   pathPrefix: Option<string>)
        returns (plan: Option<Plan>)
      ensures plan == None <==> tmdbId <= 0 || season <= 0
      ensures plan.Some? ==>
                var args := PlanArgs(tmdbId, season, NormTitle(title, tmdbId), pathPrefix);
                && ValidArgs(args)
                && plan.value == PlanOf(rows, items, args, cleaner, plan.value.unparsed, plan.value.ignored)
                && plan.value.ignored == |Gather(items, IfNonVideo())|
                && plan.value.unparsed + plan.value.ignored + |Entries(items, args)| == |items|
    {
      if tmdbId <= 0 || season <= 0 {
        return None;
      }
      var args := PlanArgs(tmdbId, season, NormTitle(title, tmdbId), pathPrefix);
      NormTitleTwice(title, tmdbId);
      var t, unparsed, ignored := TallyItems(items, args);
      var observed := ObservedEntries(Entries(items, args), t);
      var existing := RowsByEpisode(tmdbId, season);
      forall e | e in observed
        ensures e.tmdbId == args.tmdbId && e.season == args.season
      {
        EntriesPlanned(items, args, e);
      }
      var toInsert, toUpdate, upToDate := Classify(rows, cleaner, args, observed, existing);
      plan := Some(Plan(observed, toInsert, toUpdate, upToDate, t.ambiguous, unparsed, ignored));
    }

    /** Rewrites the paths of one series in place. */
    method UpdateRelPathsAfterPromotion(tmdbId: int, seriesFolder: string, completedRoot: string, destination: string,
                                        relevant: Option<seq<int>>)
        returns (changed: nat, unchangedRows: nat)
      modifies this
      ensures var p := Promoted(PromotedPrefix(seriesFolder, completedRoot, destination), Layered(relevant), tmdbId);
              |rows| == |old(rows)| && forall i | 0 <= i < |rows| :: rows[i] == p(old(rows)[i])
      ensures changed == 0 <==> rows == old(rows)
      ensures changed + unchangedRows == SeriesCount(old(rows), |old(rows)|, tmdbId)
    {
      var prefix, layered := PromotedPrefix(seriesFolder, completedRoot, destination), Layered(relevant);
      ghost var before, p := rows, Promoted(prefix, layered, tmdbId);
      changed, unchangedRows := 0, 0;
      for i := 0 to |rows|
        invariant |rows| == |before|
        invariant changed + unchangedRows == SeriesCount(before, i, tmdbId)
        invariant forall j | 0 <= j < i :: rows[j] == p(before[j])
        invariant forall j | i <= j < |rows| :: rows[j] == before[j]
        invariant changed == 0 <==> forall j | 0 <= j < i :: rows[j] == before[j]
      {
        SeriesCountStep(before, i, tmdbId);
        var row, move := MoveRow(rows[i], prefix, layered, tmdbId);
        if move == OtherSeries {
          continue;
        }
        if move == InPlace {
          unchangedRows := unchangedRows + 1;
          continue;
        }
        rows := rows[i := row];
        changed := changed + 1;
      }
    }

    method ApplyReconciliationPlan(plan: Plan) returns (results: seq<Outcome>, raised: bool)
      modifies this
      ensures Applied(rows, results, raised) == Apply(old(rows), plan.observed, cleaner)
    {
      results, raised := [], false;
      for i := 0 to |plan.observed|
        invariant Applied(rows, results, false) == Apply(old(rows), plan.observed[..i], cleaner)
      {
        ApplyNext(old(rows), plan.observed, i, cleaner);
        var outcome := UpsertVerifiedTransfer(RequestOf(plan.observed[i]));
        if outcome == AmbiguousIdentity {
          RaiseStays(old(rows), plan.observed, i + 1, cleaner);
          return results, true;
        }
        results := results + [outcome];
      }
      assert plan.observed[..|plan.observed|] == plan.observed;
    }
  }

  lemma NormTitleTwice(title: string, tmdbId: int)
    ensures NormTitle(NormTitle(title, tmdbId), tmdbId) == NormTitle(title, tmdbId)
  {
    StripStrip(title);
  }

  lemma {:induction false} RaiseStays(rows: seq<Row>, es: seq<InventoryEntry>, n: nat, cleaner: string -> string)
    requires n <= |es| && Apply(rows, es[..n], cleaner).raised
    ensures Apply(rows, es, cleaner) == Apply(rows, es[..n], cleaner)
    decreases |es|
  {
    if n == |es| {
      assert es[..n] == es;
    } else {
      assert es[..|es| - 1][..n] == es[..n];
      RaiseStays(rows, es[..|es| - 1], n, cleaner);
    }
  }

  method Classify(rows: seq<Row>, cleaner: string -> string, args: PlanArgs, observed: seq<InventoryEntry>,
                  existing: map<int, Row>)
      returns (toInsert: seq<InventoryEntry>, toUpdate: seq<InventoryEntry>, upToDate: seq<InventoryEntry>)
    requires forall n ::
               (if n in existing then Some(existing[n]) else None) == Lookup(rows, Ident(args.tmdbId, args.season, n))
    requires forall e | e in observed :: e.tmdbId == args.tmdbId && e.season == args.season
    ensures toInsert == Gather(observed, VerdictIs(rows, cleaner, Inserted))
    ensures toUpdate == Gather(observed, VerdictIs(rows, cleaner, Updated))
    ensures upToDate == Gather(observed, VerdictIs(rows, cleaner, Unchanged))
  {
    toInsert, toUpdate, upToDate := [], [], [];
    for i := 0 to |observed|
      invariant toInsert == Gather(observed[..i], VerdictIs(rows, cleaner, Inserted))
      invariant toUpdate == Gather(observed[..i], VerdictIs(rows, cleaner, Updated))
      invariant upToDate == Gather(observed[..i], VerdictIs(rows, cleaner, Unchanged))
    {
      var e := observed[i];
      GatherStep(observed, i, VerdictIs(rows, cleaner, Inserted));
      GatherStep(observed, i, VerdictIs(rows, cleaner, Updated));
      GatherStep(observed, i, VerdictIs(rows, cleaner, Unchanged));
      assert e in observed;
      if e.episode !in existing {
        toInsert := toInsert + [e];
      } else if Differs(existing[e.episode], e, cleaner) {
        toUpdate := toUpdate + [e];
      } else {
        upToDate := upToDate + [e];
      }
    }
    assert observed[..|observed|] == observed;
  }
}
