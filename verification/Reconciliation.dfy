/** What the loop of `build_reconciliation_plan` makes of the copies listed for each episode
    (app/transfer/cloud_inventory_service.py). */
module Reconciliation {
  import opened PyText
  import opened Gathering
  import opened EpisodeKeys
  import opened EpisodeMatcher

  datatype CloudItem = CloudItem(name: FileName, id: Option<string>)

  /** One proposed inventory row. */
  datatype InventoryEntry = InventoryEntry(
    tmdbId: int,
    title: string,
    season: int,
    episode: nat,
    key: Key,
    fileName: FileName,
    relPath: Option<string>,
    remoteId: Option<string>
  )

  /** The fixed arguments of one plan. */
  datatype PlanArgs = PlanArgs(tmdbId: int, season: int, title: string, pathPrefix: Option<string>)

  function StripSlashes(s: string): string {
    if s != "" && s[0] == '/' then StripSlashes(s[1..])
    else if s != "" && s[|s| - 1] == '/' then StripSlashes(s[..|s| - 1])
    else s
  }

  function RelPath(args: PlanArgs, name: FileName): Option<string> {
    if args.pathPrefix.Some? && StripSlashes(args.pathPrefix.value) != ""
    then Some(StripSlashes(args.pathPrefix.value) + "/" + name.text) else None
  }

  /** The entry of an item that passes every filter: a named video with one key whose season slice is the wanted one. */
  function Accept(item: CloudItem, args: PlanArgs): Option<InventoryEntry> {
    var key := SoleKey(item.name, Some(args.season));
    if item.name.text == "" || !item.name.isVideo || key.None? || key.value.season >= 1000 ||
       key.value.Slice() != args.season then None
    else Some(InventoryEntry(args.tmdbId, args.title, args.season, key.value.episode, key.value, item.name,
                             RelPath(args, item.name), item.id))
  }

  function AcceptRule(args: PlanArgs): CloudItem -> Option<InventoryEntry> {
    (item: CloudItem) => Accept(item, args)
  }

  /** The listed items that pass every filter. */
  function Entries(items: seq<CloudItem>, args: PlanArgs): seq<InventoryEntry> {
    Gather(items, AcceptRule(args))
  }

  /** `(number, remote_id or name.casefold())`. */
  function Signature(e: InventoryEntry): (nat, string) {
    (e.episode, if e.remoteId.Some? then e.remoteId.value else e.fileName.folded)
  }

  /** The loop's state: the current candidate of each episode, the signatures seen, and the keys reported ambiguous. */
  datatype Tally = Tally(byEpisode: map<nat, InventoryEntry>, seen: set<(nat, string)>, ambiguous: seq<Key>)

  function Count(t: Tally, e: InventoryEntry): Tally {
    if Signature(e) in t.seen then t
    else
      var t1 := t.(seen := t.seen + {Signature(e)});
      if e.episode in t.byEpisode &&
         (t.byEpisode[e.episode].fileName != e.fileName || t.byEpisode[e.episode].remoteId != e.remoteId)
      then t1.(ambiguous := t.ambiguous + [e.key], byEpisode := t.byEpisode - {e.episode})
      else t1.(byEpisode := t.byEpisode[e.episode := e])
  }

  function TallyOf(entries: seq<InventoryEntry>): Tally {
    if entries == [] then Tally(map[], {}, []) else Count(TallyOf(entries[..|entries| - 1]), entries[|entries| - 1])
  }

  lemma TallyStep(entries: seq<InventoryEntry>, e: InventoryEntry)
    ensures TallyOf(entries + [e]) == Count(TallyOf(entries), e)
  {
    assert (entries + [e])[..|entries|] == entries;
  }

  function IfNonVideo(): CloudItem -> Option<CloudItem> {
    (item: CloudItem) => if item.name.text != "" && !item.name.isVideo then Some(item) else None
  }

  /** The loop after its first n items, how many of them were accepted, and how many are named non-videos. */
  ghost function After(items: seq<CloudItem>, n: nat, args: PlanArgs): (Tally, nat, nat)
    requires n <= |items|
  {
    (TallyOf(Entries(items[..n], args)), |Entries(items[..n], args)|, |Gather(items[..n], IfNonVideo())|)
  }

  lemma ItemTallied(items: seq<CloudItem>, i: nat, args: PlanArgs)
    requires i < |items|
    ensures var e := Accept(items[i], args);
            var (t, n, m) := After(items, i, args);
            After(items, i + 1, args) ==
            if e.Some? then (Count(t, e.value), n + 1, m)
            else (t, n, if IfNonVideo()(items[i]).Some? then m + 1 else m)
  {
    var before := Entries(items[..i], args);
    GatherStep(items, i, AcceptRule(args));
    GatherStep(items, i, IfNonVideo());
    if Accept(items[i], args).Some? {
      TallyStep(before, Accept(items[i], args).value);
    } else {
      assert before + [] == before;
    }
  }

  lemma AfterAll(items: seq<CloudItem>, args: PlanArgs)
    ensures After(items, |items|, args) ==
            (TallyOf(Entries(items, args)), |Entries(items, args)|, |Gather(items, IfNonVideo())|)
    ensures After(items, 0, args) == (Tally(map[], {}, []), 0, 0)
  {
    assert items[..|items|] == items;
  }

  /** The loop itself. */
  method TallyItems(items: seq<CloudItem>, args: PlanArgs) returns (t: Tally, unparsed: nat, ignored: nat)
    ensures t == TallyOf(Entries(items, args))
    ensures ignored == |Gather(items, IfNonVideo())|
    ensures unparsed + ignored + |Entries(items, args)| == |items|
  {
    t, unparsed, ignored := Tally(map[], {}, []), 0, 0;
    AfterAll(items, args);
    for i := 0 to |items|
      invariant After(items, i, args) == (t, i - unparsed - ignored, ignored)
    {
      var item := items[i];
      ItemTallied(items, i, args);
      if item.name.text == "" {
        unparsed := unparsed + 1;
        continue;
      }
      if !item.name.isVideo {
        ignored := ignored + 1;
        continue;
      }
      var entry := Accept(item, args);
      if entry.None? {
        unparsed := unparsed + 1;
        continue;
      }
      t := Count(t, entry.value);
    }
  }

  // ---------- what the tally says about one episode ----------

  function Signatures(entries: seq<InventoryEntry>): set<(nat, string)> {
    set i | 0 <= i < |entries| :: Signature(entries[i])
  }

  /** The copies listed for episode n, one per distinct signature, in order of appearance. */
  function Copies(entries: seq<InventoryEntry>, n: nat): seq<InventoryEntry> {
    if entries == [] then [] else
      var front, last := entries[..|entries| - 1], entries[|entries| - 1];
      Copies(front, n) + (if last.episode == n && Signature(last) !in Signatures(front) then [last] else [])
  }

  /** Keys of every second copy, which is where the loop reports an ambiguity. */
  function ReportedKeys(copies: seq<InventoryEntry>): set<Key> {
    set i | 0 <= i < |copies| && i % 2 == 1 :: copies[i].key
  }

  ghost predicate Consistent(entries: seq<InventoryEntry>) {
    forall i | 0 <= i < |entries| :: entries[i].key.episode == entries[i].episode
  }

  lemma SignaturesStep(entries: seq<InventoryEntry>)
    requires entries != []
    ensures Signatures(entries) == Signatures(entries[..|entries| - 1]) + {Signature(entries[|entries| - 1])}
  {
    var front := entries[..|entries| - 1];
    assert forall i | 0 <= i < |front| :: front[i] == entries[i];
  }

  lemma {:induction false} SeenSignatures(entries: seq<InventoryEntry>)
    ensures TallyOf(entries).seen == Signatures(entries)
  {
    if entries != [] {
      SeenSignatures(entries[..|entries| - 1]);
      SignaturesStep(entries);
    }
  }

  lemma {:induction false} CopiesIn(entries: seq<InventoryEntry>, n: nat)
    ensures forall i | 0 <= i < |Copies(entries, n)| ::
              Copies(entries, n)[i] in entries && Copies(entries, n)[i].episode == n
  {
    if entries != [] {
      var front, last := entries[..|entries| - 1], entries[|entries| - 1];
      CopiesIn(front, n);
      assert entries == front + [last];
    }
  }

  /** The distinct signatures listed for episode n. */
  function SignaturesFor(entries: seq<InventoryEntry>, n: nat): set<(nat, string)> {
    set s | s in Signatures(entries) && s.0 == n
  }

  lemma SignaturesForStep(entries: seq<InventoryEntry>, n: nat)
    requires entries != []
    ensures var front, last := entries[..|entries| - 1], entries[|entries| - 1];
            SignaturesFor(entries, n) ==
            SignaturesFor(front, n) +
              (if last.episode == n && Signature(last) !in Signatures(front) then {Signature(last)} else {})
  {
    SignaturesStep(entries);
  }

  lemma {:induction false} CopiesCount(entries: seq<InventoryEntry>, n: nat)
    ensures |Copies(entries, n)| == |SignaturesFor(entries, n)|
  {
    if entries == [] {
      assert SignaturesFor(entries, n) == {};
    } else {
      var front, last := entries[..|entries| - 1], entries[|entries| - 1];
      CopiesCount(front, n);
      SignaturesForStep(entries, n);
    }
  }

  /** The invariant of the loop, episode by episode: a candidate is present exactly after an odd number of distinct
      signatures, it is the latest copy, and the keys reported for the episode are those of every second copy. */
  ghost predicate CountedRight(t: Tally, copies: seq<InventoryEntry>, n: nat) {
    && (n in t.byEpisode <==> |copies| % 2 == 1)
    && (n in t.byEpisode ==> t.byEpisode[n] == copies[|copies| - 1])
    && (forall k: Key | k.episode == n :: k in t.ambiguous <==> k in ReportedKeys(copies))
  }

  lemma {:induction false} CountedByEpisode(entries: seq<InventoryEntry>, n: nat)
    requires Consistent(entries)
    ensures CountedRight(TallyOf(entries), Copies(entries, n), n)
  {
    if entries != [] {
      var front, last := entries[..|entries| - 1], entries[|entries| - 1];
      CountedByEpisode(front, n);
      SeenSignatures(front);
      var t, c := TallyOf(front), Copies(front, n);
      if last.episode == n && Signature(last) !in t.seen {
        PresentIsSeen(front, n);
        NewCopy(t, c, last, n);
      } else {
        OtherCopy(t, c, last, n);
        assert c + [] == c;
      }
    }
  }

  lemma PresentIsSeen(front: seq<InventoryEntry>, n: nat)
    requires CountedRight(TallyOf(front), Copies(front, n), n)
    ensures n in TallyOf(front).byEpisode ==>
              TallyOf(front).byEpisode[n].episode == n && Signature(TallyOf(front).byEpisode[n]) in TallyOf(front).seen
  {
    if n in TallyOf(front).byEpisode {
      var c := Copies(front, n);
      CopiesIn(front, n);
      SeenSignatures(front);
      assert c[|c| - 1] in front;
    }
  }

  lemma OtherCopy(t: Tally, c: seq<InventoryEntry>, last: InventoryEntry, n: nat)
    requires CountedRight(t, c, n)
    requires last.key.episode == last.episode
    requires last.episode != n || Signature(last) in t.seen
    ensures CountedRight(Count(t, last), c, n)
  {
  }

  lemma ReportedStep(c: seq<InventoryEntry>, last: InventoryEntry)
    ensures ReportedKeys(c + [last]) == ReportedKeys(c) + (if |c| % 2 == 1 then {last.key} else {})
  {
    var c1 := c + [last];
    forall k | k in ReportedKeys(c)
      ensures k in ReportedKeys(c1)
    {
      var i :| 0 <= i < |c| && i % 2 == 1 && c[i].key == k;
      assert c1[i] == c[i];
    }
    if |c| % 2 == 1 {
      assert c1[|c|].key == last.key;
    }
  }

  /** A new signature of the episode of the present candidate always differs from it in name or remote id. */
  lemma NewCopy(t: Tally, c: seq<InventoryEntry>, last: InventoryEntry, n: nat)
    requires CountedRight(t, c, n)
    requires n in t.byEpisode ==> Signature(t.byEpisode[n]) in t.seen
    requires last.episode == n && Signature(last) !in t.seen
    requires n in t.byEpisode ==> t.byEpisode[n].episode == n
    ensures CountedRight(Count(t, last), c + [last], n)
  {
    ReportedStep(c, last);
  }

  // ---------- which episodes the plan observes ----------

  /** `by_episode` still holds the episode, and its key is not among the ambiguous ones. */
  predicate Observed(t: Tally, n: nat) {
    n in t.byEpisode && t.byEpisode[n].key !in t.ambiguous
  }

  lemma EntriesAccepted(items: seq<CloudItem>, args: PlanArgs, e: InventoryEntry)
    requires e in Entries(items, args)
    ensures exists i :: 0 <= i < |items| && Accept(items[i], args) == Some(e)
  {
    GatherIn(items, AcceptRule(args), e);
    var i :| 0 <= i < |items| && AcceptRule(args)(items[i]) == Some(e);
    assert Accept(items[i], args) == Some(e);
  }

  lemma EntriesConsistent(items: seq<CloudItem>, args: PlanArgs)
    ensures Consistent(Entries(items, args))
  {
    var entries := Entries(items, args);
    forall i | 0 <= i < |entries|
      ensures entries[i].key.episode == entries[i].episode
    {
      EntriesAccepted(items, args, entries[i]);
    }
  }

  lemma CopiesReported(copies: seq<InventoryEntry>, t: Tally, n: nat)
    requires CountedRight(t, copies, n)
    requires forall i | 0 <= i < |copies| :: copies[i].key.episode == n
    ensures Observed(t, n) <==> |copies| % 2 == 1 && copies[|copies| - 1].key !in ReportedKeys(copies)
    ensures (exists k :: k in t.ambiguous && k.episode == n) <==> |copies| >= 2
  {
    if |copies| >= 2 {
      assert copies[1].key in ReportedKeys(copies);
      assert copies[1].key.episode == n;
    }
  }

  lemma CopiesFacts(entries: seq<InventoryEntry>, n: nat)
    requires Consistent(entries)
    ensures CountedRight(TallyOf(entries), Copies(entries, n), n)
    ensures |Copies(entries, n)| == |SignaturesFor(entries, n)|
    ensures forall i | 0 <= i < |Copies(entries, n)| ::
              Copies(entries, n)[i] in entries && Copies(entries, n)[i].key.episode == n
  {
    CountedByEpisode(entries, n);
    CopiesCount(entries, n);
    CopiesIn(entries, n);
  }

  /** For every listing and every season: the exact outcome of the loop for one episode.  The key of the episode is
      reported iff at least two distinct signatures were listed; the episode is observed iff their number is odd and
      the key of the last copy was never reported. */
  lemma ObservedExactly(items: seq<CloudItem>, args: PlanArgs, n: nat)
    ensures var entries := Entries(items, args);
            var copies, t := Copies(entries, n), TallyOf(entries);
            && |copies| == |SignaturesFor(entries, n)|
            && (Observed(t, n) <==> |copies| % 2 == 1 && copies[|copies| - 1].key !in ReportedKeys(copies))
            && ((exists k :: k in t.ambiguous && k.episode == n) <==> |SignaturesFor(entries, n)| >= 2)
  {
    var entries := Entries(items, args);
    EntriesConsistent(items, args);
    CopiesFacts(entries, n);
    CopiesReported(Copies(entries, n), TallyOf(entries), n);
  }

  predicate OneSeason(entries: seq<InventoryEntry>, season: int) {
    forall i | 0 <= i < |entries| :: entries[i].key.season == season
  }

  /** When no listed key belongs to another season, "observed" means "exactly one distinct signature". */
  lemma SoleSignatureObserved(items: seq<CloudItem>, args: PlanArgs, n: nat)
    requires OneSeason(Entries(items, args), args.season)
    ensures Observed(TallyOf(Entries(items, args)), n) <==> |SignaturesFor(Entries(items, args), n)| == 1
  {
    var entries := Entries(items, args);
    ObservedExactly(items, args, n);
    EntriesConsistent(items, args);
    CopiesFacts(entries, n);
    SameKeyReported(Copies(entries, n), Key(args.season, n));
  }

  lemma SameKeyReported(copies: seq<InventoryEntry>, key: Key)
    requires forall i | 0 <= i < |copies| :: copies[i].key == key
    ensures copies != [] ==> (copies[|copies| - 1].key in ReportedKeys(copies) <==> |copies| >= 2)
  {
    if |copies| >= 2 {
      assert copies[1].key in ReportedKeys(copies);
    }
  }

  lemma SmallSlice(season: nat)
    ensures LeadingTwo(season) < 100
    ensures LeadingTwo(season) < 10 ==> season == LeadingTwo(season)
  {
    if season >= 100 {
      SmallSlice(season / 10);
    }
  }

  /** The season slice decides the season below 10, and lets nothing through from 100 on. */
  lemma NarrowSeason(items: seq<CloudItem>, args: PlanArgs)
    requires args.season < 10 || args.season >= 100
    ensures OneSeason(Entries(items, args), args.season)
    ensures args.season >= 100 ==> Entries(items, args) == []
  {
    var entries := Entries(items, args);
    forall i | 0 <= i < |entries|
      ensures entries[i].key.season == args.season < 10
    {
      EntriesAccepted(items, args, entries[i]);
      SmallSlice(entries[i].key.season);
    }
    if entries != [] {
      assert entries[0].key.season < 10;
    }
  }

  /** The documented rule for one season: over every listing and episode, observed iff one distinct signature. */
  ghost predicate ObservedMeansSole(args: PlanArgs) {
    forall items: seq<CloudItem>, n: nat ::
      Observed(TallyOf(Entries(items, args)), n) <==> |SignaturesFor(Entries(items, args), n)| == 1
  }

  // ---------- the failing family: seasons 10 to 99 ----------

  function Clip(season: Digits3): FileName {
    FileName("clip", "clip", true, false, false, false, [Token(season, 1)], [], 0, 0, 0, 0, None)
  }

  /** Two copies of the wanted episode around one of the season with a digit appended. */
  function Sandwich(season: nat): seq<CloudItem>
    requires 10 <= season < 100
  {
    [CloudItem(Clip(season), Some("a")), CloudItem(Clip(10 * season), Some("b")), CloudItem(Clip(season), Some("c"))]
  }

  lemma ClipAccepted(season: nat, args: PlanArgs, id: string)
    requires 10 <= season < 1000 && LeadingTwo(season) == args.season
    ensures Accept(CloudItem(Clip(season), Some(id)), args) ==
            Some(InventoryEntry(args.tmdbId, args.title, args.season, 1, Key(season, 1), Clip(season),
                                RelPath(args, Clip(season)), Some(id)))
  {
    var token := Token(season, 1);
    assert TokenKey(token) == Some(Key(season, 1));
    assert Gather([token][..0], TokenKey) == [];
    assert FullKeys([token]) == [Key(season, 1)];
  }

  lemma SandwichObserved(args: PlanArgs)
    requires 10 <= args.season < 100
    ensures Observed(TallyOf(Entries(Sandwich(args.season), args)), 1)
    ensures |SignaturesFor(Entries(Sandwich(args.season), args), 1)| == 3
  {
    var items := Sandwich(args.season);
    var a, b, c := SandwichEntries(args);
    ThreeCopies(a, b, c);
    ObservedExactly(items, args, 1);
    assert ReportedKeys([a, b, c]) == {b.key};
  }

  lemma SandwichEntries(args: PlanArgs) returns (a: InventoryEntry, b: InventoryEntry, c: InventoryEntry)
    requires 10 <= args.season < 100
    ensures Entries(Sandwich(args.season), args) == [a, b, c]
    ensures a.episode == b.episode == c.episode == 1
    ensures a.remoteId == Some("a") && b.remoteId == Some("b") && c.remoteId == Some("c")
    ensures c.key != b.key
  {
    ClipAccepted(args.season, args, "a");
    ClipAccepted(10 * args.season, args, "b");
    ClipAccepted(args.season, args, "c");
    var items := Sandwich(args.season);
    a, b, c := Accept(items[0], args).value, Accept(items[1], args).value, Accept(items[2], args).value;
    GatherThree(items, AcceptRule(args));
  }

  lemma GatherThree<T, U>(items: seq<T>, g: T -> Option<U>)
    requires |items| == 3 && g(items[0]).Some? && g(items[1]).Some? && g(items[2]).Some?
    ensures Gather(items, g) == [g(items[0]).value, g(items[1]).value, g(items[2]).value]
  {
    GatherStep(items, 0, g);
    GatherStep(items, 1, g);
    GatherStep(items, 2, g);
    assert items[..3] == items;
  }

  lemma ThreeCopies(a: InventoryEntry, b: InventoryEntry, c: InventoryEntry)
    requires a.episode == b.episode == c.episode == 1
    requires Signature(a) != Signature(b) && Signature(a) != Signature(c) && Signature(b) != Signature(c)
    ensures Copies([a, b, c], 1) == [a, b, c]
  {
    assert [a, b, c][..2] == [a, b] && [a, b][..1] == [a];
    assert Signatures([]) == {};
    SignaturesStep([a]);
    SignaturesStep([a, b]);
    assert Copies([a], 1) == [a];
    assert Copies([a, b], 1) == [a, b];
  }

  /** The rule holds for exactly the one-digit seasons, and emptily from season 100 on. */
  lemma ObservedMeansSoleIff(args: PlanArgs)
    ensures ObservedMeansSole(args) <==> args.season < 10 || args.season >= 100
  {
    if args.season < 10 || args.season >= 100 {
      forall items: seq<CloudItem>, n: nat
        ensures Observed(TallyOf(Entries(items, args)), n) <==> |SignaturesFor(Entries(items, args), n)| == 1
      {
        NarrowSeason(items, args);
        SoleSignatureObserved(items, args, n);
      }
    } else {
      SandwichObserved(args);
    }
  }
}
