/** Restoring legacy-collected episodes that the cloud inventory confirms (migration_tools/reconcile_collected.py). */
module CollectedReconcile {
  import opened PyText
  import opened Gathering
  import opened EpisodeKeys

  /** A row of the old database's watchlist. */
  datatype LegacyRow = LegacyRow(tmdbId: int, season: Option<int>, episodes: seq<Raw>)

  datatype InventoryRow = InventoryRow(tmdbId: int, season: int, episode: int)

  /** A watchlist row as the query returns it, with the JSON array of its collected episodes. */
  datatype WatchRow = WatchRow(id: int, tmdbId: int, season: int, collected: seq<Raw>)

  /** An episode of an identity (tmdb, season). */
  datatype Item = Item(tmdbId: int, season: int, key: Key)

  // ---------- the three inputs as sets of episodes ----------

  function LegacyItem(row: LegacyRow): Raw -> Option<Item> {
    (value: Raw) =>
      var key := KeyOf(row.season, value);
      if key.None? then None else Some(Item(row.tmdbId, EffectiveSeason(row.season), key.value))
  }

  /** `load_legacy_collected`. */
  function Legacy(rows: seq<LegacyRow>): seq<Item> {
    if rows == [] then [] else
      Legacy(rows[..|rows| - 1]) + Gather(rows[|rows| - 1].episodes, LegacyItem(rows[|rows| - 1]))
  }

  function InventoryItem(row: InventoryRow): Option<Item> {
    var key := KeyOf(Some(row.season), IntValue(row.episode));
    if key.None? then None else Some(Item(row.tmdbId, row.season, key.value))
  }

  function Inventory(rows: seq<InventoryRow>): seq<Item> {
    Gather(rows, InventoryItem)
  }

  /** `_canonical_values` of a row. */
  function Collected(row: WatchRow): set<Key> {
    KeySet(Some(row.season), row.collected)
  }

  predicate SameIdentity(row: WatchRow, x: Item) {
    row.tmdbId == x.tmdbId && row.season == x.season
  }

  /** Some row of the identity has the episode. */
  predicate Current(rows: seq<WatchRow>, x: Item) {
    exists i :: 0 <= i < |rows| && SameIdentity(rows[i], x) && x.key in Collected(rows[i])
  }

  // ---------- the classification of legacy episodes ----------

  datatype Class = AlreadyCollected | Candidate | CloudReview

  function Classify(x: Item, rows: seq<WatchRow>, inventory: seq<Item>): Class {
    if Current(rows, x) then AlreadyCollected else if x in inventory then Candidate else CloudReview
  }

  function InClass(rows: seq<WatchRow>, inventory: seq<Item>, wanted: Class): Item -> Option<Item> {
    (x: Item) => if Classify(x, rows, inventory) == wanted then Some(x) else None
  }

  function Candidates(legacy: seq<Item>, rows: seq<WatchRow>, inventory: seq<Item>): seq<Item> {
    Gather(legacy, InClass(rows, inventory, Candidate))
  }

  function ForReview(legacy: seq<Item>, rows: seq<WatchRow>, inventory: seq<Item>): seq<Item> {
    Gather(legacy, InClass(rows, inventory, CloudReview))
  }

  /** Every legacy episode is exactly one of collected, candidate and for review, and the lists hold nothing else. */
  lemma LegacyParts(legacy: seq<Item>, rows: seq<WatchRow>, inventory: seq<Item>, x: Item)
    ensures x in Candidates(legacy, rows, inventory) <==> x in legacy && x in inventory && !Current(rows, x)
    ensures x in ForReview(legacy, rows, inventory) <==> x in legacy && x !in inventory && !Current(rows, x)
  {
    GatherIn(legacy, InClass(rows, inventory, Candidate), x);
    GatherIn(legacy, InClass(rows, inventory, CloudReview), x);
  }

  // ---------- the update of one row ----------

  function MissingFrom(row: WatchRow): Item -> Option<Key> {
    (x: Item) => if SameIdentity(row, x) && x.key !in Collected(row) then Some(x.key) else None
  }

  /** The episodes added to a row. */
  function Additions(candidates: seq<Item>, row: WatchRow): seq<Key> {
    Gather(candidates, MissingFrom(row))
  }

  predicate KeyBefore(a: Key, b: Key) {
    a.season < b.season || (a.season == b.season && a.episode < b.episode)
  }

  ghost predicate Ascending(keys: seq<Key>) {
    forall i, j | 0 <= i < j < |keys| :: KeyBefore(keys[i], keys[j])
  }

  function InsertKey(k: Key, keys: seq<Key>): (r: seq<Key>)
    requires Ascending(keys)
    ensures Ascending(r)
    ensures forall x :: x in r <==> x == k || x in keys
  {
    if keys == [] then [k]
    else if k == keys[0] then keys
    else if KeyBefore(k, keys[0]) then [k] + keys
    else
      var rest := InsertKey(k, keys[1..]);
      assert forall i | 0 <= i < |rest| :: rest[i] in rest;
      assert forall x | x in keys[1..] :: KeyBefore(keys[0], x);
      [keys[0]] + rest
  }

  /** `sorted(set(keys), key=_sort_episode_key)`. */
  function SortedKeys(keys: seq<Key>): (r: seq<Key>)
    ensures Ascending(r)
    ensures forall x :: x in r <==> x in keys
  {
    if keys == [] then [] else
      assert keys == keys[..|keys| - 1] + [keys[|keys| - 1]];
      InsertKey(keys[|keys| - 1], SortedKeys(keys[..|keys| - 1]))
  }

  function ReadKey(season: int): Raw -> Option<Key> {
    (value: Raw) => KeyOf(Some(season), value)
  }

  /** The array written for a row: all its canonical keys and the additions, sorted, each as a text. */
  function NewKeys(row: WatchRow, additions: seq<Key>): seq<Key> {
    SortedKeys(Gather(row.collected, ReadKey(row.season)) + additions)
  }

  function Texts(keys: seq<Key>): seq<Raw> {
    seq(|keys|, i requires 0 <= i < |keys| => TextValue(keys[i].Text()))
  }

  function UpdatedRow(row: WatchRow, additions: seq<Key>): WatchRow {
    if additions == [] then row else row.(collected := Texts(NewKeys(row, additions)))
  }

  lemma CollectedIn(row: WatchRow, k: Key)
    ensures k in Gather(row.collected, ReadKey(row.season)) <==> k in Collected(row)
    ensures k in Collected(row) ==> k.season >= 1 && 1 <= k.episode < 10000
    ensures k in Collected(row) && k.season >= 1000 ==> k.season == EffectiveSeason(Some(row.season))
  {
    GatherIn(row.collected, ReadKey(row.season), k);
    if k in Collected(row) {
      var i :| 0 <= i < |row.collected| && KeyOf(Some(row.season), row.collected[i]) == Some(k);
      assert ReadKey(row.season)(row.collected[i]) == Some(k);
    }
    if i :| 0 <= i < |row.collected| && ReadKey(row.season)(row.collected[i]) == Some(k) {
      assert KeyOf(Some(row.season), row.collected[i]).value in Collected(row);
    }
  }

  ghost predicate Readable(keys: seq<Key>) {
    forall i | 0 <= i < |keys| :: keys[i].season >= 1 && 1 <= keys[i].episode < 10000
  }

  /** Reading back what was written loses exactly the keys of seasons with more than three digits. */
  lemma ReadBack(season: int, keys: seq<Key>, k: Key)
    requires Readable(keys)
    ensures k in KeySet(Some(season), Texts(keys)) <==> k in keys && k.season < 1000
  {
    var values := Texts(keys);
    forall i | 0 <= i < |keys|
      ensures KeyOf(Some(season), values[i]) == if keys[i].season < 1000 then Some(keys[i]) else None
    {
      CanonicalFormatted(Some(season), keys[i].season, keys[i].episode);
    }
    if k in keys && k.season < 1000 {
      var i :| 0 <= i < |keys| && keys[i] == k;
      assert KeyOf(Some(season), values[i]) == Some(k);
    }
  }

  lemma AdditionIn(legacy: seq<Item>, rows: seq<WatchRow>, inventory: seq<Item>, row: WatchRow, k: Key)
    ensures k in Additions(Candidates(legacy, rows, inventory), row) <==>
            var x := Item(row.tmdbId, row.season, k);
            x in legacy && x in inventory && !Current(rows, x) && k !in Collected(row)
  {
    var candidates := Candidates(legacy, rows, inventory);
    var x := Item(row.tmdbId, row.season, k);
    LegacyParts(legacy, rows, inventory, x);
    GatherIn(candidates, MissingFrom(row), k);
    if x in candidates && k !in Collected(row) {
      var i :| 0 <= i < |candidates| && candidates[i] == x;
      assert MissingFrom(row)(candidates[i]) == Some(k);
    }
    if i :| 0 <= i < |candidates| && MissingFrom(row)(candidates[i]) == Some(k) {
      assert candidates[i] == x;
    }
  }

  /** An inventory episode always carries the season of its row. */
  lemma InventoryKeys(rows: seq<InventoryRow>, x: Item)
    requires x in Inventory(rows)
    ensures x.key.season == EffectiveSeason(Some(x.season)) >= 1 && 1 <= x.key.episode < 10000
  {
    GatherIn(rows, InventoryItem, x);
    var i :| 0 <= i < |rows| && InventoryItem(rows[i]) == Some(x);
    ReadNumber(rows[i].season, rows[i].episode);
  }

  /** A number is read under the season of its context; a negative one not at all. */
  lemma ReadNumber(season: int, episode: int)
    ensures var key := KeyOf(Some(season), IntValue(episode));
            key.Some? ==> key.value.season == EffectiveSeason(Some(season)) >= 1 && 1 <= key.value.episode < 10000
  {
    var text := IntText(episode);
    assert forall i | 0 <= i < |text| :: text[i] == '-' || IsDigit(text[i]);
    NormalizedPlain(text);
    NoLetterE(text);
  }

  lemma NoLetterE(text: string)
    requires forall i | 0 <= i < |text| :: text[i] != 'E'
    ensures ParseFull(text) == None
  {
    var body := if text != "" && text[0] == 'S' then text[1..] else text;
    assert forall i | 0 <= i < |body| :: body[i] != 'E';
  }

  // ---------- one run ----------

  function Reconciled(rows: seq<WatchRow>, candidates: seq<Item>): seq<WatchRow> {
    seq(|rows|, i requires 0 <= i < |rows| => UpdatedRow(rows[i], Additions(candidates, rows[i])))
  }

  /** The readback of a row: the canonical set of what was stored is the set of keys written. */
  predicate ReadbackOk(row: WatchRow, additions: seq<Key>) {
    additions == [] ||
    KeySet(Some(row.season), Texts(NewKeys(row, additions))) == (set k | k in NewKeys(row, additions))
  }

  lemma NewKeysIn(row: WatchRow, additions: seq<Key>, k: Key)
    ensures k in NewKeys(row, additions) <==> k in Collected(row) || k in additions
  {
    CollectedIn(row, k);
  }

  /** What an addition can be. */
  lemma AdditionShape(legacy: seq<Item>, rows: seq<WatchRow>, stock: seq<InventoryRow>, row: WatchRow)
    ensures var additions := Additions(Candidates(legacy, rows, Inventory(stock)), row);
            forall k | k in additions :: k.season == EffectiveSeason(Some(row.season)) >= 1 && 1 <= k.episode < 10000
  {
    var additions := Additions(Candidates(legacy, rows, Inventory(stock)), row);
    forall k | k in additions
      ensures k.season == EffectiveSeason(Some(row.season)) >= 1 && 1 <= k.episode < 10000
    {
      AdditionIn(legacy, rows, Inventory(stock), row, k);
      InventoryKeys(stock, Item(row.tmdbId, row.season, k));
    }
  }

  lemma NewKeysReadable(row: WatchRow, additions: seq<Key>)
    requires forall k | k in additions :: k.season == EffectiveSeason(Some(row.season)) >= 1 && 1 <= k.episode < 10000
    ensures Readable(NewKeys(row, additions))
    ensures row.season < 1000 ==> forall k | k in NewKeys(row, additions) :: k.season < 1000
  {
    var keys := NewKeys(row, additions);
    forall k | k in keys
      ensures k.season >= 1 && 1 <= k.episode < 10000 && (row.season < 1000 ==> k.season < 1000)
    {
      NewKeysIn(row, additions, k);
      CollectedIn(row, k);
    }
    assert forall i | 0 <= i < |keys| :: keys[i] in keys;
  }

  /** The readback of a row fails exactly when something is added to a row of a season of four or more digits. */
  lemma ReadbackIff(legacy: seq<Item>, rows: seq<WatchRow>, stock: seq<InventoryRow>, row: WatchRow)
    ensures var additions := Additions(Candidates(legacy, rows, Inventory(stock)), row);
            ReadbackOk(row, additions) <==> additions == [] || row.season < 1000
  {
    var additions := Additions(Candidates(legacy, rows, Inventory(stock)), row);
    AdditionShape(legacy, rows, stock, row);
    NewKeysReadable(row, additions);
    var keys := NewKeys(row, additions);
    forall k
      ensures k in KeySet(Some(row.season), Texts(keys)) <==> k in keys && k.season < 1000
    {
      ReadBack(row.season, keys, k);
    }
    if additions != [] {
      var k := additions[0];
      assert k in additions;
      NewKeysIn(row, additions, k);
    }
  }

  // ---------- what a run does ----------

  /** Nothing is added to a row of a season of four or more digits. */
  predicate Fits(candidates: seq<Item>, row: WatchRow) {
    Additions(candidates, row) == [] || row.season < 1000
  }

  /** Every readback agrees. */
  ghost predicate Succeeds(rows: seq<WatchRow>, candidates: seq<Item>) {
    forall i | 0 <= i < |rows| :: Fits(candidates, rows[i])
  }

  /** A row ends with exactly its old canonical episodes and those legacy episodes the inventory confirms and no row
      of its identity had. */
  lemma GainsExactly(legacy: seq<Item>, rows: seq<WatchRow>, stock: seq<InventoryRow>, i: nat, k: Key)
    requires i < |rows| && Succeeds(rows, Candidates(legacy, rows, Inventory(stock)))
    ensures var after := Reconciled(rows, Candidates(legacy, rows, Inventory(stock)))[i];
            var x := Item(rows[i].tmdbId, rows[i].season, k);
            k in Collected(after) <==>
            k in Collected(rows[i]) || (x in legacy && x in Inventory(stock) && !Current(rows, x))
  {
    var candidates := Candidates(legacy, rows, Inventory(stock));
    var additions := Additions(candidates, rows[i]);
    AdditionIn(legacy, rows, Inventory(stock), rows[i], k);
    assert Fits(candidates, rows[i]);
    if additions != [] {
      AdditionShape(legacy, rows, stock, rows[i]);
      NewKeysReadable(rows[i], additions);
      ReadBack(rows[i].season, NewKeys(rows[i], additions), k);
      NewKeysIn(rows[i], additions, k);
    }
  }

  // ---------- which stored entries stay as they are ----------

  /** An entry that is already written the way the tool writes it. */
  predicate WrittenCanonically(season: int, value: Raw) {
    value.TextValue? && CanonicalKey(Some(season), value) == Some(value.text)
  }

  lemma TextsIn(keys: seq<Key>, value: Raw)
    ensures value in Texts(keys) <==> exists k :: k in keys && value == TextValue(k.Text())
  {
    if k :| k in keys && value == TextValue(k.Text()) {
      var i :| 0 <= i < |keys| && keys[i] == k;
      assert Texts(keys)[i] == value;
    }
  }

  lemma CanonicalIsItsKey(row: WatchRow, additions: seq<Key>, value: Raw)
    requires value in row.collected && Readable(NewKeys(row, additions)) && row.season < 1000
    requires forall k | k in NewKeys(row, additions) :: k.season < 1000
    ensures WrittenCanonically(row.season, value) <==>
            exists k :: k in NewKeys(row, additions) && value == TextValue(k.Text())
  {
    if k :| k in NewKeys(row, additions) && value == TextValue(k.Text()) {
      CanonicalFormatted(Some(row.season), k.season, k.episode);
    }
    if WrittenCanonically(row.season, value) {
      var k := KeyOf(Some(row.season), value).value;
      var i :| 0 <= i < |row.collected| && row.collected[i] == value;
      assert KeyOf(Some(row.season), row.collected[i]) == Some(k);
      NewKeysIn(row, additions, k);
    }
  }

  /** A stored entry survives a run exactly when nothing is added to its row or it is written canonically already; every
      other one is rewritten, or dropped if it reads as no key at all. */
  lemma EntryStaysIff(legacy: seq<Item>, rows: seq<WatchRow>, stock: seq<InventoryRow>, i: nat, value: Raw)
    requires i < |rows| && Succeeds(rows, Candidates(legacy, rows, Inventory(stock)))
    requires value in rows[i].collected
    ensures var candidates := Candidates(legacy, rows, Inventory(stock));
            value in Reconciled(rows, candidates)[i].collected <==>
            Additions(candidates, rows[i]) == [] || WrittenCanonically(rows[i].season, value)
  {
    var candidates := Candidates(legacy, rows, Inventory(stock));
    var additions := Additions(candidates, rows[i]);
    assert Fits(candidates, rows[i]);
    if additions != [] {
      AdditionShape(legacy, rows, stock, rows[i]);
      NewKeysReadable(rows[i], additions);
      CanonicalIsItsKey(rows[i], additions, value);
      TextsIn(NewKeys(rows[i], additions), value);
    }
  }

  /** One confirmed episode replaces the whole array of a row that holds only an entry that is no key. */
  lemma JunkIsDropped(tmdbId: int, junk: Raw, episode: nat)
    requires KeyOf(Some(1), junk) == None && 1 <= episode < 10000
    ensures var legacy := Legacy([LegacyRow(tmdbId, Some(1), [IntValue(episode)])]);
            var rows := [WatchRow(1, tmdbId, 1, [junk])];
            var candidates := Candidates(legacy, rows, Inventory([InventoryRow(tmdbId, 1, episode)]));
            Succeeds(rows, candidates) && junk !in Reconciled(rows, candidates)[0].collected
  {
    var former, stock := LegacyRow(tmdbId, Some(1), [IntValue(episode)]), [InventoryRow(tmdbId, 1, episode)];
    var rows := [WatchRow(1, tmdbId, 1, [junk])];
    var x := Item(tmdbId, 1, Key(1, episode));
    OneItem(former, stock, x);
    assert Collected(rows[0]) == {};
    AdditionIn([x], rows, [x], rows[0], x.key);
    assert Succeeds(rows, Candidates([x], rows, [x]));
    EntryStaysIff([x], rows, stock, 0, junk);
  }

  /** For example a note. */
  lemma NoteIsJunk(season: Option<int>)
    ensures KeyOf(season, TextValue("SP")) == None
  {
    NormalizedPlain("SP");
    NoLetterE("SP");
  }

  lemma OneItem(former: LegacyRow, stock: seq<InventoryRow>, x: Item)
    requires x.season >= 1 && x.key.season == x.season && 1 <= x.key.episode < 10000
    requires former == LegacyRow(x.tmdbId, Some(x.season), [IntValue(x.key.episode)])
    requires stock == [InventoryRow(x.tmdbId, x.season, x.key.episode)]
    ensures Legacy([former]) == [x] && Inventory(stock) == [x]
  {
    BareNumber(Some(x.season), x.key.episode);
    GatherAll(former.episodes, LegacyItem(former));
    GatherAll(stock, InventoryItem);
    assert [former][..0] == [];
  }

  /** The failing family: any season of four or more digits with one confirmed legacy episode. */
  lemma WideSeasonFails(tmdbId: int, season: nat, episode: nat)
    requires season >= 1000 && 1 <= episode < 10000
    ensures var legacy := Legacy([LegacyRow(tmdbId, Some(season), [IntValue(episode)])]);
            var rows := [WatchRow(1, tmdbId, season, [])];
            !Succeeds(rows, Candidates(legacy, rows, Inventory([InventoryRow(tmdbId, season, episode)])))
  {
    var rows := [WatchRow(1, tmdbId, season, [])];
    var x := Item(tmdbId, season, Key(season, episode));
    OneItem(LegacyRow(tmdbId, Some(season), [IntValue(episode)]), [InventoryRow(tmdbId, season, episode)], x);
    assert Collected(rows[0]) == {};
    AdditionIn([x], rows, [x], rows[0], x.key);
    assert !Fits(Candidates([x], rows, [x]), rows[0]);
  }

  lemma CurrentStays(legacy: seq<Item>, rows: seq<WatchRow>, stock: seq<InventoryRow>, x: Item)
    requires Succeeds(rows, Candidates(legacy, rows, Inventory(stock))) && Current(rows, x)
    ensures Current(Reconciled(rows, Candidates(legacy, rows, Inventory(stock))), x)
  {
    var after := Reconciled(rows, Candidates(legacy, rows, Inventory(stock)));
    var i :| 0 <= i < |rows| && SameIdentity(rows[i], x) && x.key in Collected(rows[i]);
    GainsExactly(legacy, rows, stock, i, x.key);
    assert SameIdentity(after[i], x) && x.key in Collected(after[i]);
  }

  /** A legacy episode that the inventory confirms is collected afterwards, if its identity is followed at all. */
  lemma ConfirmedIsCollected(legacy: seq<Item>, rows: seq<WatchRow>, stock: seq<InventoryRow>, i: nat, k: Key)
    requires i < |rows| && Succeeds(rows, Candidates(legacy, rows, Inventory(stock)))
    requires var x := Item(rows[i].tmdbId, rows[i].season, k); x in legacy && x in Inventory(stock)
    ensures Current(Reconciled(rows, Candidates(legacy, rows, Inventory(stock))),
                    Item(rows[i].tmdbId, rows[i].season, k))
  {
    var after := Reconciled(rows, Candidates(legacy, rows, Inventory(stock)));
    var x := Item(rows[i].tmdbId, rows[i].season, k);
    if Current(rows, x) {
      CurrentStays(legacy, rows, stock, x);
    } else {
      GainsExactly(legacy, rows, stock, i, k);
      assert SameIdentity(after[i], x) && x.key in Collected(after[i]);
    }
  }

  /** A second run finds nothing to add to any row, and leaves the table exactly as it is. */
  lemma SecondRunAddsNothing(legacy: seq<Item>, rows: seq<WatchRow>, stock: seq<InventoryRow>)
    requires Succeeds(rows, Candidates(legacy, rows, Inventory(stock)))
    ensures var after := Reconciled(rows, Candidates(legacy, rows, Inventory(stock)));
            Reconciled(after, Candidates(legacy, after, Inventory(stock))) == after
  {
    var after := Reconciled(rows, Candidates(legacy, rows, Inventory(stock)));
    var again := Candidates(legacy, after, Inventory(stock));
    forall i | 0 <= i < |after|
      ensures Additions(again, after[i]) == []
    {
      var additions := Additions(again, after[i]);
      forall k | k in additions
        ensures false
      {
        AdditionIn(legacy, after, Inventory(stock), after[i], k);
        ConfirmedIsCollected(legacy, rows, stock, i, k);
      }
      HeadIn(additions);
    }
  }

  lemma HeadIn(keys: seq<Key>)
    ensures keys == [] || keys[0] in keys
  {
  }

  // ---------- the tool ----------

  datatype Report = Report(review: seq<Item>) | ReadbackMismatch(id: int)

  class WatchTable {
    var rows: seq<WatchRow>

    constructor (rows: seq<WatchRow>)
      ensures this.rows == rows
    {
      this.rows := rows;
    }

    /** `current`: the canonical episodes of every identity. */
    method CollectCurrent() returns (current: map<(int, int), set<Key>>)
      ensures forall x: Item ::
                Current(rows, x) <==> (x.tmdbId, x.season) in current && x.key in current[(x.tmdbId, x.season)]
    {
      current := map[];
      for i := 0 to |rows|
        invariant forall x: Item ::
          Current(rows[..i], x) <==> (x.tmdbId, x.season) in current && x.key in current[(x.tmdbId, x.season)]
      {
        var id := (rows[i].tmdbId, rows[i].season);
        CurrentStep(rows, i);
        var known := if id in current then current[id] else {};
        current := current[id := known + Collected(rows[i])];
      }
      assert rows[..|rows|] == rows;
    }

    /** One run.  A readback mismatch rolls everything back. */
    method Reconcile(legacyRows: seq<LegacyRow>, stock: seq<InventoryRow>, apply: bool) returns (report: Report)
      modifies this
      ensures var before := old(rows);
              var candidates := Candidates(Legacy(legacyRows), before, Inventory(stock));
              && (report.ReadbackMismatch? <==> apply && !Succeeds(before, candidates))
              && rows == (if apply && report.Report? then Reconciled(before, candidates) else before)
              && (report.Report? ==> report.review == ForReview(Legacy(legacyRows), before, Inventory(stock)))
    {
      var legacy, inventory := Legacy(legacyRows), Inventory(stock);
      var current := CollectCurrent();
      var candidates, review := Partition(legacy, inventory, current);
      forall i | 0 <= i < |rows|
        ensures ReadbackOk(rows[i], Additions(candidates, rows[i])) <==> Fits(candidates, rows[i])
      {
        ReadbackFits(legacy, rows, stock, candidates, rows[i]);
      }
      var written, failed := WriteAll(rows, Updating(candidates), Agreeing(candidates), apply);
      if failed.Some? {
        return ReadbackMismatch(failed.value);
      }
      if apply {
        rows := written;
      }
      report := Report(review);
    }

    /** The loop over the legacy episodes. */
    method Partition(legacy: seq<Item>, inventory: seq<Item>, current: map<(int, int), set<Key>>)
        returns (candidates: seq<Item>, review: seq<Item>)
      requires forall x: Item ::
                 Current(rows, x) <==> (x.tmdbId, x.season) in current && x.key in current[(x.tmdbId, x.season)]
      ensures candidates == Candidates(legacy, rows, inventory) && review == ForReview(legacy, rows, inventory)
    {
      candidates, review := [], [];
      for i := 0 to |legacy|
        invariant candidates == Candidates(legacy[..i], rows, inventory)
        invariant review == ForReview(legacy[..i], rows, inventory)
      {
        var x := legacy[i];
        GatherStep(legacy, i, InClass(rows, inventory, Candidate));
        GatherStep(legacy, i, InClass(rows, inventory, CloudReview));
        if (x.tmdbId, x.season) in current && x.key in current[(x.tmdbId, x.season)] {
          continue;
        }
        if x in inventory {
          candidates := candidates + [x];
        } else {
          review := review + [x];
        }
      }
      assert legacy[..|legacy|] == legacy;
    }
  }

  lemma ReadbackFits(legacy: seq<Item>, rows: seq<WatchRow>, stock: seq<InventoryRow>, candidates: seq<Item>,
                     row: WatchRow)
    requires candidates == Candidates(legacy, rows, Inventory(stock))
    ensures ReadbackOk(row, Additions(candidates, row)) <==> Fits(candidates, row)
  {
    ReadbackIff(legacy, rows, stock, row);
  }

  /** One UPDATE, as the row it leaves. */
  function Updating(candidates: seq<Item>): WatchRow -> WatchRow {
    (row: WatchRow) => UpdatedRow(row, Additions(candidates, row))
  }

  /** The readback comparison of one row. */
  function Agreeing(candidates: seq<Item>): WatchRow -> bool {
    (row: WatchRow) => ReadbackOk(row, Additions(candidates, row))
  }

  /** The loop over the updates; `failed` is the first row that does not read back. */
  method WriteAll(rows: seq<WatchRow>, update: WatchRow -> WatchRow, agrees: WatchRow -> bool, apply: bool)
      returns (written: seq<WatchRow>, failed: Option<int>)
    ensures failed.Some? <==> apply && exists i :: 0 <= i < |rows| && !agrees(rows[i])
    ensures failed.None? ==> |written| == |rows| && forall i | 0 <= i < |rows| :: written[i] == update(rows[i])
  {
    written := [];
    for i := 0 to |rows|
      invariant |written| == i && forall j | 0 <= j < i :: written[j] == update(rows[j])
      invariant apply ==> forall j | 0 <= j < i :: agrees(rows[j])
    {
      if apply && !agrees(rows[i]) {
        return written, Some(rows[i].id);
      }
      written := written + [update(rows[i])];
    }
    failed := None;
  }

  lemma CurrentStep(rows: seq<WatchRow>, i: nat)
    requires i < |rows|
    ensures forall x: Item :: Current(rows[..i + 1], x) <==>
                              Current(rows[..i], x) || (SameIdentity(rows[i], x) && x.key in Collected(rows[i]))
  {
    forall x: Item
      ensures Current(rows[..i + 1], x) <==>
              Current(rows[..i], x) || (SameIdentity(rows[i], x) && x.key in Collected(rows[i]))
    {
      if Current(rows[..i], x) {
        var j :| 0 <= j < i && SameIdentity(rows[..i][j], x) && x.key in Collected(rows[..i][j]);
        assert rows[..i + 1][j] == rows[..i][j];
      }
      if SameIdentity(rows[i], x) && x.key in Collected(rows[i]) {
        assert rows[..i + 1][i] == rows[i];
      }
    }
  }
}
