/** What a reconciliation run does to the collected episodes, said of stored values
    (migration_tools/reconcile_collected.py). */
module CollectedRows {
  import opened PyText
  import opened Gathering
  import opened EpisodeKeys
  import opened CollectedReconcile

  /** The row's array holds a value that reads as the episode. */
  predicate Holds(row: WatchRow, k: Key) {
    exists j :: 0 <= j < |row.collected| && KeyOf(Some(row.season), row.collected[j]) == Some(k)
  }

  /** A legacy row of the series and season holds a value that reads as the episode; a season left out, or 0, is 1. */
  ghost predicate LegacyHolds(rows: seq<LegacyRow>, tmdbId: int, season: int, k: Key) {
    exists i :: 0 <= i < |rows| && LegacyRowHolds(rows[i], tmdbId, season, k)
  }

  predicate LegacyRowHolds(row: LegacyRow, tmdbId: int, season: int, k: Key) {
    row.tmdbId == tmdbId && Names(row.season, season) &&
    exists j :: 0 <= j < |row.episodes| && KeyOf(row.season, row.episodes[j]) == Some(k)
  }

  /** An inventory row of the series and season has the episode's number; season 0 counts as season 1 in keys. */
  predicate StockHolds(stock: seq<InventoryRow>, tmdbId: int, season: int, k: Key) {
    exists i :: 0 <= i < |stock| && stock[i].tmdbId == tmdbId && stock[i].season == season &&
                stock[i].episode == k.episode &&
                Names(Some(season), k.season) && k.season >= 1 && 1 <= k.episode < 10000
  }

  lemma {:induction false} LegacyIn(rows: seq<LegacyRow>, x: Item)
    ensures x in Legacy(rows) <==> LegacyHolds(rows, x.tmdbId, x.season, x.key)
  {
    if rows != [] {
      var front, last := rows[..|rows| - 1], rows[|rows| - 1];
      LegacyIn(front, x);
      LegacyRowIn(last, x);
      assert rows == front + [last];
      LegacyHoldsMore(front, last, x);
    }
  }

  lemma LegacyHoldsMore(front: seq<LegacyRow>, last: LegacyRow, x: Item)
    ensures LegacyHolds(front + [last], x.tmdbId, x.season, x.key) <==>
            LegacyHolds(front, x.tmdbId, x.season, x.key) || LegacyRowHolds(last, x.tmdbId, x.season, x.key)
  {
    var rows := front + [last];
    assert rows[|front|] == last;
    if i :| 0 <= i < |front| && LegacyRowHolds(front[i], x.tmdbId, x.season, x.key) {
      assert rows[i] == front[i];
    }
  }

  lemma LegacyRowIn(row: LegacyRow, x: Item)
    ensures x in Gather(row.episodes, LegacyItem(row)) <==> LegacyRowHolds(row, x.tmdbId, x.season, x.key)
  {
    GatherIn(row.episodes, LegacyItem(row), x);
    NamesEffective(row.season, x.season);
    forall j | 0 <= j < |row.episodes|
      ensures LegacyItem(row)(row.episodes[j]) == Some(x) <==>
              row.tmdbId == x.tmdbId && Names(row.season, x.season) && KeyOf(row.season, row.episodes[j]) == Some(x.key)
    {
    }
  }

  lemma StockIn(stock: seq<InventoryRow>, x: Item)
    ensures x in Inventory(stock) <==> StockHolds(stock, x.tmdbId, x.season, x.key)
  {
    GatherIn(stock, InventoryItem, x);
    forall i | 0 <= i < |stock|
      ensures InventoryItem(stock[i]) == Some(x) <==>
              stock[i].tmdbId == x.tmdbId && stock[i].season == x.season && stock[i].episode == x.key.episode &&
              Names(Some(x.season), x.key.season) && x.key.season >= 1 && 1 <= x.key.episode < 10000
    {
      BareNumberOnly(Some(stock[i].season), stock[i].episode, x.key);
    }
  }

  ghost predicate SomeRowHolds(rows: seq<WatchRow>, tmdbId: int, season: int, k: Key) {
    exists i :: 0 <= i < |rows| && rows[i].tmdbId == tmdbId && rows[i].season == season && Holds(rows[i], k)
  }

  lemma CurrentHolds(rows: seq<WatchRow>, x: Item)
    ensures Current(rows, x) <==> SomeRowHolds(rows, x.tmdbId, x.season, x.key)
    ensures forall i | 0 <= i < |rows| :: x.key in Collected(rows[i]) <==> Holds(rows[i], x.key)
  {
    forall i | 0 <= i < |rows|
      ensures x.key in Collected(rows[i]) <==> Holds(rows[i], x.key)
      ensures SameIdentity(rows[i], x) <==> rows[i].tmdbId == x.tmdbId && rows[i].season == x.season
    {
    }
    if i :| 0 <= i < |rows| && rows[i].tmdbId == x.tmdbId && rows[i].season == x.season && Holds(rows[i], x.key) {
      assert SameIdentity(rows[i], x) && x.key in Collected(rows[i]);
    }
  }

  /** After a successful run a row holds an episode iff it did before, or a legacy row and an inventory row both have it
      and no row of the series and season held it; it is still the row of the same series. */
  lemma RowGains(legacy: seq<LegacyRow>, rows: seq<WatchRow>, stock: seq<InventoryRow>, i: nat, k: Key)
    requires i < |rows| && Succeeds(rows, Candidates(Legacy(legacy), rows, Inventory(stock)))
    ensures var after := Reconciled(rows, Candidates(Legacy(legacy), rows, Inventory(stock)));
            var tmdbId, season := rows[i].tmdbId, rows[i].season;
            && |after| == |rows|
            && (after[i].id, after[i].tmdbId, after[i].season) == (rows[i].id, tmdbId, season)
            && (Holds(after[i], k) <==>
                Holds(rows[i], k) || (LegacyHolds(legacy, tmdbId, season, k) && StockHolds(stock, tmdbId, season, k) &&
                                      !SomeRowHolds(rows, tmdbId, season, k)))
  {
    var x := Item(rows[i].tmdbId, rows[i].season, k);
    GainsExactly(Legacy(legacy), rows, stock, i, k);
    LegacyIn(legacy, x);
    StockIn(stock, x);
    CurrentHolds(rows, x);
    var after := Reconciled(rows, Candidates(Legacy(legacy), rows, Inventory(stock)));
    assert k in Collected(after[i]) <==> Holds(after[i], k);
  }

  /** Entry j of the row is the canonical text of what it reads as. */
  predicate CanonicalAt(row: WatchRow, j: nat) {
    j < |row.collected| && row.collected[j].TextValue? && KeyOf(Some(row.season), row.collected[j]).Some? &&
    row.collected[j].text == KeyOf(Some(row.season), row.collected[j]).value.Text()
  }

  /** Every entry is canonical, and they run by season and then by episode. */
  predicate InOrder(row: WatchRow) {
    && (forall j | 0 <= j < |row.collected| :: CanonicalAt(row, j))
    && (forall i, j | 0 <= i < j < |row.collected| :: Earlier(row, i, j))
  }

  predicate Earlier(row: WatchRow, i: nat, j: nat)
    requires i < j < |row.collected|
  {
    var a, b := KeyOf(Some(row.season), row.collected[i]), KeyOf(Some(row.season), row.collected[j]);
    a.Some? && b.Some? &&
    (a.value.season < b.value.season || (a.value.season == b.value.season && a.value.episode < b.value.episode))
  }

  lemma TextsInOrder(row: WatchRow, keys: seq<Key>)
    requires Ascending(keys) && Readable(keys) && (forall k | k in keys :: k.season < 1000)
    requires row.collected == Texts(keys)
    ensures InOrder(row)
  {
    forall j | 0 <= j < |keys|
      ensures KeyOf(Some(row.season), row.collected[j]) == Some(keys[j])
    {
      assert keys[j] in keys;
      CanonicalFormatted(Some(row.season), keys[j].season, keys[j].episode);
    }
  }

  /** A row is left as it was, or written anew: every entry canonical, in ascending order, none twice. */
  lemma RowWritten(legacy: seq<LegacyRow>, rows: seq<WatchRow>, stock: seq<InventoryRow>, i: nat)
    requires i < |rows| && Succeeds(rows, Candidates(Legacy(legacy), rows, Inventory(stock)))
    ensures var after := Reconciled(rows, Candidates(Legacy(legacy), rows, Inventory(stock)));
            after[i] == rows[i] || InOrder(after[i])
  {
    var candidates := Candidates(Legacy(legacy), rows, Inventory(stock));
    var additions := Additions(candidates, rows[i]);
    assert Fits(candidates, rows[i]);
    if additions != [] {
      AdditionShape(Legacy(legacy), rows, stock, rows[i]);
      NewKeysReadable(rows[i], additions);
      TextsInOrder(UpdatedRow(rows[i], additions), NewKeys(rows[i], additions));
    }
  }

  /** The review list: legacy episodes that neither a row nor the inventory has. */
  lemma ReviewExact(legacy: seq<LegacyRow>, rows: seq<WatchRow>, stock: seq<InventoryRow>, x: Item)
    ensures x in ForReview(Legacy(legacy), rows, Inventory(stock)) <==>
            && LegacyHolds(legacy, x.tmdbId, x.season, x.key) && !StockHolds(stock, x.tmdbId, x.season, x.key)
            && !SomeRowHolds(rows, x.tmdbId, x.season, x.key)
  {
    LegacyParts(Legacy(legacy), rows, Inventory(stock), x);
    LegacyIn(legacy, x);
    StockIn(stock, x);
    CurrentHolds(rows, x);
  }
}
