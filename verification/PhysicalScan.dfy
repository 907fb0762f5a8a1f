/** `PhysicalCloudInventoryScanner` (app/follow/physical_cloud_inventory.py): the bounded, cached, fail-closed scan. */
module PhysicalScan {
  import opened PyText
  import opened Sorting
  import opened Gathering
  import opened Totals
  import opened BreadthFirst
  import opened EpisodeKeys
  import opened EpisodeMatcher
  import opened CloudListing

  datatype ScanError =
    | IdentityRequired
    | MaxDepthReached
    | MaxPagesReached
    | MaxItemsReached
    | DirectoryIdMissing
    | FullPageWithoutPaginationProof
    | CallFailed
    | DuplicateSeasonRoot

  /** The status that goes with an error; a failed call is a timeout or not. */
  predicate StatusFits(status: ScanStatus, error: Option<ScanError>) {
    match error
    case None => status == Verified
    case Some(MaxDepthReached) => status == LimitUnverified
    case Some(MaxPagesReached) => status == LimitUnverified
    case Some(MaxItemsReached) => status == LimitUnverified
    case Some(IdentityRequired) => status == ApiError
    case Some(DirectoryIdMissing) => status == ApiError
    case Some(CallFailed) => status == ApiError || status == TimeoutUnverified
    case Some(FullPageWithoutPaginationProof) => status == PaginationIncomplete
    case Some(DuplicateSeasonRoot) => status == LayoutConflictUnverified
  }

  /** The payload the watermark digest is taken of; the digest itself is taken to be injective. */
  datatype Watermark = Watermark(tmdbId: int, root: string, files: seq<CloudFile>, timestamp: real)

  datatype ScanResult = ScanResult(
    tmdbId: int,
    root: string,
    seasons: set<nat>,
    keysBySeason: map<nat, set<Key>>,
    files: seq<CloudFile>,
    status: ScanStatus,
    error: Option<ScanError>,
    timestamp: real,
    watermark: Option<Watermark>,
    pagesRead: nat,
    itemsRead: nat,
    fromCache: bool
  )

  function KeysOfSeason(files: seq<CloudFile>, season: nat): set<Key> {
    set i | 0 <= i < |files| && files[i].season == season :: files[i].key
  }

  function KeysBySeason(files: seq<CloudFile>, seasons: set<nat>): map<nat, set<Key>> {
    map s | s in seasons :: KeysOfSeason(files, s)
  }

  function WantedSeasons(values: seq<int>): set<nat> {
    set i | 0 <= i < |values| && values[i] > 0 :: values[i] as nat
  }

  /** The seasons looked for are the positive ones given. */
  lemma WantedAre(values: seq<int>, s: nat)
    ensures s in WantedSeasons(values) <==> s > 0 && s in values
  {
    if s > 0 && s in values {
      var i :| 0 <= i < |values| && values[i] == s;
    }
  }

  // ---------- the items of one page ----------

  /** What has been taken over from the pages read so far. */
  ghost predicate Taken(items: seq<Item>, depth: nat, seasons: set<nat>, limits: Limits,
                        folders: seq<string>, files: seq<CloudFile>, labels: seq<nat>)
  {
    && Traversable(items, depth, limits)
    && folders == FolderIds(items)
    && files == RecordsOf(items, seasons)
    && labels == if depth == 0 then Labels(items) else []
  }

  /** Why a page is not traversed: a folder without an id, or a folder below the depth limit and none without an id. */
  ghost predicate Blocked(items: seq<Item>, depth: nat, limits: Limits, error: Option<ScanError>) {
    match error
    case Some(DirectoryIdMissing) => exists i :: 0 <= i < |items| && NamedFolder(items[i]) && items[i].id == ""
    case Some(MaxDepthReached) =>
      && depth >= limits.maxDepth
      && (exists i :: 0 <= i < |items| && NamedFolder(items[i]))
      && (forall i | 0 <= i < |items| && NamedFolder(items[i]) :: items[i].id != "")
    case _ => false
  }

  method RecordItem(item: Item, seasons: set<nat>) returns (file: Option<CloudFile>)
    requires item.name.text != "" && !item.isFolder
    ensures file == RecordOf(item, seasons)
  {
    if !item.name.isVideo {
      return None;
    }
    var keys := ExtractVideoEpisodeKeys(item.name, None);
    SoleKeyIsSingleton(item.name, None);
    if |keys| != 1 {
      return None;
    }
    var key :| key in keys;
    assert keys == {key};
    var season := key.Slice();
    if season !in seasons {
      return None;
    }
    return Some(CloudFile(season, key, item.name, item.id, item.size));
  }

  method CollectItems(items: seq<Item>, depth: nat, seasons: set<nat>, limits: Limits)
      returns (status: ScanStatus, error: Option<ScanError>, folders: seq<string>, files: seq<CloudFile>,
               labels: seq<nat>)
    ensures status == Verified <==> Traversable(items, depth, limits)
    ensures StatusFits(status, error)
    ensures status != Verified ==> Blocked(items, depth, limits, error)
    ensures status == Verified ==> Taken(items, depth, seasons, limits, folders, files, labels)
  {
    status, error, folders, files, labels := Verified, None, [], [], [];
    for i := 0 to |items|
      invariant status == Verified <==> Traversable(items[..i], depth, limits)
      invariant StatusFits(status, error)
      invariant status != Verified ==> error == Some(MaxDepthReached) && Blocked(items[..i], depth, limits, error)
      invariant status == Verified ==>
                  folders == FolderIds(items[..i]) && files == RecordsOf(items[..i], seasons) &&
                  labels == if depth == 0 then Labels(items[..i]) else []
    {
      var item := items[i];
      GatherStep(items, i, FolderId);
      GatherStep(items, i, FolderLabel);
      GatherStep(items, i, RecordRule(seasons));
      assert items[..i + 1] == items[..i] + [item];
      if item.name.text == "" {
        continue;
      }
      if item.isFolder {
        if depth == 0 && item.name.seasonLabel.Some? {
          labels := labels + [item.name.seasonLabel.value];
        }
        if item.id == "" {
          status, error := ApiError, Some(DirectoryIdMissing);
          assert !Traversable(items, depth, limits);
          return;
        }
        if depth >= limits.maxDepth {
          status, error := LimitUnverified, Some(MaxDepthReached);
        } else {
          folders := folders + [item.id];
        }
        continue;
      }
      var file := RecordItem(item, seasons);
      if file.Some? {
        files := files + [file.value];
      }
    }
    assert items[..|items|] == items;
  }

  // ---------- one directory ----------

  /** The directory passes every test the scan puts to it, with `pages` page calls and `items` items left. */
  ghost predicate Accepted(l: Listing, limits: Limits, dir: string, depth: nat, pages: nat, items: nat) {
    && FullyListed(l, limits, dir, depth)
    && PageCount(l, limits.pageSize, dir) <= pages
    && |Contents(l, limits.pageSize, dir)| <= items
  }

  /** The page about to be read belongs to any directory that is accepted. */
  lemma PageWithin(l: Listing, limits: Limits, dir: string, depth: nat, pages: nat, items: nat, page: nat)
    requires AllFollowed(l, dir, page) && Accepted(l, limits, dir, depth, pages, items)
    ensures page < pages && FetchOf(l(dir, page)).Got? && |ItemsUpTo(l, dir, page + 1)| <= items
    ensures Traversable(FetchOf(l(dir, page)).items, depth, limits)
    ensures IsFollowed(FetchOf(l(dir, page))) || IsLast(FetchOf(l(dir, page)), limits.pageSize)
  {
    var n := PageCount(l, limits.pageSize, dir);
    EndsBeyond(l, limits.pageSize, dir, page, n);
    var got := FetchOf(l(dir, page)).items;
    var before := ItemsUpTo(l, dir, page);
    assert ItemsUpTo(l, dir, page + 1) == before + got;
    forall i | 0 <= i < |got|
      ensures got[i] == Contents(l, limits.pageSize, dir)[|before| + i]
    {
      assert got[i] == ItemsUpTo(l, dir, page + 1)[|before| + i];
    }
  }

  /** The page passes every test that the scan puts to a page. */
  predicate PagePasses(l: Listing, limits: Limits, dir: string, depth: nat, pages: nat, items: nat, page: nat) {
    var fetch := FetchOf(l(dir, page));
    && page < pages && fetch.Got? && |ItemsUpTo(l, dir, page + 1)| <= items
    && (forall i | 0 <= i < |fetch.items| && NamedFolder(fetch.items[i]) ::
          fetch.items[i].id != "" && depth < limits.maxDepth)
    && (IsFollowed(fetch) || IsLast(fetch, limits.pageSize))
  }

  lemma PageOfAccepted(l: Listing, limits: Limits, dir: string, depth: nat, pages: nat, items: nat, page: nat)
    requires AllFollowed(l, dir, page)
    ensures Accepted(l, limits, dir, depth, pages, items) ==> PagePasses(l, limits, dir, depth, pages, items, page)
  {
    if Accepted(l, limits, dir, depth, pages, items) {
      PageWithin(l, limits, dir, depth, pages, items, page);
    }
  }

  /** The page just read closes the directory. */
  lemma PageCloses(l: Listing, limits: Limits, dir: string, page: nat)
    requires AllFollowed(l, dir, page) && IsLast(FetchOf(l(dir, page)), limits.pageSize)
    ensures PageCount(l, limits.pageSize, dir) == page + 1
    ensures Contents(l, limits.pageSize, dir) == ItemsUpTo(l, dir, page + 1)
  {
    assert Ends(l, limits.pageSize, dir, page + 1);
    EndsUnique(l, limits.pageSize, dir, page + 1, PageCount(l, limits.pageSize, dir));
  }

  lemma TakenConcat(a: seq<Item>, b: seq<Item>, depth: nat, seasons: set<nat>, limits: Limits,
                    folders: seq<string>, files: seq<CloudFile>, labels: seq<nat>,
                    folders': seq<string>, files': seq<CloudFile>, labels': seq<nat>)
    requires Taken(a, depth, seasons, limits, folders, files, labels)
    requires Taken(b, depth, seasons, limits, folders', files', labels')
    ensures Taken(a + b, depth, seasons, limits, folders + folders', files + files', labels + labels')
  {
    GatherConcat(a, b, FolderId);
    GatherConcat(a, b, FolderLabel);
    GatherConcat(a, b, RecordRule(seasons));
  }

  /** Takes over the items of the page just fetched. */
  method TakePage(l: Listing, dir: string, page: nat, items: seq<Item>, depth: nat, seasons: set<nat>, limits: Limits,
                  folders: seq<string>, files: seq<CloudFile>, labels: seq<nat>)
      returns (status: ScanStatus, error: Option<ScanError>, folders': seq<string>, files': seq<CloudFile>,
               labels': seq<nat>)
    requires Taken(ItemsUpTo(l, dir, page), depth, seasons, limits, folders, files, labels)
    requires ItemsUpTo(l, dir, page + 1) == ItemsUpTo(l, dir, page) + items
    ensures StatusFits(status, error)
    ensures status == Verified <==> Traversable(items, depth, limits)
    ensures status != Verified ==> Blocked(items, depth, limits, error)
    ensures status == Verified ==> Taken(ItemsUpTo(l, dir, page + 1), depth, seasons, limits, folders', files', labels')
  {
    var folders1, files1, labels1;
    status, error, folders1, files1, labels1 := CollectItems(items, depth, seasons, limits);
    if status == Verified {
      TakenConcat(ItemsUpTo(l, dir, page), items, depth, seasons, limits, folders, files, labels, folders1, files1,
                  labels1);
    }
    folders', files', labels' := folders + folders1, files + files1, labels + labels1;
  }

  /** What one page shows when the scan gives up on it. */
  ghost predicate Spoils(l: Listing, limits: Limits, dir: string, depth: nat, room: int, page: nat, status: ScanStatus,
                         error: ScanError)
  {
    var fetch := FetchOf(l(dir, page));
    match error
    case CallFailed => fetch == Broken(status)
    case MaxItemsReached => |ItemsUpTo(l, dir, page + 1)| > room
    case FullPageWithoutPaginationProof => fetch.Got? && fetch.more.None? && |fetch.items| >= limits.pageSize
    case _ => fetch.Got? && Blocked(fetch.items, depth, limits, Some(error))
  }

  /** Why a directory is not accepted: the first `page` pages announce another, and then the budget is used up, or this
      page spoils it. */
  ghost predicate Cause(l: Listing, limits: Limits, dir: string, depth: nat, pages: int, room: int, page: nat,
                        status: ScanStatus, error: Option<ScanError>)
  {
    && error.Some? && AllFollowed(l, dir, page)
    && if error.value == MaxPagesReached then page == pages
       else Spoils(l, limits, dir, depth, room, page, status, error.value)
  }

  method ListDirectory(l: Listing, dir: string, depth: nat, seasons: set<nat>, limits: Limits,
                       pageBudget: nat, pagesBefore: nat, itemsBefore: nat)
      returns (status: ScanStatus, error: Option<ScanError>, folders: seq<string>, files: seq<CloudFile>,
               labels: seq<nat>, pagesRead: nat, itemsRead: nat, ghost last: nat)
    requires pagesBefore <= pageBudget && itemsBefore <= limits.maxItems
    ensures pagesBefore <= pagesRead <= pageBudget
    ensures StatusFits(status, error)
    ensures status == Verified <==>
            Accepted(l, limits, dir, depth, pageBudget - pagesBefore, limits.maxItems - itemsBefore)
    ensures status != Verified ==>
              Cause(l, limits, dir, depth, pageBudget - pagesBefore, limits.maxItems - itemsBefore, last, status, error)
    ensures status == Verified ==>
              && Taken(Contents(l, limits.pageSize, dir), depth, seasons, limits, folders, files, labels)
              && itemsRead == itemsBefore + |Contents(l, limits.pageSize, dir)|
              && pagesRead == pagesBefore + PageCount(l, limits.pageSize, dir)
  {
    status, error, folders, files, labels := Verified, None, [], [], [];
    pagesRead, itemsRead := pagesBefore, itemsBefore;
    ghost var pages, room := pageBudget - pagesBefore, limits.maxItems - itemsBefore;
    last := 0;
    var page := 0;
    while true
      invariant status == Verified && error == None
      invariant AllFollowed(l, dir, page)
      invariant pagesRead == pagesBefore + page <= pageBudget
      invariant itemsRead == itemsBefore + |ItemsUpTo(l, dir, page)| <= limits.maxItems
      invariant Taken(ItemsUpTo(l, dir, page), depth, seasons, limits, folders, files, labels)
      decreases pageBudget - pagesRead
    {
      last := page;
      PageOfAccepted(l, limits, dir, depth, pages, room, page);
      if pagesRead >= pageBudget {
        status, error := LimitUnverified, Some(MaxPagesReached);
        return;
      }
      var fetch := FetchOf(l(dir, page));
      if fetch.Broken? {
        status, error := fetch.status, Some(CallFailed);
        return;
      }
      pagesRead := pagesRead + 1;
      itemsRead := itemsRead + |fetch.items|;
      if itemsRead > limits.maxItems {
        status, error := LimitUnverified, Some(MaxItemsReached);
        return;
      }
      status, error, folders, files, labels :=
        TakePage(l, dir, page, fetch.items, depth, seasons, limits, folders, files, labels);
      if status != Verified {
        return;
      }
      if fetch.more.Some? && fetch.more.value {
        page := page + 1;
        continue;
      }
      if fetch.more.None? && |fetch.items| >= limits.pageSize {
        status, error := PaginationIncomplete, Some(FullPageWithoutPaginationProof);
        return;
      }
      PageCloses(l, limits, dir, page);
      return;
    }
  }

  // ---------- the traversal ----------

  /** The page calls allowed once n directories are visited: `max_pages_per_directory * n`. */
  function PageBudget(maxPages: nat, n: nat): nat {
    if n == 0 then 0 else PageBudget(maxPages, n - 1) + maxPages
  }

  lemma {:induction false} PageBudgetIsProduct(maxPages: nat, n: nat)
    ensures PageBudget(maxPages, n) == maxPages * n
  {
    if n > 0 {
      PageBudgetIsProduct(maxPages, n - 1);
    }
  }

  /** The waiting directories and the depths of the visited ones. */
  ghost predicate Frontier(t: Tree, limits: Limits, root: string, queue: seq<Entry>, depthOf: map<string, nat>,
                           level: nat) {
    && Sound(t.graph, root, queue, depthOf, level)
    && (forall i | 0 <= i < |queue| :: queue[i].depth <= limits.maxDepth && queue[i].id != "")
  }

  /** The accounts of the visited directories. */
  ghost predicate Ledger(t: Tree, limits: Limits, root: string, order: seq<string>, depthOf: map<string, nat>,
                         files: seq<CloudFile>, labels: seq<nat>, pagesRead: nat, itemsRead: nat)
  {
    && Distinct(order)
    && (forall d :: d in order <==> d in depthOf)
    && (forall d | d in depthOf :: t.pages(d) > 0 && t.listed(d, depthOf[d]))
    && files == FlatOver(order, t.filesOf)
    && labels == (if root in depthOf then t.rootLabels else [])
    && pagesRead <= PageBudget(limits.maxPages, |order|)
    && itemsRead == SumOver(order, t.count) <= limits.maxItems
  }

  lemma LedgerVisit(t: Tree, limits: Limits, root: string, order: seq<string>, depthOf: map<string, nat>,
                    files: seq<CloudFile>, labels: seq<nat>, pagesRead: nat, itemsRead: nat,
                    dir: string, depth: nat, files': seq<CloudFile>, labels': seq<nat>, pagesRead': nat,
                    itemsRead': nat)
      returns (order': seq<string>)
    requires Ledger(t, limits, root, order, depthOf, files, labels, pagesRead, itemsRead)
    requires dir !in depthOf && (dir == root <==> root !in depthOf)
    requires t.pages(dir) > 0 && t.listed(dir, depth)
    requires files' == t.filesOf(dir) && labels' == if dir == root then t.rootLabels else []
    requires pagesRead' <= PageBudget(limits.maxPages, |order| + 1)
    requires itemsRead' == itemsRead + t.count(dir) <= limits.maxItems
    ensures Ledger(t, limits, root, order', depthOf[dir := depth], files + files', labels + labels', pagesRead',
                   itemsRead')
    ensures |order'| == |order| + 1
  {
    order' := order + [dir];
    var depthOf' := depthOf[dir := depth];
    assert Distinct(order') && forall d :: d in order' <==> d in depthOf' by {
      assert forall d :: d in order' <==> d in order || d == dir;
    }
    Extend(order, dir, t.count, t.filesOf);
  }

  lemma OneMore(order: seq<string>, dir: string) returns (order': seq<string>)
    requires Distinct(order) && dir !in order
    ensures Distinct(order') && |order'| == |order| + 1
  {
    order' := order + [dir];
  }

  /** What the loop keeps while the status is VERIFIED; each directory ever queued stands for an item read. */
  ghost predicate Running(t: Tree, limits: Limits, root: string, queue: seq<Entry>, visited: set<string>,
                          files: seq<CloudFile>, labels: seq<nat>, pagesRead: nat, itemsRead: nat,
                          visits: seq<string>, depthOf: map<string, nat>, level: nat)
  {
    && Frontier(t, limits, root, queue, depthOf, level)
    && Ledger(t, limits, root, visits, depthOf, files, labels, pagesRead, itemsRead)
    && visited == depthOf.Keys && |visited| == |visits|
    && |visits| + |queue| <= 1 + itemsRead
  }

  /** Drops a directory that was listed before. */
  method SkipNext(ghost t: Tree, limits: Limits, root: string, queue: seq<Entry>, visited: set<string>,
                  files: seq<CloudFile>, labels: seq<nat>, pagesRead: nat, itemsRead: nat,
                  ghost visits: seq<string>, ghost depthOf: map<string, nat>, ghost level: nat)
      returns (queue': seq<Entry>)
    requires Running(t, limits, root, queue, visited, files, labels, pagesRead, itemsRead, visits, depthOf, level)
    requires queue != [] && queue[0].id in visited
    ensures Running(t, limits, root, queue', visited, files, labels, pagesRead, itemsRead, visits, depthOf,
                    queue[0].depth)
    ensures |queue'| < |queue|
  {
    Skip(t.graph, root, queue, depthOf, level);
    queue' := queue[1..];
  }

  /** Drops the directory just listed and appends its folders. */
  method Enqueue(ghost t: Tree, limits: Limits, root: string, queue: seq<Entry>, folders: seq<string>,
                 ghost depthOf: map<string, nat>, ghost level: nat)
      returns (queue': seq<Entry>)
    requires Frontier(t, limits, root, queue, depthOf, level) && queue != [] && queue[0].id !in depthOf
    requires forall c :: t.graph(queue[0].id, c) <==> c in folders
    requires "" !in folders && (folders != [] ==> queue[0].depth < limits.maxDepth)
    ensures Frontier(t, limits, root, queue', depthOf[queue[0].id := queue[0].depth], queue[0].depth)
    ensures |queue'| < |queue| + |folders|
  {
    Visit(t.graph, root, queue, depthOf, level, folders);
    assert forall i | 0 <= i < |folders| :: folders[i] in folders;
    queue' := queue[1..] + EntriesOf(folders, queue[0].depth + 1);
  }

  lemma NextReachable(g: Graph, root: string, queue: seq<Entry>, depthOf: map<string, nat>, level: nat,
                      order: seq<string>)
    requires Sound(g, root, queue, depthOf, level) && queue != [] && queue[0].id !in depthOf
    requires Distinct(order) && forall d :: d in order <==> d in depthOf
    ensures IsDistance(g, root, queue[0].id, queue[0].depth) && Reachable(g, root, queue[0].id)
    ensures Distinct(order + [queue[0].id]) && forall d | d in order + [queue[0].id] :: Reachable(g, root, d)
  {
    VisitedReachable(g, root, queue, depthOf, level);
    PoppedAtDistance(g, root, queue, depthOf, level);
  }

  /** A wholesome provider with short listings passes every test the scan puts to the next directory. */
  lemma NextIsAccepted(t: Tree, limits: Limits, root: string, dir: string, depth: nat, order: seq<string>,
                       pagesRead: nat, itemsRead: nat)
    requires Wholesome(t, limits, root) && ShortListings(t, limits, root)
    requires IsDistance(t.graph, root, dir, depth) && Reachable(t.graph, root, dir)
    requires Distinct(order + [dir]) && forall d | d in order + [dir] :: Reachable(t.graph, root, d)
    requires pagesRead <= PageBudget(limits.maxPages, |order|)
    requires itemsRead == SumOver(order, t.count) <= limits.maxItems
    ensures t.pages(dir) > 0 && t.listed(dir, depth)
    ensures pagesRead + t.pages(dir) <= PageBudget(limits.maxPages, |order| + 1)
    ensures itemsRead + t.count(dir) <= limits.maxItems
  {
    var ds := order + [dir];
    assert SumOver(ds, t.count) <= limits.maxItems;
    assert SumOver(ds, t.count) == SumOver(order, t.count) + t.count(dir) by {
      Extend(order, dir, t.count, t.filesOf);
    }
  }

  lemma NextPasses(t: Tree, limits: Limits, root: string, queue: seq<Entry>, depthOf: map<string, nat>, level: nat,
                   order: seq<string>, files: seq<CloudFile>, labels: seq<nat>, pagesRead: nat, itemsRead: nat)
    requires queue != [] && queue[0].id !in depthOf
    requires Frontier(t, limits, root, queue, depthOf, level)
    requires Ledger(t, limits, root, order, depthOf, files, labels, pagesRead, itemsRead)
    ensures var Entry(dir, depth) := queue[0];
            Wholesome(t, limits, root) && ShortListings(t, limits, root) ==>
              && t.pages(dir) > 0 && t.listed(dir, depth)
              && pagesRead + t.pages(dir) <= PageBudget(limits.maxPages, |order| + 1)
              && itemsRead + t.count(dir) <= limits.maxItems
  {
    if Wholesome(t, limits, root) && ShortListings(t, limits, root) {
      NextReachable(t.graph, root, queue, depthOf, level, order);
      NextIsAccepted(t, limits, root, queue[0].id, queue[0].depth, order, pagesRead, itemsRead);
    }
  }

  /** `ListDirectory`, with its outcome read off the tree. */
  method ListInTree(l: Listing, ghost t: Tree, root: string, dir: string, depth: nat, seasons: set<nat>, limits: Limits,
                    pageBudget: nat, pagesBefore: nat, itemsBefore: nat)
      returns (status: ScanStatus, error: Option<ScanError>, folders: seq<string>, files: seq<CloudFile>,
               labels: seq<nat>, pagesRead: nat, itemsRead: nat)
    requires Describes(t, l, limits, root, seasons) && (depth == 0 <==> dir == root)
    requires pagesBefore <= pageBudget && itemsBefore <= limits.maxItems
    ensures StatusFits(status, error)
    ensures pagesRead <= pageBudget
    ensures status == Verified <==>
            t.pages(dir) > 0 && t.listed(dir, depth) &&
            pagesBefore + t.pages(dir) <= pageBudget && itemsBefore + t.count(dir) <= limits.maxItems
    ensures status == Verified ==>
              && itemsRead == itemsBefore + t.count(dir) && |folders| <= t.count(dir)
              && (forall c :: t.graph(dir, c) <==> c in folders)
              && "" !in folders && (folders != [] ==> depth < limits.maxDepth)
              && files == t.filesOf(dir) && labels == if dir == root then t.rootLabels else []
  {
    ghost var last;
    status, error, folders, files, labels, pagesRead, itemsRead, last :=
      ListDirectory(l, dir, depth, seasons, limits, pageBudget, pagesBefore, itemsBefore);
    if status == Verified {
      ChildrenOfListed(l, limits, dir, depth);
      FolderIdsIn(Contents(l, limits.pageSize, dir), "");
      assert forall c :: t.graph(dir, c) <==> Child(l, dir, c);
    }
  }

  /** Lists one new directory and extends the accounts by it. */
  method VisitDirectory(l: Listing, ghost t: Tree, root: string, seasons: set<nat>, limits: Limits, queue: seq<Entry>,
                        files: seq<CloudFile>, labels: seq<nat>, pagesRead: nat, itemsRead: nat, visitedCount: nat,
                        ghost order: seq<string>, ghost depthOf: map<string, nat>, ghost level: nat)
      returns (status: ScanStatus, error: Option<ScanError>, queue': seq<Entry>,
               files': seq<CloudFile>, labels': seq<nat>, pagesRead': nat, itemsRead': nat,
               ghost order': seq<string>, ghost depthOf': map<string, nat>)
    requires Describes(t, l, limits, root, seasons)
    requires queue != [] && queue[0].id !in depthOf && visitedCount == |order| + 1
    requires Frontier(t, limits, root, queue, depthOf, level)
    requires Ledger(t, limits, root, order, depthOf, files, labels, pagesRead, itemsRead)
    ensures StatusFits(status, error)
    ensures Wholesome(t, limits, root) && ShortListings(t, limits, root) ==> status == Verified
    ensures pagesRead' <= PageBudget(limits.maxPages, |order'|)
    ensures Distinct(order') && |order'| == |order| + 1 && depthOf'.Keys == depthOf.Keys + {queue[0].id}
    ensures status == Verified ==>
              && Frontier(t, limits, root, queue', depthOf', queue[0].depth)
              && Ledger(t, limits, root, order', depthOf', files', labels', pagesRead', itemsRead')
              && |queue'| - |queue| < itemsRead' - itemsRead
  {
    var Entry(dir, depth) := queue[0];
    order' := OneMore(order, dir);
    depthOf' := depthOf[dir := depth];
    assert limits.maxPages * visitedCount == PageBudget(limits.maxPages, |order| + 1) by {
      PageBudgetIsProduct(limits.maxPages, visitedCount);
    }
    NextPasses(t, limits, root, queue, depthOf, level, order, files, labels, pagesRead, itemsRead);
    if depth > limits.maxDepth {
      assert false;  // no such entry is ever queued
    }
    RootIsFirst(t.graph, root, queue, depthOf, level);
    var folders, moreFiles, moreLabels;
    status, error, folders, moreFiles, moreLabels, pagesRead', itemsRead' :=
      ListInTree(l, t, root, dir, depth, seasons, limits, limits.maxPages * visitedCount, pagesRead, itemsRead);
    queue', files', labels' := queue, files + moreFiles, labels + moreLabels;
    if status == Verified {
      queue' := Enqueue(t, limits, root, queue, folders, depthOf, level);
      order' := LedgerVisit(t, limits, root, order, depthOf, files, labels, pagesRead, itemsRead,
                  dir, depth, moreFiles, moreLabels, pagesRead', itemsRead');
    }
  }

  /** A directory not visited yet: lists it and marks it visited. */
  method VisitNext(l: Listing, ghost t: Tree, root: string, seasons: set<nat>, limits: Limits,
                   queue: seq<Entry>, visited: set<string>, files: seq<CloudFile>, labels: seq<nat>, pagesRead: nat,
                   itemsRead: nat, ghost visits: seq<string>, ghost depthOf: map<string, nat>, ghost level: nat)
      returns (status: ScanStatus, error: Option<ScanError>, queue': seq<Entry>, visited': set<string>,
               files': seq<CloudFile>, labels': seq<nat>, pagesRead': nat, itemsRead': nat,
               ghost visits': seq<string>, ghost depthOf': map<string, nat>)
    requires Describes(t, l, limits, root, seasons) && queue != [] && queue[0].id !in visited
    requires Running(t, limits, root, queue, visited, files, labels, pagesRead, itemsRead, visits, depthOf, level)
    ensures StatusFits(status, error)
    ensures Wholesome(t, limits, root) && ShortListings(t, limits, root) ==> status == Verified
    ensures Distinct(visits') && |visits'| <= 1 + limits.maxItems &&
            pagesRead' <= PageBudget(limits.maxPages, |visits'|)
    ensures status == Verified ==>
              && Running(t, limits, root, queue', visited', files', labels', pagesRead', itemsRead', visits', depthOf',
                         queue[0].depth)
              && limits.maxItems - itemsRead' + |queue'| < limits.maxItems - itemsRead + |queue|
  {
    visited' := visited + {queue[0].id};
    status, error, queue', files', labels', pagesRead', itemsRead', visits', depthOf' :=
      VisitDirectory(l, t, root, seasons, limits, queue, files, labels, pagesRead, itemsRead, |visited'|, visits,
                     depthOf, level);
  }

  /** One turn of the queue loop. */
  method Turn(l: Listing, ghost t: Tree, root: string, seasons: set<nat>, limits: Limits,
              queue: seq<Entry>, visited: set<string>, files: seq<CloudFile>, labels: seq<nat>, pagesRead: nat,
              itemsRead: nat, ghost visits: seq<string>, ghost depthOf: map<string, nat>, ghost level: nat)
      returns (status: ScanStatus, error: Option<ScanError>, queue': seq<Entry>, visited': set<string>,
               files': seq<CloudFile>, labels': seq<nat>, pagesRead': nat, itemsRead': nat,
               ghost visits': seq<string>, ghost depthOf': map<string, nat>)
    requires Describes(t, l, limits, root, seasons) && queue != []
    requires Running(t, limits, root, queue, visited, files, labels, pagesRead, itemsRead, visits, depthOf, level)
    ensures StatusFits(status, error)
    ensures Wholesome(t, limits, root) && ShortListings(t, limits, root) ==> status == Verified
    ensures Distinct(visits') && |visits'| <= 1 + limits.maxItems &&
            pagesRead' <= PageBudget(limits.maxPages, |visits'|)
    ensures status == Verified ==>
              && Running(t, limits, root, queue', visited', files', labels', pagesRead', itemsRead', visits', depthOf',
                         queue[0].depth)
              && limits.maxItems - itemsRead' + |queue'| < limits.maxItems - itemsRead + |queue|
  {
    if queue[0].id in visited {
      queue' := SkipNext(t, limits, root, queue, visited, files, labels, pagesRead, itemsRead, visits, depthOf, level);
      status, error, visited', files', labels' := Verified, None, visited, files, labels;
      pagesRead', itemsRead', visits', depthOf' := pagesRead, itemsRead, visits, depthOf;
    } else {
      status, error, queue', visited', files', labels', pagesRead', itemsRead', visits', depthOf' :=
        VisitNext(l, t, root, seasons, limits, queue, visited, files, labels, pagesRead, itemsRead, visits, depthOf,
                  level);
    }
  }

  /** The queue loop.  `visits` is the ghost record of the directories listed, `popped` the number of entries taken off
      the queue, those skipped included: each of them, and each one still waiting, stands for an item read. */
  method Search(l: Listing, ghost t: Tree, root: string, seasons: set<nat>, limits: Limits)
      returns (status: ScanStatus, error: Option<ScanError>, files: seq<CloudFile>, labels: seq<nat>,
               pagesRead: nat, itemsRead: nat,
               ghost visits: seq<string>, ghost depthOf: map<string, nat>, ghost level: nat, ghost popped: nat)
    requires root != "" && Describes(t, l, limits, root, seasons)
    ensures StatusFits(status, error)
    ensures status == Verified ==>
              && Frontier(t, limits, root, [], depthOf, level)
              && Ledger(t, limits, root, visits, depthOf, files, labels, pagesRead, itemsRead)
    ensures Wholesome(t, limits, root) && ShortListings(t, limits, root) ==> status == Verified
    ensures Distinct(visits) && |visits| <= 1 + limits.maxItems
    ensures pagesRead <= PageBudget(limits.maxPages, |visits|)
    ensures popped <= 1 + limits.maxItems && (status == Verified ==> popped <= 1 + itemsRead)
  {
    status, error, files, labels, pagesRead, itemsRead := Verified, None, [], [], 0, 0;
    visits, depthOf, level, popped := [], map[], 0, 0;
    var queue := [Entry(root, 0)];
    var visited: set<string> := {};
    Start(t.graph, root);
    while queue != []
      invariant status == Verified && error == None
      invariant Running(t, limits, root, queue, visited, files, labels, pagesRead, itemsRead, visits, depthOf, level)
      invariant popped + |queue| <= 1 + itemsRead
      decreases limits.maxItems - itemsRead + |queue|
    {
      ghost var next := queue[0].depth;
      popped := popped + 1;
      status, error, queue, visited, files, labels, pagesRead, itemsRead, visits, depthOf :=
        Turn(l, t, root, seasons, limits, queue, visited, files, labels, pagesRead, itemsRead, visits, depthOf, level);
      level := next;
      if status != Verified {
        return;
      }
    }
  }

  lemma SearchDone(t: Tree, limits: Limits, root: string, order: seq<string>, depthOf: map<string, nat>, level: nat,
                   files: seq<CloudFile>, labels: seq<nat>, pagesRead: nat, itemsRead: nat)
    requires Frontier(t, limits, root, [], depthOf, level)
    requires Ledger(t, limits, root, order, depthOf, files, labels, pagesRead, itemsRead)
    ensures labels == t.rootLabels
    ensures Distinct(labels) ==> Traversed(t, limits, root, order, files)
  {
    Finished(t.graph, root, depthOf, level);
  }

  /** The traversal with its duplicate-season verdict. */
  method Traverse(l: Listing, root: string, seasons: set<nat>, limits: Limits)
      returns (status: ScanStatus, error: Option<ScanError>, files: seq<CloudFile>, pagesRead: nat, itemsRead: nat,
               ghost visits: seq<string>)
    requires root != ""
    ensures StatusFits(status, error)
    ensures status == Verified ==> Traversed(TreeOf(l, limits, root, seasons), limits, root, visits, files)
    ensures var t := TreeOf(l, limits, root, seasons);
            Wholesome(t, limits, root) && ShortListings(t, limits, root) ==> status == Verified
    ensures Distinct(visits) && |visits| <= 1 + limits.maxItems
    ensures pagesRead <= limits.maxPages * |visits|
  {
    ghost var t := TreeOf(l, limits, root, seasons);
    ghost var depthOf, level, popped;
    var labels;
    status, error, files, labels, pagesRead, itemsRead, visits, depthOf, level, popped :=
      Search(l, t, root, seasons, limits);
    PageBudgetIsProduct(limits.maxPages, |visits|);
    if status == Verified {
      SearchDone(t, limits, root, visits, depthOf, level, files, labels, pagesRead, itemsRead);
      if !Distinct(labels) {
        status, error := LayoutConflictUnverified, Some(DuplicateSeasonRoot);
      }
    }
  }

  // ---------- the scanner with its cache ----------

  type Identity = (int, string, set<nat>)

  predicate Identified(id: Identity) {
    id.0 > 0 && id.1 != "" && id.2 != {}
  }

  /** What a result says about the provider it was taken from. */
  ghost predicate Faithful(l: Listing, limits: Limits, id: Identity, r: ScanResult) {
    var t := TreeOf(l, limits, id.1, id.2);
    && (r.tmdbId, r.root, r.seasons) == id
    && StatusFits(r.status, r.error)
    && r.watermark == (if r.status == Verified then Some(Watermark(id.0, id.1, r.files, r.timestamp)) else None)
    && (r.status == Verified ==> Identified(id) && exists order :: Traversed(t, limits, id.1, order, r.files))
    && (Identified(id) ==> r.keysBySeason == KeysBySeason(r.files, id.2))
    && (Identified(id) && Wholesome(t, limits, id.1) && ShortListings(t, limits, id.1) ==> r.status == Verified)
  }

  /** A limit is kept as given, or raised to the least one allowed. */
  predicate AtLeast(limit: nat, given: int, least: nat) {
    limit >= least && limit >= given && (limit == given || limit == least)
  }

  class Scanner {
    const limits: Limits
    const cacheTtl: real
    var cache: map<Identity, (real, ScanResult)>
    /** The provider as it was when the cached result was taken. */
    ghost var source: map<Identity, Listing>

    ghost predicate Valid()
      reads this
    {
      && cache.Keys == source.Keys
      && forall id | id in cache :: !cache[id].1.fromCache && Faithful(source[id], limits, id, cache[id].1)
    }

    constructor (maxDepth: int, maxItems: int, pageSize: int, maxPagesPerDirectory: int, cacheTtl: real)
      ensures Valid() && cache == map[]
      ensures AtLeast(limits.maxDepth, maxDepth, 0) && AtLeast(limits.maxItems, maxItems, 1)
      ensures AtLeast(limits.pageSize, pageSize, 1) && AtLeast(limits.maxPages, maxPagesPerDirectory, 1)
      ensures this.cacheTtl >= 0.0 && this.cacheTtl >= cacheTtl && (this.cacheTtl == cacheTtl || this.cacheTtl == 0.0)
    {
      limits := Limits(if maxDepth < 0 then 0 else maxDepth,
                       if maxItems < 1 then 1 else maxItems,
                       if pageSize < 1 then 1 else pageSize,
                       if maxPagesPerDirectory < 1 then 1 else maxPagesPerDirectory);
      this.cacheTtl := if cacheTtl < 0.0 then 0.0 else cacheTtl;
      cache, source := map[], map[];
    }

    /** One call of `scan`.  `l` is the provider at the time of the call. */
    method Scan(l: Listing, tmdbId: int, seriesRoot: string, relevantSeasons: seq<int>, forceRefresh: bool, now: real)
        returns (r: ScanResult)
      requires Valid()
      modifies this
      ensures Valid()
      ensures var id := (tmdbId, Strip(seriesRoot), WantedSeasons(relevantSeasons));
              && (r.fromCache <==> !forceRefresh && id in old(cache) && now - old(cache[id].0) <= cacheTtl)
              && (r.fromCache ==> cache == old(cache) && r == old(cache[id].1).(fromCache := true))
              && (r.fromCache ==> id in old(source) && Faithful(old(source[id]), limits, id, r))
              && (!r.fromCache ==>
                    Faithful(l, limits, id, r) && r.timestamp == now && cache == old(cache)[id := (now, r)])
    {
      var seasons := WantedSeasons(relevantSeasons);
      var root := Strip(seriesRoot);
      var id: Identity := (tmdbId, root, seasons);
      if !forceRefresh && id in cache && now - cache[id].0 <= cacheTtl {
        return cache[id].1.(fromCache := true);
      }
      if tmdbId <= 0 || root == "" || seasons == {} {
        r := ScanResult(tmdbId, root, seasons, map[], [], ApiError, Some(IdentityRequired), now, None, 0, 0, false);
      } else {
        var status, error, files, pagesRead, itemsRead;
        ghost var visits;
        status, error, files, pagesRead, itemsRead, visits := Traverse(l, root, seasons, limits);
        var watermark := if status == Verified then Some(Watermark(tmdbId, root, files, now)) else None;
        r := ScanResult(tmdbId, root, seasons, KeysBySeason(files, seasons), files, status, error, now, watermark,
                        pagesRead, itemsRead, false);
      }
      cache, source := cache[id := (now, r)], source[id := l];
    }
  }

  // ---------- what a verdict means ----------

  /** Where every reachable directory has at most `max_pages_per_directory` pages, the verdict is VERIFIED exactly for
      wholesome providers: the cumulative page budget never trips early and no other limit is stricter. */
  lemma VerifiedIffWholesome(l: Listing, limits: Limits, id: Identity, r: ScanResult)
    requires Faithful(l, limits, id, r) && Identified(id)
    requires ShortListings(TreeOf(l, limits, id.1, id.2), limits, id.1)
    ensures r.status == Verified <==> Wholesome(TreeOf(l, limits, id.1, id.2), limits, id.1)
  {
    if r.status == Verified {
      var order :| Traversed(TreeOf(l, limits, id.1, id.2), limits, id.1, order, r.files);
      TraversedIsWholesome(TreeOf(l, limits, id.1, id.2), limits, id.1, order, r.files);
    }
  }

  /** The keys a verified scan reports for a season are exactly the episodes present in the cloud whose key has that
      season slice. */
  lemma VerifiedKeysExact(l: Listing, limits: Limits, id: Identity, r: ScanResult, season: nat, key: Key)
    requires Faithful(l, limits, id, r) && r.status == Verified
    requires season in id.2
    ensures season in r.keysBySeason
    ensures key in r.keysBySeason[season] ==> key.season >= 1
    ensures key.season >= 1 ==>
              (key in r.keysBySeason[season] <==> key.Slice() == season && Present(l, limits, id.1, key))
  {
    var order :| Traversed(TreeOf(l, limits, id.1, id.2), limits, id.1, order, r.files);
    if key in r.keysBySeason[season] {
      var i :| 0 <= i < |r.files| && r.files[i].season == season && r.files[i].key == key;
      FileIsPresent(l, limits, id.1, id.2, order, r.files[i]);
      assert r.files[i] in r.files;
    }
    if key.season >= 1 && key.Slice() == season && Present(l, limits, id.1, key) {
      FilesArePresent(l, limits, id.1, id.2, order, r.files, key);
      var f :| f in r.files && f.key == key;
      var i :| 0 <= i < |r.files| && r.files[i] == f;
    }
  }

  /** A season of three digits is never evidenced: no key has such a season slice. */
  lemma WideSeasonsUnseen(l: Listing, limits: Limits, id: Identity, r: ScanResult, season: nat)
    requires Faithful(l, limits, id, r) && r.status == Verified
    requires season in id.2 && season >= 100
    ensures season in r.keysBySeason && r.keysBySeason[season] == {}
  {
    forall key
      ensures season in r.keysBySeason && key !in r.keysBySeason[season]
    {
      VerifiedKeysExact(l, limits, id, r, season, key);
      if key.season >= 1 {
        SliceOfFormatted(key);
      }
    }
  }
}
