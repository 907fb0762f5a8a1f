/** The untrusted, paginated cloud provider of app/follow/physical_cloud_inventory.py, and what a complete listing
    of one directory is. */
module CloudListing {
  import opened PyText
  import opened EpisodeKeys
  import opened EpisodeMatcher
  import opened Gathering
  import opened BreadthFirst
  import opened Totals
  import opened Sorting

  datatype Item = Item(name: FileName, id: string, isFolder: bool, size: nat)

  /** A page as delivered.  `more` is the text of the first flag present (has_more, hasMore, more), `totalPages` the
      first page count present; the other pairs are alternative names of which the first that is not falsy counts. */
  datatype RawPage =
    | NotAPage
    | ItemList(listed: seq<Item>)
    | Envelope(listed: seq<Item>, more: Option<string>, totalPages: Field, total: Field, totalCount: Field,
               page: Field, pageNum: Field, pageSize: Field, pageSizeToo: Field)

  datatype Reply = TimedOut | HttpError | OtherError | Delivered(raw: RawPage)

  /** The provider: any function at all, possibly cyclic, endless or lying. */
  type Listing = (string, nat) -> Reply

  datatype ScanStatus =
    | Verified
    | ApiError
    | LimitUnverified
    | PaginationIncomplete
    | TimeoutUnverified
    | LayoutConflictUnverified

  datatype Limits = Limits(maxDepth: nat, maxItems: nat, pageSize: nat, maxPages: nat)

  // ---------- one page ----------

  /** `a or b`. */
  function Or(a: Field, b: Field): Field {
    if a == Absent || a == Number(0) then b else a
  }

  /** `int(f or default)`; None where Python raises. */
  function NumberOr(f: Field, default: int): Option<int> {
    match Or(f, Number(default))
    case Number(n) => Some(n)
    case _ => None
  }

  /** `int(f)`. */
  function NumberOf(f: Field): Option<int> {
    if f.Number? then Some(f.n) else None
  }

  /** The `has_more` verdict of `_page_parts`; None when the page proves nothing either way. */
  function HasMore(raw: RawPage): Option<bool> {
    if !raw.Envelope? then None
    else if raw.more.Some? then Some(Lower(raw.more.value) in {"1", "true", "yes"})
    else if !raw.totalPages.Absent? then
      var pages, page := NumberOf(raw.totalPages), NumberOr(raw.page, 0);
      if pages.Some? && page.Some? then Some(pages.value > page.value + 1) else None
    else
      var total := NumberOf(Or(raw.total, raw.totalCount));
      var page, size := NumberOr(Or(raw.page, raw.pageNum), 0), NumberOr(Or(raw.pageSize, raw.pageSizeToo), 1);
      if total.Some? && page.Some? && size.Some? then Some((page.value + 1) * size.value < total.value) else None
  }

  /** What the scanner gets out of one call: a failure status, or the items and the `has_more` verdict. */
  datatype Fetch = Broken(status: ScanStatus) | Got(items: seq<Item>, more: Option<bool>)

  function FetchOf(reply: Reply): (f: Fetch)
    ensures f.Broken? ==> f.status == if reply.TimedOut? then TimeoutUnverified else ApiError
  {
    match reply
    case TimedOut => Broken(TimeoutUnverified)
    case HttpError => Broken(ApiError)
    case OtherError => Broken(ApiError)
    case Delivered(raw) => if raw.NotAPage? then Broken(ApiError) else Got(raw.listed, HasMore(raw))
  }

  /** The page is proved to be the last one. */
  predicate IsLast(f: Fetch, pageSize: nat) {
    f.Got? && (if f.more.Some? then !f.more.value else |f.items| < pageSize)
  }

  predicate IsFollowed(f: Fetch) {
    f.Got? && f.more.Some? && f.more.value
  }

  // ---------- one directory ----------

  /** The first n pages of the directory each announce a further page. */
  ghost predicate AllFollowed(l: Listing, dir: string, n: nat) {
    forall p: nat | p < n :: IsFollowed(FetchOf(l(dir, p)))
  }

  /** The directory consists of exactly n pages, the last of them proved to be the last. */
  ghost predicate Ends(l: Listing, pageSize: nat, dir: string, n: nat) {
    n >= 1 && AllFollowed(l, dir, n - 1) && IsLast(FetchOf(l(dir, n - 1)), pageSize)
  }

  /** The items of the first n pages. */
  function ItemsUpTo(l: Listing, dir: string, n: nat): seq<Item> {
    if n == 0 then [] else
      ItemsUpTo(l, dir, n - 1) + (var f := FetchOf(l(dir, n - 1)); if f.Got? then f.items else [])
  }

  lemma EndsUnique(l: Listing, pageSize: nat, dir: string, m: nat, n: nat)
    requires Ends(l, pageSize, dir, m) && Ends(l, pageSize, dir, n)
    ensures m == n
  {
  }

  lemma {:induction false} ItemsGrow(l: Listing, dir: string, m: nat, n: nat)
    requires m <= n
    ensures ItemsUpTo(l, dir, m) <= ItemsUpTo(l, dir, n)
  {
    if m < n {
      ItemsGrow(l, dir, m, n - 1);
    }
  }

  /** A directory that ends somewhere ends behind every page that announces another. */
  lemma EndsBeyond(l: Listing, pageSize: nat, dir: string, page: nat, n: nat)
    requires AllFollowed(l, dir, page) && Ends(l, pageSize, dir, n)
    ensures n > page && FetchOf(l(dir, page)).Got?
    ensures ItemsUpTo(l, dir, page + 1) <= ItemsUpTo(l, dir, n)
    ensures n == page + 1 || IsFollowed(FetchOf(l(dir, page)))
  {
    ItemsGrow(l, dir, page + 1, n);
  }

  /** The page count of a directory that ends, 0 for one that does not. */
  ghost function PageCount(l: Listing, pageSize: nat, dir: string): nat {
    if m: nat :| Ends(l, pageSize, dir, m) then m else 0
  }

  /** Everything in the directory. */
  ghost function Contents(l: Listing, pageSize: nat, dir: string): seq<Item> {
    ItemsUpTo(l, dir, PageCount(l, pageSize, dir))
  }

  // ---------- what the items say ----------

  predicate NamedFolder(item: Item) {
    item.name.text != "" && item.isFolder
  }

  function FolderId(item: Item): Option<string> {
    if NamedFolder(item) then Some(item.id) else None
  }

  function FolderIds(items: seq<Item>): seq<string> {
    Gather(items, FolderId)
  }

  lemma FolderIdsIn(items: seq<Item>, id: string)
    ensures id in FolderIds(items) <==> exists i :: 0 <= i < |items| && NamedFolder(items[i]) && items[i].id == id
    ensures |FolderIds(items)| <= |items|
  {
    GatherIn(items, FolderId, id);
  }

  function FolderLabel(item: Item): Option<nat> {
    if NamedFolder(item) then item.name.seasonLabel else None
  }

  /** The season labels of the named folders, with repetitions. */
  function Labels(items: seq<Item>): seq<nat> {
    Gather(items, FolderLabel)
  }

  /** One recorded video. */
  datatype CloudFile = CloudFile(season: nat, key: Key, name: FileName, id: string, size: nat)

  /** The record of an item: a named video with one episode key whose season slice is wanted. */
  function RecordOf(item: Item, seasons: set<nat>): Option<CloudFile> {
    var key := SoleKey(item.name, None);
    if item.name.text != "" && !item.isFolder && item.name.isVideo && key.Some? && key.value.Slice() in seasons
    then Some(CloudFile(key.value.Slice(), key.value, item.name, item.id, item.size))
    else None
  }

  function RecordRule(seasons: set<nat>): Item -> Option<CloudFile> {
    item => RecordOf(item, seasons)
  }

  function RecordsOf(items: seq<Item>, seasons: set<nat>): seq<CloudFile> {
    Gather(items, RecordRule(seasons))
  }

  lemma RecordsIn(items: seq<Item>, seasons: set<nat>, f: CloudFile)
    ensures f in RecordsOf(items, seasons) <==> exists i :: 0 <= i < |items| && RecordOf(items[i], seasons) == Some(f)
  {
    GatherIn(items, RecordRule(seasons), f);
  }

  /** The items can be traversed at this depth: every named folder has an id and there is room below. */
  ghost predicate Traversable(items: seq<Item>, depth: nat, limits: Limits) {
    forall i | 0 <= i < |items| && NamedFolder(items[i]) :: items[i].id != "" && depth < limits.maxDepth
  }

  // ---------- the directory graph ----------

  /** A folder with an id, listed in some page of the directory that the provider leads to. */
  ghost predicate Child(l: Listing, dir: string, c: string) {
    exists n: nat :: AllFollowed(l, dir, n) && c in FolderIds(ItemsUpTo(l, dir, n + 1)) && c != ""
  }

  /** In a directory that ends, the children are the folders of the whole listing. */
  lemma ChildrenOfEnded(l: Listing, pageSize: nat, dir: string, n: nat, c: string)
    requires Ends(l, pageSize, dir, n) && c != ""
    ensures Child(l, dir, c) <==> c in FolderIds(ItemsUpTo(l, dir, n))
  {
    if Child(l, dir, c) {
      var m: nat :| AllFollowed(l, dir, m) && c in FolderIds(ItemsUpTo(l, dir, m + 1));
      EndsBeyond(l, pageSize, dir, m, n);
      FolderIdsIn(ItemsUpTo(l, dir, m + 1), c);
      FolderIdsIn(ItemsUpTo(l, dir, n), c);
    } else {
      assert AllFollowed(l, dir, n - 1);
    }
  }

  // ---------- a whole cloud tree ----------

  /** The directory was listed through its last page and can be traversed at its depth. */
  ghost predicate FullyListed(l: Listing, limits: Limits, dir: string, depth: nat) {
    && PageCount(l, limits.pageSize, dir) > 0
    && Traversable(Contents(l, limits.pageSize, dir), depth, limits)
  }

  /** The folders of a fully listed directory are exactly its children. */
  lemma ChildrenOfListed(l: Listing, limits: Limits, dir: string, depth: nat)
    requires FullyListed(l, limits, dir, depth)
    ensures forall c :: Child(l, dir, c) <==> c in FolderIds(Contents(l, limits.pageSize, dir))
    ensures FolderIds(Contents(l, limits.pageSize, dir)) != [] ==> depth < limits.maxDepth
    ensures "" !in FolderIds(Contents(l, limits.pageSize, dir))
  {
    var items := Contents(l, limits.pageSize, dir);
    forall c
      ensures Child(l, dir, c) <==> c in FolderIds(items)
    {
      FolderIdsIn(items, c);
      if c != "" {
        ChildrenOfEnded(l, limits.pageSize, dir, PageCount(l, limits.pageSize, dir), c);
      }
    }
    if FolderIds(items) != [] {
      assert FolderIds(items)[0] in FolderIds(items);
      FolderIdsIn(items, FolderIds(items)[0]);
    }
    FolderIdsIn(items, "");
  }

  /** What a provider offers below a root, as functions of the directory: the folder graph, the number of pages
      (0 when the pagination is inconclusive), whether the directory can be listed and traversed at a depth, the number
      of items, the wanted videos, and the season labels of the folders in the root. */
  datatype Tree = Tree(
    graph: Graph,
    pages: string -> nat,
    listed: (string, nat) -> bool,
    count: string -> nat,
    filesOf: string -> seq<CloudFile>,
    rootLabels: seq<nat>
  )

  ghost function TreeOf(l: Listing, limits: Limits, root: string, seasons: set<nat>): Tree {
    Tree((dir: string, c: string) => Child(l, dir, c),
         (dir: string) => PageCount(l, limits.pageSize, dir),
         (dir: string, depth: nat) => FullyListed(l, limits, dir, depth),
         (dir: string) => |Contents(l, limits.pageSize, dir)|,
         (dir: string) => RecordsOf(Contents(l, limits.pageSize, dir), seasons),
         Labels(Contents(l, limits.pageSize, root)))
  }

  /** The same, fact by fact; each is looked up from the provider's side only. */
  ghost predicate Describes(t: Tree, l: Listing, limits: Limits, root: string, seasons: set<nat>) {
    && (forall dir, c {:trigger Child(l, dir, c)} :: t.graph(dir, c) <==> Child(l, dir, c))
    && (forall dir {:trigger PageCount(l, limits.pageSize, dir)} :: t.pages(dir) == PageCount(l, limits.pageSize, dir))
    && (forall dir, depth {:trigger FullyListed(l, limits, dir, depth)} ::
          t.listed(dir, depth) <==> FullyListed(l, limits, dir, depth))
    && (forall dir {:trigger Contents(l, limits.pageSize, dir)} ::
          && t.count(dir) == |Contents(l, limits.pageSize, dir)|
          && t.filesOf(dir) == RecordsOf(Contents(l, limits.pageSize, dir), seasons)
          && (dir == root ==> t.rootLabels == Labels(Contents(l, limits.pageSize, dir))))
  }

  /** What the scanner may accept, said of the provider alone: every reachable directory is conclusively paginated,
      at its distance from the root its folders have ids and none lies below the depth limit, no collection of distinct
      directories exceeds the item limit, and the root names no season twice. */
  ghost predicate Wholesome(t: Tree, limits: Limits, root: string) {
    && (forall d | Reachable(t.graph, root, d) :: t.pages(d) > 0)
    && (forall d, k | IsDistance(t.graph, root, d, k) :: t.listed(d, k))
    && (forall ds: seq<string> | Distinct(ds) && (forall d | d in ds :: Reachable(t.graph, root, d)) ::
          SumOver(ds, t.count) <= limits.maxItems)
    && Distinct(t.rootLabels)
  }

  ghost predicate ShortListings(t: Tree, limits: Limits, root: string) {
    forall d | Reachable(t.graph, root, d) :: t.pages(d) <= limits.maxPages
  }

  /** The evidence behind a verified scan: `order` lists exactly the reachable directories, once each, every one of
      them through its last page, and `files` are exactly the wanted videos in them. */
  ghost predicate Traversed(t: Tree, limits: Limits, root: string, order: seq<string>, files: seq<CloudFile>) {
    && Distinct(order)
    && (forall d :: d in order <==> Reachable(t.graph, root, d))
    && (forall d | d in order :: t.pages(d) > 0)
    && (forall d, k | IsDistance(t.graph, root, d, k) :: t.listed(d, k))
    && SumOver(order, t.count) <= limits.maxItems
    && Distinct(t.rootLabels)
    && files == FlatOver(order, t.filesOf)
  }

  /** A verified scan vouches for the provider. */
  lemma TraversedIsWholesome(t: Tree, limits: Limits, root: string, order: seq<string>, files: seq<CloudFile>)
    requires Traversed(t, limits, root, order, files)
    ensures Wholesome(t, limits, root)
  {
    forall ds: seq<string> | Distinct(ds) && (forall d | d in ds :: Reachable(t.graph, root, d))
      ensures SumOver(ds, t.count) <= limits.maxItems
    {
      SumOfSome(ds, order, t.count);
    }
  }

  // ---------- recorded files and actual videos ----------

  predicate ShowsEpisode(item: Item, key: Key) {
    item.name.text != "" && !item.isFolder && item.name.isVideo && SoleKey(item.name, None) == Some(key)
  }

  /** A video the provider really has: a named single-episode video file in a reachable directory. */
  ghost predicate Present(l: Listing, limits: Limits, root: string, key: Key) {
    exists d, item ::
      && Reachable(TreeOf(l, limits, root, {}).graph, root, d)
      && item in Contents(l, limits.pageSize, d) && ShowsEpisode(item, key)
  }

  lemma RecordShows(item: Item, seasons: set<nat>, f: CloudFile)
    requires RecordOf(item, seasons) == Some(f)
    ensures ShowsEpisode(item, f.key) && f.key.season >= 1 && f.season == f.key.Slice() && f.season in seasons
  {
  }

  lemma ShownIsRecorded(item: Item, seasons: set<nat>, key: Key) returns (f: CloudFile)
    requires ShowsEpisode(item, key) && key.season >= 1 && key.Slice() in seasons
    ensures RecordOf(item, seasons) == Some(f) && f.key == key
  {
    f := CloudFile(key.Slice(), key, item.name, item.id, item.size);
  }

  lemma FileIsPresent(l: Listing, limits: Limits, root: string, seasons: set<nat>, order: seq<string>, f: CloudFile)
    requires forall d | d in order :: Reachable(TreeOf(l, limits, root, {}).graph, root, d)
    requires f in FlatOver(order, TreeOf(l, limits, root, seasons).filesOf)
    ensures Present(l, limits, root, f.key) && f.key.season >= 1 && f.season == f.key.Slice() && f.season in seasons
  {
    var filesOf := TreeOf(l, limits, root, seasons).filesOf;
    FlatOverIn(order, filesOf, f);
    var d :| d in order && f in filesOf(d);
    var items := Contents(l, limits.pageSize, d);
    RecordsIn(items, seasons, f);
    var i :| 0 <= i < |items| && RecordOf(items[i], seasons) == Some(f);
    RecordShows(items[i], seasons, f);
  }

  lemma PresentIsFile(l: Listing, limits: Limits, root: string, seasons: set<nat>, order: seq<string>, key: Key)
      returns (f: CloudFile)
    requires forall d | Reachable(TreeOf(l, limits, root, {}).graph, root, d) :: d in order
    requires Present(l, limits, root, key) && key.season >= 1 && key.Slice() in seasons
    ensures f in FlatOver(order, TreeOf(l, limits, root, seasons).filesOf) && f.key == key
  {
    var filesOf := TreeOf(l, limits, root, seasons).filesOf;
    var d, item :| Reachable(TreeOf(l, limits, root, {}).graph, root, d) && item in Contents(l, limits.pageSize, d) &&
                   ShowsEpisode(item, key);
    f := ShownIsRecorded(item, seasons, key);
    RecordsIn(Contents(l, limits.pageSize, d), seasons, f);
    assert f in filesOf(d);
    FlatOverIn(order, filesOf, f);
  }

  /** The recorded keys are exactly the episodes present whose season slice is wanted. */
  lemma FilesArePresent(l: Listing, limits: Limits, root: string, seasons: set<nat>, order: seq<string>,
                        files: seq<CloudFile>, key: Key)
    requires Traversed(TreeOf(l, limits, root, seasons), limits, root, order, files) && key.season >= 1
    ensures (exists f :: f in files && f.key == key) <==> key.Slice() in seasons && Present(l, limits, root, key)
    ensures forall f | f in files :: f.key.season >= 1 && f.season == f.key.Slice()
  {
    assert TreeOf(l, limits, root, seasons).graph == TreeOf(l, limits, root, {}).graph;
    forall f | f in files
      ensures Present(l, limits, root, f.key) && f.key.season >= 1 && f.season == f.key.Slice() && f.season in seasons
    {
      FileIsPresent(l, limits, root, seasons, order, f);
    }
    if key.Slice() in seasons && Present(l, limits, root, key) {
      var f := PresentIsFile(l, limits, root, seasons, order, key);
    }
  }
}
