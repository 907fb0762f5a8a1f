/** What the scanner makes of replies as providers send them: the pagination proofs of
    app/follow/physical_cloud_inventory.py read off the raw pages. */
module HonestProvider {
  import opened PyText
  import opened Sorting
  import opened Gathering
  import opened Totals
  import opened BreadthFirst
  import opened EpisodeKeys
  import opened EpisodeMatcher
  import opened CloudListing
  import opened PhysicalScan

  // ---------- pages that tell the truth ----------

  /** A flag says whether a page follows. */
  predicate ByFlag(raw: RawPage, p: nat, n: nat) {
    raw.Envelope? && raw.more.Some? && (p + 1 < n <==> Lower(raw.more.value) in {"1", "true", "yes"})
  }

  /** The number of pages and the number of this one; the first page may leave its number out. */
  predicate ByPageCount(raw: RawPage, p: nat, n: nat) {
    && raw.Envelope? && raw.more.None?
    && raw.totalPages == Number(n) && (raw.page == Number(p) || (p == 0 && raw.page.Absent?))
  }

  /** Missing, or 0, which counts as missing where there is another name to try. */
  predicate Blank(f: Field) {
    f.Absent? || f == Number(0)
  }

  /** One of two names holds the number, the first one unless it is blank; two blanks stand for 0. */
  predicate Holds(first: Field, second: Field, value: nat) {
    if value == 0 then Blank(first) && Blank(second)
    else first == Number(value) || (Blank(first) && second == Number(value))
  }

  /** The name that counts holds something unreadable. */
  predicate Garbled(first: Field, second: Field) {
    first.Unreadable? || (Blank(first) && second.Unreadable?)
  }

  /** The number of items t, the page size k and the number of this page, where n pages of k items just hold t.  A page
      size that is left out stands for 1. */
  predicate ByItemCount(raw: RawPage, p: nat, n: nat, t: nat, k: nat) {
    && raw.Envelope? && raw.more.None? && raw.totalPages.Absent?
    && Holds(raw.total, raw.totalCount, t) && Holds(raw.page, raw.pageNum, p)
    && (Holds(raw.pageSize, raw.pageSizeToo, k) || (k == 1 && Holds(raw.pageSize, raw.pageSizeToo, 0)))
    && k >= 1 && n >= 1 && k * (n - 1) < t <= k * n
  }

  /** Nothing in the page tells, or what would tell cannot be read. */
  predicate NoProof(raw: RawPage) {
    || raw.ItemList?
    || (raw.Envelope? && raw.more.None? && raw.totalPages.Unreadable?)
    || (raw.Envelope? && raw.more.None? && raw.totalPages.Number? && raw.page.Unreadable?)
    || (raw.Envelope? && raw.more.None? && raw.totalPages.Absent? &&
        (Garbled(raw.total, raw.totalCount) || Garbled(raw.page, raw.pageNum) ||
         Garbled(raw.pageSize, raw.pageSizeToo) || (Blank(raw.total) && raw.totalCount.Absent?)))
  }

  /** No proof at all, on a last page that is not full. */
  predicate ByShortness(raw: RawPage, p: nat, n: nat, pageSize: nat) {
    p + 1 == n && NoProof(raw) && |raw.listed| < pageSize
  }

  /** Page p of n, with one of the proofs. */
  ghost predicate Truthful(raw: RawPage, p: nat, n: nat, pageSize: nat) {
    || ByFlag(raw, p, n)
    || ByPageCount(raw, p, n)
    || (exists t, k :: ByItemCount(raw, p, n, t, k))
    || ByShortness(raw, p, n, pageSize)
  }

  lemma ItemCountTells(p: nat, n: nat, t: nat, k: nat)
    requires k >= 1 && n >= 1 && k * (n - 1) < t <= k * n && p < n
    ensures (p + 1) * k < t <==> p + 1 < n
  {
    if p + 1 < n {
      assert (p + 1) * k <= (n - 1) * k;
    } else {
      assert (p + 1) * k == k * n;
    }
  }

  lemma ItemCountIsRead(raw: RawPage, p: nat, n: nat, t: nat, k: nat)
    requires ByItemCount(raw, p, n, t, k) && p < n
    ensures FetchOf(Delivered(raw)) == Got(raw.listed, Some(p + 1 < n))
  {
    ItemCountTells(p, n, t, k);
    assert t >= 1 by {
      assert k * (n - 1) >= 0;
    }
  }

  /** Every proof is read for what it says. */
  lemma TruthIsRead(raw: RawPage, p: nat, n: nat, pageSize: nat)
    requires Truthful(raw, p, n, pageSize) && p < n
    ensures FetchOf(Delivered(raw)).Got? && FetchOf(Delivered(raw)).items == raw.listed
    ensures p + 1 < n ==> IsFollowed(FetchOf(Delivered(raw)))
    ensures p + 1 == n ==> IsLast(FetchOf(Delivered(raw)), pageSize)
  {
    if t, k :| ByItemCount(raw, p, n, t, k) {
      ItemCountIsRead(raw, p, n, t, k);
    }
  }

  /** The pages that prove nothing are exactly those. */
  lemma NoProofIsNone(raw: RawPage)
    ensures NoProof(raw) <==> !raw.NotAPage? && FetchOf(Delivered(raw)) == Got(raw.listed, None)
  {
  }

  // ---------- directories and trees that tell the truth ----------

  function Joined(pages: seq<seq<Item>>): seq<Item> {
    if pages == [] then [] else Joined(pages[..|pages| - 1]) + pages[|pages| - 1]
  }

  /** The provider delivers the directory as these pages, each with a proof. */
  ghost predicate Delivers(l: Listing, dir: string, pages: seq<seq<Item>>, pageSize: nat) {
    pages != [] && forall p: nat | p < |pages| ::
      l(dir, p).Delivered? && Truthful(l(dir, p).raw, p, |pages|, pageSize) && l(dir, p).raw.listed == pages[p]
  }

  lemma {:induction false} JoinedUpTo(l: Listing, dir: string, pages: seq<seq<Item>>, pageSize: nat, n: nat)
    requires Delivers(l, dir, pages, pageSize) && n <= |pages|
    ensures ItemsUpTo(l, dir, n) == Joined(pages[..n])
  {
    if n > 0 {
      JoinedUpTo(l, dir, pages, pageSize, n - 1);
      TruthIsRead(l(dir, n - 1).raw, n - 1, |pages|, pageSize);
      assert pages[..n][..n - 1] == pages[..n - 1];
    }
  }

  lemma DeliveredEnds(l: Listing, dir: string, pages: seq<seq<Item>>, pageSize: nat)
    requires Delivers(l, dir, pages, pageSize)
    ensures PageCount(l, pageSize, dir) == |pages| && Contents(l, pageSize, dir) == Joined(pages)
  {
    var n := |pages|;
    forall p: nat | p < n
      ensures p + 1 < n ==> IsFollowed(FetchOf(l(dir, p)))
      ensures p + 1 == n ==> IsLast(FetchOf(l(dir, p)), pageSize)
    {
      TruthIsRead(l(dir, p).raw, p, n, pageSize);
    }
    assert Ends(l, pageSize, dir, n);
    EndsUnique(l, pageSize, dir, n, PageCount(l, pageSize, dir));
    JoinedUpTo(l, dir, pages, pageSize, n);
    assert pages[..n] == pages;
  }

  /** A folder of the directory, as its name and kind say. */
  predicate Holder(item: Item) {
    item.name.text != "" && item.isFolder
  }

  /** A finite tree of directories: the pages of each, a directory that holds it, and a level that grows from folder to
      subfolder. */
  datatype Layout =
    Layout(dirs: seq<string>, pages: string -> seq<seq<Item>>, parent: string -> string, level: string -> nat)

  function ItemsOf(t: Layout): string -> seq<Item> {
    (dir: string) => Joined(t.pages(dir))
  }

  /** The directory holds a folder with this id. */
  predicate HasFolder(t: Layout, dir: string, id: string) {
    exists item :: item in ItemsOf(t)(dir) && Holder(item) && item.id == id
  }

  /** The tree hangs together below its root and keeps to the limits. */
  ghost predicate Fits(t: Layout, limits: Limits, root: string) {
    && Distinct(t.dirs) && root in t.dirs && "" !in t.dirs
    && (forall d {:trigger t.parent(d)} | d in t.dirs && d != root ::
          t.parent(d) in t.dirs && HasFolder(t, t.parent(d), d))
    && (forall d, c | d in t.dirs && HasFolder(t, d, c) :: c in t.dirs && t.level(d) < t.level(c) <= limits.maxDepth)
    && (forall d | d in t.dirs :: |t.pages(d)| <= limits.maxPages)
    && SumOver(t.dirs, (d: string) => |Joined(t.pages(d))|) <= limits.maxItems
    && SeasonsOnce(Joined(t.pages(root)))
  }

  /** No two folders are labelled with the same season. */
  ghost predicate SeasonsOnce(items: seq<Item>) {
    forall i, j | 0 <= i < j < |items| && Holder(items[i]) && Holder(items[j]) ::
      items[i].name.seasonLabel == None || items[i].name.seasonLabel != items[j].name.seasonLabel
  }

  /** The provider delivers exactly this tree. */
  ghost predicate Serves(l: Listing, pageSize: nat, t: Layout) {
    forall d | d in t.dirs :: Delivers(l, d, t.pages(d), pageSize)
  }

  lemma EdgesServed(l: Listing, limits: Limits, root: string, t: Layout, d: string, c: string)
    requires Fits(t, limits, root) && Serves(l, limits.pageSize, t) && d in t.dirs
    ensures Child(l, d, c) <==> HasFolder(t, d, c)
  {
    DeliveredEnds(l, d, t.pages(d), limits.pageSize);
    var items := Joined(t.pages(d));
    if c != "" {
      ChildrenOfEnded(l, limits.pageSize, d, |t.pages(d)|, c);
      FolderIdsIn(items, c);
    }
    assert HasFolder(t, d, c) ==> c in t.dirs;
  }

  ghost function GraphOf(l: Listing): Graph {
    (dir: string, c: string) => Child(l, dir, c)
  }

  lemma {:induction false} ReachedIsServed(l: Listing, limits: Limits, root: string, t: Layout, d: string, k: nat)
    requires Fits(t, limits, root) && Serves(l, limits.pageSize, t) && ReachIn(GraphOf(l), root, d, k)
    ensures d in t.dirs && k <= t.level(d)
    decreases k
  {
    if k > 0 {
      var p :| ReachIn(GraphOf(l), root, p, k - 1) && Child(l, p, d);
      ReachedIsServed(l, limits, root, t, p, k - 1);
      StepServed(l, limits, root, t, p, d);
    }
  }

  lemma StepServed(l: Listing, limits: Limits, root: string, t: Layout, p: string, d: string)
    requires Fits(t, limits, root) && Serves(l, limits.pageSize, t) && p in t.dirs && Child(l, p, d)
    ensures d in t.dirs && t.level(p) < t.level(d)
  {
    EdgesServed(l, limits, root, t, p, d);
  }

  lemma Further(g: Graph, root: string, e: string, d: string)
    requires Reachable(g, root, e) && g(e, d)
    ensures Reachable(g, root, d)
  {
    var k: nat :| ReachIn(g, root, e, k);
    assert ReachIn(g, root, d, k + 1);
  }

  lemma {:induction false} ServedIsReached(l: Listing, limits: Limits, root: string, t: Layout, d: string)
    requires Fits(t, limits, root) && Serves(l, limits.pageSize, t) && d in t.dirs
    ensures Reachable(GraphOf(l), root, d)
    decreases t.level(d)
  {
    if d == root {
      assert ReachIn(GraphOf(l), root, d, 0);
    } else {
      ServedIsReached(l, limits, root, t, t.parent(d));
      EdgesServed(l, limits, root, t, t.parent(d), d);
      Further(GraphOf(l), root, t.parent(d), d);
    }
  }

  lemma {:induction false} LabelsOnce(items: seq<Item>)
    requires SeasonsOnce(items)
    ensures Distinct(Labels(items))
  {
    if items != [] {
      var front, last := items[..|items| - 1], items[|items| - 1];
      LabelsOnce(front);
      if FolderLabel(last).Some? {
        var season := FolderLabel(last).value;
        GatherIn(front, FolderLabel, season);
        assert season !in Labels(front);
      }
    }
  }

  lemma ServedTraversable(l: Listing, limits: Limits, root: string, t: Layout, d: string, k: nat)
    requires Fits(t, limits, root) && Serves(l, limits.pageSize, t) && d in t.dirs && k <= t.level(d)
    ensures FullyListed(l, limits, d, k)
  {
    DeliveredEnds(l, d, t.pages(d), limits.pageSize);
    var items := Joined(t.pages(d));
    forall i | 0 <= i < |items| && NamedFolder(items[i])
      ensures items[i].id != "" && k < limits.maxDepth
    {
      assert items[i] in ItemsOf(t)(d);
      assert HasFolder(t, d, items[i].id);
    }
  }

  lemma ServedWithin(l: Listing, limits: Limits, root: string, t: Layout, ds: seq<string>, count: string -> nat)
    requires Fits(t, limits, root) && Serves(l, limits.pageSize, t)
    requires Distinct(ds) && forall d | d in ds :: d in t.dirs
    requires forall d :: count(d) == |Contents(l, limits.pageSize, d)|
    ensures SumOver(ds, count) <= limits.maxItems
  {
    var size := (d: string) => |Joined(t.pages(d))|;
    forall d | d in t.dirs
      ensures count(d) == size(d)
    {
      DeliveredEnds(l, d, t.pages(d), limits.pageSize);
    }
    SumAgree(t.dirs, count, size);
    SumOfSome(ds, t.dirs, count);
  }

  /** Such a tree passes every test of the scan. */
  lemma ServedIsWholesome(l: Listing, limits: Limits, root: string, seasons: set<nat>, t: Layout)
    requires Fits(t, limits, root) && Serves(l, limits.pageSize, t)
    ensures Wholesome(TreeOf(l, limits, root, seasons), limits, root)
    ensures ShortListings(TreeOf(l, limits, root, seasons), limits, root)
    ensures forall d :: Reachable(TreeOf(l, limits, root, seasons).graph, root, d) <==> d in t.dirs
  {
    var tree := TreeOf(l, limits, root, seasons);
    assert tree.graph == GraphOf(l);
    forall d, k: nat | ReachIn(GraphOf(l), root, d, k)
      ensures d in t.dirs && FullyListed(l, limits, d, k) && PageCount(l, limits.pageSize, d) == |t.pages(d)|
    {
      ReachedIsServed(l, limits, root, t, d, k);
      ServedTraversable(l, limits, root, t, d, k);
      DeliveredEnds(l, d, t.pages(d), limits.pageSize);
    }
    forall d | d in t.dirs
      ensures Reachable(GraphOf(l), root, d)
    {
      ServedIsReached(l, limits, root, t, d);
    }
    forall ds: seq<string> | Distinct(ds) && (forall d | d in ds :: Reachable(tree.graph, root, d))
      ensures SumOver(ds, tree.count) <= limits.maxItems
    {
      ServedWithin(l, limits, root, t, ds, tree.count);
    }
    DeliveredEnds(l, root, t.pages(root), limits.pageSize);
    LabelsOnce(Joined(t.pages(root)));
  }

  // ---------- the scan of a tree ----------

  /** The record of a video with one episode key, taken from its item. */
  predicate Records(item: Item, seasons: set<nat>, f: CloudFile)
    requires f.key.season >= 0
  {
    && item.name.text != "" && !item.isFolder && item.name.isVideo && SoleKey(item.name, None) == Some(f.key)
    && f.season == f.key.Slice() && f.season in seasons
    && f.name == item.name && f.id == item.id && f.size == item.size
  }

  /** Some directory of the tree holds an item that the file records. */
  ghost predicate Recorded(t: Layout, seasons: set<nat>, f: CloudFile) {
    f.key.season >= 0 && exists d, item :: d in t.dirs && item in ItemsOf(t)(d) && Records(item, seasons, f)
  }

  lemma RecordsOne(item: Item, seasons: set<nat>, f: CloudFile)
    ensures RecordOf(item, seasons) == Some(f) <==> f.key.season >= 0 && Records(item, seasons, f)
  {
  }

  lemma FilesServed(l: Listing, limits: Limits, root: string, seasons: set<nat>, t: Layout, order: seq<string>,
                    f: CloudFile)
    requires Fits(t, limits, root) && Serves(l, limits.pageSize, t)
    requires forall d :: d in order <==> d in t.dirs
    ensures f in FlatOver(order, TreeOf(l, limits, root, seasons).filesOf) <==> Recorded(t, seasons, f)
  {
    var filesOf := TreeOf(l, limits, root, seasons).filesOf;
    FlatOverIn(order, filesOf, f);
    forall d | d in t.dirs
      ensures f in filesOf(d) <==>
              f.key.season >= 0 && exists item :: item in ItemsOf(t)(d) && Records(item, seasons, f)
    {
      DeliveredEnds(l, d, t.pages(d), limits.pageSize);
      FileOfItems(Joined(t.pages(d)), seasons, f);
    }
  }

  lemma FileOfItems(items: seq<Item>, seasons: set<nat>, f: CloudFile)
    ensures f in RecordsOf(items, seasons) <==>
            f.key.season >= 0 && exists item :: item in items && Records(item, seasons, f)
  {
    RecordsIn(items, seasons, f);
    forall item
      ensures RecordOf(item, seasons) == Some(f) <==> f.key.season >= 0 && Records(item, seasons, f)
    {
      RecordsOne(item, seasons, f);
    }
  }

  /** A finite tree within the limits whose pages all carry some proof is VERIFIED, whatever mixture of flags, page
      counts, item counts and short pages the provider uses.  The files are then exactly the videos with one key and a
      wanted season slice in the pages of the tree, and the keys of a season exactly theirs. */
  lemma ServedIsVerified(l: Listing, limits: Limits, id: Identity, r: ScanResult, t: Layout)
    requires Faithful(l, limits, id, r) && Identified(id)
    requires Fits(t, limits, id.1) && Serves(l, limits.pageSize, t)
    ensures r.status == Verified && r.watermark == Some(Watermark(id.0, id.1, r.files, r.timestamp))
    ensures forall f :: f in r.files <==> Recorded(t, id.2, f)
    ensures r.keysBySeason.Keys == id.2
    ensures forall season, key | season in id.2 ::
              key in r.keysBySeason[season] <==>
              exists f :: Recorded(t, id.2, f) && f.key == key && f.season == season
  {
    ServedIsWholesome(l, limits, id.1, id.2, t);
    var order :| Traversed(TreeOf(l, limits, id.1, id.2), limits, id.1, order, r.files);
    forall f
      ensures f in r.files <==> Recorded(t, id.2, f)
    {
      FilesServed(l, limits, id.1, id.2, t, order, f);
    }
    forall season, key | season in id.2
      ensures key in r.keysBySeason[season] <==>
              exists f :: Recorded(t, id.2, f) && f.key == key && f.season == season
    {
      KeysOfFiles(r.files, season, key);
    }
  }

  lemma KeysOfFiles(files: seq<CloudFile>, season: nat, key: Key)
    ensures key in KeysOfSeason(files, season) <==> exists f :: f in files && f.key == key && f.season == season
  {
    if f :| f in files && f.key == key && f.season == season {
      var i :| 0 <= i < |files| && files[i] == f;
    }
  }

  // ---------- what never verifies ----------

  /** A reply that cannot close a directory: no page at all, or a full one without a readable proof. */
  predicate Inconclusive(reply: Reply, pageSize: nat) {
    !reply.Delivered? || reply.raw.NotAPage? || (NoProof(reply.raw) && |reply.raw.listed| >= pageSize)
  }

  lemma NeverEnds(l: Listing, pageSize: nat, d: string, p: nat, n: nat)
    requires p < n && forall q: nat | q < p :: l(d, q).Delivered? && Truthful(l(d, q).raw, q, n, pageSize)
    requires Inconclusive(l(d, p), pageSize)
    ensures PageCount(l, pageSize, d) == 0
  {
    forall q: nat | q < p
      ensures IsFollowed(FetchOf(l(d, q)))
    {
      TruthIsRead(l(d, q).raw, q, n, pageSize);
    }
    if l(d, p).Delivered? {
      NoProofIsNone(l(d, p).raw);
    }
    assert !IsFollowed(FetchOf(l(d, p))) && !IsLast(FetchOf(l(d, p)), pageSize);
    if m: nat :| Ends(l, pageSize, d, m) {
      EndsBeyond(l, pageSize, d, p, m);
      assert false;
    }
  }

  /** One such reply behind truthful pages, in any directory that the provider leads to, and the scan is not
      VERIFIED. */
  lemma InconclusiveFails(l: Listing, limits: Limits, id: Identity, r: ScanResult, d: string, p: nat, n: nat)
    requires Faithful(l, limits, id, r) && Reachable(GraphOf(l), id.1, d)
    requires p < n && forall q: nat | q < p :: l(d, q).Delivered? && Truthful(l(d, q).raw, q, n, limits.pageSize)
    requires Inconclusive(l(d, p), limits.pageSize)
    ensures r.status != Verified && r.watermark == None
  {
    NeverEnds(l, limits.pageSize, d, p, n);
    assert TreeOf(l, limits, id.1, id.2).graph == GraphOf(l);
    if order :| Traversed(TreeOf(l, limits, id.1, id.2), limits, id.1, order, r.files) {
      assert d in order;
      assert TreeOf(l, limits, id.1, id.2).pages(d) == 0;
    }
  }
}
