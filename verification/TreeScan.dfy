/**
 The budgeted breadth-first scan of a repository tree. A directory's listing is
 whatever the API's pages say, up to the page cap and the first failed page; it may
 describe any graph, cycles and shared directories included.
 */
module TreeScan {
  import opened Basics

  datatype Kind = CommitFile | CommitDirectory | OtherKind

  datatype Item = Item(kind: Kind, path: string)

  datatype Page = Page(ok: bool, items: seq<Item>, hasNext: bool)

  /** Page `k` of a directory. */
  type Listing = (string, nat) -> Page

  const MAX_ENTRIES := 2500
  const MAX_REQUESTS := 120
  const MAX_PAGES := 10
  const MAX_DEPTH := 6

  // ----- what the listing says -----

  /** The items of a directory from page `k` on. */
  function ItemsFrom(listing: Listing, dir: string, k: nat): seq<Item>
    decreases MAX_PAGES - k
  {
    if k >= MAX_PAGES || !listing(dir, k).ok then []
    else listing(dir, k).items + (if listing(dir, k).hasNext then ItemsFrom(listing, dir, k + 1) else [])
  }

  ghost predicate HasFile(listing: Listing, dir: string, file: string) {
    file != "" && Item(CommitFile, file) in ItemsFrom(listing, dir, 0)
  }

  ghost predicate HasChild(listing: Listing, dir: string, child: string) {
    child != "" && Item(CommitDirectory, child) in ItemsFrom(listing, dir, 0)
  }

  /** `dir` is exactly `k` steps below the root on some path. */
  ghost predicate Reach(listing: Listing, dir: string, k: nat)
    decreases k
  {
    if k == 0 then dir == "" else exists parent :: Reach(listing, parent, k - 1) && HasChild(listing, parent, dir)
  }

  // ----- one page, one directory -----

  function Files(items: seq<Item>): seq<string> {
    if items == [] then []
    else
      var last := items[|items| - 1];
      Files(items[..|items| - 1]) + (if last.kind.CommitFile? && last.path != "" then [last.path] else [])
  }

  function Children(items: seq<Item>, depth: nat): seq<(string, nat)> {
    if items == [] then []
    else
      var last := items[|items| - 1];
      Children(items[..|items| - 1], depth)
      + (if last.kind.CommitDirectory? && last.path != "" && depth < MAX_DEPTH then [(last.path, depth + 1)] else [])
  }

  lemma {:induction false} FilesAre(items: seq<Item>, file: string)
    ensures file in Files(items) <==> file != "" && Item(CommitFile, file) in items
  {
    if items != [] {
      FilesAre(items[..|items| - 1], file);
      assert items == items[..|items| - 1] + [items[|items| - 1]];
    }
  }

  lemma {:induction false} ChildrenAre(items: seq<Item>, depth: nat, c: (string, nat))
    ensures c in Children(items, depth) <==>
      c.0 != "" && c.1 == depth + 1 && depth < MAX_DEPTH && Item(CommitDirectory, c.0) in items
  {
    if items != [] {
      ChildrenAre(items[..|items| - 1], depth, c);
      assert items == items[..|items| - 1] + [items[|items| - 1]];
    }
  }

  lemma {:induction false} FilesConcat(a: seq<Item>, b: seq<Item>)
    ensures Files(a + b) == Files(a) + Files(b)
  {
    if b == [] {
      assert a + b == a;
    } else {
      FilesConcat(a, b[..|b| - 1]);
      assert (a + b)[..|a + b| - 1] == a + b[..|b| - 1];
    }
  }

  lemma {:induction false} ChildrenConcat(a: seq<Item>, b: seq<Item>, depth: nat)
    ensures Children(a + b, depth) == Children(a, depth) + Children(b, depth)
  {
    if b == [] {
      assert a + b == a;
    } else {
      ChildrenConcat(a, b[..|b| - 1], depth);
      assert (a + b)[..|a + b| - 1] == a + b[..|b| - 1];
    }
  }

  /** The loop over one page's items, which stops once the entry budget is reached. */
  method ScanPage(items: seq<Item>, depth: nat, queue: seq<(string, nat)>, result: seq<string>)
    returns (queue': seq<(string, nat)>, result': seq<string>)
    ensures exists n | 0 <= n <= |items| ::
      && result' == result + Files(items[..n]) && queue' == queue + Children(items[..n], depth)
      && (|result'| < MAX_ENTRIES ==> items[..n] == items)
    ensures |result'| <= Max(MAX_ENTRIES, |result| + 1)
  {
    queue', result' := queue, result;
    var i := 0;
    while i < |items|
      invariant 0 <= i <= |items|
      invariant result' == result + Files(items[..i]) && queue' == queue + Children(items[..i], depth)
      invariant |result'| < MAX_ENTRIES || result' == result
    {
      var item := items[i];
      assert items[..i + 1][..i] == items[..i];
      i := i + 1;
      if item.kind.CommitFile? && item.path != "" {
        result' := result' + [item.path];
        if |result'| >= MAX_ENTRIES { return; }
      } else if item.kind.CommitDirectory? && item.path != "" && depth < MAX_DEPTH {
        queue' := queue' + [(item.path, depth + 1)];
      }
    }
    assert items[..|items|] == items;
  }

  /** What the page loop has added: only what the listing says, and all of it unless a
      budget stopped it. */
  ghost predicate Added(listing: Listing, dir: string, depth: nat,
                        queue: seq<(string, nat)>, result: seq<string>, queue': seq<(string, nat)>,
                        result': seq<string>) {
    && result <= result' && queue <= queue'
    && (forall f :: f in result'[|result|..] ==> HasFile(listing, dir, f))
    && (forall c :: c in queue'[|queue|..] ==> depth < MAX_DEPTH && c.1 == depth + 1 && HasChild(listing, dir, c.0))
  }

  ghost predicate AddedAll(listing: Listing, dir: string, depth: nat, queue': seq<(string, nat)>,
                           result': seq<string>) {
    && (forall f :: HasFile(listing, dir, f) ==> f in result')
    && (depth < MAX_DEPTH ==> forall c :: HasChild(listing, dir, c) ==> (c, depth + 1) in queue')
  }

  lemma PageAdds(listing: Listing, dir: string, depth: nat, items: seq<Item>, n: nat,
                 queue: seq<(string, nat)>, result: seq<string>, q: seq<(string, nat)>, r: seq<string>)
    requires Added(listing, dir, depth, queue, result, q, r)
    requires n <= |items| && forall x :: x in items ==> x in ItemsFrom(listing, dir, 0)
    ensures Added(listing, dir, depth, queue, result, q + Children(items[..n], depth), r + Files(items[..n]))
  {
    var q', r' := q + Children(items[..n], depth), r + Files(items[..n]);
    forall f | f in r'[|result|..] ensures HasFile(listing, dir, f) {
      FilesAre(items[..n], f);
      assert r'[|result|..] == r[|result|..] + Files(items[..n]);
    }
    forall c | c in q'[|queue|..] ensures depth < MAX_DEPTH && c.1 == depth + 1 && HasChild(listing, dir, c.0) {
      ChildrenAre(items[..n], depth, c);
      assert q'[|queue|..] == q[|queue|..] + Children(items[..n], depth);
    }
  }

  lemma ExactIsAll(listing: Listing, dir: string, depth: nat,
                   queue: seq<(string, nat)>, result: seq<string>, queue': seq<(string, nat)>, result': seq<string>)
    requires result' == result + Files(ItemsFrom(listing, dir, 0))
    requires queue' == queue + Children(ItemsFrom(listing, dir, 0), depth)
    ensures AddedAll(listing, dir, depth, queue', result')
  {
    forall f | HasFile(listing, dir, f) ensures f in result' { FilesAre(ItemsFrom(listing, dir, 0), f); }
    forall c | HasChild(listing, dir, c) && depth < MAX_DEPTH ensures (c, depth + 1) in queue' {
      ChildrenAre(ItemsFrom(listing, dir, 0), depth, (c, depth + 1));
    }
  }

  /** The loop invariant of the page loop: `done` are the items of the pages read so far. */
  ghost predicate Progress(listing: Listing, dir: string, depth: nat, queue: seq<(string, nat)>, result: seq<string>,
                           q: seq<(string, nat)>, r: seq<string>, done: seq<Item>) {
    && Added(listing, dir, depth, queue, result, q, r)
    && (|r| < MAX_ENTRIES ==> r == result + Files(done) && q == queue + Children(done, depth))
  }

  ghost predicate Covers(listing: Listing, dir: string, done: seq<Item>, page: nat, more: bool) {
    done + (if more then ItemsFrom(listing, dir, page) else []) == ItemsFrom(listing, dir, 0)
  }

  lemma PageStep(listing: Listing, dir: string, depth: nat, queue: seq<(string, nat)>, result: seq<string>,
                 q: seq<(string, nat)>, r: seq<string>, done: seq<Item>, items: seq<Item>, n: nat)
    requires n <= |items| && forall x :: x in items ==> x in ItemsFrom(listing, dir, 0)
    requires Progress(listing, dir, depth, queue, result, q, r, done)
    ensures var q', r' := q + Children(items[..n], depth), r + Files(items[..n]);
      (|r'| < MAX_ENTRIES ==> items[..n] == items) ==>
        Progress(listing, dir, depth, queue, result, q', r', done + items)
  {
    PageAdds(listing, dir, depth, items, n, queue, result, q, r);
    FilesConcat(done, items);
    ChildrenConcat(done, items, depth);
  }

  lemma PageCovers(listing: Listing, dir: string, done: seq<Item>, page: nat)
    requires page < MAX_PAGES && listing(dir, page).ok && Covers(listing, dir, done, page, true)
    ensures Covers(listing, dir, done + listing(dir, page).items, page + 1, listing(dir, page).hasNext)
    ensures forall x :: x in listing(dir, page).items ==> x in ItemsFrom(listing, dir, 0)
  {
  }

  /** One page inside the page loop. */
  method ReadPage(listing: Listing, dir: string, depth: nat, page: nat, q: seq<(string, nat)>, r: seq<string>,
                  ghost queue: seq<(string, nat)>, ghost result: seq<string>, ghost done: seq<Item>)
    returns (q': seq<(string, nat)>, r': seq<string>)
    requires page < MAX_PAGES && listing(dir, page).ok
    requires Progress(listing, dir, depth, queue, result, q, r, done) && Covers(listing, dir, done, page, true)
    ensures Progress(listing, dir, depth, queue, result, q', r', done + listing(dir, page).items)
    ensures Covers(listing, dir, done + listing(dir, page).items, page + 1, listing(dir, page).hasNext)
    ensures |r'| <= Max(MAX_ENTRIES, |r| + 1)
  {
    var items := listing(dir, page).items;
    q', r' := ScanPage(items, depth, q, r);
    ghost var n :| 0 <= n <= |items|
      && r' == r + Files(items[..n]) && q' == q + Children(items[..n], depth)
      && (|r'| < MAX_ENTRIES ==> items[..n] == items);
    PageCovers(listing, dir, done, page);
    PageStep(listing, dir, depth, queue, result, q, r, done, items, n);
  }

  /** The page loop of one directory. */
  method ScanDirectory(listing: Listing, dir: string, depth: nat, queue: seq<(string, nat)>, result: seq<string>,
                       requests: nat)
    returns (queue': seq<(string, nat)>, result': seq<string>, requests': nat)
    requires |result| < MAX_ENTRIES && requests < MAX_REQUESTS
    ensures requests < requests' <= MAX_REQUESTS && |result'| < MAX_ENTRIES + MAX_PAGES
    ensures Added(listing, dir, depth, queue, result, queue', result')
    ensures requests' < MAX_REQUESTS && |result'| < MAX_ENTRIES ==> AddedAll(listing, dir, depth, queue', result')
  {
    queue', result', requests' := queue, result, requests;
    var page, more := 0, true;
    ghost var done: seq<Item> := [];
    NothingYet(listing, dir, depth, queue, result);
    while more && page < MAX_PAGES && requests' < MAX_REQUESTS
      invariant 0 <= page <= MAX_PAGES && requests + page <= requests' <= MAX_REQUESTS
      invariant page == 0 && more ==> requests' == requests
      invariant page == 0 && !more ==> requests' > requests
      invariant |result'| < MAX_ENTRIES + page
      invariant Progress(listing, dir, depth, queue, result, queue', result', done)
      invariant Covers(listing, dir, done, page, more)
      decreases MAX_PAGES - page, more
    {
      var response := listing(dir, page);
      requests' := requests' + 1;
      if !response.ok {
        assert ItemsFrom(listing, dir, page) == [];
        more := false;
      } else {
        queue', result' := ReadPage(listing, dir, depth, page, queue', result', queue, result, done);
        done := done + response.items;
        more := response.hasNext;
        page := page + 1;
      }
    }
    if requests' < MAX_REQUESTS && |result'| < MAX_ENTRIES {
      PagesDone(listing, dir, depth, queue, result, queue', result', done, page, more);
    }
  }

  lemma NothingYet(listing: Listing, dir: string, depth: nat, queue: seq<(string, nat)>, result: seq<string>)
    ensures Progress(listing, dir, depth, queue, result, queue, result, []) && Covers(listing, dir, [], 0, true)
  {
  }

  lemma PagesDone(listing: Listing, dir: string, depth: nat, queue: seq<(string, nat)>, result: seq<string>,
                  q: seq<(string, nat)>, r: seq<string>, done: seq<Item>, page: nat, more: bool)
    requires Progress(listing, dir, depth, queue, result, q, r, done) && Covers(listing, dir, done, page, more)
    requires |r| < MAX_ENTRIES && (more ==> page >= MAX_PAGES)
    ensures AddedAll(listing, dir, depth, q, r)
  {
    assert done == ItemsFrom(listing, dir, 0);
    ExactIsAll(listing, dir, depth, queue, result, q, r);
  }

  // ----- the scan -----

  ghost predicate QueueSorted(queue: seq<(string, nat)>) {
    forall i, j :: 0 <= i <= j < |queue| ==> queue[i].1 <= queue[j].1 <= queue[0].1 + 1
  }

  /** Everything recorded is real: queued and listed directories are reached at their
      recorded depth, and files come from listed directories. */
  ghost predicate Sound(listing: Listing, queue: seq<(string, nat)>, depthOf: map<string, nat>, result: seq<string>) {
    && (forall e :: e in queue ==> e.1 <= MAX_DEPTH && Reach(listing, e.0, e.1))
    && (forall d :: d in depthOf ==> depthOf[d] <= MAX_DEPTH && Reach(listing, d, depthOf[d]))
    && (forall d, e :: d in depthOf && e in queue ==> depthOf[d] <= e.1)
    && (forall f :: f in result ==> exists d :: d in depthOf && HasFile(listing, d, f))
  }

  /** A directory is accounted for at depth `k`: listed no deeper, or still queued. */
  ghost predicate Expected(dir: string, k: nat, queue: seq<(string, nat)>, depthOf: map<string, nat>) {
    (dir in depthOf && depthOf[dir] <= k) || (dir, k) in queue
  }

  /** Nothing is missing so far. */
  ghost predicate Complete(listing: Listing, queue: seq<(string, nat)>, depthOf: map<string, nat>,
                           result: seq<string>) {
    && Expected("", 0, queue, depthOf)
    && (forall d, c :: d in depthOf && depthOf[d] < MAX_DEPTH && HasChild(listing, d, c) ==>
          Expected(c, depthOf[d] + 1, queue, depthOf))
    && (forall d, f :: d in depthOf && HasFile(listing, d, f) ==> f in result)
  }

  lemma PopSeen(listing: Listing, queue: seq<(string, nat)>, depthOf: map<string, nat>, result: seq<string>)
    requires queue != [] && queue[0].0 in depthOf && Sound(listing, queue, depthOf, result)
    ensures Sound(listing, queue[1..], depthOf, result)
    ensures Complete(listing, queue, depthOf, result) ==> Complete(listing, queue[1..], depthOf, result)
  {
  }

  /** The state of the scan just before and just after it lists the first directory of the queue. */
  ghost predicate Visit(listing: Listing, queue: seq<(string, nat)>, depthOf: map<string, nat>, result: seq<string>,
                        queue': seq<(string, nat)>, result': seq<string>) {
    && queue != [] && queue[0].0 !in depthOf && Sound(listing, queue, depthOf, result) && QueueSorted(queue)
    && Added(listing, queue[0].0, queue[0].1, queue[1..], result, queue', result')
  }

  lemma VisitSorted(listing: Listing, queue: seq<(string, nat)>, depthOf: map<string, nat>, result: seq<string>,
                    queue': seq<(string, nat)>, result': seq<string>)
    requires Visit(listing, queue, depthOf, result, queue', result')
    ensures QueueSorted(queue') && forall e :: e in queue' ==> queue[0].1 <= e.1
  {
  }

  lemma VisitSound(listing: Listing, queue: seq<(string, nat)>, depthOf: map<string, nat>, result: seq<string>,
                   queue': seq<(string, nat)>, result': seq<string>)
    requires Visit(listing, queue, depthOf, result, queue', result')
    ensures Sound(listing, queue', depthOf[queue[0].0 := queue[0].1], result')
  {
    var dir, depth := queue[0].0, queue[0].1;
    var marked := depthOf[dir := depth];
    assert queue[0] in queue;
    VisitSorted(listing, queue, depthOf, result, queue', result');
    assert result' == result + result'[|result|..];
    forall e | e in queue' ensures e.1 <= MAX_DEPTH && Reach(listing, e.0, e.1) {
      VisitReaches(listing, queue, depthOf, result, queue', result', e);
    }
    forall f | f in result' ensures exists d :: d in marked && HasFile(listing, d, f) {
      if f in result {
        var d :| d in depthOf && HasFile(listing, d, f);
        assert d in marked;
      } else {
        assert f in result'[|result|..] && dir in marked;
      }
    }
  }

  lemma VisitReaches(listing: Listing, queue: seq<(string, nat)>, depthOf: map<string, nat>, result: seq<string>,
                     queue': seq<(string, nat)>, result': seq<string>, e: (string, nat))
    requires Visit(listing, queue, depthOf, result, queue', result') && e in queue'
    ensures e.1 <= MAX_DEPTH && Reach(listing, e.0, e.1)
  {
    var rest := queue[1..];
    assert queue' == rest + queue'[|rest|..];
    if e in rest {
      assert e in queue;
    } else {
      assert e in queue'[|rest|..] && queue[0] in queue;
      assert Reach(listing, queue[0].0, e.1 - 1) && HasChild(listing, queue[0].0, e.0);
    }
  }

  lemma VisitComplete(listing: Listing, queue: seq<(string, nat)>, depthOf: map<string, nat>, result: seq<string>,
                      queue': seq<(string, nat)>, result': seq<string>)
    requires queue != [] && queue[0].0 !in depthOf && queue[1..] <= queue' && result <= result'
    requires Complete(listing, queue, depthOf, result) && AddedAll(listing, queue[0].0, queue[0].1, queue', result')
    ensures Complete(listing, queue', depthOf[queue[0].0 := queue[0].1], result')
  {
  }

  /** With nothing left to visit, every directory at depth `k` has been listed. */
  lemma {:induction false} ReachedAreListed(listing: Listing, depthOf: map<string, nat>, result: seq<string>,
                                            dir: string, k: nat)
    requires Complete(listing, [], depthOf, result) && k <= MAX_DEPTH && Reach(listing, dir, k)
    ensures dir in depthOf && depthOf[dir] <= k
    decreases k
  {
    if k == 0 {
      assert Expected("", 0, [], depthOf);
    } else {
      var parent :| Reach(listing, parent, k - 1) && HasChild(listing, parent, dir);
      ReachedAreListed(listing, depthOf, result, parent, k - 1);
      assert Expected(dir, depthOf[parent] + 1, [], depthOf);
    }
  }

  /** At depth at most 6. */
  ghost predicate Shallow(listing: Listing, dir: string) {
    exists k: nat :: k <= MAX_DEPTH && Reach(listing, dir, k)
  }

  lemma AllListed(listing: Listing, depthOf: map<string, nat>, result: seq<string>)
    requires Complete(listing, [], depthOf, result)
    ensures forall d :: Shallow(listing, d) ==> d in depthOf
    ensures forall d, f :: Shallow(listing, d) && HasFile(listing, d, f) ==> f in result
  {
    forall d | Shallow(listing, d) ensures d in depthOf {
      var k: nat :| k <= MAX_DEPTH && Reach(listing, d, k);
      ReachedAreListed(listing, depthOf, result, d, k);
    }
  }

  /** At most 120 requests, no directory listed twice, at most 2500 + 9 paths; every path
      is a file of a directory at depth at most 6, and when no budget ran out they are all
      the files of those directories. */
  method RecursivePaths(listing: Listing) returns (result: seq<string>, listed: seq<string>, requests: nat)
    ensures requests <= MAX_REQUESTS && |result| < MAX_ENTRIES + MAX_PAGES
    ensures Distinct(listed) && |listed| <= requests
    ensures forall f :: f in result ==> exists d :: d in listed && HasFile(listing, d, f)
    ensures forall d :: d in listed ==> Shallow(listing, d)
    ensures requests < MAX_REQUESTS && |result| < MAX_ENTRIES ==>
      && (forall d :: Shallow(listing, d) ==> d in listed)
      && (forall d, f :: Shallow(listing, d) && HasFile(listing, d, f) ==> f in result)
  {
    var queue: seq<(string, nat)> := [("", 0)];
    result, listed, requests := [], [], 0;
    ghost var depthOf: map<string, nat> := map[];
    while queue != [] && |result| < MAX_ENTRIES && requests < MAX_REQUESTS
      invariant requests <= MAX_REQUESTS && |result| < MAX_ENTRIES + MAX_PAGES
      invariant Distinct(listed) && |listed| <= requests && forall d :: d in listed <==> d in depthOf
      invariant QueueSorted(queue) && Sound(listing, queue, depthOf, result)
      invariant requests < MAX_REQUESTS && |result| < MAX_ENTRIES ==> Complete(listing, queue, depthOf, result)
      decreases MAX_REQUESTS - requests, |queue|
    {
      var (directory, depth) := queue[0];
      if directory in listed || depth > MAX_DEPTH {
        assert queue[0] in queue;
        PopSeen(listing, queue, depthOf, result);
        queue := queue[1..];
      } else {
        ghost var q, r := queue, result;
        listed := listed + [directory];
        queue, result, requests := ScanDirectory(listing, directory, depth, queue[1..], result, requests);
        VisitSorted(listing, q, depthOf, r, queue, result);
        VisitSound(listing, q, depthOf, r, queue, result);
        if requests < MAX_REQUESTS && |result| < MAX_ENTRIES {
          VisitComplete(listing, q, depthOf, r, queue, result);
        }
        depthOf := depthOf[directory := depth];
      }
    }
    if requests < MAX_REQUESTS && |result| < MAX_ENTRIES {
      AllListed(listing, depthOf, result);
    }
  }
}
