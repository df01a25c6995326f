/** Media of a template: the merged screenshot list and the asset rows a sync leaves. */
module TemplateMedia {
  import opened Basics

  datatype Kind = Screenshot | Image | Thumbnail | Preview

  /** Who put an asset there: a person, the screenshot service, or the named source. */
  datatype Origin = Manual | ScreenshotService | Discovered(adapter: string)

  datatype Asset = Asset(kind: Kind, url: string, origin: Origin, sortOrder: int)

  const MAX_SCREENSHOTS := 20

  /** Assets a person or the screenshot service put there. */
  predicate Curated(a: Asset) { !a.origin.Discovered? }

  function Select(assets: seq<Asset>, curated: bool): seq<Asset> {
    if assets == [] then []
    else Select(assets[..|assets| - 1], curated)
         + if Curated(assets[|assets| - 1]) == curated then [assets[|assets| - 1]] else []
  }

  /** Rows for the URLs a source lists. */
  function Found(adapter: string, urls: seq<string>): seq<Asset> {
    seq(|urls|, k requires 0 <= k < |urls| => Asset(Screenshot, urls[k], Discovered(adapter), k))
  }

  /** Asset rows after a sync: the others are deleted, the listed ones are added. */
  function AssetsAfter(assets: seq<Asset>, adapter: string, urls: seq<string>): seq<Asset> {
    Select(assets, true) + Found(adapter, urls)
  }

  /** `order by sort_order, created_at` on rows in order of creation. */
  function Ordered(assets: seq<Asset>): seq<Asset> {
    if assets == [] then [] else Placed(Ordered(assets[..|assets| - 1]), assets[|assets| - 1])
  }

  function Placed(sorted: seq<Asset>, a: Asset): seq<Asset> {
    if sorted == [] || sorted[|sorted| - 1].sortOrder <= a.sortOrder then sorted + [a]
    else Placed(sorted[..|sorted| - 1], a) + [sorted[|sorted| - 1]]
  }

  function Pictures(assets: seq<Asset>): seq<string> {
    if assets == [] then []
    else (if assets[0].kind.Preview? then [] else [assets[0].url]) + Pictures(assets[1..])
  }

  function Preserved(assets: seq<Asset>): seq<string> { Pictures(Ordered(Select(assets, true))) }

  /** `list(dict.fromkeys(s))`. */
  function Unique<T(==)>(s: seq<T>): seq<T> {
    if s == [] then []
    else
      var front := Unique(s[..|s| - 1]);
      if s[|s| - 1] in front then front else front + [s[|s| - 1]]
  }

  function Merged(assets: seq<Asset>, found: seq<string>): seq<string> {
    Take(Unique(Preserved(assets) + found), MAX_SCREENSHOTS)
  }

  // ----- assets -----

  lemma {:induction false} SelectConcat(a: seq<Asset>, b: seq<Asset>, curated: bool)
    ensures Select(a + b, curated) == Select(a, curated) + Select(b, curated)
  {
    if b == [] {
      assert a + b == a;
    } else {
      assert (a + b)[..|a + b| - 1] == a + b[..|b| - 1];
      SelectConcat(a, b[..|b| - 1], curated);
    }
  }

  lemma {:induction false} SelectAll(assets: seq<Asset>, curated: bool)
    requires forall a :: a in assets ==> Curated(a) == curated
    ensures Select(assets, curated) == assets && Select(assets, !curated) == []
  {
    if assets != [] {
      var last := assets[|assets| - 1];
      assert last in assets;
      SelectAll(assets[..|assets| - 1], curated);
      assert assets == assets[..|assets| - 1] + [last];
    }
  }

  lemma {:induction false} SelectIn(assets: seq<Asset>, curated: bool)
    ensures forall a :: a in Select(assets, curated) ==> a in assets && Curated(a) == curated
  {
    if assets != [] { SelectIn(assets[..|assets| - 1], curated); }
  }

  /** Every asset is selected one way or the other. */
  lemma {:induction false} SelectSplits(assets: seq<Asset>)
    ensures multiset(Select(assets, true)) + multiset(Select(assets, false)) == multiset(assets)
  {
    if assets != [] {
      SelectSplits(assets[..|assets| - 1]);
      assert assets == assets[..|assets| - 1] + [assets[|assets| - 1]];
    }
  }

  /** A sync keeps the curated assets as they are and replaces the others, all of them, by
      the listed URLs in order. */
  lemma CuratedAssetsSurvive(assets: seq<Asset>, adapter: string, urls: seq<string>)
    ensures var after := AssetsAfter(assets, adapter, urls);
      && Select(after, true) == Select(assets, true) && Select(after, false) == Found(adapter, urls)
  {
    var kept, found := Select(assets, true), Found(adapter, urls);
    SelectIn(assets, true);
    SelectAll(kept, true);
    assert forall a :: a in found ==> !Curated(a);
    SelectAll(found, false);
    SelectConcat(kept, found, true);
    SelectConcat(kept, found, false);
  }

  /** Asset by asset: those a person or the screenshot service put there are there as often as
      before, and the last ones are the listed URLs. */
  lemma AssetsReplaced(assets: seq<Asset>, adapter: string, urls: seq<string>)
    ensures var after := AssetsAfter(assets, adapter, urls);
      && (forall a: Asset :: !a.origin.Discovered? ==> multiset(after)[a] == multiset(assets)[a])
      && |after| >= |urls|
      && (forall a :: a in after[..|after| - |urls|] ==> !a.origin.Discovered?)
      && (forall k :: 0 <= k < |urls| ==>
            after[|after| - |urls| + k] == Asset(Screenshot, urls[k], Discovered(adapter), k))
  {
    var kept, found := Select(assets, true), Found(adapter, urls);
    var after := AssetsAfter(assets, adapter, urls);
    assert after[..|after| - |urls|] == kept;
    SelectIn(assets, true);
    SelectIn(assets, false);
    SelectSplits(assets);
    forall a: Asset | !a.origin.Discovered? ensures multiset(after)[a] == multiset(assets)[a] {
      assert a !in Select(assets, false) && a !in found;
      assert multiset(after)[a] == multiset(kept)[a] + multiset(found)[a];
      assert multiset(assets)[a] == multiset(kept)[a] + multiset(Select(assets, false))[a];
    }
  }

  // ----- the merged list -----

  lemma {:induction false} UniqueIsDistinct<T>(s: seq<T>)
    ensures Distinct(Unique(s)) && forall x :: x in Unique(s) <==> x in s
  {
    if s != [] {
      var front, last := s[..|s| - 1], s[|s| - 1];
      UniqueIsDistinct(front);
      assert s == front + [last];
    }
  }

  /** What of `s` is not in `a`, in order. */
  function Without<T(==)>(s: seq<T>, a: seq<T>): seq<T> {
    if s == [] then [] else Without(s[..|s| - 1], a) + if s[|s| - 1] in a then [] else [s[|s| - 1]]
  }

  /** First occurrences of a concatenation: those of the first part, then what the second
      adds, each in order. */
  lemma {:induction false} UniqueConcat<T>(a: seq<T>, b: seq<T>)
    ensures Unique(a + b) == Unique(a) + Without(Unique(b), a)
  {
    if b == [] {
      assert a + b == a;
    } else {
      var front, last := b[..|b| - 1], b[|b| - 1];
      assert a + b == (a + front) + [last] && b == front + [last];
      UniqueConcat(a, front);
      UniqueSnoc(a + front, last);
      UniqueSnoc(front, last);
      if last !in front { WithoutSnoc(Unique(front), last, a); }
    }
  }

  lemma UniqueSnoc<T>(s: seq<T>, x: T)
    ensures Unique(s + [x]) == if x in s then Unique(s) else Unique(s) + [x]
  {
    assert (s + [x])[..|s|] == s && (s + [x])[|s|] == x;
    UniqueIsDistinct(s);
  }

  lemma WithoutSnoc<T>(s: seq<T>, x: T, a: seq<T>)
    ensures Without(s + [x], a) == Without(s, a) + if x in a then [] else [x]
  {
    assert (s + [x])[..|s|] == s && (s + [x])[|s|] == x;
  }

  /** The merged list has no duplicates and at most twenty entries: the preserved URLs
      first, then the others that the source lists, each in order, and nothing is left out
      unless the list is full. */
  lemma MergedList(assets: seq<Asset>, found: seq<string>)
    ensures var m := Merged(assets, found); var kept := Pictures(Ordered(Select(assets, true)));
      && Distinct(m) && |m| <= MAX_SCREENSHOTS
      && m == Take(Unique(kept) + Without(Unique(found), kept), MAX_SCREENSHOTS)
      && (forall u :: u in m ==> u in kept || u in found)
      && (|m| < MAX_SCREENSHOTS ==> forall u :: u in kept || u in found ==> u in m)
  {
    var all := Preserved(assets) + found;
    var m := Merged(assets, found);
    UniqueConcat(Preserved(assets), found);
    UniqueIsDistinct(all);
    assert forall u :: u in Preserved(assets) || u in found <==> u in all;
    assert m <= Unique(all) && (|m| < MAX_SCREENSHOTS ==> m == Unique(all));
  }

  /** The URL of every asset but the previews. */
  lemma PicturesOne(x: Asset)
    ensures Pictures([x]) == if x.kind.Preview? then [] else [x.url]
  {
    assert Pictures([x][1..]) == [];
  }

  lemma {:induction false} PicturesConcat(a: seq<Asset>, b: seq<Asset>)
    ensures Pictures(a + b) == Pictures(a) + Pictures(b)
  {
    if a == [] {
      assert a + b == b;
    } else {
      assert (a + b)[0] == a[0] && (a + b)[1..] == a[1..] + b;
      PicturesConcat(a[1..], b);
    }
  }

  /** The assets with sort order `k`. */
  function AtOrder(s: seq<Asset>, k: int): seq<Asset> {
    if s == [] then [] else AtOrder(s[..|s| - 1], k) + if s[|s| - 1].sortOrder == k then [s[|s| - 1]] else []
  }

  lemma AtOrderSnoc(s: seq<Asset>, a: Asset, k: int)
    ensures AtOrder(s + [a], k) == AtOrder(s, k) + if a.sortOrder == k then [a] else []
  {
    assert (s + [a])[..|s|] == s && (s + [a])[|s|] == a;
  }

  lemma {:induction false} PlacedIsStable(sorted: seq<Asset>, a: Asset, k: int)
    requires Sorted(sorted)
    ensures AtOrder(Placed(sorted, a), k) == AtOrder(sorted, k) + if a.sortOrder == k then [a] else []
  {
    if sorted != [] && sorted[|sorted| - 1].sortOrder > a.sortOrder {
      var front, last := sorted[..|sorted| - 1], sorted[|sorted| - 1];
      PlacedIsStable(front, a, k);
      AtOrderSnoc(Placed(front, a), last, k);
    } else {
      AtOrderSnoc(sorted, a, k);
    }
  }

  /** Assets of one sort order are read in order of creation. */
  lemma {:induction false} OrderedIsStable(assets: seq<Asset>, k: int)
    ensures AtOrder(Ordered(assets), k) == AtOrder(assets, k)
  {
    if assets != [] {
      OrderedIsSorted(assets[..|assets| - 1]);
      OrderedIsStable(assets[..|assets| - 1], k);
      PlacedIsStable(Ordered(assets[..|assets| - 1]), assets[|assets| - 1], k);
    }
  }

  ghost predicate Sorted(s: seq<Asset>) { forall i, j :: 0 <= i < j < |s| ==> s[i].sortOrder <= s[j].sortOrder }

  /** Preserved URLs are read off the curated assets by sort order. */
  lemma {:induction false} OrderedIsSorted(assets: seq<Asset>)
    ensures Sorted(Ordered(assets)) && multiset(Ordered(assets)) == multiset(assets)
  {
    if assets != [] {
      var front, last := assets[..|assets| - 1], assets[|assets| - 1];
      OrderedIsSorted(front);
      PlacedIsSorted(Ordered(front), last);
      PlacedElements(Ordered(front), last);
      assert assets == front + [last];
    }
  }

  lemma {:induction false} PlacedElements(sorted: seq<Asset>, a: Asset)
    ensures multiset(Placed(sorted, a)) == multiset(sorted) + multiset{a}
  {
    if sorted != [] && sorted[|sorted| - 1].sortOrder > a.sortOrder {
      PlacedElements(sorted[..|sorted| - 1], a);
      assert sorted == sorted[..|sorted| - 1] + [sorted[|sorted| - 1]];
    }
  }

  lemma {:induction false} PlacedIsSorted(sorted: seq<Asset>, a: Asset)
    requires Sorted(sorted)
    ensures Sorted(Placed(sorted, a))
    ensures forall x :: x in Placed(sorted, a) <==> x in sorted || x == a
  {
    if sorted != [] && sorted[|sorted| - 1].sortOrder > a.sortOrder {
      var front, last := sorted[..|sorted| - 1], sorted[|sorted| - 1];
      PlacedIsSorted(front, a);
      assert sorted == front + [last];
      var placed := Placed(front, a);
      forall i | 0 <= i < |placed| ensures placed[i].sortOrder <= last.sortOrder { assert placed[i] in placed; }
    }
  }

  /** A second sync with the same listing changes neither assets nor the merged list. */
  lemma MediaSettles(assets: seq<Asset>, adapter: string, urls: seq<string>)
    ensures var after := AssetsAfter(assets, adapter, urls);
      AssetsAfter(after, adapter, urls) == after && Merged(after, urls) == Merged(assets, urls)
  {
    CuratedAssetsSurvive(assets, adapter, urls);
  }
}
