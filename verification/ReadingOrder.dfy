// Two-column reading order (src/functions/resume-parsing/execute.ts).
module ReadingOrder {
  import opened Collections
  import opened Documents
  import opened Text

  const MIN_GUTTER_WIDTH := 0.15

  // ---- the gutter of one page ----

  function Identity(): real -> real { (x: real) => x }

  function CenterX(b: LayoutBlock): real
    requires b.bbox.Some?
  {
    (b.bbox.value.x0 + b.bbox.value.x1) / 2.0
  }

  predicate AllPlaced(blocks: seq<LayoutBlock>) {
    forall i :: 0 <= i < |blocks| ==> blocks[i].bbox.Some?
  }

  function RawCenters(blocks: seq<LayoutBlock>): (xs: seq<real>)
    requires AllPlaced(blocks)
    ensures |xs| == |blocks| && forall i :: 0 <= i < |xs| ==> xs[i] == CenterX(blocks[i])
  {
    seq(|blocks|, i requires 0 <= i < |blocks| => CenterX(blocks[i]))
  }

  function Centers(blocks: seq<LayoutBlock>): seq<real>
    requires AllPlaced(blocks)
  {
    StableSort(RawCenters(blocks), Identity())
  }

  function Gap(cs: seq<real>, i: nat): real
    requires 0 < i < |cs|
  {
    cs[i] - cs[i - 1]
  }

  function Mid(cs: seq<real>, i: nat): real
    requires 0 < i < |cs|
  {
    (cs[i] + cs[i - 1]) / 2.0
  }

  // A gap between neighbouring centres whose middle lies in the page's middle band.
  predicate Central(cs: seq<real>, i: nat) {
    0 < i < |cs| && 0.3 < Mid(cs, i) < 0.7
  }

  // The first of the widest central gaps among the first n centres, if it has any width.
  function Widest(cs: seq<real>, n: nat): Option<nat>
    requires n <= |cs|
  {
    if n <= 1 then None
    else
      var best := Widest(cs, n - 1);
      var widest := if best.Some? && 0 < best.value < |cs| then Gap(cs, best.value) else 0.0;
      var beats := Gap(cs, n - 1) > widest;
      if Central(cs, n - 1) && beats then Some(n - 1) else best
  }

  function Gutter(cs: seq<real>): Option<real> {
    var best := Widest(cs, |cs|);
    if best.Some? && 0 < best.value < |cs| && Gap(cs, best.value) >= MIN_GUTTER_WIDTH
    then Some(Mid(cs, best.value))
    else None
  }

  lemma {:induction false} WidestWithin(cs: seq<real>, n: nat)
    requires n <= |cs|
    ensures var best := Widest(cs, n);
      best.Some? ==> best.value < n && Central(cs, best.value) && Gap(cs, best.value) > 0.0
  {
    if n > 1 { WidestWithin(cs, n - 1); }
  }

  // The loop of the source, tracking the widest gap so far and its middle.
  method DetectGutter(blocks: seq<LayoutBlock>) returns (gutter: Option<real>)
    requires AllPlaced(blocks)
    ensures gutter == Gutter(Centers(blocks))
  {
    var centers := Centers(blocks);
    var widest := 0.0;
    gutter := None;
    WidestWithin(centers, 0);
    if |centers| > 1 {
      for i := 1 to |centers|
        invariant var best := Widest(centers, i);
          && (best.None? ==> widest == 0.0 && gutter == None)
          && (best.Some? ==> Central(centers, best.value) && widest == Gap(centers, best.value)
                             && gutter == Some(Mid(centers, best.value)))
      {
        var gap := centers[i] - centers[i - 1];
        var mid := (centers[i] + centers[i - 1]) / 2.0;
        if gap > widest && mid > 0.3 && mid < 0.7 {
          widest, gutter := gap, Some(mid);
        }
      }
    }
    if widest < MIN_GUTTER_WIDTH {
      gutter := None;
    }
  }

  lemma {:induction false} WidestIsWidest(cs: seq<real>, n: nat)
    requires n <= |cs|
    ensures var best := Widest(cs, n);
      && (best.Some? ==> Central(cs, best.value))
      && (forall i: nat :: i < n && Central(cs, i) ==>
            if best.None? then Gap(cs, i) <= 0.0
            else Gap(cs, i) <= Gap(cs, best.value) && (i < best.value ==> Gap(cs, i) < Gap(cs, best.value)))
  {
    if n > 1 {
      WidestWithin(cs, n - 1);
      WidestIsWidest(cs, n - 1);
    }
  }

  // The gutter is the middle of the first of the widest central gaps, wide enough.
  ghost predicate IsGutterAt(cs: seq<real>, g: real, i: nat) {
    && Central(cs, i) && g == Mid(cs, i) && Gap(cs, i) >= MIN_GUTTER_WIDTH
    && (forall j: nat :: Central(cs, j) ==> Gap(cs, j) <= Gap(cs, i))
    && (forall j: nat :: j < i && Central(cs, j) ==> Gap(cs, j) < Gap(cs, i))
  }

  lemma GutterCharacterised(cs: seq<real>, g: real)
    ensures Gutter(cs) == Some(g) <==> exists i: nat :: IsGutterAt(cs, g, i)
    ensures Gutter(cs) == None <==> forall i: nat :: Central(cs, i) ==> Gap(cs, i) < MIN_GUTTER_WIDTH
  {
    WidestWithin(cs, |cs|);
    WidestIsWidest(cs, |cs|);
    var best := Widest(cs, |cs|);
    if Gutter(cs).Some? {
      assert IsGutterAt(cs, Gutter(cs).value, best.value);
      forall i: nat | IsGutterAt(cs, g, i) ensures i == best.value {
        assert Gap(cs, i) == Gap(cs, best.value);
      }
    }
  }

  lemma CenterOfSome(blocks: seq<LayoutBlock>, c: real) returns (i: nat)
    requires AllPlaced(blocks) && c in Centers(blocks)
    ensures i < |blocks| && CenterX(blocks[i]) == c
  {
    StableSortMultiset(RawCenters(blocks), Identity());
    assert c in multiset(Centers(blocks));
    assert c in RawCenters(blocks);
    i :| i < |blocks| && RawCenters(blocks)[i] == c;
  }

  lemma CenterListed(blocks: seq<LayoutBlock>, i: nat)
    requires AllPlaced(blocks) && i < |blocks|
    ensures CenterX(blocks[i]) in Centers(blocks)
  {
    StableSortMultiset(RawCenters(blocks), Identity());
    assert RawCenters(blocks)[i] in multiset(RawCenters(blocks));
    assert CenterX(blocks[i]) in multiset(Centers(blocks));
  }

  predicate OrderedX(blocks: seq<LayoutBlock>)
    requires AllPlaced(blocks)
  {
    forall i :: 0 <= i < |blocks| ==> blocks[i].bbox.value.x0 <= blocks[i].bbox.value.x1
  }

  function Column(gutter: Option<real>, b: LayoutBlock): int
    requires b.bbox.Some?
  {
    if gutter.Some? && b.bbox.value.x0 >= gutter.value then 1 else 0
  }

  lemma SortedSplit(cs: seq<real>, k: nat, m: nat)
    requires SortedBy(cs, Identity()) && 0 < k < |cs| && m < |cs|
    ensures cs[m] <= cs[k - 1] || cs[m] >= cs[k]
  {
    if m < k - 1 { assert Identity()(cs[m]) <= Identity()(cs[k - 1]); }
    if m > k { assert Identity()(cs[k]) <= Identity()(cs[m]); }
  }

  // No centre lies within 0.075 of a gutter and there is one on either side; a block that starts
  // right of it is centred right of it, and some block starts left of it.
  lemma GutterSeparates(blocks: seq<LayoutBlock>)
    requires AllPlaced(blocks) && OrderedX(blocks) && Gutter(Centers(blocks)).Some?
    ensures var g := Gutter(Centers(blocks)).value;
      && 0.3 < g < 0.7
      && (forall i :: 0 <= i < |blocks| ==>
            var b := blocks[i].bbox.value;
            && ((b.x0 + b.x1) / 2.0 <= g - 0.075 || (b.x0 + b.x1) / 2.0 >= g + 0.075)
            && (b.x0 >= g ==> (b.x0 + b.x1) / 2.0 >= g + 0.075))
      && (exists i :: 0 <= i < |blocks| && blocks[i].bbox.value.x0 < g && CenterX(blocks[i]) <= g - 0.075)
      && (exists i :: 0 <= i < |blocks| && CenterX(blocks[i]) >= g + 0.075)
  {
    var cs := Centers(blocks);
    var g := Gutter(cs).value;
    GutterCharacterised(cs, g);
    var k: nat :| IsGutterAt(cs, g, k);
    StableSortCorrect(RawCenters(blocks), Identity());
    forall i | 0 <= i < |blocks| ensures CenterX(blocks[i]) <= g - 0.075 || CenterX(blocks[i]) >= g + 0.075 {
      CenterListed(blocks, i);
      var m :| 0 <= m < |cs| && cs[m] == CenterX(blocks[i]);
      SortedSplit(cs, k, m);
    }
    var left := CenterOfSome(blocks, cs[k - 1]);
    var right := CenterOfSome(blocks, cs[k]);
    assert CenterX(blocks[right]) >= g + 0.075;
    assert CenterX(blocks[left]) <= g - 0.075 && blocks[left].bbox.value.x0 < g;
  }

  // ---- the order of one page ----

  function Rank(gutter: Option<real>): LayoutBlock -> real {
    (b: LayoutBlock) => if b.bbox.None? then 0.0 else Column(gutter, b) as real + b.bbox.value.y0
  }

  function PageGutter(blocks: seq<LayoutBlock>): Option<real> {
    if AllPlaced(blocks) then Gutter(Centers(blocks)) else None
  }

  function OrderPage(blocks: seq<LayoutBlock>): seq<LayoutBlock> {
    StableSort(blocks, Rank(PageGutter(blocks)))
  }

  // ---- all pages ----

  function Usable(): LayoutBlock -> bool { (b: LayoutBlock) => b.bbox.Some? && Trim(b.content) != "" }

  function OnPage(p: int): LayoutBlock -> bool { (b: LayoutBlock) => b.page == p }

  function InPages(ps: seq<int>): LayoutBlock -> bool { (b: LayoutBlock) => b.page in ps }

  function PageNumbers(blocks: seq<LayoutBlock>): (ps: seq<int>)
    ensures |ps| == |blocks| && forall i :: 0 <= i < |ps| ==> ps[i] == blocks[i].page
  {
    seq(|blocks|, i requires 0 <= i < |blocks| => blocks[i].page)
  }

  function Numerically(): int -> real { (p: int) => p as real }

  function SortedPages(blocks: seq<LayoutBlock>): seq<int> {
    StableSort(Dedup(PageNumbers(blocks)), Numerically())
  }

  function OrderPages(pages: seq<int>, usable: seq<LayoutBlock>): seq<LayoutBlock> {
    if pages == [] then []
    else OrderPage(Filter(usable, OnPage(pages[0]))) + OrderPages(pages[1..], usable)
  }

  function Reconstruct(blocks: seq<LayoutBlock>): seq<LayoutBlock> {
    var usable := Filter(blocks, Usable());
    OrderPages(SortedPages(usable), usable)
  }

  predicate Ascending(ps: seq<int>) {
    forall i, j :: 0 <= i < j < |ps| ==> ps[i] < ps[j]
  }

  lemma PagesListed(blocks: seq<LayoutBlock>, b: LayoutBlock)
    requires b in blocks
    ensures b.page in SortedPages(blocks)
  {
    var distinct := Dedup(PageNumbers(blocks));
    var i :| 0 <= i < |blocks| && blocks[i] == b;
    assert PageNumbers(blocks)[i] == b.page;
    assert b.page in distinct;
    StableSortMultiset(distinct, Numerically());
    assert b.page in multiset(SortedPages(blocks));
  }

  lemma {:induction false} OnceInMultiset(xs: seq<int>, x: int)
    requires NoDuplicates(xs)
    ensures multiset(xs)[x] <= 1
  {
    if xs != [] {
      OnceInMultiset(xs[1..], x);
      assert xs == [xs[0]] + xs[1..];
    }
  }

  lemma TwiceInMultiset(xs: seq<int>, i: nat, j: nat)
    requires i < j < |xs| && xs[i] == xs[j]
    ensures multiset(xs)[xs[i]] >= 2
  {
    assert xs == xs[..j] + [xs[j]] + xs[j + 1..];
    assert xs[i] in xs[..j];
  }

  lemma PagesAscend(blocks: seq<LayoutBlock>)
    ensures Ascending(SortedPages(blocks))
  {
    var distinct, ps := Dedup(PageNumbers(blocks)), SortedPages(blocks);
    StableSortCorrect(distinct, Numerically());
    StableSortMultiset(distinct, Numerically());
    forall i, j | 0 <= i < j < |ps| ensures ps[i] < ps[j] {
      assert Numerically()(ps[i]) <= Numerically()(ps[j]);
      OnceInMultiset(distinct, ps[i]);
      if ps[i] == ps[j] { TwiceInMultiset(ps, i, j); }
    }
  }

  lemma {:induction false} FilterSplit(xs: seq<LayoutBlock>, p: int, ps: seq<int>)
    requires p !in ps
    ensures multiset(Filter(xs, InPages([p] + ps))) ==
      multiset(Filter(xs, OnPage(p))) + multiset(Filter(xs, InPages(ps)))
  {
    if xs != [] {
      FilterSplit(xs[1..], p, ps);
    }
  }

  lemma {:induction false} PagesPermute(pages: seq<int>, usable: seq<LayoutBlock>)
    requires Ascending(pages)
    ensures multiset(OrderPages(pages, usable)) == multiset(Filter(usable, InPages(pages)))
  {
    if pages == [] {
      FilterNone(usable, InPages(pages));
    } else {
      var first := Filter(usable, OnPage(pages[0]));
      var rest := OrderPages(pages[1..], usable);
      PagesPermute(pages[1..], usable);
      StableSortMultiset(first, Rank(PageGutter(first)));
      calc {
        multiset(OrderPages(pages, usable));
        multiset(OrderPage(first) + rest);
        multiset(first) + multiset(Filter(usable, InPages(pages[1..])));
        { FilterSplit(usable, pages[0], pages[1..]); }
        multiset(Filter(usable, InPages([pages[0]] + pages[1..])));
        { assert pages == [pages[0]] + pages[1..]; }
        multiset(Filter(usable, InPages(pages)));
      }
    }
  }

  // Rank of a block among the blocks of its own page.
  function RankIn(usable: seq<LayoutBlock>, b: LayoutBlock): real {
    Rank(PageGutter(Filter(usable, OnPage(b.page))))(b)
  }

  ghost function ReadBefore(usable: seq<LayoutBlock>): (LayoutBlock, LayoutBlock) -> bool {
    (a: LayoutBlock, b: LayoutBlock) => a.page < b.page || (a.page == b.page && RankIn(usable, a) <= RankIn(usable, b))
  }

  lemma OrderPageMember(usable: seq<LayoutBlock>, p: int, b: LayoutBlock)
    ensures b in OrderPage(Filter(usable, OnPage(p))) <==> b in usable && b.page == p
  {
    var blocks := Filter(usable, OnPage(p));
    StableSortMultiset(blocks, Rank(PageGutter(blocks)));
    FilterMember(usable, OnPage(p), b);
    assert b in OrderPage(blocks) <==> b in multiset(OrderPage(blocks));
    assert b in blocks <==> b in multiset(blocks);
  }

  lemma {:induction false} PagesMember(pages: seq<int>, usable: seq<LayoutBlock>, b: LayoutBlock)
    ensures b in OrderPages(pages, usable) <==> b in usable && b.page in pages
  {
    if pages != [] {
      PagesMember(pages[1..], usable, b);
      OrderPageMember(usable, pages[0], b);
    }
  }

  lemma {:induction false} PagesInOrder(pages: seq<int>, usable: seq<LayoutBlock>)
    requires Ascending(pages)
    ensures Pairwise(OrderPages(pages, usable), ReadBefore(usable))
  {
    if pages != [] {
      var p := pages[0];
      var blocks := Filter(usable, OnPage(p));
      var first, rest := OrderPage(blocks), OrderPages(pages[1..], usable);
      PagesInOrder(pages[1..], usable);
      StableSortCorrect(blocks, Rank(PageGutter(blocks)));
      forall i | 0 <= i < |first| ensures first[i].page == p { OrderPageMember(usable, p, first[i]); }
      forall j | 0 <= j < |rest| ensures rest[j].page > p { PagesMember(pages[1..], usable, rest[j]); }
      forall i, j | 0 <= i < j < |first| ensures ReadBefore(usable)(first[i], first[j]) {
        assert Rank(PageGutter(blocks))(first[i]) <= Rank(PageGutter(blocks))(first[j]);
      }
    }
  }

  lemma {:induction false} PagesFilter(pages: seq<int>, usable: seq<LayoutBlock>, p: int)
    requires Ascending(pages)
    ensures Filter(OrderPages(pages, usable), OnPage(p)) ==
      if p in pages then OrderPage(Filter(usable, OnPage(p))) else []
  {
    if pages != [] {
      var first, rest := OrderPage(Filter(usable, OnPage(pages[0]))), OrderPages(pages[1..], usable);
      PagesFilter(pages[1..], usable, p);
      FilterAppend(first, rest, OnPage(p));
      forall b | b in first ensures b.page == pages[0] { OrderPageMember(usable, pages[0], b); }
      if p == pages[0] { FilterAll(first, OnPage(p)); } else { FilterNone(first, OnPage(p)); }
    }
  }

  // ---- what the order means for the boxes ----

  // A block of the page with a box and text whose middle, across, is c.
  ghost predicate HasCenter(blocks: seq<LayoutBlock>, p: int, c: real) {
    exists b :: b in blocks && b.page == p && b.bbox.Some? && Trim(b.content) != ""
                && (b.bbox.value.x0 + b.bbox.value.x1) / 2.0 == c
  }

  // Two middles with none between them, themselves around the middle of the page.
  ghost predicate IsGap(blocks: seq<LayoutBlock>, p: int, lo: real, hi: real) {
    && HasCenter(blocks, p, lo) && HasCenter(blocks, p, hi) && lo < hi
    && 0.3 < (lo + hi) / 2.0 < 0.7
    && forall c :: HasCenter(blocks, p, c) ==> c <= lo || c >= hi
  }

  ghost predicate IsWidestGap(blocks: seq<LayoutBlock>, p: int, lo: real, hi: real) {
    && IsGap(blocks, p, lo, hi) && hi - lo >= 0.15
    && forall lo', hi' :: IsGap(blocks, p, lo', hi') ==> hi' - lo' <= hi - lo && (lo' < lo ==> hi' - lo' < hi - lo)
  }

  // The gutter of a page runs through the middle of its widest gap, the leftmost of those.
  ghost predicate IsPageGutter(blocks: seq<LayoutBlock>, p: int, g: real) {
    exists lo, hi :: IsWidestGap(blocks, p, lo, hi) && g == (lo + hi) / 2.0
  }

  function PageBlocks(blocks: seq<LayoutBlock>, p: int): seq<LayoutBlock> {
    Filter(Filter(blocks, Usable()), OnPage(p))
  }

  lemma PageBlock(blocks: seq<LayoutBlock>, p: int, b: LayoutBlock)
    ensures b in PageBlocks(blocks, p) <==> b in blocks && b.page == p && b.bbox.Some? && Trim(b.content) != ""
  {
    FilterMember(Filter(blocks, Usable()), OnPage(p), b);
    FilterMember(blocks, Usable(), b);
  }

  lemma PagePlaced(blocks: seq<LayoutBlock>, p: int)
    ensures AllPlaced(PageBlocks(blocks, p))
  {
    var mine := PageBlocks(blocks, p);
    forall i | 0 <= i < |mine| ensures mine[i].bbox.Some? { PageBlock(blocks, p, mine[i]); }
  }

  lemma CenterIff(blocks: seq<LayoutBlock>, p: int, c: real)
    requires AllPlaced(PageBlocks(blocks, p))
    ensures c in Centers(PageBlocks(blocks, p)) <==> HasCenter(blocks, p, c)
  {
    var mine := PageBlocks(blocks, p);
    if c in Centers(mine) {
      var i := CenterOfSome(mine, c);
      PageBlock(blocks, p, mine[i]);
    }
    if b :| b in blocks && b.page == p && b.bbox.Some? && Trim(b.content) != ""
            && (b.bbox.value.x0 + b.bbox.value.x1) / 2.0 == c {
      PageBlock(blocks, p, b);
      var i :| 0 <= i < |mine| && mine[i] == b;
      CenterListed(mine, i);
    }
  }

  lemma SortedApart(cs: seq<real>, k: nat, l: nat)
    requires SortedBy(cs, Identity()) && k < |cs| && l < |cs| && cs[k] < cs[l]
    ensures k < l
  {
  }

  // Between two of its values, a sorted list that has none strictly between them steps from one to
  // the other.
  lemma {:induction false} Crossing(cs: seq<real>, lo: real, hi: real, k: nat, l: nat) returns (i: nat)
    requires SortedBy(cs, Identity()) && k < l < |cs| && cs[k] == lo < hi == cs[l]
    requires forall c :: c in cs ==> c <= lo || c >= hi
    ensures 0 < i < |cs| && cs[i - 1] == lo && cs[i] == hi
    decreases l - k
  {
    assert Identity()(cs[k]) <= Identity()(cs[k + 1]);
    assert cs[k + 1] in cs;
    if cs[k + 1] >= hi {
      i := k + 1;
      if k + 1 < l { assert Identity()(cs[k + 1]) <= Identity()(cs[l]); }
    } else {
      i := Crossing(cs, lo, hi, k + 1, l);
    }
  }

  lemma GapIsAdjacent(blocks: seq<LayoutBlock>, p: int, lo: real, hi: real) returns (i: nat)
    requires AllPlaced(PageBlocks(blocks, p)) && IsGap(blocks, p, lo, hi)
    ensures var cs := Centers(PageBlocks(blocks, p));
      0 < i < |cs| && cs[i - 1] == lo && cs[i] == hi && Central(cs, i)
  {
    var cs := Centers(PageBlocks(blocks, p));
    StableSortCorrect(RawCenters(PageBlocks(blocks, p)), Identity());
    forall c ensures c in cs <==> HasCenter(blocks, p, c) { CenterIff(blocks, p, c); }
    var k :| 0 <= k < |cs| && cs[k] == lo;
    var l :| 0 <= l < |cs| && cs[l] == hi;
    SortedApart(cs, k, l);
    i := Crossing(cs, lo, hi, k, l);
  }

  lemma AdjacentIsGap(blocks: seq<LayoutBlock>, p: int, i: nat)
    requires AllPlaced(PageBlocks(blocks, p))
    requires Central(Centers(PageBlocks(blocks, p)), i) && Gap(Centers(PageBlocks(blocks, p)), i) > 0.0
    ensures var cs := Centers(PageBlocks(blocks, p)); IsGap(blocks, p, cs[i - 1], cs[i])
  {
    var cs := Centers(PageBlocks(blocks, p));
    StableSortCorrect(RawCenters(PageBlocks(blocks, p)), Identity());
    forall c ensures c in cs <==> HasCenter(blocks, p, c) { CenterIff(blocks, p, c); }
    forall c | HasCenter(blocks, p, c) ensures c <= cs[i - 1] || c >= cs[i] {
      var m :| 0 <= m < |cs| && cs[m] == c;
      SortedSplit(cs, i, m);
    }
    assert cs[i - 1] in cs && cs[i] in cs;
  }

  lemma IndexBefore(cs: seq<real>, i: nat, j: nat)
    requires SortedBy(cs, Identity()) && 0 < i < |cs| && 0 < j < |cs|
    ensures cs[j - 1] < cs[i - 1] ==> j < i
    ensures j < i && cs[j - 1] < cs[j] ==> cs[j - 1] < cs[i - 1]
  {
    if i < j { assert Identity()(cs[i - 1]) <= Identity()(cs[j - 1]); }
    if j < i - 1 { assert Identity()(cs[j]) <= Identity()(cs[i - 1]); }
  }

  lemma GutterIsWidest(blocks: seq<LayoutBlock>, p: int, g: real, i: nat)
    requires AllPlaced(PageBlocks(blocks, p)) && IsGutterAt(Centers(PageBlocks(blocks, p)), g, i)
    ensures IsPageGutter(blocks, p, g)
  {
    var cs := Centers(PageBlocks(blocks, p));
    StableSortCorrect(RawCenters(PageBlocks(blocks, p)), Identity());
    AdjacentIsGap(blocks, p, i);
    var lo, hi := cs[i - 1], cs[i];
    forall lo', hi' | IsGap(blocks, p, lo', hi')
      ensures hi' - lo' <= hi - lo && (lo' < lo ==> hi' - lo' < hi - lo)
    {
      var j := GapIsAdjacent(blocks, p, lo', hi');
      IndexBefore(cs, i, j);
      assert Gap(cs, j) == hi' - lo' && Gap(cs, i) == hi - lo;
    }
    assert IsWidestGap(blocks, p, lo, hi);
  }

  lemma WidestIsGutter(blocks: seq<LayoutBlock>, p: int, lo: real, hi: real) returns (i: nat)
    requires AllPlaced(PageBlocks(blocks, p)) && IsWidestGap(blocks, p, lo, hi)
    ensures IsGutterAt(Centers(PageBlocks(blocks, p)), (lo + hi) / 2.0, i)
  {
    var cs := Centers(PageBlocks(blocks, p));
    StableSortCorrect(RawCenters(PageBlocks(blocks, p)), Identity());
    i := GapIsAdjacent(blocks, p, lo, hi);
    forall j: nat | Central(cs, j) ensures Gap(cs, j) <= Gap(cs, i) && (j < i ==> Gap(cs, j) < Gap(cs, i)) {
      if Gap(cs, j) > 0.0 {
        AdjacentIsGap(blocks, p, j);
        IndexBefore(cs, i, j);
      }
    }
  }

  lemma FoundIsGutter(blocks: seq<LayoutBlock>, p: int, g: real)
    requires AllPlaced(PageBlocks(blocks, p)) && Gutter(Centers(PageBlocks(blocks, p))) == Some(g)
    ensures IsPageGutter(blocks, p, g)
  {
    var cs := Centers(PageBlocks(blocks, p));
    GutterCharacterised(cs, g);
    var i: nat :| IsGutterAt(cs, g, i);
    GutterIsWidest(blocks, p, g, i);
  }

  lemma GutterIsFound(blocks: seq<LayoutBlock>, p: int, g: real)
    requires AllPlaced(PageBlocks(blocks, p)) && IsPageGutter(blocks, p, g)
    ensures Gutter(Centers(PageBlocks(blocks, p))) == Some(g)
  {
    var lo, hi :| IsWidestGap(blocks, p, lo, hi) && g == (lo + hi) / 2.0;
    var i := WidestIsGutter(blocks, p, lo, hi);
    GutterCharacterised(Centers(PageBlocks(blocks, p)), g);
  }

  // The gutter found on a page is the one its boxes define; none is found exactly if they define none.
  lemma PageGutterIff(blocks: seq<LayoutBlock>, p: int, g: real)
    ensures PageGutter(PageBlocks(blocks, p)) == Some(g) <==> IsPageGutter(blocks, p, g)
  {
    PagePlaced(blocks, p);
    if IsPageGutter(blocks, p, g) { GutterIsFound(blocks, p, g); }
    if PageGutter(PageBlocks(blocks, p)) == Some(g) { FoundIsGutter(blocks, p, g); }
  }

  predicate NormalizedY(blocks: seq<LayoutBlock>) {
    forall b :: b in blocks && b.bbox.Some? ==> 0.0 <= b.bbox.value.y0 < 1.0
  }

  // On one page `a` may be read before `b`: it does not start right of a gutter that `b` starts left
  // of; on the same side, or without a gutter, it is not lower.
  ghost predicate MayPrecede(blocks: seq<LayoutBlock>, p: int, a: Bbox, b: Bbox) {
    && (forall g :: IsPageGutter(blocks, p, g) ==>
          && !(b.x0 < g <= a.x0)
          && ((a.x0 < g <==> b.x0 < g) ==> a.y0 <= b.y0))
    && ((forall g :: !IsPageGutter(blocks, p, g)) ==> a.y0 <= b.y0)
  }

  lemma RankedMayPrecede(blocks: seq<LayoutBlock>, a: LayoutBlock, b: LayoutBlock)
    requires a.bbox.Some? && b.bbox.Some? && a.page == b.page
    requires 0.0 <= a.bbox.value.y0 < 1.0 && 0.0 <= b.bbox.value.y0 < 1.0
    requires var rank := Rank(PageGutter(PageBlocks(blocks, a.page))); rank(a) <= rank(b)
    ensures MayPrecede(blocks, a.page, a.bbox.value, b.bbox.value)
  {
    var gutter := PageGutter(PageBlocks(blocks, a.page));
    forall g ensures gutter == Some(g) <==> IsPageGutter(blocks, a.page, g) { PageGutterIff(blocks, a.page, g); }
    if gutter.Some? { assert IsPageGutter(blocks, a.page, gutter.value); }
  }

  lemma {:induction false} UsableCount(blocks: seq<LayoutBlock>, b: LayoutBlock)
    ensures multiset(Filter(blocks, Usable()))[b] ==
      if b.bbox.Some? && Trim(b.content) != "" then multiset(blocks)[b] else 0
  {
    if blocks != [] {
      UsableCount(blocks[1..], b);
      assert blocks == [blocks[0]] + blocks[1..];
    }
  }

  // The reconstruction holds each block with a box and text as often as the document does, and no
  // others: pages ascending, on each page the left column before the right one, each column from top
  // to bottom.
  lemma ReadingOrderColumnMajor(blocks: seq<LayoutBlock>)
    requires NormalizedY(blocks)
    ensures var result := Reconstruct(blocks);
      && (forall b :: multiset(result)[b] == if b.bbox.Some? && Trim(b.content) != "" then multiset(blocks)[b] else 0)
      && (forall i :: 0 <= i < |result| ==> result[i].bbox.Some?)
      && (forall i, j :: 0 <= i < j < |result| ==>
            || result[i].page < result[j].page
            || (&& result[i].page == result[j].page
                && MayPrecede(blocks, result[i].page, result[i].bbox.value, result[j].bbox.value)))
  {
    var usable, result := Filter(blocks, Usable()), Reconstruct(blocks);
    var pages := SortedPages(usable);
    PagesAscend(usable);
    forall b | b in usable { PagesListed(usable, b); }
    PagesPermute(pages, usable);
    FilterAll(usable, InPages(pages));
    PagesInOrder(pages, usable);
    forall b { UsableCount(blocks, b); }
    forall i | 0 <= i < |result| ensures result[i].bbox.Some? && 0.0 <= result[i].bbox.value.y0 < 1.0 {
      PagesMember(pages, usable, result[i]);
      FilterMember(blocks, Usable(), result[i]);
    }
    forall i, j | 0 <= i < j < |result| && result[i].page >= result[j].page
      ensures result[i].page == result[j].page
              && MayPrecede(blocks, result[i].page, result[i].bbox.value, result[j].bbox.value)
    {
      assert ReadBefore(usable)(result[i], result[j]);
      RankedMayPrecede(blocks, result[i], result[j]);
    }
  }

  // Within a page, blocks of equal column and height keep the order they came in.
  lemma ReadingOrderStable(blocks: seq<LayoutBlock>, p: int)
    ensures var mine := Filter(Filter(blocks, Usable()), OnPage(p));
      && SortedBy(Filter(Reconstruct(blocks), OnPage(p)), Rank(PageGutter(mine)))
      && StablePermutation(mine, Filter(Reconstruct(blocks), OnPage(p)), Rank(PageGutter(mine)))
  {
    var usable := Filter(blocks, Usable());
    var mine := Filter(usable, OnPage(p));
    PagesAscend(usable);
    PagesFilter(SortedPages(usable), usable, p);
    StableSortCorrect(mine, Rank(PageGutter(mine)));
    if p !in SortedPages(usable) {
      forall b | b in usable ensures !OnPage(p)(b) { PagesListed(usable, b); }
      FilterNone(usable, OnPage(p));
    }
  }

  // ---- the text handed to the model ----

  function Contents(blocks: seq<LayoutBlock>): (parts: seq<string>)
    ensures |parts| == |blocks| && forall i :: 0 <= i < |parts| ==> parts[i] == Trim(blocks[i].content)
  {
    seq(|blocks|, i requires 0 <= i < |blocks| => Trim(blocks[i].content))
  }

  function PageText(blocks: seq<LayoutBlock>): string {
    Join(Contents(OrderPage(blocks)), "\n")
  }

  function PageTexts(pages: seq<int>, usable: seq<LayoutBlock>): seq<string> {
    if pages == [] then []
    else [PageText(Filter(usable, OnPage(pages[0])))] + PageTexts(pages[1..], usable)
  }

  function ReconstructReadingOrder(blocks: seq<LayoutBlock>): string {
    var usable := Filter(blocks, Usable());
    if usable == [] then "" else Trim(Join(PageTexts(SortedPages(usable), usable), "\n\n"))
  }

  // `reconstructReadingOrder(blocks) || markdown`.
  function ResumeText(blocks: seq<LayoutBlock>, markdown: string): string {
    var text := ReconstructReadingOrder(blocks);
    if text != "" then text else markdown
  }

  predicate HasPage(usable: seq<LayoutBlock>, p: int) {
    exists b :: b in usable && b.page == p
  }

  lemma PageTextTrimmed(blocks: seq<LayoutBlock>, p: int)
    requires HasPage(Filter(blocks, Usable()), p)
    ensures var text := PageText(Filter(Filter(blocks, Usable()), OnPage(p))); text != "" && Trimmed(text)
  {
    var usable := Filter(blocks, Usable());
    var ordered := OrderPage(Filter(usable, OnPage(p)));
    forall i | 0 <= i < |ordered| ensures Contents(ordered)[i] != "" && Trimmed(Contents(ordered)[i]) {
      OrderPageMember(usable, p, ordered[i]);
      FilterMember(blocks, Usable(), ordered[i]);
    }
    var b :| b in usable && b.page == p;
    OrderPageMember(usable, p, b);
    JoinTrimmed(Contents(ordered), "\n");
  }

  lemma {:induction false} PageTextsTrimmed(pages: seq<int>, blocks: seq<LayoutBlock>)
    requires forall i :: 0 <= i < |pages| ==> HasPage(Filter(blocks, Usable()), pages[i])
    ensures var texts := PageTexts(pages, Filter(blocks, Usable()));
      |texts| == |pages| && forall i :: 0 <= i < |texts| ==> texts[i] != "" && Trimmed(texts[i])
  {
    if pages != [] {
      PageTextTrimmed(blocks, pages[0]);
      PageTextsTrimmed(pages[1..], blocks);
    }
  }

  lemma PageHasBlock(usable: seq<LayoutBlock>, p: int)
    requires p in SortedPages(usable)
    ensures HasPage(usable, p)
  {
    var distinct := Dedup(PageNumbers(usable));
    StableSortMultiset(distinct, Numerically());
    assert p in multiset(SortedPages(usable));
    assert p in distinct;
    var i :| 0 <= i < |usable| && PageNumbers(usable)[i] == p;
    assert usable[i].page == p;
  }

  // The final trim removes nothing, and the text is empty only for want of a usable block.
  lemma {:induction false} TextIsJoin(blocks: seq<LayoutBlock>)
    ensures ReconstructReadingOrder(blocks) == "" <==> forall b :: b in blocks ==> !Usable()(b)
    ensures ReconstructReadingOrder(blocks) ==
      Join(PageTexts(SortedPages(Filter(blocks, Usable())), Filter(blocks, Usable())), "\n\n")
  {
    var usable := Filter(blocks, Usable());
    var pages := SortedPages(usable);
    forall i | 0 <= i < |pages| ensures HasPage(usable, pages[i]) { PageHasBlock(usable, pages[i]); }
    PageTextsTrimmed(pages, blocks);
    JoinTrimmed(PageTexts(pages, usable), "\n\n");
    if usable == [] {
      forall b | b in blocks ensures !Usable()(b) { FilterMember(blocks, Usable(), b); }
      assert Dedup(PageNumbers(usable)) == [];
    } else {
      FilterMember(blocks, Usable(), usable[0]);
      PagesListed(usable, usable[0]);
    }
  }

  // The trimmed contents of a block list, page by page.
  function PageParts(pages: seq<int>, ordered: seq<LayoutBlock>): seq<seq<string>> {
    if pages == [] then []
    else [Contents(Filter(ordered, OnPage(pages[0])))] + PageParts(pages[1..], ordered)
  }

  function JoinEach(parts: seq<seq<string>>, separator: string): seq<string> {
    if parts == [] then [] else [Join(parts[0], separator)] + JoinEach(parts[1..], separator)
  }

  function Flatten(parts: seq<seq<string>>): seq<string> {
    if parts == [] then [] else parts[0] + Flatten(parts[1..])
  }

  lemma ContentsAppend(xs: seq<LayoutBlock>, ys: seq<LayoutBlock>)
    ensures Contents(xs + ys) == Contents(xs) + Contents(ys)
  {
  }

  lemma {:induction false} PagesFlattened(pages: seq<int>, usable: seq<LayoutBlock>, ordered: seq<LayoutBlock>)
    requires forall p :: p in pages ==> Filter(ordered, OnPage(p)) == OrderPage(Filter(usable, OnPage(p)))
    ensures Flatten(PageParts(pages, ordered)) == Contents(OrderPages(pages, usable))
  {
    if pages != [] {
      PagesFlattened(pages[1..], usable, ordered);
      ContentsAppend(OrderPage(Filter(usable, OnPage(pages[0]))), OrderPages(pages[1..], usable));
    }
  }

  lemma {:induction false} PagesJoined(pages: seq<int>, usable: seq<LayoutBlock>, ordered: seq<LayoutBlock>)
    requires forall p :: p in pages ==> Filter(ordered, OnPage(p)) == OrderPage(Filter(usable, OnPage(p)))
    ensures JoinEach(PageParts(pages, ordered), "\n") == PageTexts(pages, usable)
  {
    if pages != [] {
      PagesJoined(pages[1..], usable, ordered);
    }
  }

  // The text returned spells out the reconstruction block by block: a line for each, with a
  // blank line between pages.
  lemma {:induction false} TextSpellsReconstruction(blocks: seq<LayoutBlock>)
    ensures var parts := PageParts(SortedPages(Filter(blocks, Usable())), Reconstruct(blocks));
      && ReconstructReadingOrder(blocks) == Join(JoinEach(parts, "\n"), "\n\n")
      && Flatten(parts) == Contents(Reconstruct(blocks))
  {
    var usable := Filter(blocks, Usable());
    var pages := SortedPages(usable);
    PagesAscend(usable);
    forall p | p in pages ensures Filter(Reconstruct(blocks), OnPage(p)) == OrderPage(Filter(usable, OnPage(p))) {
      PagesFilter(pages, usable, p);
    }
    PagesFlattened(pages, usable, Reconstruct(blocks));
    PagesJoined(pages, usable, Reconstruct(blocks));
    TextIsJoin(blocks);
  }

  // The model reads the reconstruction if any block has both a box and text, else the provider's markdown.
  lemma {:induction false} FallsBackIff(blocks: seq<LayoutBlock>, markdown: string)
    ensures var parts := PageParts(SortedPages(Filter(blocks, Usable())), Reconstruct(blocks));
      ResumeText(blocks, markdown) ==
        if exists b :: b in blocks && Usable()(b) then Join(JoinEach(parts, "\n"), "\n\n") else markdown
  {
    TextIsJoin(blocks);
    TextSpellsReconstruction(blocks);
  }
}
