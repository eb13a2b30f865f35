// GLM layout responses to the canonical document (src/providers/glm/mapper.ts).
module GlmMapper {
  import opened Collections
  import opened Documents
  import opened Text
  import Signing

  datatype Detail = Detail(kind: string, bbox: Option<Bbox>, content: Option<string>)

  // One upstream response; any part of it may be missing.
  datatype Response = Response(
    mdResults: Option<string>,
    layoutDetails: Option<seq<Option<seq<Detail>>>>,
    pageSizes: Option<seq<Dimensions>>,
    totalTokens: Option<nat>)

  function OrElse<T>(o: Option<T>, default: T): T {
    if o.Some? then o.value else default
  }

  // Unknown labels degrade to `image`.
  function ToBlockLabel(s: string): BlockLabel {
    if s == "text" then TextLabel
    else if s == "formula" then FormulaLabel
    else if s == "table" then TableLabel
    else ImageLabel
  }

  // ---- one response ----

  function ToBlock(d: Detail, page: int, index: int): LayoutBlock {
    LayoutBlock(index, page, ToBlockLabel(d.kind), d.bbox, OrElse(d.content, ""))
  }

  function PageBlocks(details: seq<Detail>, page: int, first: int): (blocks: seq<LayoutBlock>)
    ensures |blocks| == |details|
    ensures forall i :: 0 <= i < |blocks| ==> blocks[i] == ToBlock(details[i], page, first + i)
  {
    seq(|details|, i requires 0 <= i < |details| => ToBlock(details[i], page, first + i))
  }

  function DetailBlocks(details: seq<Option<seq<Detail>>>, pageOffset: int): seq<LayoutBlock> {
    if details == [] then []
    else
      var n := |details|;
      var earlier := DetailBlocks(details[..n - 1], pageOffset);
      earlier + PageBlocks(OrElse(details[n - 1], []), pageOffset + n, |earlier|)
  }

  function BlocksOf(r: Response, pageOffset: int): seq<LayoutBlock> {
    DetailBlocks(OrElse(r.layoutDetails, []), pageOffset)
  }

  method ToBlocks(r: Response, pageOffset: int) returns (blocks: seq<LayoutBlock>)
    ensures blocks == BlocksOf(r, pageOffset)
  {
    blocks := [];
    var index := 0;
    var details := OrElse(r.layoutDetails, []);
    for pageIndex := 0 to |details|
      invariant blocks == DetailBlocks(details[..pageIndex], pageOffset)
      invariant index == |blocks|
    {
      assert details[..pageIndex + 1][..pageIndex] == details[..pageIndex];
      var page := pageOffset + pageIndex + 1;
      var pageDetails := OrElse(details[pageIndex], []);
      ghost var before := blocks;
      for j := 0 to |pageDetails|
        invariant blocks == before + PageBlocks(pageDetails[..j], page, |before|)
        invariant index == |before| + j
      {
        blocks := blocks + [ToBlock(pageDetails[j], page, index)];
        index := index + 1;
      }
      assert pageDetails[..|pageDetails|] == pageDetails;
    }
    assert details[..|details|] == details;
  }

  function PageCount(r: Response): nat {
    var sizes, details := |OrElse(r.pageSizes, [])|, |OrElse(r.layoutDetails, [])|;
    var most := if sizes > details then sizes else details;
    if most > 1 then most else 1
  }

  // The response's markdown belongs to its first page.
  function PageAt(r: Response, pageOffset: int, i: nat): PageResult {
    var sizes := OrElse(r.pageSizes, []);
    PageResult(pageOffset + i + 1, if i == 0 then Trim(OrElse(r.mdResults, "")) else "",
               if i < |sizes| then Some(sizes[i]) else None)
  }

  function PagesOf(r: Response, pageOffset: int): (pages: seq<PageResult>)
    ensures |pages| == PageCount(r)
    ensures forall i :: 0 <= i < |pages| ==> pages[i] == PageAt(r, pageOffset, i)
  {
    seq(PageCount(r), i requires i >= 0 => PageAt(r, pageOffset, i))
  }

  method ToPages(r: Response, pageOffset: int) returns (pages: seq<PageResult>)
    ensures pages == PagesOf(r, pageOffset)
  {
    var dims := OrElse(r.pageSizes, []);
    var pageCount := PageCount(r);
    var markdown := Trim(OrElse(r.mdResults, ""));
    pages := [];
    for i := 0 to pageCount
      invariant |pages| == i
      invariant forall j :: 0 <= j < i ==> pages[j] == PageAt(r, pageOffset, j)
    {
      var size := if i < |dims| then Some(dims[i]) else None;
      pages := pages + [PageResult(pageOffset + i + 1, if i == 0 then markdown else "", size)];
    }
  }

  // ---- all responses ----

  function AllPages(rs: seq<Response>): seq<PageResult> {
    if rs == [] then []
    else
      var earlier := AllPages(rs[..|rs| - 1]);
      earlier + PagesOf(rs[|rs| - 1], |earlier|)
  }

  function RawBlocks(rs: seq<Response>): seq<LayoutBlock> {
    if rs == [] then []
    else RawBlocks(rs[..|rs| - 1]) + BlocksOf(rs[|rs| - 1], |AllPages(rs[..|rs| - 1])|)
  }

  function Reindexed(blocks: seq<LayoutBlock>): (out: seq<LayoutBlock>)
    ensures |out| == |blocks| && forall i :: 0 <= i < |out| ==> out[i] == blocks[i].(index := i)
  {
    seq(|blocks|, i requires 0 <= i < |blocks| => blocks[i].(index := i))
  }

  function Tokens(rs: seq<Response>): nat {
    if rs == [] then 0 else Tokens(rs[..|rs| - 1]) + OrElse(rs[|rs| - 1].totalTokens, 0)
  }

  function PageMarkdowns(pages: seq<PageResult>): seq<string> {
    if pages == [] then []
    else PageMarkdowns(pages[..|pages| - 1]) +
         (if |pages[|pages| - 1].markdown| > 0 then [pages[|pages| - 1].markdown] else [])
  }

  function Joined(rs: seq<Response>): string {
    Join(PageMarkdowns(AllPages(rs)), "\n\n")
  }

  function MapContent(rs: seq<Response>): Content {
    var pages, markdown := AllPages(rs), Trim(Joined(rs));
    Content(markdown, markdown, pages, Reindexed(RawBlocks(rs)), |pages|, Some(Tokens(rs)))
  }

  method MapLayoutParsing(rs: seq<Response>, provider: string, durationMs: nat, fellBackFrom: Option<string>)
    returns (doc: Document)
    ensures doc.content == MapContent(rs)
    ensures doc.provider == provider && doc.durationMs == durationMs
    ensures doc.fellBackFrom == if fellBackFrom == Some("") then None else fellBackFrom
  {
    var pages: seq<PageResult>, blocks: seq<LayoutBlock> := [], [];
    var pageOffset, tokensUsed: nat := 0, 0;
    for i := 0 to |rs|
      invariant pages == AllPages(rs[..i]) && pageOffset == |pages|
      invariant blocks == RawBlocks(rs[..i])
      invariant tokensUsed == Tokens(rs[..i])
    {
      assert rs[..i + 1][..i] == rs[..i];
      var responsePages := ToPages(rs[i], pageOffset);
      var responseBlocks := ToBlocks(rs[i], pageOffset);
      blocks := blocks + responseBlocks;
      pages := pages + responsePages;
      pageOffset := pageOffset + |responsePages|;
      tokensUsed := tokensUsed + OrElse(rs[i].totalTokens, 0);
    }
    assert rs[..|rs|] == rs;
    ghost var raw := blocks;
    for i := 0 to |blocks|
      invariant |blocks| == |raw|
      invariant forall j :: 0 <= j < |raw| ==> blocks[j] == if j < i then raw[j].(index := j) else raw[j]
    {
      blocks := blocks[i := blocks[i].(index := i)];
    }
    assert blocks == Reindexed(raw);
    var markdown := Trim(Join(PageMarkdowns(pages), "\n\n"));
    doc := Document(Content(markdown, markdown, pages, blocks, |pages|, Some(tokensUsed)), provider,
                    if fellBackFrom == Some("") then None else fellBackFrom, durationMs);
  }

  // ---- concatenation ----

  function ShiftPages(pages: seq<PageResult>, shift: int): (out: seq<PageResult>)
    ensures |out| == |pages| && forall i :: 0 <= i < |out| ==> out[i] == pages[i].(page := pages[i].page + shift)
  {
    seq(|pages|, i requires 0 <= i < |pages| => pages[i].(page := pages[i].page + shift))
  }

  function ShiftBlocks(blocks: seq<LayoutBlock>, pagesBy: int, indexBy: int): (out: seq<LayoutBlock>)
    ensures |out| == |blocks|
    ensures forall i :: 0 <= i < |out| ==>
      out[i] == blocks[i].(page := blocks[i].page + pagesBy, index := blocks[i].index + indexBy)
  {
    seq(|blocks|, i requires 0 <= i < |blocks| =>
      blocks[i].(page := blocks[i].page + pagesBy, index := blocks[i].index + indexBy))
  }

  lemma ShiftPagesAppend(xs: seq<PageResult>, ys: seq<PageResult>, shift: int)
    ensures ShiftPages(xs + ys, shift) == ShiftPages(xs, shift) + ShiftPages(ys, shift)
  {
  }

  lemma ShiftBlocksAppend(xs: seq<LayoutBlock>, ys: seq<LayoutBlock>, shift: int, indexBy: int)
    ensures ShiftBlocks(xs + ys, shift, indexBy) == ShiftBlocks(xs, shift, indexBy) + ShiftBlocks(ys, shift, indexBy)
  {
  }

  lemma PageBlocksShift(details: seq<Detail>, page: int, first: int, shift: int)
    ensures PageBlocks(details, page + shift, first) == ShiftBlocks(PageBlocks(details, page, first), shift, 0)
  {
  }

  lemma DetailBlocksSnoc(init: seq<Option<seq<Detail>>>, last: Option<seq<Detail>>, offset: int)
    ensures var earlier := DetailBlocks(init, offset);
      DetailBlocks(init + [last], offset) ==
        earlier + PageBlocks(OrElse(last, []), offset + |init| + 1, |earlier|)
  {
    assert (init + [last])[..|init|] == init;
  }

  lemma ShiftWithPage(earlier: seq<LayoutBlock>, details: seq<Detail>, page: int, shift: int)
    ensures ShiftBlocks(earlier, shift, 0) + PageBlocks(details, page + shift, |earlier|) ==
      ShiftBlocks(earlier + PageBlocks(details, page, |earlier|), shift, 0)
  {
    PageBlocksShift(details, page, |earlier|, shift);
    ShiftBlocksAppend(earlier, PageBlocks(details, page, |earlier|), shift, 0);
  }

  lemma DetailShiftStep(init: seq<Option<seq<Detail>>>, last: Option<seq<Detail>>, offset: int, shift: int)
    requires DetailBlocks(init, offset + shift) == ShiftBlocks(DetailBlocks(init, offset), shift, 0)
    ensures DetailBlocks(init + [last], offset + shift) == ShiftBlocks(DetailBlocks(init + [last], offset), shift, 0)
  {
    var earlier, page := DetailBlocks(init, offset), offset + |init| + 1;
    DetailBlocksSnoc(init, last, offset);
    DetailBlocksSnoc(init, last, offset + shift);
    ShiftWithPage(earlier, OrElse(last, []), page, shift);
    assert offset + shift + |init| + 1 == page + shift;
  }

  lemma {:induction false} DetailBlocksShift(details: seq<Option<seq<Detail>>>, offset: int, shift: int)
    ensures DetailBlocks(details, offset + shift) == ShiftBlocks(DetailBlocks(details, offset), shift, 0)
  {
    if details != [] {
      var init, last := details[..|details| - 1], details[|details| - 1];
      DetailBlocksShift(init, offset, shift);
      DetailShiftStep(init, last, offset, shift);
      assert details == init + [last];
    }
  }

  lemma PagesOfShift(r: Response, offset: int, shift: int)
    ensures PagesOf(r, offset + shift) == ShiftPages(PagesOf(r, offset), shift)
  {
  }

  lemma AllPagesStep(rs: seq<Response>, r: Response)
    ensures AllPages(rs + [r]) == AllPages(rs) + PagesOf(r, |AllPages(rs)|)
  {
    assert (rs + [r])[..|rs|] == rs;
  }

  lemma RawBlocksStep(rs: seq<Response>, r: Response)
    ensures RawBlocks(rs + [r]) == RawBlocks(rs) + BlocksOf(r, |AllPages(rs)|)
  {
    assert (rs + [r])[..|rs|] == rs;
  }

  lemma {:induction false} PagesConcat(a: seq<Response>, b: seq<Response>)
    ensures AllPages(a + b) == AllPages(a) + ShiftPages(AllPages(b), |AllPages(a)|)
  {
    if b == [] {
      assert a + b == a;
    } else {
      var init, last := b[..|b| - 1], b[|b| - 1];
      var k, m := |AllPages(a)|, |AllPages(init)|;
      calc {
        AllPages(a + b);
        { assert a + b == (a + init) + [last]; AllPagesStep(a + init, last); }
        AllPages(a + init) + PagesOf(last, |AllPages(a + init)|);
        { PagesConcat(a, init); PagesOfShift(last, m, k); }
        (AllPages(a) + ShiftPages(AllPages(init), k)) + ShiftPages(PagesOf(last, m), k);
        { AppendAssociates(AllPages(a), ShiftPages(AllPages(init), k), ShiftPages(PagesOf(last, m), k)); }
        AllPages(a) + (ShiftPages(AllPages(init), k) + ShiftPages(PagesOf(last, m), k));
        { ShiftPagesAppend(AllPages(init), PagesOf(last, m), k); }
        AllPages(a) + ShiftPages(AllPages(b), k);
      }
    }
  }

  lemma {:induction false} RawBlocksConcat(a: seq<Response>, b: seq<Response>)
    ensures RawBlocks(a + b) == RawBlocks(a) + ShiftBlocks(RawBlocks(b), |AllPages(a)|, 0)
  {
    if b == [] {
      assert a + b == a;
    } else {
      var init, last := b[..|b| - 1], b[|b| - 1];
      var k, m := |AllPages(a)|, |AllPages(init)|;
      var tail := BlocksOf(last, m);
      calc {
        RawBlocks(a + b);
        { assert a + b == (a + init) + [last]; RawBlocksStep(a + init, last); }
        RawBlocks(a + init) + BlocksOf(last, |AllPages(a + init)|);
        { PagesConcat(a, init); DetailBlocksShift(OrElse(last.layoutDetails, []), m, k); }
        RawBlocks(a + init) + ShiftBlocks(tail, k, 0);
        { RawBlocksConcat(a, init); }
        (RawBlocks(a) + ShiftBlocks(RawBlocks(init), k, 0)) + ShiftBlocks(tail, k, 0);
        { AppendAssociates(RawBlocks(a), ShiftBlocks(RawBlocks(init), k, 0), ShiftBlocks(tail, k, 0)); }
        RawBlocks(a) + (ShiftBlocks(RawBlocks(init), k, 0) + ShiftBlocks(tail, k, 0));
        { ShiftBlocksAppend(RawBlocks(init), tail, k, 0); }
        RawBlocks(a) + ShiftBlocks(RawBlocks(b), k, 0);
      }
    }
  }

  lemma {:induction false} TokensConcat(a: seq<Response>, b: seq<Response>)
    ensures Tokens(a + b) == Tokens(a) + Tokens(b)
  {
    if b == [] {
      assert a + b == a;
    } else {
      assert (a + b)[..|a + b| - 1] == a + b[..|b| - 1];
      TokensConcat(a, b[..|b| - 1]);
    }
  }

  lemma {:induction false} MarkdownsConcat(a: seq<PageResult>, b: seq<PageResult>)
    ensures PageMarkdowns(a + b) == PageMarkdowns(a) + PageMarkdowns(b)
  {
    if b == [] {
      assert a + b == a;
    } else {
      assert (a + b)[..|a + b| - 1] == a + b[..|b| - 1];
      MarkdownsConcat(a, b[..|b| - 1]);
    }
  }

  lemma {:induction false} MarkdownsShift(pages: seq<PageResult>, shift: int)
    ensures PageMarkdowns(ShiftPages(pages, shift)) == PageMarkdowns(pages)
  {
    if pages != [] {
      var n := |pages| - 1;
      assert ShiftPages(pages, shift)[..n] == ShiftPages(pages[..n], shift);
      MarkdownsShift(pages[..n], shift);
    }
  }

  predicate AllTrimmed(pages: seq<PageResult>) {
    forall i :: 0 <= i < |pages| ==> Trimmed(pages[i].markdown)
  }

  predicate Solid(texts: seq<string>) {
    forall i :: 0 <= i < |texts| ==> texts[i] != "" && Trimmed(texts[i])
  }

  lemma {:induction false} MarkdownsTrimmed(rs: seq<Response>)
    ensures AllTrimmed(AllPages(rs))
  {
    if rs != [] { MarkdownsTrimmed(rs[..|rs| - 1]); }
  }

  lemma SolidAppend(texts: seq<string>, text: string)
    requires Solid(texts) && text != "" && Trimmed(text)
    ensures Solid(texts + [text])
  {
  }

  lemma {:induction false} MarkdownsSolid(pages: seq<PageResult>)
    requires AllTrimmed(pages)
    ensures Solid(PageMarkdowns(pages))
  {
    if pages != [] {
      var init, last := pages[..|pages| - 1], pages[|pages| - 1];
      MarkdownsSolid(init);
      if |last.markdown| > 0 {
        SolidAppend(PageMarkdowns(init), last.markdown);
      } else {
        assert PageMarkdowns(pages) == PageMarkdowns(init);
      }
    }
  }

  // The final `trim` never removes anything.
  lemma FinalTrimIsNoOp(rs: seq<Response>)
    ensures MapContent(rs).markdown == Joined(rs)
    ensures Joined(rs) == "" <==> PageMarkdowns(AllPages(rs)) == []
  {
    MarkdownsTrimmed(rs);
    MarkdownsSolid(AllPages(rs));
    JoinTrimmed(PageMarkdowns(AllPages(rs)), "\n\n");
  }

  lemma ReindexConcat(xs: seq<LayoutBlock>, ys: seq<LayoutBlock>, shift: int)
    ensures Reindexed(xs + ShiftBlocks(ys, shift, 0)) == Reindexed(xs) + ShiftBlocks(Reindexed(ys), shift, |xs|)
  {
  }

  // Two texts joined by a blank line, if both have content.
  function Paragraphs(a: string, b: string): string {
    if a == "" then b else if b == "" then a else a + "\n\n" + b
  }

  lemma BlocksLaw(a: seq<Response>, b: seq<Response>)
    ensures Reindexed(RawBlocks(a + b)) ==
      Reindexed(RawBlocks(a)) + ShiftBlocks(Reindexed(RawBlocks(b)), |AllPages(a)|, |RawBlocks(a)|)
  {
    RawBlocksConcat(a, b);
    ReindexConcat(RawBlocks(a), RawBlocks(b), |AllPages(a)|);
  }

  lemma MarkdownLaw(a: seq<Response>, b: seq<Response>)
    ensures var c := MapContent(a + b);
      c.markdown == c.plainText == Paragraphs(MapContent(a).markdown, MapContent(b).markdown)
  {
    FinalTrimIsNoOp(a);
    FinalTrimIsNoOp(b);
    FinalTrimIsNoOp(a + b);
    PagesConcat(a, b);
    var x, y := PageMarkdowns(AllPages(a)), PageMarkdowns(AllPages(b));
    MarkdownsConcat(AllPages(a), ShiftPages(AllPages(b), |AllPages(a)|));
    MarkdownsShift(AllPages(b), |AllPages(a)|);
    if x == [] {
      assert x + y == y;
    } else if y == [] {
      assert x + y == x;
    } else {
      JoinAppend(x, y, "\n\n");
    }
  }

  lemma PagesLaw(a: seq<Response>, b: seq<Response>)
    ensures var ca, cb, c := MapContent(a), MapContent(b), MapContent(a + b);
      c.pages == ca.pages + ShiftPages(cb.pages, ca.pageCount) && c.pageCount == ca.pageCount + cb.pageCount
  {
    PagesConcat(a, b);
  }

  lemma ContentBlocksLaw(a: seq<Response>, b: seq<Response>)
    ensures var ca, cb, c := MapContent(a), MapContent(b), MapContent(a + b);
      c.blocks == ca.blocks + ShiftBlocks(cb.blocks, ca.pageCount, |ca.blocks|)
  {
    BlocksLaw(a, b);
  }

  lemma TokensLaw(a: seq<Response>, b: seq<Response>)
    ensures var ca, cb, c := MapContent(a), MapContent(b), MapContent(a + b);
      c.tokensUsed == Some(ca.tokensUsed.value + cb.tokensUsed.value)
  {
    TokensConcat(a, b);
  }

  // Mapping chunks a then b is mapping each and appending: b's pages renumbered after a's, its
  // blocks re-indexed after a's, tokens added, markdown joined by a blank line.
  lemma ConcatenationLaw(a: seq<Response>, b: seq<Response>)
    ensures var ca, cb, c := MapContent(a), MapContent(b), MapContent(a + b);
      && c.markdown == c.plainText == Paragraphs(ca.markdown, cb.markdown)
      && c.pages == ca.pages + ShiftPages(cb.pages, ca.pageCount)
      && c.blocks == ca.blocks + ShiftBlocks(cb.blocks, ca.pageCount, |ca.blocks|)
      && c.pageCount == ca.pageCount + cb.pageCount
      && c.tokensUsed == Some(ca.tokensUsed.value + cb.tokensUsed.value)
  {
    PagesLaw(a, b);
    ContentBlocksLaw(a, b);
    TokensLaw(a, b);
    MarkdownLaw(a, b);
  }

  // ---- numbering ----

  predicate OnPages(blocks: seq<LayoutBlock>, after: int, last: int) {
    forall i :: 0 <= i < |blocks| ==> after < blocks[i].page <= last
  }

  lemma OnPagesAppend(xs: seq<LayoutBlock>, ys: seq<LayoutBlock>, after: int, mid: int, last: int)
    requires OnPages(xs, after, mid) && OnPages(ys, mid, last) && after <= mid <= last
    ensures OnPages(xs + ys, after, last)
  {
  }

  lemma {:induction false} DetailPagesWithin(details: seq<Option<seq<Detail>>>, offset: int)
    ensures OnPages(DetailBlocks(details, offset), offset, offset + |details|)
  {
    if details != [] {
      var n := |details|;
      DetailPagesWithin(details[..n - 1], offset);
      var earlier := DetailBlocks(details[..n - 1], offset);
      var last := PageBlocks(OrElse(details[n - 1], []), offset + n, |earlier|);
      OnPagesAppend(earlier, last, offset, offset + n - 1, offset + n);
    }
  }

  lemma {:induction false} RawPagesWithin(rs: seq<Response>)
    ensures OnPages(RawBlocks(rs), 0, |AllPages(rs)|)
  {
    if rs != [] {
      var init, last := rs[..|rs| - 1], rs[|rs| - 1];
      RawPagesWithin(init);
      var mid := |AllPages(init)|;
      DetailPagesWithin(OrElse(last.layoutDetails, []), mid);
      assert OnPages(BlocksOf(last, mid), mid, |AllPages(rs)|);
      OnPagesAppend(RawBlocks(init), BlocksOf(last, mid), 0, mid, |AllPages(rs)|);
    }
  }

  lemma {:induction false} PagesNumbered(rs: seq<Response>)
    ensures forall i :: 0 <= i < |AllPages(rs)| ==> AllPages(rs)[i].page == i + 1
    ensures |AllPages(rs)| >= |rs|
  {
    if rs != [] { PagesNumbered(rs[..|rs| - 1]); }
  }

  ghost function LowerIndex(): (LayoutBlock, LayoutBlock) -> bool {
    (a: LayoutBlock, b: LayoutBlock) => a.index < b.index
  }

  // Pages are exactly 1..n, block indices 0..m-1, and every block lies on one of the pages; so
  // signature images have distinct indices.
  lemma DocumentNumbering(rs: seq<Response>)
    ensures var c := MapContent(rs);
      && (forall i :: 0 <= i < |c.pages| ==> c.pages[i].page == i + 1)
      && (forall i :: 0 <= i < |c.blocks| ==> c.blocks[i].index == i && 1 <= c.blocks[i].page <= c.pageCount)
      && c.pageCount == |c.pages| >= |rs|
      && Signing.DistinctIndices(Filter(c.blocks, Signing.ImagesOnly()))
  {
    PagesNumbered(rs);
    RawPagesWithin(rs);
    var raw := RawBlocks(rs);
    assert forall i :: 0 <= i < |raw| ==> Reindexed(raw)[i].page == raw[i].page;
    FilterPairwise(MapContent(rs).blocks, Signing.ImagesOnly(), LowerIndex());
  }

  // ---- one response, part by part ----

  // Blocks of the first k pages of a response.
  ghost function CountBefore(details: seq<Option<seq<Detail>>>, k: nat): nat
    requires k <= |details|
  {
    if k == 0 then 0
    else CountBefore(details, k - 1) + if details[k - 1].Some? then |details[k - 1].value| else 0
  }

  lemma {:induction false} CountOfPrefix(init: seq<Option<seq<Detail>>>, last: Option<seq<Detail>>, k: nat)
    requires k <= |init|
    ensures CountBefore(init + [last], k) == CountBefore(init, k)
  {
    if k > 0 { CountOfPrefix(init, last, k - 1); }
  }

  // A region becomes a block that keeps its box and text, and its label if it is a known one.
  ghost predicate BlockOf(d: Detail, page: int, index: int, b: LayoutBlock) {
    && b.page == page && b.index == index && b.bbox == d.bbox
    && b.content == (if d.content.Some? then d.content.value else "")
    && (b.kind == TextLabel <==> d.kind == "text")
    && (b.kind == FormulaLabel <==> d.kind == "formula")
    && (b.kind == TableLabel <==> d.kind == "table")
  }

  ghost predicate HasDetail(details: seq<Option<seq<Detail>>>, k: nat, j: nat) {
    k < |details| && details[k].Some? && j < |details[k].value|
  }

  ghost predicate DetailMapped(details: seq<Option<seq<Detail>>>, offset: int, blocks: seq<LayoutBlock>, k: nat,
                               j: nat) {
    HasDetail(details, k, j) ==>
      var n := CountBefore(details, k) + j;
      n < |blocks| && BlockOf(details[k].value[j], offset + k + 1, n, blocks[n])
  }

  lemma DetailStep(init: seq<Option<seq<Detail>>>, last: Option<seq<Detail>>, offset: int, k: nat, j: nat)
    requires |DetailBlocks(init, offset)| == CountBefore(init, |init|)
    requires DetailMapped(init, offset, DetailBlocks(init, offset), k, j)
    ensures |DetailBlocks(init + [last], offset)| == CountBefore(init + [last], |init| + 1)
    ensures DetailMapped(init + [last], offset, DetailBlocks(init + [last], offset), k, j)
  {
    DetailBlocksSnoc(init, last, offset);
    CountOfPrefix(init, last, |init|);
    if k < |init| { CountOfPrefix(init, last, k); }
  }

  lemma {:induction false} DetailAt(details: seq<Option<seq<Detail>>>, offset: int, k: nat, j: nat)
    ensures |DetailBlocks(details, offset)| == CountBefore(details, |details|)
    ensures DetailMapped(details, offset, DetailBlocks(details, offset), k, j)
  {
    if details != [] {
      var init, last := details[..|details| - 1], details[|details| - 1];
      DetailAt(init, offset, k, j);
      DetailStep(init, last, offset, k, j);
      assert details == init + [last];
    }
  }

  lemma {:induction false} IndicesRun(details: seq<Option<seq<Detail>>>, offset: int)
    ensures forall i :: 0 <= i < |DetailBlocks(details, offset)| ==> DetailBlocks(details, offset)[i].index == i
  {
    if details != [] { IndicesRun(details[..|details| - 1], offset); }
  }

  lemma AlreadyIndexed(blocks: seq<LayoutBlock>)
    requires forall i :: 0 <= i < |blocks| ==> blocks[i].index == i
    ensures Reindexed(blocks) == blocks
  {
  }

  lemma PagesOfOne(r: Response)
    ensures AllPages([r]) == PagesOf(r, 0)
  {
    AllPagesStep([], r);
    assert [] + [r] == [r];
  }

  lemma BlocksOfOne(r: Response)
    ensures RawBlocks([r]) == DetailBlocks(OrElse(r.layoutDetails, []), 0)
  {
    RawBlocksStep([], r);
    assert [] + [r] == [r];
  }

  lemma {:induction false} FirstOnly(pages: seq<PageResult>, n: nat)
    requires 1 <= n <= |pages| && forall i :: 1 <= i < |pages| ==> pages[i].markdown == ""
    ensures PageMarkdowns(pages[..n]) == if pages[0].markdown == "" then [] else [pages[0].markdown]
  {
    assert pages[..n][..n - 1] == pages[..n - 1];
    if n > 1 {
      FirstOnly(pages, n - 1);
    } else {
      assert PageMarkdowns(pages[..0]) == [];
    }
  }

  lemma JoinedOfOne(r: Response)
    ensures Joined([r]) == PagesOf(r, 0)[0].markdown
  {
    var pages := PagesOf(r, 0);
    PagesOfOne(r);
    FirstOnly(pages, |pages|);
    assert pages[..|pages|] == pages;
  }

  lemma MarkdownOfOne(r: Response)
    ensures var c := MapContent([r]);
      c.markdown == c.plainText == Trim(if r.mdResults.Some? then r.mdResults.value else "")
  {
    FinalTrimIsNoOp([r]);
    JoinedOfOne(r);
  }

  lemma TokensOfOne(r: Response)
    ensures Tokens([r]) == if r.totalTokens.Some? then r.totalTokens.value else 0
  {
    assert Tokens([r][..0]) == 0;
  }

  // As many pages as the response lists sizes or regions for, and at least one; its markdown is on
  // the first.
  ghost predicate PagesAsGiven(r: Response, pages: seq<PageResult>) {
    var sizes := if r.pageSizes.Some? then r.pageSizes.value else [];
    var details := if r.layoutDetails.Some? then |r.layoutDetails.value| else 0;
    && (|pages| == 1 || |pages| == |sizes| || |pages| == details)
    && |pages| >= 1 && |pages| >= |sizes| && |pages| >= details
    && forall i :: 0 <= i < |pages| ==>
         && pages[i].page == i + 1
         && pages[i].size == (if i < |sizes| then Some(sizes[i]) else None)
         && pages[i].markdown == (if i == 0 then Trim(if r.mdResults.Some? then r.mdResults.value else "") else "")
  }

  // A block for every region, page by page.
  ghost predicate BlocksAsGiven(details: seq<Option<seq<Detail>>>, blocks: seq<LayoutBlock>) {
    && |blocks| == CountBefore(details, |details|)
    && forall k: nat, j: nat :: DetailMapped(details, 0, blocks, k, j)
  }

  lemma GivenPages(r: Response)
    ensures PagesAsGiven(r, PagesOf(r, 0))
  {
  }

  lemma DetailsAsGiven(details: seq<Option<seq<Detail>>>)
    ensures BlocksAsGiven(details, DetailBlocks(details, 0))
  {
    DetailAt(details, 0, 0, 0);
    forall k: nat, j: nat { DetailAt(details, 0, k, j); }
  }

  lemma OneBlocksAsGiven(r: Response)
    ensures MapContent([r]).blocks == DetailBlocks(if r.layoutDetails.Some? then r.layoutDetails.value else [], 0)
  {
    BlocksOfOne(r);
    IndicesRun(OrElse(r.layoutDetails, []), 0);
    AlreadyIndexed(RawBlocks([r]));
  }

  lemma PagesGiven(r: Response)
    ensures PagesAsGiven(r, MapContent([r]).pages) && MapContent([r]).pageCount == |MapContent([r]).pages|
  {
    PagesOfOne(r);
    GivenPages(r);
  }

  lemma BlocksGiven(r: Response)
    ensures BlocksAsGiven(if r.layoutDetails.Some? then r.layoutDetails.value else [], MapContent([r]).blocks)
  {
    OneBlocksAsGiven(r);
    DetailsAsGiven(if r.layoutDetails.Some? then r.layoutDetails.value else []);
  }

  lemma TokensGiven(r: Response)
    ensures MapContent([r]).tokensUsed == if r.totalTokens.Some? then r.totalTokens else Some(0)
  {
    TokensOfOne(r);
  }

  // The document of one response; by the law of concatenation it says what any document holds.
  lemma OneResponse(r: Response)
    ensures PagesAsGiven(r, MapContent([r]).pages) && MapContent([r]).pageCount == |MapContent([r]).pages|
    ensures var c := MapContent([r]);
      c.markdown == c.plainText == Trim(if r.mdResults.Some? then r.mdResults.value else "")
    ensures BlocksAsGiven(if r.layoutDetails.Some? then r.layoutDetails.value else [], MapContent([r]).blocks)
    ensures MapContent([r]).tokensUsed == if r.totalTokens.Some? then r.totalTokens else Some(0)
  {
    PagesGiven(r);
    MarkdownOfOne(r);
    BlocksGiven(r);
    TokensGiven(r);
  }
}
