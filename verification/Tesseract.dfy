// Word boxes to layout blocks (src/providers/tesseract.ts).
module Tesseract {
  import opened Collections
  import opened Documents
  import ReadingOrder

  // A word and its box in pixels.
  datatype Word = Word(x0: int, y0: int, x1: int, y1: int, text: string)

  datatype PageSize = PageSize(width: int, height: int)

  // The page size is inferred: the least size, at least 1 by 1, that reaches every box end.
  ghost predicate IsPageSize(words: seq<Word>, d: PageSize) {
    && d.width >= 1 && d.height >= 1
    && (forall w :: w in words ==> w.x1 <= d.width && w.y1 <= d.height)
    && (d.width > 1 ==> exists w :: w in words && w.x1 == d.width)
    && (d.height > 1 ==> exists w :: w in words && w.y1 == d.height)
  }

  method PageDimensions(words: seq<Word>) returns (d: PageSize)
    ensures IsPageSize(words, d)
  {
    var width, height := 1, 1;
    for i := 0 to |words|
      invariant IsPageSize(words[..i], PageSize(width, height))
    {
      var w := words[i];
      assert words[..i + 1] == words[..i] + [w];
      if w.x1 > width { width := w.x1; }
      if w.y1 > height { height := w.y1; }
    }
    assert words[..|words|] == words;
    d := PageSize(width, height);
  }

  lemma PageSizeUnique(words: seq<Word>, d: PageSize, e: PageSize)
    requires IsPageSize(words, d) && IsPageSize(words, e)
    ensures d == e
  {
    if d.width > 1 { var w :| w in words && w.x1 == d.width; }
    if e.width > 1 { var w :| w in words && w.x1 == e.width; }
    if d.height > 1 { var w :| w in words && w.y1 == d.height; }
    if e.height > 1 { var w :| w in words && w.y1 == e.height; }
  }

  function NormalizeBbox(w: Word, d: PageSize): Bbox
    requires d.width >= 1 && d.height >= 1
  {
    Bbox(w.x0 as real / d.width as real, w.y0 as real / d.height as real,
         w.x1 as real / d.width as real, w.y1 as real / d.height as real)
  }

  function WordBlock(w: Word, d: PageSize, page: int, index: int): LayoutBlock
    requires d.width >= 1 && d.height >= 1
  {
    LayoutBlock(index, page, TextLabel, Some(NormalizeBbox(w, d)), w.text)
  }

  method PageBlocks(words: seq<Word>, page: int, firstIndex: int) returns (blocks: seq<LayoutBlock>)
    ensures |blocks| == |words|
    ensures forall d :: IsPageSize(words, d) ==>
      forall i :: 0 <= i < |words| ==> blocks[i] == WordBlock(words[i], d, page, firstIndex + i)
  {
    var dims := PageDimensions(words);
    blocks := [];
    for i := 0 to |words|
      invariant |blocks| == i
      invariant forall j :: 0 <= j < i ==> blocks[j] == WordBlock(words[j], dims, page, firstIndex + j)
    {
      blocks := blocks + [WordBlock(words[i], dims, page, firstIndex + i)];
    }
    forall d | IsPageSize(words, d) ensures d == dims { PageSizeUnique(words, d, dims); }
  }

  // A word's block bears its text and, scaled by the page size, its box.
  lemma WordPlaced(w: Word, d: PageSize, page: int, index: int)
    requires d.width >= 1 && d.height >= 1
    ensures var b := WordBlock(w, d, page, index);
      && b.index == index && b.page == page && b.kind == TextLabel && b.content == w.text && b.bbox.Some?
      && b.bbox.value.x0 * d.width as real == w.x0 as real && b.bbox.value.x1 * d.width as real == w.x1 as real
      && b.bbox.value.y0 * d.height as real == w.y0 as real && b.bbox.value.y1 * d.height as real == w.y1 as real
  {
  }

  lemma RatioOrdered(a: int, b: int, n: int)
    requires 0 <= a <= b <= n && n >= 1
    ensures 0.0 <= a as real / n as real <= b as real / n as real <= 1.0
    ensures a < b ==> a as real / n as real < 1.0
  {
  }

  // Well-formed word boxes yield blocks that column-major reading order can rely on.
  lemma BlocksReadable(words: seq<Word>, d: PageSize, blocks: seq<LayoutBlock>, page: int, firstIndex: int)
    requires IsPageSize(words, d) && |blocks| == |words|
    requires forall i :: 0 <= i < |words| ==> blocks[i] == WordBlock(words[i], d, page, firstIndex + i)
    requires forall w :: w in words ==> 0 <= w.x0 <= w.x1 && 0 <= w.y0 < w.y1
    ensures ReadingOrder.NormalizedY(blocks)
    ensures ReadingOrder.AllPlaced(blocks) && ReadingOrder.OrderedX(blocks)
    ensures forall i :: 0 <= i < |blocks| ==> blocks[i].bbox.value.x0 >= 0.0 && blocks[i].bbox.value.x1 <= 1.0
  {
    forall i | 0 <= i < |words|
      ensures blocks[i].bbox.Some? && var b := blocks[i].bbox.value;
        0.0 <= b.x0 <= b.x1 <= 1.0 && 0.0 <= b.y0 < 1.0
    {
      assert words[i] in words;
      RatioOrdered(words[i].x0, words[i].x1, d.width);
      RatioOrdered(words[i].y0, words[i].y1, d.height);
    }
  }
}
