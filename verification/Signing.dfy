// Signature slots (src/functions/signing/execute.ts): pairing cue text with signature
// images and deciding whether a document is fully executed.
module Signing {
  import opened Collections
  import opened Documents
  import opened Text

  const CORRELATION_THRESHOLD := 0.25
  const CONTEXT_LIMIT := 800

  // Library functions: `toLowerCase` and `Math.hypot`.
  datatype Library = Library(lower: string -> string, hypot: (real, real) -> real)

  datatype Judgment = Judgment(signed: bool, hasSeal: bool, signatoryName: Option<string>, signedDate: Option<string>)

  const NO_MARK := Judgment(false, false, None, None)

  datatype Slot = Slot(cue: string, page: int, bbox: Bbox, image: Option<LayoutBlock>, context: string)

  datatype SignatureBlock = SignatureBlock(
    cue: string,
    page: int,
    bbox: Bbox,
    signed: bool,
    hasSeal: bool,
    signatoryName: Option<string>,
    signedDate: Option<string>)

  datatype SigningResult = SigningResult(
    fullyExecuted: bool,
    blocks: seq<SignatureBlock>,
    unsignedBlocks: seq<string>)

  // ---- cues ----

  predicate OccursAt(haystack: string, needle: string, i: nat) {
    i + |needle| <= |haystack| && haystack[i..i + |needle|] == needle
  }

  predicate Contains(haystack: string, needle: string) {
    exists i: nat :: i <= |haystack| && OccursAt(haystack, needle, i)
  }

  lemma ContainsIff(haystack: string, needle: string)
    ensures Contains(haystack, needle) <==> exists before, after :: haystack == before + needle + after
  {
    if i: nat :| i <= |haystack| && OccursAt(haystack, needle, i) {
      assert haystack == haystack[..i] + needle + haystack[i + |needle|..];
    }
    forall before, after | haystack == before + needle + after ensures Contains(haystack, needle) {
      assert OccursAt(haystack, needle, |before|);
    }
  }

  // First cue found in the content, ignoring case.
  function MatchCue(content: string, cues: seq<string>, lib: Library): Option<string> {
    if cues == [] then None
    else if Contains(lib.lower(content), lib.lower(cues[0])) then Some(cues[0])
    else MatchCue(content, cues[1..], lib)
  }

  ghost predicate FirstCueAt(content: string, cues: seq<string>, lib: Library, k: nat) {
    && k < |cues|
    && Contains(lib.lower(content), lib.lower(cues[k]))
    && forall j :: 0 <= j < k ==> !Contains(lib.lower(content), lib.lower(cues[j]))
  }

  // The cue reported is the first in the caller's order that occurs.
  lemma {:induction false} MatchCueFirst(content: string, cues: seq<string>, lib: Library)
    ensures var found := MatchCue(content, cues, lib);
      && (found.None? <==> forall i :: 0 <= i < |cues| ==> !Contains(lib.lower(content), lib.lower(cues[i])))
      && (found.Some? ==> exists k: nat :: FirstCueAt(content, cues, lib, k) && cues[k] == found.value)
  {
    if cues != [] {
      var rest := cues[1..];
      MatchCueFirst(content, rest, lib);
      assert forall i :: 1 <= i < |cues| ==> cues[i] == rest[i - 1];
      if Contains(lib.lower(content), lib.lower(cues[0])) {
        assert FirstCueAt(content, cues, lib, 0);
      } else if MatchCue(content, rest, lib).Some? {
        var k: nat :| FirstCueAt(content, rest, lib, k) && rest[k] == MatchCue(content, rest, lib).value;
        assert FirstCueAt(content, cues, lib, k + 1);
      } else {
        assert forall i :: 0 <= i < |rest| ==> !Contains(lib.lower(content), lib.lower(rest[i]));
      }
    }
  }

  // The label of a cue block. An empty cue is falsy in the source: a block it matches is no cue.
  function CueOf(b: LayoutBlock, cues: seq<string>, lib: Library): Option<string> {
    if b.kind.ImageLabel? || b.bbox.None? then None
    else
      var cue := MatchCue(b.content, cues, lib);
      if cue == Some("") then None else cue
  }

  lemma FirstCueOnce(content: string, cues: seq<string>, lib: Library, k: nat, m: nat)
    requires FirstCueAt(content, cues, lib, k) && FirstCueAt(content, cues, lib, m)
    ensures k == m
  {
  }

  // A block is a cue block exactly if it is placed, is no image and the first cue to occur in it is
  // not the empty one; that cue is its label.
  lemma CueIff(b: LayoutBlock, cues: seq<string>, lib: Library)
    ensures CueOf(b, cues, lib).Some? <==>
      && !b.kind.ImageLabel? && b.bbox.Some?
      && exists k: nat :: FirstCueAt(b.content, cues, lib, k) && cues[k] != ""
    ensures CueOf(b, cues, lib).Some? ==>
      exists k: nat :: FirstCueAt(b.content, cues, lib, k) && cues[k] == CueOf(b, cues, lib).value
  {
    MatchCueFirst(b.content, cues, lib);
    forall k: nat, m: nat | FirstCueAt(b.content, cues, lib, k) && FirstCueAt(b.content, cues, lib, m) ensures k == m {
      FirstCueOnce(b.content, cues, lib, k, m);
    }
  }

  // An empty cue occurs everywhere, so given first it hides every other.
  lemma EmptyCueHides(b: LayoutBlock, cues: seq<string>, lib: Library)
    requires cues != [] && cues[0] == "" && lib.lower("") == ""
    ensures CueOf(b, cues, lib).None?
  {
    assert OccursAt(lib.lower(b.content), "", 0);
  }

  // ---- geometry ----

  function CenterX(b: Bbox): real { (b.x0 + b.x1) / 2.0 }

  function CenterY(b: Bbox): real { (b.y0 + b.y1) / 2.0 }

  function Distance(lib: Library, a: Bbox, b: Bbox): real {
    lib.hypot(CenterX(a) - CenterX(b), CenterY(a) - CenterY(b))
  }

  predicate IsImage(b: LayoutBlock) {
    b.kind.ImageLabel? && b.bbox.Some?
  }

  function ImagesOnly(): LayoutBlock -> bool { (b: LayoutBlock) => IsImage(b) }

  predicate Correlated(lib: Library, bbox: Bbox, page: int, image: LayoutBlock) {
    && IsImage(image)
    && image.page == page
    && Distance(lib, bbox, image.bbox.value) <= CORRELATION_THRESHOLD
  }

  predicate Closer(lib: Library, bbox: Bbox, a: LayoutBlock, b: LayoutBlock)
    requires IsImage(a) && IsImage(b)
  {
    Distance(lib, bbox, a.bbox.value) < Distance(lib, bbox, b.bbox.value)
  }

  // How far apart the middles of two boxes are.
  ghost function Apart(lib: Library, a: Bbox, b: Bbox): real {
    lib.hypot((a.x0 + a.x1) / 2.0 - (b.x0 + b.x1) / 2.0, (a.y0 + a.y1) / 2.0 - (b.y0 + b.y1) / 2.0)
  }

  // An image on the same page, no further than a quarter of the page.
  ghost predicate Near(lib: Library, bbox: Bbox, page: int, image: LayoutBlock) {
    image.kind == ImageLabel && image.bbox.Some? && image.page == page && Apart(lib, bbox, image.bbox.value) <= 0.25
  }

  // The k-th block is an image near the box; none is nearer, and none as near comes later.
  ghost predicate IsNearest(lib: Library, bbox: Bbox, page: int, blocks: seq<LayoutBlock>, k: nat) {
    && k < |blocks|
    && Near(lib, bbox, page, blocks[k])
    && (forall i :: 0 <= i < |blocks| && Near(lib, bbox, page, blocks[i]) ==>
          Apart(lib, bbox, blocks[k].bbox.value) <= Apart(lib, bbox, blocks[i].bbox.value))
    && (forall i :: k < i < |blocks| && Near(lib, bbox, page, blocks[i]) ==>
          Apart(lib, bbox, blocks[k].bbox.value) < Apart(lib, bbox, blocks[i].bbox.value))
  }

  // Scanning left to right, a later image wins a tie.
  function Nearest(lib: Library, bbox: Bbox, page: int, images: seq<LayoutBlock>): Option<LayoutBlock> {
    if images == [] then None
    else
      var earlier := Nearest(lib, bbox, page, images[..|images| - 1]);
      var last := images[|images| - 1];
      if !Correlated(lib, bbox, page, last) then earlier
      else if earlier.Some? && IsImage(earlier.value) && Closer(lib, bbox, earlier.value, last) then earlier
      else Some(last)
  }

  lemma CorrelatedIff(lib: Library, bbox: Bbox, page: int, image: LayoutBlock)
    ensures Correlated(lib, bbox, page, image) <==> Near(lib, bbox, page, image)
    ensures image.bbox.Some? ==> Distance(lib, bbox, image.bbox.value) == Apart(lib, bbox, image.bbox.value)
  {
  }

  lemma NearestExtends(lib: Library, bbox: Bbox, page: int, init: seq<LayoutBlock>, last: LayoutBlock, k: nat)
    requires IsNearest(lib, bbox, page, init, k)
    requires Near(lib, bbox, page, last) ==>
      Apart(lib, bbox, init[k].bbox.value) < Apart(lib, bbox, last.bbox.value)
    ensures IsNearest(lib, bbox, page, init + [last], k)
  {
    var blocks := init + [last];
    assert forall i :: 0 <= i < |init| ==> blocks[i] == init[i];
  }

  lemma LastIsNearest(lib: Library, bbox: Bbox, page: int, init: seq<LayoutBlock>, last: LayoutBlock)
    requires Near(lib, bbox, page, last)
    requires forall i :: 0 <= i < |init| && Near(lib, bbox, page, init[i]) ==>
      Apart(lib, bbox, last.bbox.value) <= Apart(lib, bbox, init[i].bbox.value)
    ensures IsNearest(lib, bbox, page, init + [last], |init|)
  {
    var blocks := init + [last];
    assert forall i :: 0 <= i < |init| ==> blocks[i] == init[i];
  }

  lemma {:induction false} NearestCorrect(lib: Library, bbox: Bbox, page: int, blocks: seq<LayoutBlock>)
    ensures var found := Nearest(lib, bbox, page, blocks);
      && (found.None? <==> forall i :: 0 <= i < |blocks| ==> !Near(lib, bbox, page, blocks[i]))
      && (found.Some? ==> exists k: nat :: IsNearest(lib, bbox, page, blocks, k) && blocks[k] == found.value)
  {
    if blocks != [] {
      var init, last := blocks[..|blocks| - 1], blocks[|blocks| - 1];
      assert blocks == init + [last];
      NearestCorrect(lib, bbox, page, init);
      CorrelatedIff(lib, bbox, page, last);
      var earlier := Nearest(lib, bbox, page, init);
      if earlier.None? {
        if Near(lib, bbox, page, last) { LastIsNearest(lib, bbox, page, init, last); }
      } else {
        var k: nat :| IsNearest(lib, bbox, page, init, k) && init[k] == earlier.value;
        assert Near(lib, bbox, page, blocks[k]);
        CorrelatedIff(lib, bbox, page, init[k]);
        if !Near(lib, bbox, page, last) || Closer(lib, bbox, init[k], last) {
          NearestExtends(lib, bbox, page, init, last, k);
        } else {
          LastIsNearest(lib, bbox, page, init, last);
        }
      }
    }
  }

  lemma NearestSkips(lib: Library, bbox: Bbox, page: int, init: seq<LayoutBlock>, last: LayoutBlock)
    requires !IsImage(last)
    ensures Nearest(lib, bbox, page, init + [last]) == Nearest(lib, bbox, page, init)
  {
    assert (init + [last])[..|init|] == init;
  }

  lemma NearestSameLast(lib: Library, bbox: Bbox, page: int, xs: seq<LayoutBlock>, ys: seq<LayoutBlock>,
                        last: LayoutBlock)
    requires Nearest(lib, bbox, page, xs) == Nearest(lib, bbox, page, ys)
    ensures Nearest(lib, bbox, page, xs + [last]) == Nearest(lib, bbox, page, ys + [last])
  {
    assert (xs + [last])[..|xs|] == xs && (ys + [last])[..|ys|] == ys;
  }

  lemma ImagesSnoc(init: seq<LayoutBlock>, last: LayoutBlock)
    ensures Filter(init + [last], ImagesOnly()) ==
      if IsImage(last) then Filter(init, ImagesOnly()) + [last] else Filter(init, ImagesOnly())
  {
    FilterAppend(init, [last], ImagesOnly());
  }

  lemma NearestImagesStep(lib: Library, bbox: Bbox, page: int, init: seq<LayoutBlock>, last: LayoutBlock)
    requires Nearest(lib, bbox, page, Filter(init, ImagesOnly())) == Nearest(lib, bbox, page, init)
    ensures Nearest(lib, bbox, page, Filter(init + [last], ImagesOnly())) == Nearest(lib, bbox, page, init + [last])
  {
    ImagesSnoc(init, last);
    if IsImage(last) {
      NearestSameLast(lib, bbox, page, Filter(init, ImagesOnly()), init, last);
    } else {
      NearestSkips(lib, bbox, page, init, last);
    }
  }

  // Only images count, so nothing is lost by looking among them alone.
  lemma {:induction false} NearestAmongImages(lib: Library, bbox: Bbox, page: int, blocks: seq<LayoutBlock>)
    ensures Nearest(lib, bbox, page, Filter(blocks, ImagesOnly())) == Nearest(lib, bbox, page, blocks)
  {
    if blocks != [] {
      var init, last := blocks[..|blocks| - 1], blocks[|blocks| - 1];
      NearestAmongImages(lib, bbox, page, init);
      NearestImagesStep(lib, bbox, page, init, last);
      assert blocks == init + [last];
    }
  }

  // The source's loop over the best distance so far.
  method NearestImage(lib: Library, bbox: Bbox, page: int, images: seq<LayoutBlock>) returns (best: Option<LayoutBlock>)
    requires forall im :: im in images ==> IsImage(im)
    ensures best == Nearest(lib, bbox, page, images)
  {
    best := None;
    var bestDist := CORRELATION_THRESHOLD;
    for i := 0 to |images|
      invariant best == Nearest(lib, bbox, page, images[..i])
      invariant best.Some? ==> IsImage(best.value) && bestDist == Distance(lib, bbox, best.value.bbox.value)
      invariant best.None? ==> bestDist == CORRELATION_THRESHOLD
      invariant bestDist <= CORRELATION_THRESHOLD
    {
      assert images[..i + 1][..i] == images[..i];
      var image := images[i];
      assert image in images;
      if image.page == page {
        var d := Distance(lib, bbox, image.bbox.value);
        if d <= bestDist {
          bestDist, best := d, Some(image);
        }
      }
    }
    assert images[..|images|] == images;
  }

  // ---- slots ----

  datatype Slots = Slots(matched: seq<Slot>, orphans: seq<Slot>)

  function NearestTo(lib: Library, images: seq<LayoutBlock>, b: LayoutBlock): Option<LayoutBlock> {
    if b.bbox.None? then None else Nearest(lib, b.bbox.value, b.page, images)
  }

  predicate HasIndex(s: Slot, index: int) {
    s.image.Some? && s.image.value.index == index
  }

  // Position of the slot already opened for an image index.
  function Position(matched: seq<Slot>, index: int): (k: Option<nat>)
    ensures k.Some? ==> k.value < |matched| && HasIndex(matched[k.value], index)
    ensures k.None? ==> forall i :: 0 <= i < |matched| ==> !HasIndex(matched[i], index)
  {
    if matched == [] then None
    else if HasIndex(matched[|matched| - 1], index) then Some(|matched| - 1)
    else Position(matched[..|matched| - 1], index)
  }

  function Clip(s: string): string {
    if |s| <= CONTEXT_LIMIT then s else s[..CONTEXT_LIMIT]
  }

  function Extended(s: Slot, content: string): Slot {
    s.(context := Clip(Trim(s.context + "\n" + content)))
  }

  function MatchedSlot(cue: string, b: LayoutBlock, image: LayoutBlock): Slot
    requires image.bbox.Some?
  {
    Slot(cue, b.page, image.bbox.value, Some(image), Trim(b.content))
  }

  function OrphanSlot(cue: string, b: LayoutBlock): Slot
    requires b.bbox.Some?
  {
    Slot(cue, b.page, b.bbox.value, None, Trim(b.content))
  }

  function AddBlock(lib: Library, images: seq<LayoutBlock>, cues: seq<string>, found: Slots, b: LayoutBlock): Slots {
    var cue := CueOf(b, cues, lib);
    if cue.None? then found
    else
      match NearestTo(lib, images, b)
      case None => found.(orphans := found.orphans + [OrphanSlot(cue.value, b)])
      case Some(image) =>
        match Position(found.matched, image.index)
        case Some(k) => found.(matched := found.matched[k := Extended(found.matched[k], b.content)])
        case None =>
          if image.bbox.Some? then found.(matched := found.matched + [MatchedSlot(cue.value, b, image)]) else found
  }

  function Correlate(lib: Library, images: seq<LayoutBlock>, cues: seq<string>, blocks: seq<LayoutBlock>): Slots {
    if blocks == [] then Slots([], [])
    else
      AddBlock(lib, images, cues, Correlate(lib, images, cues, blocks[..|blocks| - 1]), blocks[|blocks| - 1])
  }

  function SlotsOf(lib: Library, blocks: seq<LayoutBlock>, cues: seq<string>): seq<Slot> {
    var found := Correlate(lib, Filter(blocks, ImagesOnly()), cues, blocks);
    found.matched + found.orphans
  }

  lemma NearestIsImage(lib: Library, bbox: Bbox, page: int, images: seq<LayoutBlock>)
    ensures var found := Nearest(lib, bbox, page, images);
      found.Some? ==> found.value in images && Correlated(lib, bbox, page, found.value)
  {
    NearestCorrect(lib, bbox, page, images);
  }

  lemma {:induction false} PositionStable(matched: seq<Slot>, k: nat, s: Slot, index: int)
    requires k < |matched| && s.image == matched[k].image
    ensures Position(matched[k := s], index) == Position(matched, index)
  {
    var n := |matched| - 1;
    if k < n {
      assert matched[k := s][..n] == matched[..n][k := s];
      PositionStable(matched[..n], k, s, index);
    } else {
      assert matched[k := s][..n] == matched[..n];
    }
  }

  method CorrelateSlots(lib: Library, allBlocks: seq<LayoutBlock>, cues: seq<string>) returns (slots: seq<Slot>)
    ensures slots == SlotsOf(lib, allBlocks, cues)
  {
    var images := Filter(allBlocks, ImagesOnly());
    forall im | im in images ensures IsImage(im) { FilterMember(allBlocks, ImagesOnly(), im); }
    var matched: seq<Slot>, orphans: seq<Slot> := [], [];
    var byImage: map<int, nat> := map[];
    for i := 0 to |allBlocks|
      invariant Slots(matched, orphans) == Correlate(lib, images, cues, allBlocks[..i])
      invariant forall index :: index in byImage ==> Position(matched, index) == Some(byImage[index])
      invariant forall index :: index !in byImage ==> Position(matched, index) == None
    {
      assert allBlocks[..i + 1][..i] == allBlocks[..i];
      var block := allBlocks[i];
      if block.kind.ImageLabel? || block.bbox.None? { continue; }
      var cue := MatchCue(block.content, cues, lib);
      if cue.None? || cue.value == "" { continue; }
      var image := NearestImage(lib, block.bbox.value, block.page, images);
      if image.Some? {
        NearestIsImage(lib, block.bbox.value, block.page, images);
        var index := image.value.index;
        if index in byImage {
          ghost var before := matched;
          var k := byImage[index];
          matched := matched[k := Extended(matched[k], block.content)];
          forall j { PositionStable(before, k, matched[k], j); }
        } else {
          ghost var before := matched;
          matched := matched + [MatchedSlot(cue.value, block, image.value)];
          byImage := byImage[index := |matched| - 1];
          assert matched[..|matched| - 1] == before;
        }
      } else {
        orphans := orphans + [OrphanSlot(cue.value, block)];
      }
    }
    assert allBlocks[..|allBlocks|] == allBlocks;
    slots := matched + orphans;
  }

  // ---- what the slots account for ----

  predicate IsCue(lib: Library, cues: seq<string>, b: LayoutBlock) {
    CueOf(b, cues, lib).Some?
  }

  function Uncorrelated(lib: Library, images: seq<LayoutBlock>, cues: seq<string>): LayoutBlock -> bool {
    (b: LayoutBlock) => IsCue(lib, cues, b) && NearestTo(lib, images, b).None?
  }

  ghost predicate DistinctIndices(images: seq<LayoutBlock>) {
    forall i, j :: 0 <= i < j < |images| ==> images[i].index != images[j].index
  }

  // The cue blocks whose nearest image is this one.
  function PointsAt(lib: Library, images: seq<LayoutBlock>, cues: seq<string>, image: LayoutBlock)
    : LayoutBlock -> bool
  {
    (b: LayoutBlock) => IsCue(lib, cues, b) && NearestTo(lib, images, b) == Some(image)
  }

  // The first block's trimmed text; each further one is added on a line of its own, and the whole
  // trimmed and cut to 800 characters.
  ghost function ContextOf(blocks: seq<LayoutBlock>): string
    requires blocks != []
  {
    if |blocks| == 1 then Trim(blocks[0].content)
    else
      var joined := Trim(ContextOf(blocks[..|blocks| - 1]) + "\n" + blocks[|blocks| - 1].content);
      if |joined| <= 800 then joined else joined[..800]
  }

  // A slot is labelled and placed by its image and the first cue pointing at it, whatever other
  // slots there are; all its cues make up the context.
  ghost predicate SlotFor(lib: Library, cues: seq<string>, pointing: seq<LayoutBlock>, s: Slot) {
    && pointing != []
    && CueOf(pointing[0], cues, lib) == Some(s.cue)
    && s.page == pointing[0].page
    && s.image.Some? && s.image.value.bbox == Some(s.bbox)
    && s.context == ContextOf(pointing)
  }

  ghost predicate Grouped(lib: Library, images: seq<LayoutBlock>, cues: seq<string>, blocks: seq<LayoutBlock>,
                          s: Slot) {
    && s.image.Some? && s.image.value in images
    && SlotFor(lib, cues, Filter(blocks, PointsAt(lib, images, cues, s.image.value)), s)
  }

  ghost predicate AllGrouped(lib: Library, images: seq<LayoutBlock>, cues: seq<string>, blocks: seq<LayoutBlock>,
                             matched: seq<Slot>) {
    forall k :: 0 <= k < |matched| ==> Grouped(lib, images, cues, blocks, matched[k])
  }

  ghost predicate PointsHere(lib: Library, images: seq<LayoutBlock>, cues: seq<string>, b: LayoutBlock, s: Slot) {
    IsCue(lib, cues, b) && NearestTo(lib, images, b).Some? && NearestTo(lib, images, b) == s.image
  }

  ghost predicate DistinctImages(matched: seq<Slot>) {
    forall i, j :: 0 <= i < j < |matched| ==> matched[i].image != matched[j].image
  }

  predicate HasSlot(matched: seq<Slot>, image: Option<LayoutBlock>) {
    exists k :: 0 <= k < |matched| && matched[k].image == image
  }

  ghost predicate CoverCues(lib: Library, images: seq<LayoutBlock>, cues: seq<string>, blocks: seq<LayoutBlock>,
                            matched: seq<Slot>) {
    forall b :: b in blocks && IsCue(lib, cues, b) && NearestTo(lib, images, b).Some? ==>
      HasSlot(matched, NearestTo(lib, images, b))
  }

  // One slot per correlated image, whichever cues point at it.
  ghost predicate MatchedAccount(lib: Library, images: seq<LayoutBlock>, cues: seq<string>, blocks: seq<LayoutBlock>,
                                 matched: seq<Slot>) {
    && AllGrouped(lib, images, cues, blocks, matched)
    && DistinctImages(matched)
    && CoverCues(lib, images, cues, blocks, matched)
  }

  // One orphan slot per cue without an image, in document order.
  ghost predicate OrphanAccount(lib: Library, images: seq<LayoutBlock>, cues: seq<string>, blocks: seq<LayoutBlock>,
                                orphans: seq<Slot>) {
    var lonely := Filter(blocks, Uncorrelated(lib, images, cues));
    && |orphans| == |lonely|
    && forall i :: 0 <= i < |lonely| ==>
         var b := lonely[i];
         b.bbox.Some? && CueOf(b, cues, lib) == Some(orphans[i].cue)
         && orphans[i] == Slot(orphans[i].cue, b.page, b.bbox.value, None, Trim(b.content))
  }

  lemma SameIndexSameImage(images: seq<LayoutBlock>, a: LayoutBlock, b: LayoutBlock)
    requires DistinctIndices(images) && a in images && b in images && a.index == b.index
    ensures a == b
  {
  }

  lemma NoPositionNoSlot(matched: seq<Slot>, image: LayoutBlock)
    requires Position(matched, image.index).None?
    ensures !HasSlot(matched, Some(image))
  {
    forall k | 0 <= k < |matched| ensures matched[k].image != Some(image) {
      assert !HasIndex(matched[k], image.index);
    }
  }

  // What one block does to the matched slots: nothing, a longer context, or a new slot at the end.
  lemma MatchedAfter(lib: Library, images: seq<LayoutBlock>, cues: seq<string>, found: Slots, b: LayoutBlock)
    requires DistinctIndices(images)
    requires forall k :: 0 <= k < |found.matched| ==>
      found.matched[k].image.Some? && found.matched[k].image.value in images
    ensures var nearest, after := NearestTo(lib, images, b), AddBlock(lib, images, cues, found, b).matched;
      if !IsCue(lib, cues, b) || nearest.None? then after == found.matched
      else
        && nearest.value in images && nearest.value.bbox.Some?
        && if HasSlot(found.matched, nearest)
           then exists k: nat :: k < |found.matched| && found.matched[k].image == nearest
                  && after == found.matched[k := Extended(found.matched[k], b.content)]
           else after == found.matched + [MatchedSlot(CueOf(b, cues, lib).value, b, nearest.value)]
  {
    var nearest := NearestTo(lib, images, b);
    if IsCue(lib, cues, b) && nearest.Some? {
      NearestIsImage(lib, b.bbox.value, b.page, images);
      var k := Position(found.matched, nearest.value.index);
      if k.Some? {
        SameIndexSameImage(images, found.matched[k.value].image.value, nearest.value);
      } else {
        NoPositionNoSlot(found.matched, nearest.value);
      }
    }
  }

  // A further block joins a slot's group exactly if it points at the slot's image.
  lemma GroupGrows(lib: Library, images: seq<LayoutBlock>, cues: seq<string>, blocks: seq<LayoutBlock>,
                   b: LayoutBlock, image: LayoutBlock)
    ensures var here := PointsAt(lib, images, cues, image);
      Filter(blocks + [b], here) == if here(b) then Filter(blocks, here) + [b] else Filter(blocks, here)
  {
    FilterAppend(blocks, [b], PointsAt(lib, images, cues, image));
  }

  lemma GroupedUnlessPointed(lib: Library, images: seq<LayoutBlock>, cues: seq<string>, blocks: seq<LayoutBlock>,
                             b: LayoutBlock, s: Slot)
    requires Grouped(lib, images, cues, blocks, s) && !PointsHere(lib, images, cues, b, s)
    ensures Grouped(lib, images, cues, blocks + [b], s)
  {
    GroupGrows(lib, images, cues, blocks, b, s.image.value);
  }

  lemma GroupedIfPointed(lib: Library, images: seq<LayoutBlock>, cues: seq<string>, blocks: seq<LayoutBlock>,
                         b: LayoutBlock, s: Slot)
    requires Grouped(lib, images, cues, blocks, s) && PointsHere(lib, images, cues, b, s)
    ensures Grouped(lib, images, cues, blocks + [b], Extended(s, b.content))
  {
    GroupGrows(lib, images, cues, blocks, b, s.image.value);
    var group := Filter(blocks, PointsAt(lib, images, cues, s.image.value));
    assert (group + [b])[..|group|] == group;
  }

  lemma NewGroup(lib: Library, images: seq<LayoutBlock>, cues: seq<string>, blocks: seq<LayoutBlock>,
                 matched: seq<Slot>, b: LayoutBlock)
    requires CoverCues(lib, images, cues, blocks, matched)
    requires IsCue(lib, cues, b) && NearestTo(lib, images, b).Some? && !HasSlot(matched, NearestTo(lib, images, b))
    requires NearestTo(lib, images, b).value in images && NearestTo(lib, images, b).value.bbox.Some?
    ensures Grouped(lib, images, cues, blocks + [b],
                    MatchedSlot(CueOf(b, cues, lib).value, b, NearestTo(lib, images, b).value))
    ensures var s := MatchedSlot(CueOf(b, cues, lib).value, b, NearestTo(lib, images, b).value);
      forall m :: 0 <= m < |blocks| ==> !PointsHere(lib, images, cues, blocks[m], s)
  {
    var image := NearestTo(lib, images, b).value;
    var here := PointsAt(lib, images, cues, image);
    GroupGrows(lib, images, cues, blocks, b, image);
    FilterNone(blocks, here);
    assert [] + [b] == [b];
  }

  lemma GroupHasBlock(lib: Library, images: seq<LayoutBlock>, cues: seq<string>, blocks: seq<LayoutBlock>, s: Slot)
    returns (m: nat)
    requires Grouped(lib, images, cues, blocks, s)
    ensures m < |blocks| && PointsHere(lib, images, cues, blocks[m], s) && blocks[m].page == s.page
  {
    var here := PointsAt(lib, images, cues, s.image.value);
    FilterMember(blocks, here, Filter(blocks, here)[0]);
    m :| m < |blocks| && blocks[m] == Filter(blocks, here)[0];
  }

  lemma NewSlotKeepsMatched(lib: Library, images: seq<LayoutBlock>, cues: seq<string>, blocks: seq<LayoutBlock>,
                            matched: seq<Slot>, b: LayoutBlock)
    requires MatchedAccount(lib, images, cues, blocks, matched)
    requires IsCue(lib, cues, b) && NearestTo(lib, images, b).Some? && !HasSlot(matched, NearestTo(lib, images, b))
    requires NearestTo(lib, images, b).value in images && NearestTo(lib, images, b).value.bbox.Some?
    ensures MatchedAccount(lib, images, cues, blocks + [b],
      matched + [MatchedSlot(CueOf(b, cues, lib).value, b, NearestTo(lib, images, b).value)])
  {
    var nearest := NearestTo(lib, images, b);
    var last := MatchedSlot(CueOf(b, cues, lib).value, b, nearest.value);
    var after := matched + [last];
    NewGroup(lib, images, cues, blocks, matched, b);
    forall k | 0 <= k < |matched| ensures Grouped(lib, images, cues, blocks + [b], matched[k]) {
      GroupedUnlessPointed(lib, images, cues, blocks, b, matched[k]);
    }
    assert after[|matched|].image == nearest;
    forall image | HasSlot(matched, image) ensures HasSlot(after, image) {
      var k :| 0 <= k < |matched| && matched[k].image == image;
      assert after[k].image == image;
    }
  }

  lemma OldSlotKeepsMatched(lib: Library, images: seq<LayoutBlock>, cues: seq<string>, blocks: seq<LayoutBlock>,
                            matched: seq<Slot>, b: LayoutBlock, n: nat)
    requires MatchedAccount(lib, images, cues, blocks, matched)
    requires n < |matched| && PointsHere(lib, images, cues, b, matched[n])
    ensures MatchedAccount(lib, images, cues, blocks + [b], matched[n := Extended(matched[n], b.content)])
  {
    var after := matched[n := Extended(matched[n], b.content)];
    forall k | 0 <= k < |after| ensures Grouped(lib, images, cues, blocks + [b], after[k]) {
      if k == n {
        GroupedIfPointed(lib, images, cues, blocks, b, matched[n]);
      } else {
        assert matched[k].image != matched[n].image;
        GroupedUnlessPointed(lib, images, cues, blocks, b, matched[k]);
      }
    }
    forall image | HasSlot(matched, image) ensures HasSlot(after, image) {
      var k :| 0 <= k < |matched| && matched[k].image == image;
      assert after[k].image == image;
    }
    assert after[n].image == NearestTo(lib, images, b);
  }

  lemma NoSlotKeepsMatched(lib: Library, images: seq<LayoutBlock>, cues: seq<string>, blocks: seq<LayoutBlock>,
                           matched: seq<Slot>, b: LayoutBlock)
    requires MatchedAccount(lib, images, cues, blocks, matched)
    requires !IsCue(lib, cues, b) || NearestTo(lib, images, b).None?
    ensures MatchedAccount(lib, images, cues, blocks + [b], matched)
  {
    forall k | 0 <= k < |matched| ensures Grouped(lib, images, cues, blocks + [b], matched[k]) {
      GroupedUnlessPointed(lib, images, cues, blocks, b, matched[k]);
    }
  }

  lemma AddKeepsMatched(lib: Library, images: seq<LayoutBlock>, cues: seq<string>, blocks: seq<LayoutBlock>,
                        found: Slots, b: LayoutBlock)
    requires DistinctIndices(images)
    requires MatchedAccount(lib, images, cues, blocks, found.matched)
    ensures MatchedAccount(lib, images, cues, blocks + [b], AddBlock(lib, images, cues, found, b).matched)
  {
    var nearest := NearestTo(lib, images, b);
    forall k | 0 <= k < |found.matched|
      ensures found.matched[k].image.Some? && found.matched[k].image.value in images
    {
      assert Grouped(lib, images, cues, blocks, found.matched[k]);
    }
    MatchedAfter(lib, images, cues, found, b);
    if !IsCue(lib, cues, b) || nearest.None? {
      NoSlotKeepsMatched(lib, images, cues, blocks, found.matched, b);
    } else if HasSlot(found.matched, nearest) {
      var after := AddBlock(lib, images, cues, found, b).matched;
      var n: nat :| n < |found.matched| && found.matched[n].image == nearest
                    && after == found.matched[n := Extended(found.matched[n], b.content)];
      OldSlotKeepsMatched(lib, images, cues, blocks, found.matched, b, n);
    } else {
      NewSlotKeepsMatched(lib, images, cues, blocks, found.matched, b);
    }
  }

  lemma AddKeepsOrphans(lib: Library, images: seq<LayoutBlock>, cues: seq<string>, blocks: seq<LayoutBlock>,
                        found: Slots, b: LayoutBlock)
    requires OrphanAccount(lib, images, cues, blocks, found.orphans)
    ensures OrphanAccount(lib, images, cues, blocks + [b], AddBlock(lib, images, cues, found, b).orphans)
  {
    FilterAppend(blocks, [b], Uncorrelated(lib, images, cues));
  }

  lemma {:induction false} SlotsExact(lib: Library, images: seq<LayoutBlock>, cues: seq<string>,
                                      blocks: seq<LayoutBlock>)
    requires DistinctIndices(images)
    ensures var found := Correlate(lib, images, cues, blocks);
      && MatchedAccount(lib, images, cues, blocks, found.matched)
      && OrphanAccount(lib, images, cues, blocks, found.orphans)
  {
    if blocks != [] {
      var init, last := blocks[..|blocks| - 1], blocks[|blocks| - 1];
      SlotsExact(lib, images, cues, init);
      AddKeepsMatched(lib, images, cues, init, Correlate(lib, images, cues, init), last);
      AddKeepsOrphans(lib, images, cues, init, Correlate(lib, images, cues, init), last);
      assert blocks == init + [last];
    }
  }

  // Slots come in the order of their first cues: reading on opens new slots after the old ones, and
  // of the old ones changes nothing but the context.
  lemma {:induction false} SlotsGrow(lib: Library, images: seq<LayoutBlock>, cues: seq<string>,
                                     blocks: seq<LayoutBlock>, n: nat, k: nat)
    requires DistinctIndices(images) && n <= |blocks|
    ensures var before, after := Correlate(lib, images, cues, blocks[..n]), Correlate(lib, images, cues, blocks);
      && |before.matched| <= |after.matched| && |before.orphans| <= |after.orphans|
      && (k < |before.matched| ==> after.matched[k].(context := "") == before.matched[k].(context := ""))
      && (k < |before.orphans| ==> after.orphans[k] == before.orphans[k])
  {
    if n == |blocks| {
      assert blocks[..n] == blocks;
    } else {
      var init := blocks[..|blocks| - 1];
      SlotsGrow(lib, images, cues, init, n, k);
      assert init[..n] == blocks[..n];
    }
  }

  // ---- judging ----

  // An image is its own single page. The rasterizer streams the pages of a PDF; if it is torn, it
  // throws after them instead of ending, at once where there are none.
  datatype File = ImageFile | PdfFile(pages: nat, torn: bool)

  function Rendered(file: File, needed: seq<int>): set<int> {
    match file
    case ImageFile => set p | p in needed
    case PdfFile(n, _) => set p | p in needed && 1 <= p <= n
  }

  // The stream is read at all, and past what it delivers.
  predicate RasterizerThrows(file: File, needed: seq<int>) {
    && file.PdfFile? && file.torn && needed != []
    && (file.pages == 0 || exists p :: p in needed && p > file.pages)
  }

  method MaxOf(xs: seq<int>) returns (m: int)
    requires xs != []
    ensures m in xs && forall x :: x in xs ==> x <= m
  {
    m := xs[0];
    for i := 1 to |xs|
      invariant m in xs[..i] && forall j :: 0 <= j < i ==> xs[j] <= m
    {
      if xs[i] > m { m := xs[i]; }
    }
  }

  // Pages stream in order; rendering stops after the last one needed.
  method RasterizePages(file: File, needed: seq<int>) returns (result: Option<set<int>>)
    ensures result == if RasterizerThrows(file, needed) then None else Some(Rendered(file, needed))
  {
    if needed == [] {
      assert Rendered(file, needed) == {};
      return Some({});
    }
    match file
    case ImageFile =>
      var rendered := set p | p in needed;
      assert rendered == Rendered(file, needed);
      result := Some(rendered);
    case PdfFile(n, torn) =>
      var max := MaxOf(needed);
      var rendered: set<int> := {};
      for page := 1 to n + 1
        invariant rendered == set p | p in needed && 1 <= p < page
        invariant page == 1 || page <= max
      {
        if page in needed {
          rendered := rendered + {page};
        }
        if page >= max {
          assert rendered == Rendered(file, needed);
          return Some(rendered);
        }
      }
      assert rendered == Rendered(file, needed);
      result := if torn then None else Some(rendered);
  }

  // The crop and the vision call on slot k; None when either throws.
  type Judge = nat -> Option<Judgment>

  function PagesOf(slots: seq<Slot>): seq<int> {
    if slots == [] then []
    else (if slots[0].image.Some? then [slots[0].page] else []) + PagesOf(slots[1..])
  }

  // The pages that carry a correlated image, each once.
  function NeededPages(slots: seq<Slot>): seq<int> {
    Dedup(PagesOf(slots))
  }

  function JudgmentAt(slots: seq<Slot>, rendered: set<int>, judge: Judge, k: nat): Option<Judgment>
    requires k < |slots|
  {
    if slots[k].image.None? || slots[k].page !in rendered then Some(NO_MARK) else judge(k)
  }

  function NonEmpty(s: Option<string>): Option<string> {
    if s == Some("") then None else s
  }

  function ToBlock(s: Slot, j: Judgment): SignatureBlock {
    SignatureBlock(s.cue, s.page, s.bbox, j.signed, j.hasSeal, NonEmpty(j.signatoryName), NonEmpty(j.signedDate))
  }

  // The blocks of the first n slots; None as soon as one throws.
  function JudgedBlocks(slots: seq<Slot>, rendered: set<int>, judge: Judge, n: nat): Option<seq<SignatureBlock>>
    requires n <= |slots|
  {
    if n == 0 then Some([])
    else
      var earlier := JudgedBlocks(slots, rendered, judge, n - 1);
      var j := JudgmentAt(slots, rendered, judge, n - 1);
      if earlier.None? || j.None? then None else Some(earlier.value + [ToBlock(slots[n - 1], j.value)])
  }

  function UnsignedLabels(blocks: seq<SignatureBlock>): seq<string> {
    if blocks == [] then []
    else (if blocks[0].signed then [] else [blocks[0].cue]) + UnsignedLabels(blocks[1..])
  }

  function Assemble(blocks: seq<SignatureBlock>): SigningResult {
    SigningResult(blocks != [] && forall b :: b in blocks ==> b.signed, blocks, UnsignedLabels(blocks))
  }

  function Execute(lib: Library, file: File, allBlocks: seq<LayoutBlock>, cues: seq<string>, geometryOnly: bool,
                   judge: Judge): Option<SigningResult> {
    var slots := SlotsOf(lib, allBlocks, cues);
    var rendered := if geometryOnly then {} else Rendered(file, NeededPages(slots));
    if !geometryOnly && RasterizerThrows(file, NeededPages(slots)) then None
    else
      match JudgedBlocks(slots, rendered, judge, |slots|)
      case None => None
      case Some(blocks) => Some(Assemble(blocks))
  }

  method ProbeSlots(slots: seq<Slot>, ghost judge: Judge) returns (blocks: seq<SignatureBlock>)
    ensures JudgedBlocks(slots, {}, judge, |slots|) == Some(blocks)
  {
    blocks := [];
    for i := 0 to |slots|
      invariant JudgedBlocks(slots, {}, judge, i) == Some(blocks)
    {
      blocks := blocks + [ToBlock(slots[i], NO_MARK)];
    }
  }

  lemma {:induction false} JudgedNone(slots: seq<Slot>, rendered: set<int>, judge: Judge, m: nat, n: nat)
    requires m <= n <= |slots| && JudgedBlocks(slots, rendered, judge, m).None?
    ensures JudgedBlocks(slots, rendered, judge, n).None?
  {
    if m < n { JudgedNone(slots, rendered, judge, m, n - 1); }
  }

  method JudgeSlots(slots: seq<Slot>, pageImages: set<int>, judge: Judge) returns (judged: Option<seq<SignatureBlock>>)
    ensures judged == JudgedBlocks(slots, pageImages, judge, |slots|)
  {
    var blocks: seq<SignatureBlock> := [];
    for i := 0 to |slots|
      invariant JudgedBlocks(slots, pageImages, judge, i) == Some(blocks)
    {
      var slot := slots[i];
      if slot.image.None? || slot.page !in pageImages {
        blocks := blocks + [ToBlock(slot, NO_MARK)];
        continue;
      }
      var judgment := judge(i);
      if judgment.None? {
        JudgedNone(slots, pageImages, judge, i + 1, |slots|);
        return None;
      }
      blocks := blocks + [ToBlock(slot, judgment.value)];
    }
    judged := Some(blocks);
  }

  method ExecuteSigning(lib: Library, file: File, allBlocks: seq<LayoutBlock>, cues: seq<string>, geometryOnly: bool,
                        judge: Judge) returns (result: Option<SigningResult>)
    ensures result == Execute(lib, file, allBlocks, cues, geometryOnly, judge)
  {
    var slots := CorrelateSlots(lib, allBlocks, cues);
    if geometryOnly {
      var probed := ProbeSlots(slots, judge);
      return Some(Assemble(probed));
    }
    var pageImages := RasterizePages(file, NeededPages(slots));
    if pageImages.None? {
      return None;
    }
    var judged := JudgeSlots(slots, pageImages.value, judge);
    result := if judged.None? then None else Some(Assemble(judged.value));
  }

  lemma {:induction false} JudgedAt(slots: seq<Slot>, rendered: set<int>, judge: Judge, n: nat)
    requires n <= |slots| && JudgedBlocks(slots, rendered, judge, n).Some?
    ensures var blocks := JudgedBlocks(slots, rendered, judge, n).value;
      && |blocks| == n
      && forall k :: 0 <= k < n ==>
           JudgmentAt(slots, rendered, judge, k).Some?
           && blocks[k] == ToBlock(slots[k], JudgmentAt(slots, rendered, judge, k).value)
  {
    if n > 0 { JudgedAt(slots, rendered, judge, n - 1); }
  }

  // ---- the report ----

  // A file has a page if it is that page, or is a PDF that has it.
  ghost predicate HasPage(file: File, page: int) {
    file.ImageFile? || 1 <= page <= file.pages
  }

  // A slot with an image on a page that can be rendered is judged; nothing else is.
  ghost predicate IsJudged(file: File, s: Slot) {
    s.image.Some? && HasPage(file, s.page)
  }

  lemma {:induction false} PageListed(slots: seq<Slot>, p: int)
    ensures p in PagesOf(slots) <==> exists k :: 0 <= k < |slots| && slots[k].image.Some? && slots[k].page == p
  {
    if slots != [] {
      PageListed(slots[1..], p);
      if k :| 0 <= k < |slots| && slots[k].image.Some? && slots[k].page == p {
        if k > 0 { assert slots[1..][k - 1] == slots[k]; }
      }
    }
  }

  // Every page that carries a correlated image is rendered if the file has it.
  lemma RenderedIff(file: File, slots: seq<Slot>, k: nat)
    requires k < |slots|
    ensures slots[k].image.Some? ==>
      (slots[k].page in Rendered(file, NeededPages(slots)) <==> HasPage(file, slots[k].page))
  {
    PageListed(slots, slots[k].page);
  }

  ghost predicate UnjudgedBlock(s: Slot, b: SignatureBlock) {
    b == SignatureBlock(s.cue, s.page, s.bbox, false, false, None, None)
  }

  // What the vision model said, an empty name or date being none.
  ghost predicate JudgedBlock(s: Slot, j: Judgment, b: SignatureBlock) {
    && b.cue == s.cue && b.page == s.page && b.bbox == s.bbox
    && b.signed == j.signed && b.hasSeal == j.hasSeal
    && b.signatoryName == (if j.signatoryName == Some("") then None else j.signatoryName)
    && b.signedDate == (if j.signedDate == Some("") then None else j.signedDate)
  }

  // The report has one block per slot, in their order: as judged where there is an image on a page
  // the file has, and not signed elsewhere or when only the geometry was asked for.
  lemma ReportExact(lib: Library, file: File, blocks: seq<LayoutBlock>, cues: seq<string>, geometryOnly: bool,
                    judge: Judge)
    requires Execute(lib, file, blocks, cues, geometryOnly, judge).Some?
    ensures var slots := SlotsOf(lib, blocks, cues);
      var out := Execute(lib, file, blocks, cues, geometryOnly, judge).value.blocks;
      && |out| == |slots|
      && forall k: nat :: k < |slots| ==>
           if !geometryOnly && IsJudged(file, slots[k])
           then judge(k).Some? && JudgedBlock(slots[k], judge(k).value, out[k])
           else UnjudgedBlock(slots[k], out[k])
  {
    var slots := SlotsOf(lib, blocks, cues);
    var rendered := if geometryOnly then {} else Rendered(file, NeededPages(slots));
    JudgedAt(slots, rendered, judge, |slots|);
    forall k: nat | k < |slots| { RenderedIff(file, slots, k); }
  }

  lemma {:induction false} NothingRendered(slots: seq<Slot>, judge: Judge, n: nat)
    requires n <= |slots|
    ensures JudgedBlocks(slots, {}, judge, n).Some?
  {
    if n > 0 { NothingRendered(slots, judge, n - 1); }
  }

  lemma {:induction false} JudgedUnless(slots: seq<Slot>, rendered: set<int>, judge: Judge, n: nat)
    requires n <= |slots|
    ensures JudgedBlocks(slots, rendered, judge, n).None? <==>
      exists k: nat :: k < n && JudgmentAt(slots, rendered, judge, k).None?
  {
    if n > 0 { JudgedUnless(slots, rendered, judge, n - 1); }
  }

  // A page with an image that the rasterizer does not get to.
  ghost predicate OutOfReach(file: File, s: Slot) {
    s.image.Some? && file.PdfFile? && file.torn && (file.pages == 0 || s.page > file.pages)
  }

  lemma RasterizerThrowsIff(file: File, slots: seq<Slot>)
    ensures RasterizerThrows(file, NeededPages(slots)) <==> exists k :: 0 <= k < |slots| && OutOfReach(file, slots[k])
  {
    var needed := NeededPages(slots);
    if RasterizerThrows(file, needed) {
      var p := needed[0];
      if file.pages > 0 { p :| p in needed && p > file.pages; }
      PageListed(slots, p);
      var k :| 0 <= k < |slots| && slots[k].image.Some? && slots[k].page == p;
      assert OutOfReach(file, slots[k]);
    }
    if k :| 0 <= k < |slots| && OutOfReach(file, slots[k]) {
      PageListed(slots, slots[k].page);
      assert slots[k].page in needed;
    }
  }

  lemma NoJudgmentIff(file: File, slots: seq<Slot>, judge: Judge, k: nat)
    requires k < |slots|
    ensures JudgmentAt(slots, Rendered(file, NeededPages(slots)), judge, k).None? <==>
      IsJudged(file, slots[k]) && judge(k).None?
  {
    RenderedIff(file, slots, k);
  }

  // What keeps a slot from being reported on: the rasterizer, the crop or the vision call.
  ghost predicate Fails(file: File, slots: seq<Slot>, judge: Judge, k: nat) {
    k < |slots| && (OutOfReach(file, slots[k]) || (IsJudged(file, slots[k]) && judge(k).None?))
  }

  // There is no report exactly if the rasterizer breaks off before a page with an image, or a crop
  // or a vision call throws.
  lemma ThrowsIff(lib: Library, file: File, blocks: seq<LayoutBlock>, cues: seq<string>, geometryOnly: bool,
                  judge: Judge)
    ensures Execute(lib, file, blocks, cues, geometryOnly, judge).None? <==>
      !geometryOnly && exists k: nat :: Fails(file, SlotsOf(lib, blocks, cues), judge, k)
  {
    var slots := SlotsOf(lib, blocks, cues);
    if geometryOnly {
      NothingRendered(slots, judge, |slots|);
    } else {
      var rendered := Rendered(file, NeededPages(slots));
      JudgedUnless(slots, rendered, judge, |slots|);
      RasterizerThrowsIff(file, slots);
      if RasterizerThrows(file, NeededPages(slots)) {
        var k :| 0 <= k < |slots| && OutOfReach(file, slots[k]);
        assert Fails(file, slots, judge, k);
      } else if k: nat :| k < |slots| && JudgmentAt(slots, rendered, judge, k).None? {
        NoJudgmentIff(file, slots, judge, k);
        assert Fails(file, slots, judge, k);
      }
      if k: nat :| Fails(file, slots, judge, k) {
        NoJudgmentIff(file, slots, judge, k);
      }
    }
  }

  // ---- the verdict ----

  // The k-th slot carries this image, on a page the file has, and the vision model called it signed.
  ghost predicate SignedAt(slots: seq<Slot>, file: File, judge: Judge, image: LayoutBlock, k: nat) {
    && k < |slots|
    && slots[k].image == Some(image)
    && HasPage(file, slots[k].page)
    && judge(k).Some?
    && judge(k).value.signed
  }

  // A cue block whose nearest image on the same page, within a quarter of it, was judged signed.
  ghost predicate Executed(lib: Library, blocks: seq<LayoutBlock>, slots: seq<Slot>, file: File, judge: Judge,
                           b: LayoutBlock) {
    b.bbox.Some? && exists i: nat, k: nat ::
      IsNearest(lib, b.bbox.value, b.page, blocks, i) && SignedAt(slots, file, judge, blocks[i], k)
  }

  lemma NearestOnce(lib: Library, bbox: Bbox, page: int, images: seq<LayoutBlock>, i: nat, k: nat)
    requires IsNearest(lib, bbox, page, images, i) && IsNearest(lib, bbox, page, images, k)
    ensures i == k
  {
  }

  lemma NearestUnique(lib: Library, bbox: Bbox, page: int, images: seq<LayoutBlock>, i: nat)
    requires IsNearest(lib, bbox, page, images, i)
    ensures Nearest(lib, bbox, page, images) == Some(images[i])
  {
    NearestCorrect(lib, bbox, page, images);
    var k: nat :| IsNearest(lib, bbox, page, images, k) && images[k] == Nearest(lib, bbox, page, images).value;
    NearestOnce(lib, bbox, page, images, i, k);
  }

  lemma SlotSigned(lib: Library, file: File, blocks: seq<LayoutBlock>, cues: seq<string>, judge: Judge, k: nat)
    requires Execute(lib, file, blocks, cues, false, judge).Some? && k < |SlotsOf(lib, blocks, cues)|
    ensures var slots, out := SlotsOf(lib, blocks, cues), Execute(lib, file, blocks, cues, false, judge).value.blocks;
      && |out| == |slots|
      && (out[k].signed <==> slots[k].image.Some? && SignedAt(slots, file, judge, slots[k].image.value, k))
  {
    ReportExact(lib, file, blocks, cues, false, judge);
  }

  lemma OrphanHasNoImage(lib: Library, images: seq<LayoutBlock>, cues: seq<string>, blocks: seq<LayoutBlock>)
    requires DistinctIndices(images) && Correlate(lib, images, cues, blocks).orphans != []
    ensures var found := Correlate(lib, images, cues, blocks);
      (found.matched + found.orphans)[|found.matched|].image.None?
  {
    SlotsExact(lib, images, cues, blocks);
  }

  lemma NearestInDocument(lib: Library, blocks: seq<LayoutBlock>, b: LayoutBlock)
    requires b.bbox.Some?
    ensures NearestTo(lib, Filter(blocks, ImagesOnly()), b) == Nearest(lib, b.bbox.value, b.page, blocks)
  {
    NearestAmongImages(lib, b.bbox.value, b.page, blocks);
  }

  lemma AllSlotsSigned(lib: Library, file: File, blocks: seq<LayoutBlock>, cues: seq<string>, judge: Judge)
    requires DistinctIndices(Filter(blocks, ImagesOnly()))
    requires Execute(lib, file, blocks, cues, false, judge).Some?
    requires Execute(lib, file, blocks, cues, false, judge).value.fullyExecuted
    ensures exists b :: b in blocks && IsCue(lib, cues, b)
    ensures forall b :: b in blocks && IsCue(lib, cues, b) ==>
      Executed(lib, blocks, SlotsOf(lib, blocks, cues), file, judge, b)
  {
    var images := Filter(blocks, ImagesOnly());
    var found := Correlate(lib, images, cues, blocks);
    var slots, out := SlotsOf(lib, blocks, cues), Execute(lib, file, blocks, cues, false, judge).value.blocks;
    SlotsExact(lib, images, cues, blocks);
    ReportExact(lib, file, blocks, cues, false, judge);
    forall k: nat | k < |slots|
      ensures slots[k].image.Some? && SignedAt(slots, file, judge, slots[k].image.value, k)
    {
      SlotSigned(lib, file, blocks, cues, judge, k);
      assert out[k] in out;
    }
    if found.orphans != [] {
      OrphanHasNoImage(lib, images, cues, blocks);
      assert false;
    }
    var m := GroupHasBlock(lib, images, cues, blocks, found.matched[0]);
    forall b | b in blocks && IsCue(lib, cues, b) ensures Executed(lib, blocks, slots, file, judge, b) {
      FilterMember(blocks, Uncorrelated(lib, images, cues), b);
      var k :| 0 <= k < |found.matched| && found.matched[k].image == NearestTo(lib, images, b);
      NearestInDocument(lib, blocks, b);
      NearestCorrect(lib, b.bbox.value, b.page, blocks);
      assert SignedAt(slots, file, judge, slots[k].image.value, k);
    }
  }

  // The cue block behind a slot.
  lemma SlotOrigin(lib: Library, blocks: seq<LayoutBlock>, cues: seq<string>, k: nat) returns (b: LayoutBlock)
    requires DistinctIndices(Filter(blocks, ImagesOnly())) && k < |SlotsOf(lib, blocks, cues)|
    ensures b in blocks && IsCue(lib, cues, b)
    ensures NearestTo(lib, Filter(blocks, ImagesOnly()), b) == SlotsOf(lib, blocks, cues)[k].image
  {
    var images := Filter(blocks, ImagesOnly());
    var found := Correlate(lib, images, cues, blocks);
    SlotsExact(lib, images, cues, blocks);
    if k < |found.matched| {
      var m := GroupHasBlock(lib, images, cues, blocks, found.matched[k]);
      b := blocks[m];
    } else {
      b := Filter(blocks, Uncorrelated(lib, images, cues))[k - |found.matched|];
      FilterMember(blocks, Uncorrelated(lib, images, cues), b);
    }
  }

  lemma OneSlotPerImage(lib: Library, blocks: seq<LayoutBlock>, cues: seq<string>, k: nat, m: nat)
    requires DistinctIndices(Filter(blocks, ImagesOnly()))
    requires k < |SlotsOf(lib, blocks, cues)| && m < |SlotsOf(lib, blocks, cues)|
    requires SlotsOf(lib, blocks, cues)[k].image.Some?
    requires SlotsOf(lib, blocks, cues)[k].image == SlotsOf(lib, blocks, cues)[m].image
    ensures k == m
  {
    var images := Filter(blocks, ImagesOnly());
    SlotsExact(lib, images, cues, blocks);
    assert k < |Correlate(lib, images, cues, blocks).matched| && m < |Correlate(lib, images, cues, blocks).matched|;
  }

  lemma ExecutedSlot(lib: Library, file: File, blocks: seq<LayoutBlock>, cues: seq<string>, judge: Judge, k: nat)
    requires DistinctIndices(Filter(blocks, ImagesOnly()))
    requires Execute(lib, file, blocks, cues, false, judge).Some? && k < |SlotsOf(lib, blocks, cues)|
    requires forall b :: b in blocks && IsCue(lib, cues, b) ==>
      Executed(lib, blocks, SlotsOf(lib, blocks, cues), file, judge, b)
    ensures k < |Execute(lib, file, blocks, cues, false, judge).value.blocks|
    ensures Execute(lib, file, blocks, cues, false, judge).value.blocks[k].signed
  {
    var slots := SlotsOf(lib, blocks, cues);
    SlotSigned(lib, file, blocks, cues, judge, k);
    var b := SlotOrigin(lib, blocks, cues, k);
    assert Executed(lib, blocks, slots, file, judge, b);
    var i: nat, m: nat :|
      IsNearest(lib, b.bbox.value, b.page, blocks, i) && SignedAt(slots, file, judge, blocks[i], m);
    NearestUnique(lib, b.bbox.value, b.page, blocks, i);
    NearestInDocument(lib, blocks, b);
    OneSlotPerImage(lib, blocks, cues, k, m);
  }

  // A document is reported fully executed exactly when it has a cue block and every cue block's
  // nearest image is on a page the file has and was judged signed. An uncorrelated cue alone makes
  // the verdict false.
  lemma FullyExecutedIff(lib: Library, file: File, blocks: seq<LayoutBlock>, cues: seq<string>, judge: Judge)
    requires DistinctIndices(Filter(blocks, ImagesOnly()))
    requires Execute(lib, file, blocks, cues, false, judge).Some?
    ensures Execute(lib, file, blocks, cues, false, judge).value.fullyExecuted <==>
      && (exists b :: b in blocks && IsCue(lib, cues, b))
      && (forall b :: b in blocks && IsCue(lib, cues, b) ==>
            Executed(lib, blocks, SlotsOf(lib, blocks, cues), file, judge, b))
  {
    var slots, r := SlotsOf(lib, blocks, cues), Execute(lib, file, blocks, cues, false, judge).value;
    if r.fullyExecuted {
      AllSlotsSigned(lib, file, blocks, cues, judge);
    }
    if (exists b :: b in blocks && IsCue(lib, cues, b))
       && (forall b :: b in blocks && IsCue(lib, cues, b) ==> Executed(lib, blocks, slots, file, judge, b)) {
      ReportExact(lib, file, blocks, cues, false, judge);
      forall k: nat | k < |slots| ensures r.blocks[k].signed {
        ExecutedSlot(lib, file, blocks, cues, judge, k);
      }
      var b :| b in blocks && IsCue(lib, cues, b);
      assert Executed(lib, blocks, slots, file, judge, b);
      assert slots != [];
    }
  }

  function Unsigned(): SignatureBlock -> bool { (b: SignatureBlock) => !b.signed }

  lemma {:induction false} UnsignedExact(blocks: seq<SignatureBlock>)
    ensures var labels, unsigned := UnsignedLabels(blocks), Filter(blocks, Unsigned());
      && |labels| == |unsigned|
      && forall i :: 0 <= i < |labels| ==> labels[i] == unsigned[i].cue
    ensures UnsignedLabels(blocks) == [] <==> forall i :: 0 <= i < |blocks| ==> blocks[i].signed
  {
    if blocks != [] {
      var rest := blocks[1..];
      UnsignedExact(rest);
      assert forall i :: 1 <= i < |blocks| ==> blocks[i] == rest[i - 1];
    }
  }

  // The report agrees with itself: fully executed means slots, none of them listed unsigned.
  lemma ReportConsistent(lib: Library, file: File, blocks: seq<LayoutBlock>, cues: seq<string>, geometryOnly: bool,
                         judge: Judge)
    requires Execute(lib, file, blocks, cues, geometryOnly, judge).Some?
    ensures var r := Execute(lib, file, blocks, cues, geometryOnly, judge).value;
      r.fullyExecuted <==> r.blocks != [] && r.unsignedBlocks == []
  {
    var r := Execute(lib, file, blocks, cues, geometryOnly, judge).value;
    UnsignedExact(r.blocks);
    assert (forall b :: b in r.blocks ==> b.signed) <==> forall i :: 0 <= i < |r.blocks| ==> r.blocks[i].signed;
  }

  // The geometry-only probe never reports a document as executed.
  lemma {:induction false} ProbeNeverExecuted(lib: Library, file: File, blocks: seq<LayoutBlock>, cues: seq<string>,
                                              judge: Judge)
    ensures var r := Execute(lib, file, blocks, cues, true, judge);
      r.Some? && !r.value.fullyExecuted && |r.value.blocks| == |SlotsOf(lib, blocks, cues)|
  {
    var slots := SlotsOf(lib, blocks, cues);
    NothingRendered(slots, judge, |slots|);
    JudgedAt(slots, {}, judge, |slots|);
    if slots != [] {
      var out := JudgedBlocks(slots, {}, judge, |slots|).value;
      assert out[0] in out && !out[0].signed;
    }
  }
}
