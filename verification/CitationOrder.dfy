/**
 * The exact order in which splicing loses nothing, and where every unit of the output comes from,
 * over all content blocks of a response.
 */
module CitationOrder {
  import opened Basics
  import opened Citations
  import opened CitationSplicing

  // ---- Counting opening brackets ----

  function Opens(t: Text): nat {
    if t == [] then 0 else Opens(t[..|t| - 1]) + if t[|t| - 1] == OPEN then 1 else 0
  }

  lemma {:induction false} OpensJoin(a: Text, b: Text)
    ensures Opens(a + b) == Opens(a) + Opens(b)
    decreases |b|
  {
    if b == [] {
      assert a + b == a;
    } else {
      assert (a + b)[..|a + b| - 1] == a + b[..|b| - 1];
      OpensJoin(a, b[..|b| - 1]);
    }
  }

  lemma {:induction false} NoOpens(t: Text)
    requires OPEN !in t
    ensures Opens(t) == 0
    decreases |t|
  {
    if t != [] {
      NoOpens(t[..|t| - 1]);
    }
  }

  lemma {:induction false} DigitsHaveNone(n: nat)
    ensures OPEN !in Digits(n)
    decreases n
  {
    if n >= 10 {
      DigitsHaveNone(n / 10);
    }
  }

  lemma MarkerOpens(n: nat)
    ensures Opens(Marker(n)) == 1 && Marker(n)[0] == OPEN
  {
    DigitsHaveNone(n);
    NoOpens(Digits(n) + [CLOSE]);
    assert Marker(n) == [OPEN] + (Digits(n) + [CLOSE]);
    OpensJoin([OPEN], Digits(n) + [CLOSE]);
    assert [OPEN][..0] == [];
  }

  lemma OpensThree(a: Text, b: Text, c: Text)
    ensures Opens(a + b + c) == Opens(a) + Opens(b) + Opens(c)
  {
    OpensJoin(a + b, c);
    OpensJoin(a, b);
  }

  lemma SplitInThree(t: Text, s: nat, e: nat)
    requires s <= e <= |t|
    ensures t == t[..s] + t[s..e] + t[e..]
  {
  }

  /** A replacement adds one bracket and loses those it covers. */
  lemma ReplacedOpens(t: Text, c: Citation, number: nat)
    requires Usable(c, |t|)
    ensures Opens(ReplacedBy(t, c, number)) + Opens(t[c.startIndex.value..c.endIndex.value]) == Opens(t) + 1
  {
    var front, middle, back := t[..c.startIndex.value], t[c.startIndex.value..c.endIndex.value], t[c.endIndex.value..];
    SplitInThree(t, c.startIndex.value, c.endIndex.value);
    MarkerOpens(number);
    OpensThree(front, Marker(number), back);
    OpensThree(front, middle, back);
  }

  lemma {:induction false} SpliceOpens(current: Text, list: seq<Citation>, sources: seq<Url>)
    requires Splice(current, list, sources).Spliced?
    ensures Opens(Splice(current, list, sources).text) <= Opens(current) + |list|
    decreases |list|
  {
    if list != [] {
      var c := list[0];
      ReplacedOpens(current, c, IndexOf(sources, c.url.value) + 1);
      SpliceOpens(ReplacedBy(current, c, IndexOf(sources, c.url.value) + 1), list[1..], Cite(sources, c.url.value));
    }
  }

  lemma BracketInside(t: Text, s: nat, e: nat)
    requires s < e <= |t| && t[s] == OPEN
    ensures Opens(t[s..e]) >= 1
  {
    assert t[s..e] == [OPEN] + t[s + 1..e] && [OPEN][..0] == [];
    OpensJoin([OPEN], t[s + 1..e]);
  }

  lemma MarkerStandsAtStart(t: Text, c: Citation, number: nat)
    requires Usable(c, |t|)
    ensures c.startIndex.value < |ReplacedBy(t, c, number)| && ReplacedBy(t, c, number)[c.startIndex.value] == OPEN
  {
  }

  /** A range spliced right after an empty one with its start covers the bracket of that one's marker. */
  lemma CoversABracket(current: Text, c: Citation, d: Citation, sources: seq<Url>, more: seq<Url>)
    requires Usable(c, |current|) && !Harmless(c, d) && d.url.Some?
    requires Usable(d, |ReplacedBy(current, c, IndexOf(sources, c.url.value) + 1)|)
    ensures var next := ReplacedBy(current, c, IndexOf(sources, c.url.value) + 1);
            Opens(ReplacedBy(next, d, IndexOf(more, d.url.value) + 1)) <= Opens(current) + 1
  {
    var number := IndexOf(sources, c.url.value) + 1;
    var next := ReplacedBy(current, c, number);
    ReplacedOpens(current, c, number);
    ReplacedOpens(next, d, IndexOf(more, d.url.value) + 1);
    MarkerStandsAtStart(current, c, number);
    BracketInside(next, d.startIndex.value, d.endIndex.value);
  }

  /** The first step of splicing. */
  lemma SpliceHead(current: Text, list: seq<Citation>, sources: seq<Url>)
    requires list != [] && Splice(current, list, sources).Spliced?
    ensures Usable(list[0], |current|)
    ensures Splice(current, list, sources) ==
            Splice(ReplacedBy(current, list[0], IndexOf(sources, list[0].url.value) + 1), list[1..],
                   Cite(sources, list[0].url.value))
  {
  }

  /** The first two steps, from the second range's text on. */
  lemma SpliceTwo(current: Text, list: seq<Citation>, sources: seq<Url>) returns (after: Text, cited: seq<Url>)
    requires |list| > 1 && !Harmless(list[0], list[1]) && Splice(current, list, sources).Spliced?
    ensures Splice(current, list, sources) == Splice(after, list[2..], cited)
    ensures Opens(after) <= Opens(current) + 1
  {
    var c, d, tail := list[0], list[1], list[1..];
    SpliceHead(current, list, sources);
    var next, more := ReplacedBy(current, c, IndexOf(sources, c.url.value) + 1), Cite(sources, c.url.value);
    assert tail[0] == d && tail[1..] == list[2..];
    SpliceHead(next, tail, more);
    CoversABracket(current, c, d, sources, more);
    after, cited := ReplacedBy(next, d, IndexOf(more, d.url.value) + 1), Cite(more, d.url.value);
  }

  lemma HarmAtHead(current: Text, list: seq<Citation>, sources: seq<Url>)
    requires |list| > 1 && !Harmless(list[0], list[1]) && Splice(current, list, sources).Spliced?
    ensures Opens(Splice(current, list, sources).text) < Opens(current) + |list|
  {
    var after, cited := SpliceTwo(current, list, sources);
    SpliceOpens(after, list[2..], cited);
  }

  /** From then on the output is at least one bracket short. */
  lemma {:induction false} HarmLoses(current: Text, list: seq<Citation>, j: nat, sources: seq<Url>)
    requires 0 < j < |list| && !Harmless(list[j - 1], list[j]) && Splice(current, list, sources).Spliced?
    ensures Opens(Splice(current, list, sources).text) < Opens(current) + |list|
    decreases |list|
  {
    if j == 1 {
      HarmAtHead(current, list, sources);
    } else {
      var c := list[0];
      assert list[1..][j - 2] == list[j - 1] && list[1..][j - 1] == list[j];
      ReplacedOpens(current, c, IndexOf(sources, c.url.value) + 1);
      HarmLoses(ReplacedBy(current, c, IndexOf(sources, c.url.value) + 1), list[1..], j - 1,
                Cite(sources, c.url.value));
    }
  }

  /** In sorted order a range comes right behind the empty ranges that were listed before it. */
  lemma HarmIsAdjacent(list: seq<Citation>, length: nat)
    requires NeverEarlier(list) && NonOverlapping(list, length) && !SafeOrder(list)
    ensures exists j :: 0 < j < |list| && !Harmless(list[j - 1], list[j])
  {
    var i, j :| 0 <= i < j < |list| && !Harmless(list[i], list[j]);
    assert list[j - 1] in list && list[j] in list;
    assert StartKey(list[i]) >= StartKey(list[j - 1]) by {
      assert i < j - 1 ==> StartKey(list[i]) >= StartKey(list[j - 1]);
    }
    assert StartKey(list[j - 1]) >= StartKey(list[j]);
    assert Apart(list[j - 1], list[j]);
    assert !Harmless(list[j - 1], list[j]);
  }

  // ---- A simultaneous replacement keeps every bracket ----

  lemma {:induction false} FlattenOpens(a: seq<Text>, b: seq<Text>, s: nat, x: nat)
    requires |a| == |b| && s < |a| && Opens(b[s]) == Opens(a[s]) + 1
    requires forall p :: 0 <= p < |a| && p != s ==> Opens(b[p]) == Opens(a[p])
    ensures Opens(Flatten(b, x)) == Opens(Flatten(a, x)) + if x <= s then 1 else 0
    decreases |a| - x
  {
    if x < |a| {
      FlattenOpens(a, b, s, x + 1);
      OpensJoin(a[x], Flatten(a, x + 1));
      OpensJoin(b[x], Flatten(b, x + 1));
    }
  }

  lemma MarkAtOpens(c: Citation, sources: seq<Url>, p: int)
    requires c.url.Some?
    ensures Opens(MarkAt(c, sources, p)) == if StartsAt(c, p) then 1 else 0
  {
    MarkerOpens(IndexOf(sources, c.url.value) + 1);
  }

  lemma KeptOpens(text: Text, list: seq<Citation>, p: nat)
    requires OPEN !in text
    ensures Opens(Kept(text, list, p)) == 0
  {
    NoOpens(Kept(text, list, p));
  }

  lemma PieceOpens(text: Text, list: seq<Citation>, c: Citation, sources: seq<Url>, p: nat)
    requires OPEN !in text && p <= |text| && c.url.Some?
    ensures Opens(Pieces(text, list + [c], sources)[p]) ==
            Opens(Pieces(text, list, sources)[p]) + if StartsAt(c, p) then 1 else 0
  {
    MarkWith(list, c, sources, p);
    MarkAtOpens(c, sources, p);
    KeptOpens(text, list, p);
    KeptOpens(text, list + [c], p);
    OpensJoin(MarkAt(c, sources, p), Mark(list, sources, p));
    OpensJoin(Mark(list + [c], sources, p), Kept(text, list + [c], p));
    OpensJoin(Mark(list, sources, p), Kept(text, list, p));
  }

  lemma {:induction false} EmitOpens(text: Text, list: seq<Citation>, sources: seq<Url>)
    requires OPEN !in text && AllUsable(list, |text|)
    ensures Opens(Emit(text, list, sources)) == |list|
    decreases |list|
  {
    if list == [] {
      EmitNothing(text, sources);
      NoOpens(text);
    } else {
      var front, c := list[..|list| - 1], list[|list| - 1];
      assert list == front + [c] && c in list;
      EmitOpens(text, front, sources);
      forall p | 0 <= p <= |text|
        ensures Opens(Pieces(text, list, sources)[p]) ==
                Opens(Pieces(text, front, sources)[p]) + if p == c.startIndex.value then 1 else 0
      {
        PieceOpens(text, front, c, sources, p);
      }
      FlattenOpens(Pieces(text, front, sources), Pieces(text, list, sources), c.startIndex.value, 0);
    }
  }

  // ---- One block ----

  /** No range overlaps another: nothing is rejected, whatever the order. */
  lemma BlockIsSpliced(text: Text, list: seq<Citation>, sources: seq<Url>)
    requires NonOverlapping(list, |text|)
    ensures Splice(text, Sorted(list), sources).Spliced?
    ensures Splice(text, Sorted(list), sources).sources == CiteAll(sources, Sorted(list))
  {
    SortOrders(list);
    SortKeepsRanges(list, |text|);
    NeverRejects(text, Sorted(list), sources);
  }

  lemma SafeOrderReplaces(text: Text, list: seq<Citation>, sources: seq<Url>, final: seq<Url>)
    requires NonOverlapping(list, |text|) && SafeOrder(list) && CiteAll(sources, Sorted(list)) <= final
    ensures Splice(text, Sorted(list), sources) == Spliced(Emit(text, list, final), CiteAll(sources, Sorted(list)))
  {
    var sorted := Sorted(list);
    SortOrders(list);
    SortKeepsRanges(list, |text|);
    SortEmits(text, list, final);
    EmitNothing(text, final);
    assert sorted[..0] == [] && sorted[0..] == sorted;
    SpliceSafe(text, sorted, 0, sources, final);
  }

  /** Where the text itself has no bracket, an unsafe order never gives the simultaneous replacement. */
  lemma UnsafeOrderLoses(text: Text, list: seq<Citation>, sources: seq<Url>, final: seq<Url>)
    requires NonOverlapping(list, |text|) && !SafeOrder(list) && OPEN !in text
    ensures Splice(text, Sorted(list), sources).Spliced?
    ensures Opens(Splice(text, Sorted(list), sources).text) < |list| == Opens(Emit(text, list, final))
  {
    var sorted := Sorted(list);
    BlockIsSpliced(text, list, sources);
    SortOrders(list);
    SortKeepsRanges(list, |text|);
    HarmIsAdjacent(sorted, |text|);
    var j :| 0 < j < |sorted| && !Harmless(sorted[j - 1], sorted[j]);
    HarmLoses(text, sorted, j, sources);
    NoOpens(text);
    EmitOpens(text, list, final);
  }

  // ---- Where every unit of the output comes from ----

  /** A text of places only: unit -1 - p stands for the character at p, and no marker has such units. */
  function Places(length: nat): Text {
    seq(length, p => -1 - p)
  }

  /** The places read from a text; everything else stands for itself. */
  function Read(text: Text, t: Text): Text {
    seq(|t|, i requires 0 <= i < |t| => if -|text| <= t[i] < 0 then text[-1 - t[i]] else t[i])
  }

  lemma ReadPlaces(text: Text)
    ensures Read(text, Places(|text|)) == text
  {
  }

  lemma {:induction false} DigitsArePrinted(n: nat)
    ensures forall i :: 0 <= i < |Digits(n)| ==> Digits(n)[i] >= 48
    decreases n
  {
    if n >= 10 {
      DigitsArePrinted(n / 10);
    }
  }

  lemma ReadReplaced(text: Text, t: Text, c: Citation, number: nat)
    requires Usable(c, |t|)
    ensures ReplacedBy(Read(text, t), c, number) == Read(text, ReplacedBy(t, c, number))
  {
    DigitsArePrinted(number);
    assert Read(text, Marker(number)) == Marker(number);
  }

  /** Splicing moves units about without looking at them. */
  lemma {:induction false} SpliceReads(text: Text, t: Text, list: seq<Citation>, sources: seq<Url>)
    ensures Splice(Read(text, t), list, sources).InvalidCitation? <==> Splice(t, list, sources).InvalidCitation?
    ensures Splice(t, list, sources).Spliced? ==>
              Splice(Read(text, t), list, sources) ==
              Spliced(Read(text, Splice(t, list, sources).text), Splice(t, list, sources).sources)
    decreases |list|
  {
    if list != [] && Usable(list[0], |t|) {
      var c := list[0];
      ReadReplaced(text, t, c, IndexOf(sources, c.url.value) + 1);
      SpliceReads(text, ReplacedBy(t, c, IndexOf(sources, c.url.value) + 1), list[1..], Cite(sources, c.url.value));
    }
  }

  // ---- All blocks ----

  function AllSources(blocks: seq<Block>): seq<Url> {
    if blocks == [] then []
    else CiteAll(AllSources(blocks[..|blocks| - 1]), Sorted(blocks[|blocks| - 1].citations))
  }

  /** Every range of the block is its marker, every other character is kept. */
  function Replaced(b: Block, sources: seq<Url>): Text {
    Emit(b.text, b.citations, sources)
  }

  /** The block with every character replaced by its place. */
  function PlacesOf(b: Block): Block {
    b.(text := Places(|b.text|))
  }

  predicate ValidBlock(b: Block) {
    NonOverlapping(b.citations, |b.text|)
  }

  predicate ValidBlocks(blocks: seq<Block>) {
    forall k :: 0 <= k < |blocks| ==> ValidBlock(blocks[k])
  }

  function AllPlaces(blocks: seq<Block>): seq<Block> {
    seq(|blocks|, k requires 0 <= k < |blocks| => PlacesOf(blocks[k]))
  }

  /** The output of one block, spliced after the blocks before it. */
  function BlockText(blocks: seq<Block>, k: nat): Spliced
    requires k < |blocks|
  {
    Splice(blocks[k].text, Sorted(blocks[k].citations), AllSources(blocks[..k]))
  }

  predicate TextIs(blocks: seq<Block>, k: nat, t: Text) {
    k < |blocks| && BlockText(blocks, k).Spliced? && BlockText(blocks, k).text == t
  }

  ghost predicate Renders(blocks: seq<Block>, r: Rendered) {
    && r.Rendered? && r.sources == AllSources(blocks) && |r.texts| == |blocks|
    && forall k :: 0 <= k < |blocks| ==> TextIs(blocks, k, r.texts[k])
  }

  lemma TextStays(front: seq<Block>, blocks: seq<Block>, k: nat, t: Text)
    requires front <= blocks && TextIs(front, k, t)
    ensures TextIs(blocks, k, t)
  {
    assert front[..k] == blocks[..k];
  }

  lemma RendersOneMore(blocks: seq<Block>, front: Rendered, t: Text)
    requires blocks != [] && Renders(blocks[..|blocks| - 1], front) && TextIs(blocks, |blocks| - 1, t)
    ensures Renders(blocks, Rendered(front.texts + [t], AllSources(blocks)))
  {
    forall k | 0 <= k < |blocks|
      ensures TextIs(blocks, k, (front.texts + [t])[k])
    {
      if k < |blocks| - 1 {
        TextStays(blocks[..|blocks| - 1], blocks, k, front.texts[k]);
      }
    }
  }

  lemma {:induction false} RenderIs(blocks: seq<Block>)
    requires ValidBlocks(blocks)
    ensures Renders(blocks, Render(blocks))
    decreases |blocks|
  {
    if blocks != [] {
      var front, last := blocks[..|blocks| - 1], blocks[|blocks| - 1];
      RenderIs(front);
      BlockIsSpliced(last.text, last.citations, AllSources(front));
      RendersOneMore(blocks, Render(front), BlockText(blocks, |front|).text);
    }
  }

  lemma {:induction false} SourcesGrow(blocks: seq<Block>, k: nat)
    requires k < |blocks|
    ensures CiteAll(AllSources(blocks[..k]), Sorted(blocks[k].citations)) <= AllSources(blocks)
    decreases |blocks|
  {
    var front := blocks[..|blocks| - 1];
    if k < |front| {
      SourcesGrow(front, k);
      assert front[..k] == blocks[..k];
      CiteAllGrows(AllSources(front), Sorted(blocks[|front|].citations));
    }
  }

  lemma {:induction false} SamePlaces(blocks: seq<Block>)
    ensures AllSources(AllPlaces(blocks)) == AllSources(blocks)
    decreases |blocks|
  {
    if blocks != [] {
      var front := blocks[..|blocks| - 1];
      assert AllPlaces(blocks)[..|front|] == AllPlaces(front);
      SamePlaces(front);
    }
  }

  lemma PlacesHaveNoBracket(length: nat)
    ensures OPEN !in Places(length)
  {
  }

  /**
   * Whatever the blocks are made of, the output is the output for their places, read back: where
   * each unit comes from depends on the ranges alone.
   */
  lemma RenderReadsPlaces(blocks: seq<Block>, k: nat)
    requires ValidBlocks(blocks) && k < |blocks|
    ensures ValidBlocks(AllPlaces(blocks))
    ensures Render(blocks).Rendered? && Render(AllPlaces(blocks)).Rendered?
    ensures |Render(blocks).texts| == |Render(AllPlaces(blocks)).texts| == |blocks|
    ensures Render(blocks).texts[k] == Read(blocks[k].text, Render(AllPlaces(blocks)).texts[k])
  {
    var places := AllPlaces(blocks);
    forall j | 0 <= j < |places|
      ensures ValidBlock(places[j])
    {
      assert ValidBlock(blocks[j]);
    }
    RenderIs(blocks);
    RenderIs(places);
    assert places[..k] == AllPlaces(blocks[..k]);
    SamePlaces(blocks[..k]);
    ReadPlaces(blocks[k].text);
    SpliceReads(blocks[k].text, Places(|blocks[k].text|), Sorted(blocks[k].citations), AllSources(blocks[..k]));
  }

  lemma PlacesReplacedIff(blocks: seq<Block>, k: nat)
    requires ValidBlocks(blocks) && k < |blocks|
    ensures Render(AllPlaces(blocks)).Rendered? && |Render(AllPlaces(blocks)).texts| == |blocks|
    ensures Render(AllPlaces(blocks)).texts[k] == Replaced(PlacesOf(blocks[k]), AllSources(blocks)) <==>
            SafeOrder(blocks[k].citations)
  {
    var b, places := PlacesOf(blocks[k]), AllPlaces(blocks);
    RenderReadsPlaces(blocks, k);
    RenderIs(places);
    assert places[..k] == AllPlaces(blocks[..k]) && ValidBlock(places[k]);
    SamePlaces(blocks[..k]);
    SourcesGrow(blocks, k);
    if SafeOrder(b.citations) {
      SafeOrderReplaces(b.text, b.citations, AllSources(blocks[..k]), AllSources(blocks));
    } else {
      PlacesHaveNoBracket(|b.text|);
      UnsafeOrderLoses(b.text, b.citations, AllSources(blocks[..k]), AllSources(blocks));
    }
  }

  lemma TextReplaced(blocks: seq<Block>, k: nat)
    requires ValidBlocks(blocks) && k < |blocks|
    ensures Render(blocks).Rendered? && |Render(blocks).texts| == |blocks|
    ensures SafeOrder(blocks[k].citations) ==> Render(blocks).texts[k] == Replaced(blocks[k], AllSources(blocks))
    ensures OPEN !in blocks[k].text && !SafeOrder(blocks[k].citations) ==>
              Render(blocks).texts[k] != Replaced(blocks[k], AllSources(blocks))
  {
    var b := blocks[k];
    RenderIs(blocks);
    SourcesGrow(blocks, k);
    if SafeOrder(b.citations) {
      SafeOrderReplaces(b.text, b.citations, AllSources(blocks[..k]), AllSources(blocks));
    } else if OPEN !in b.text {
      UnsafeOrderLoses(b.text, b.citations, AllSources(blocks[..k]), AllSources(blocks));
    }
  }

  ghost predicate CitedIn(b: Block, u: Url) {
    exists c :: c in b.citations && c.url == Some(u)
  }

  lemma {:induction false} SourcesAreCited(blocks: seq<Block>)
    ensures DuplicateFree(AllSources(blocks))
    ensures forall u :: u in AllSources(blocks) <==> exists b :: b in blocks && CitedIn(b, u)
    decreases |blocks|
  {
    if blocks != [] {
      var front, last := blocks[..|blocks| - 1], blocks[|blocks| - 1];
      assert blocks == front + [last] && last in blocks;
      SourcesAreCited(front);
      CiteAllGrows(AllSources(front), Sorted(last.citations));
      SortOrders(last.citations);
    }
  }

  /**
   * Ranges that are valid and do not overlap are never rejected, and the sources are the cited URLs,
   * each once. A block becomes its simultaneous replacement, with every marker intact and every
   * other character kept, exactly when its list has no empty range before a range that starts with
   * it and is not empty. Which character stands where is told by the places: the text itself may
   * happen to read the same.
   */
  lemma SplicingIsSimultaneousIff(blocks: seq<Block>)
    requires ValidBlocks(blocks)
    ensures var r, places := Render(blocks), Render(AllPlaces(blocks));
            && r.Rendered? && places.Rendered? && |r.texts| == |places.texts| == |blocks|
            && DuplicateFree(r.sources) && (forall u :: u in r.sources <==> exists b :: b in blocks && CitedIn(b, u))
            && (forall k :: 0 <= k < |blocks| ==> r.texts[k] == Read(blocks[k].text, places.texts[k]))
            && (forall k :: 0 <= k < |blocks| ==>
                  (places.texts[k] == Replaced(PlacesOf(blocks[k]), r.sources) <==> SafeOrder(blocks[k].citations)))
            && (forall k :: 0 <= k < |blocks| && SafeOrder(blocks[k].citations) ==>
                  r.texts[k] == Replaced(blocks[k], r.sources))
  {
    RenderIs(blocks);
    SourcesAreCited(blocks);
    assert ValidBlocks(AllPlaces(blocks)) by {
      forall j | 0 <= j < |blocks|
        ensures ValidBlock(AllPlaces(blocks)[j])
      {
        assert ValidBlock(blocks[j]);
      }
    }
    RenderIs(AllPlaces(blocks));
    forall k | 0 <= k < |blocks|
      ensures Render(blocks).texts[k] == Read(blocks[k].text, Render(AllPlaces(blocks)).texts[k])
      ensures Render(AllPlaces(blocks)).texts[k] == Replaced(PlacesOf(blocks[k]), AllSources(blocks)) <==>
              SafeOrder(blocks[k].citations)
      ensures SafeOrder(blocks[k].citations) ==> Render(blocks).texts[k] == Replaced(blocks[k], AllSources(blocks))
    {
      RenderReadsPlaces(blocks, k);
      PlacesReplacedIff(blocks, k);
      TextReplaced(blocks, k);
    }
  }

  // ---- A harmful order, and why the places tell ----

  const EmptyAtStart := Citation(Some(1), Some(0), Some(0))
  const FromStart := Citation(Some(2), Some(0), Some(1))
  const ThreeFromStart := Citation(Some(2), Some(0), Some(3))

  /** Two ranges that name two new URLs. */
  lemma SplicePair(text: Text, c: Citation, d: Citation)
    requires Usable(c, |text|) && Usable(d, |ReplacedBy(text, c, 1)|) && c.url != d.url
    ensures Splice(text, [c, d], []) ==
            Spliced(ReplacedBy(ReplacedBy(text, c, 1), d, 2), [c.url.value, d.url.value])
  {
    var list, none: seq<Url> := [c, d], [];
    var next := ReplacedBy(text, c, 1);
    assert list[1..] == [d] && list[1..][1..] == [];
    assert Cite(none, c.url.value) == [c.url.value];
    assert Cite([c.url.value], d.url.value) == [c.url.value, d.url.value];
    assert Splice(text, list, none) == Splice(next, list[1..], [c.url.value]);
  }

  lemma Bracketed()
    ensures Marker(1) == [OPEN, 49, CLOSE]
  {
    assert Digits(1) == [49];
  }

  /** Two ranges that do not overlap and start together, the empty one listed first: its marker loses its bracket. */
  lemma EqualStartsBreakAMarker()
    ensures NonOverlapping([EmptyAtStart, FromStart], 2) && !SafeOrder([EmptyAtStart, FromStart])
    ensures Splice([97, 98], Sorted([EmptyAtStart, FromStart]), []) == Spliced(Marker(2) + [49, CLOSE, 97, 98], [1, 2])
  {
    var list := [EmptyAtStart, FromStart];
    assert list[..1] == [EmptyAtStart] && [EmptyAtStart][..0] == [] && [EmptyAtStart][1..] == [];
    assert Sorted([EmptyAtStart]) == [EmptyAtStart];
    assert Insert(FromStart, []) == [FromStart] && Insert(FromStart, [EmptyAtStart]) == list;
    assert !Harmless(list[0], list[1]);
    Bracketed();
    SplicePair([97, 98], EmptyAtStart, FromStart);
    assert ReplacedBy([97, 98], EmptyAtStart, 1) == Marker(1) + [97, 98];
    assert ReplacedBy(Marker(1) + [97, 98], FromStart, 2) == Marker(2) + [49, CLOSE, 97, 98];
  }

  lemma ThreeLost(text: Text)
    requires |text| == 3
    ensures Splice(text, [EmptyAtStart, ThreeFromStart], []) == Spliced(Marker(2) + text, [1, 2])
  {
    Bracketed();
    SplicePair(text, EmptyAtStart, ThreeFromStart);
    assert ReplacedBy(text, EmptyAtStart, 1) == Marker(1) + text;
    assert ReplacedBy(Marker(1) + text, ThreeFromStart, 2) == Marker(2) + text;
  }

  /** The same order over a text that reads "[1]": a marker is lost, and the text left in its place looks like it. */
  lemma LossMayReadTheSame()
    ensures var list := [EmptyAtStart, ThreeFromStart];
            && Splice(Marker(1), list, []) == Spliced(Marker(2) + Marker(1), [1, 2])
            && Splice(Places(3), list, []) == Spliced(Marker(2) + Places(3), [1, 2])
  {
    Bracketed();
    ThreeLost(Marker(1));
    ThreeLost(Places(3));
  }
}
