/**
 * Citation splicing, src/clients/public-web-search.ts: the loop replaces cited ranges from the right,
 * and numbers their URLs across all blocks.
 */
module Citations {
  import opened Basics

  type Url = nat
  type Text = seq<int>

  /** An annotation; a URL that is missing or not public is None. */
  datatype Citation = Citation(url: Option<Url>, startIndex: Option<int>, endIndex: Option<int>)

  datatype Block = Block(text: Text, citations: seq<Citation>)

  const OPEN: int := 91
  const CLOSE: int := 93

  function Digits(n: nat): Text {
    if n < 10 then [48 + n] else Digits(n / 10) + [48 + n % 10]
  }

  /** "[n]" */
  function Marker(n: nat): Text {
    [OPEN] + Digits(n) + [CLOSE]
  }

  function StartKey(c: Citation): int {
    if c.startIndex.Some? then c.startIndex.value else 0
  }

  // ---- The loop ----

  predicate Usable(c: Citation, length: nat) {
    && c.url.Some? && c.startIndex.Some? && c.endIndex.Some?
    && 0 <= c.startIndex.value <= c.endIndex.value <= length
  }

  /** Stable insertion into a list with later starts first. */
  function Insert(c: Citation, list: seq<Citation>): seq<Citation> {
    if list == [] || StartKey(list[0]) < StartKey(c) then [c] + list else [list[0]] + Insert(c, list[1..])
  }

  function Sorted(list: seq<Citation>): seq<Citation> {
    if list == [] then [] else Insert(list[|list| - 1], Sorted(list[..|list| - 1]))
  }

  function IndexOf(sources: seq<Url>, url: Url): (i: nat)
    ensures i <= |sources|
    ensures i < |sources| ==> sources[i] == url
    ensures forall k :: 0 <= k < i ==> sources[k] != url
  {
    if sources == [] then 0 else if sources[0] == url then 0 else 1 + IndexOf(sources[1..], url)
  }

  function Cite(sources: seq<Url>, url: Url): seq<Url> {
    if IndexOf(sources, url) < |sources| then sources else sources + [url]
  }

  /** The cited range gives way to its marker. */
  function ReplacedBy(text: Text, c: Citation, number: nat): Text
    requires Usable(c, |text|)
  {
    text[..c.startIndex.value] + Marker(number) + text[c.endIndex.value..]
  }

  datatype Spliced = InvalidCitation | Spliced(text: Text, sources: seq<Url>)

  /** The citations applied one after the other, each to the text the ones before it left. */
  function Splice(text: Text, list: seq<Citation>, sources: seq<Url>): Spliced
    decreases |list|
  {
    if list == [] then Spliced(text, sources)
    else if !Usable(list[0], |text|) then InvalidCitation
    else
      var c := list[0];
      Splice(ReplacedBy(text, c, IndexOf(sources, c.url.value) + 1), list[1..], Cite(sources, c.url.value))
  }

  datatype Rendered = Rejected | Rendered(texts: seq<Text>, sources: seq<Url>)

  function Render(blocks: seq<Block>): Rendered {
    if blocks == [] then Rendered([], [])
    else
      var front, last := Render(blocks[..|blocks| - 1]), blocks[|blocks| - 1];
      if front.Rejected? then Rejected
      else
        var s := Splice(last.text, Sorted(last.citations), front.sources);
        if s.InvalidCitation? then Rejected else Rendered(front.texts + [s.text], s.sources)
  }

  /** The loop over the citations of one block, in their order. */
  method SpliceBlock(text: Text, list: seq<Citation>, sources: seq<Url>) returns (r: Spliced)
    ensures r == Splice(text, list, sources)
  {
    var current, cited := text, sources;
    for k := 0 to |list|
      invariant Splice(current, list[k..], cited) == Splice(text, list, sources)
    {
      var c := list[k];
      assert list[k..][0] == c && list[k..][1..] == list[k + 1..];
      if c.url.None? || c.startIndex.None? || c.endIndex.None? || c.startIndex.value < 0 ||
         c.endIndex.value > |current| || c.endIndex.value < c.startIndex.value {
        return InvalidCitation;
      }
      var index := IndexOf(cited, c.url.value);
      if index == |cited| { cited := cited + [c.url.value]; }
      current := current[..c.startIndex.value] + Marker(index + 1) + current[c.endIndex.value..];
    }
    return Spliced(current, cited);
  }

  /** The loop over the blocks of all messages. */
  method RenderBlocks(blocks: seq<Block>) returns (r: Rendered)
    ensures r == Render(blocks)
  {
    var texts, sources := [], [];
    for b := 0 to |blocks|
      invariant Render(blocks[..b]) == Rendered(texts, sources)
    {
      assert blocks[..b + 1][..b] == blocks[..b];
      var spliced := SpliceBlock(blocks[b].text, Sorted(blocks[b].citations), sources);
      if spliced.InvalidCitation? {
        RejectsAll(blocks, b + 1);
        return Rejected;
      }
      texts, sources := texts + [spliced.text], spliced.sources;
    }
    assert blocks[..|blocks|] == blocks;
    return Rendered(texts, sources);
  }

  lemma {:induction false} RejectsAll(blocks: seq<Block>, b: nat)
    requires b <= |blocks| && Render(blocks[..b]).Rejected?
    ensures Render(blocks).Rejected?
    decreases |blocks|
  {
    if b == |blocks| {
      assert blocks[..b] == blocks;
    } else {
      assert blocks[..|blocks| - 1][..b] == blocks[..b];
      RejectsAll(blocks[..|blocks| - 1], b);
    }
  }

  // ---- Simultaneous replacement, position by position ----

  predicate StartsAt(c: Citation, p: int) {
    c.startIndex == Some(p)
  }

  predicate Covers(c: Citation, p: int) {
    c.startIndex.Some? && c.endIndex.Some? && c.startIndex.value <= p < c.endIndex.value
  }

  function MarkAt(c: Citation, sources: seq<Url>, p: int): Text {
    if StartsAt(c, p) && c.url.Some? then Marker(IndexOf(sources, c.url.value) + 1) else []
  }

  /** The markers in front of position p: of several, the last listed stands leftmost. */
  function Mark(list: seq<Citation>, sources: seq<Url>, p: int): Text
    decreases |list|
  {
    if list == [] then []
    else MarkAt(list[|list| - 1], sources, p) + Mark(list[..|list| - 1], sources, p)
  }

  predicate Covered(list: seq<Citation>, p: int) {
    exists i :: 0 <= i < |list| && Covers(list[i], p)
  }

  function Kept(text: Text, list: seq<Citation>, p: nat): Text {
    if p < |text| && !Covered(list, p) then [text[p]] else []
  }

  /** What each position contributes: the markers in front of it, and its character unless a range covers it. */
  function Pieces(text: Text, list: seq<Citation>, sources: seq<Url>): seq<Text> {
    seq(|text| + 1, p requires 0 <= p => Mark(list, sources, p) + Kept(text, list, p))
  }

  function Flatten(pieces: seq<Text>, p: nat): Text
    decreases |pieces| - p
  {
    if p >= |pieces| then [] else pieces[p] + Flatten(pieces, p + 1)
  }

  /** Every range is its marker, every character outside the ranges is kept. */
  function Emit(text: Text, list: seq<Citation>, sources: seq<Url>): Text {
    Flatten(Pieces(text, list, sources), 0)
  }

  // ---- Ranges that do not overlap ----

  predicate IsEmpty(c: Citation) {
    c.startIndex == c.endIndex
  }

  /** One ends at or before the start of the other. */
  predicate Apart(c: Citation, d: Citation) {
    && c.startIndex.Some? && c.endIndex.Some? && d.startIndex.Some? && d.endIndex.Some?
    && (c.endIndex.value <= d.startIndex.value || d.endIndex.value <= c.startIndex.value)
  }

  /** c may be listed before d: it is not an empty range where d, not empty, starts. */
  predicate Harmless(c: Citation, d: Citation) {
    !(StartKey(c) == StartKey(d) && IsEmpty(c) && !IsEmpty(d))
  }

  predicate AllPairs(list: seq<Citation>, p: (Citation, Citation) -> bool) {
    forall i, j :: 0 <= i < j < |list| ==> p(list[i], list[j])
  }

  predicate AllUsable(list: seq<Citation>, length: nat) {
    forall c :: c in list ==> Usable(c, length)
  }

  /** Valid ranges, pairwise without overlap. */
  predicate NonOverlapping(list: seq<Citation>, length: nat) {
    AllUsable(list, length) && AllPairs(list, Apart)
  }

  /** No empty range is listed before a range that starts with it and is not empty. */
  predicate SafeOrder(list: seq<Citation>) {
    AllPairs(list, Harmless)
  }

  // ---- Sources ----

  /** Sources only grow at the end, so a citation keeps its number. */
  lemma {:induction false} IndexStays(sources: seq<Url>, more: seq<Url>, url: Url)
    requires sources <= more && url in sources
    ensures IndexOf(more, url) == IndexOf(sources, url) < |sources|
  {
  }

  predicate DuplicateFree(sources: seq<Url>) {
    forall i, j :: 0 <= i < j < |sources| ==> sources[i] != sources[j]
  }

  function CiteAll(sources: seq<Url>, list: seq<Citation>): seq<Url>
    decreases |list|
  {
    if list == [] then sources
    else CiteAll(if list[0].url.Some? then Cite(sources, list[0].url.value) else sources, list[1..])
  }

  lemma {:induction false} CiteAllGrows(sources: seq<Url>, list: seq<Citation>)
    ensures sources <= CiteAll(sources, list)
    ensures DuplicateFree(sources) ==> DuplicateFree(CiteAll(sources, list))
    ensures forall u :: u in CiteAll(sources, list) <==> u in sources || exists c :: c in list && c.url == Some(u)
    decreases |list|
  {
    if list != [] {
      var next := if list[0].url.Some? then Cite(sources, list[0].url.value) else sources;
      CiteAllGrows(next, list[1..]);
      assert list == [list[0]] + list[1..];
      assert forall u :: u in next <==> u in sources || list[0].url == Some(u);
    }
  }

  /** The number a citation gets while splicing is its place among the final sources. */
  lemma CitedNumber(sources: seq<Url>, final: seq<Url>, url: Url)
    requires Cite(sources, url) <= final
    ensures IndexOf(sources, url) == IndexOf(final, url) < |final| && final[IndexOf(final, url)] == url
  {
    var next := Cite(sources, url);
    assert url in next;
    IndexStays(next, final, url);
  }

  // ---- Reading a marker back ----

  function Value(digits: Text): int {
    if digits == [] then 0 else 10 * Value(digits[..|digits| - 1]) + digits[|digits| - 1] - 48
  }

  lemma {:induction false} DigitsReadBack(n: nat)
    ensures Digits(n) != [] && Value(Digits(n)) == n
    decreases n
  {
    if n >= 10 {
      DigitsReadBack(n / 10);
      assert Digits(n)[..|Digits(n)| - 1] == Digits(n / 10);
    } else {
      assert Digits(n)[..0] == [] && Value([]) == 0;
    }
  }

  /** Different sources have different markers. */
  lemma MarkersDiffer(n: nat, m: nat)
    ensures Marker(n) == Marker(m) <==> n == m
  {
    DigitsReadBack(n);
    DigitsReadBack(m);
    assert Marker(n)[1..|Marker(n)| - 1] == Digits(n) && Marker(m)[1..|Marker(m)| - 1] == Digits(m);
  }

  predicate StandsAt(t: Text, a: nat, part: Text) {
    a + |part| <= |t| && t[a..a + |part|] == part
  }

  predicate Contains(t: Text, part: Text) {
    exists a: nat :: a <= |t| && StandsAt(t, a, part)
  }

  lemma ContainsFurther(front: Text, t: Text, part: Text)
    requires Contains(t, part)
    ensures Contains(front + t, part)
  {
    var a: nat :| a <= |t| && StandsAt(t, a, part);
    assert (front + t)[|front| + a..|front| + a + |part|] == t[a..a + |part|];
    assert StandsAt(front + t, |front| + a, part);
  }

  /** The marker of every cited range stands intact before its start, with the place of its URL among the sources. */
  lemma {:induction false} MarkerResolves(list: seq<Citation>, sources: seq<Url>, k: nat)
    requires k < |list| && list[k].startIndex.Some? && list[k].url.Some? && list[k].url.value in sources
    ensures var i := IndexOf(sources, list[k].url.value);
            && i < |sources| && sources[i] == list[k].url.value
            && Contains(Mark(list, sources, list[k].startIndex.value), Marker(i + 1))
    decreases |list|
  {
    var p, last := list[k].startIndex.value, list[|list| - 1];
    var front := list[..|list| - 1];
    if k == |front| {
      assert StandsAt(Mark(list, sources, p), 0, Marker(IndexOf(sources, last.url.value) + 1));
    } else {
      assert front[k] == list[k];
      MarkerResolves(front, sources, k);
      ContainsFurther(MarkAt(last, sources, p), Mark(front, sources, p),
                      Marker(IndexOf(sources, list[k].url.value) + 1));
    }
  }
}
