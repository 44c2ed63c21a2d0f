/**
 * The vCard block search of `parseVCardFromHTML`: `matchAll` with the
 * global pattern `BEGIN:VCARD([\s\S]*?)END:VCARD` over the raw markup.
 */
module VCardScan {
  import opened Wrappers
  import opened Strings

  const VBegin := "BEGIN:VCARD"
  const VEnd := "END:VCARD"

  /** `[start, end)` is a shortest block: it starts with "BEGIN:VCARD", ends
      with "END:VCARD", and holds no earlier "END:VCARD" after its start tag. */
  predicate IsBlock(s: string, span: (nat, nat)) {
    span.0 + |VBegin| + |VEnd| <= span.1 <= |s|
    && OccursAt(s, VBegin, span.0) && OccursAt(s, VEnd, span.1 - |VEnd|)
    && NoEndIn(s, span.0 + |VBegin|, span.1 - |VEnd|)
  }

  /** No "END:VCARD" starts in `[lo, hi)`. */
  predicate NoEndIn(s: string, lo: int, hi: int) {
    forall m :: lo <= m < hi ==> !OccursAt(s, VEnd, m)
  }

  /** No "BEGIN:VCARD" starts in `[lo, hi)`. */
  predicate NoBeginIn(s: string, lo: nat, hi: nat) {
    forall m :: lo <= m < hi ==> !OccursAt(s, VBegin, m)
  }

  /** No block starts at or after `p`. */
  ghost predicate NoBlockFrom(s: string, p: nat) {
    forall m, n :: p <= m && m + |VBegin| <= n && OccursAt(s, VBegin, m) ==> !OccursAt(s, VEnd, n)
  }

  /** One step of `matchAll` with the pattern `BEGIN:VCARD([\s\S]*?)END:VCARD`:
      the leftmost match at or after `from`, made as short as possible. */
  function NextBlock(s: string, from: nat): (r: Option<(nat, nat)>)
    ensures r.Some? ==> from <= r.value.0 && r.value.0 + |VBegin| + |VEnd| <= r.value.1 <= |s|
  {
    match IndexOf(s, VBegin, from)
    case None => None
    case Some(i) =>
      match IndexOf(s, VEnd, i + |VBegin|)
      case None => None
      case Some(j) => Some((i, j + |VEnd|))
  }

  /** A start tag at `i` and the first end tag after it at `j` delimit a
      shortest block. */
  lemma BlockOfTags(s: string, i: nat, j: nat)
    requires i + |VBegin| <= j && j + |VEnd| <= |s|
    requires OccursAt(s, VBegin, i) && OccursAt(s, VEnd, j)
    requires forall m :: i + |VBegin| <= m < j ==> !OccursAt(s, VEnd, m)
    ensures IsBlock(s, (i, j + |VEnd|))
  {
  }

  /** What the regular expression promises of one match: it is a shortest
      block, no "BEGIN:VCARD" comes before it, and when there is none no
      complete block is left. */
  lemma NextBlockSpec(s: string, from: nat)
    ensures var r := NextBlock(s, from);
      && (r.Some? ==> IsBlock(s, r.value) && NoBeginIn(s, from, r.value.0))
      && (r.None? ==> NoBlockFrom(s, from))
  {
    IndexOfFirst(s, VBegin, from);
    match IndexOf(s, VBegin, from)
    case None =>
    case Some(i) =>
      IndexOfFirst(s, VEnd, i + |VBegin|);
      match IndexOf(s, VEnd, i + |VBegin|)
      case None =>
        assert forall m :: from <= m && OccursAt(s, VBegin, m) ==> i <= m;
      case Some(j) =>
        BlockOfTags(s, i, j);
  }

  function LastEnd(r: seq<(nat, nat)>, from: nat): nat {
    if r == [] then from else r[|r| - 1].1
  }

  /** All matches from `from` on, in text order. */
  function VCardSpans(s: string, from: nat): (r: seq<(nat, nat)>)
    decreases |s| - from
  {
    match NextBlock(s, from)
    case None => []
    case Some(span) => [span] + VCardSpans(s, span.1)
  }

  lemma {:induction false} VCardSpanBounds(s: string, from: nat, k: nat)
    requires k < |VCardSpans(s, from)|
    decreases |s| - from
    ensures from <= VCardSpans(s, from)[k].0 <= VCardSpans(s, from)[k].1 <= |s|
  {
    VCardSpansStep(s, from, k);
    if k > 0 {
      VCardSpanBounds(s, NextBlock(s, from).value.1, k - 1);
    }
  }

  /** Unfolding `VCardSpans` once: the first match, then the rest. */
  lemma VCardSpansStep(s: string, from: nat, k: nat)
    requires k < |VCardSpans(s, from)|
    ensures NextBlock(s, from).Some?
    ensures var span := NextBlock(s, from).value;
      k == 0 ==> VCardSpans(s, from)[k] == span
    ensures var span := NextBlock(s, from).value;
      k > 0 ==> k - 1 < |VCardSpans(s, span.1)| && VCardSpans(s, from)[k] == VCardSpans(s, span.1)[k - 1]
  {
  }

  /** The matches do not overlap and come in text order. */
  lemma {:induction false} VCardSpansOrdered(s: string, from: nat, k: nat, k': nat)
    requires k < k' < |VCardSpans(s, from)|
    decreases |s| - from
    ensures VCardSpans(s, from)[k].1 <= VCardSpans(s, from)[k'].0
  {
    VCardSpansStep(s, from, k);
    VCardSpansStep(s, from, k');
    var span := NextBlock(s, from).value;
    var rest := VCardSpans(s, span.1);
    if k > 0 {
      VCardSpansOrdered(s, span.1, k - 1, k' - 1);
      assert rest[k - 1].1 <= rest[k' - 1].0;
    } else {
      VCardSpanBounds(s, span.1, k' - 1);
    }
  }

  /** No complete block is left after the last match. */
  lemma {:induction false} VCardSpansExhaustive(s: string, from: nat)
    decreases |s| - from
    ensures NoBlockFrom(s, LastEnd(VCardSpans(s, from), from))
  {
    match NextBlock(s, from)
    case None =>
      NextBlockSpec(s, from);
    case Some(span) =>
      VCardSpansExhaustive(s, span.1);
      var rest := VCardSpans(s, span.1);
      assert VCardSpans(s, from) == [span] + rest;
      assert LastEnd([span] + rest, from) == LastEnd(rest, span.1);
  }

  /** Every match is a shortest block. */
  lemma {:induction false} VCardSpanIsBlock(s: string, from: nat, k: nat)
    requires k < |VCardSpans(s, from)|
    decreases |s| - from
    ensures IsBlock(s, VCardSpans(s, from)[k])
  {
    VCardSpansStep(s, from, k);
    if k == 0 {
      NextBlockSpec(s, from);
    } else {
      VCardSpanIsBlock(s, NextBlock(s, from).value.1, k - 1);
    }
  }

  /** The text of every match, in order. */
  function VCardBlocks(html: string): (blocks: seq<string>)
    ensures |blocks| == |VCardSpans(html, 0)|
  {
    var spans := VCardSpans(html, 0);
    assert forall k :: 0 <= k < |spans| ==> 0 <= spans[k].0 <= spans[k].1 <= |html| by {
      forall k | 0 <= k < |spans| ensures 0 <= spans[k].0 <= spans[k].1 <= |html| {
        VCardSpanBounds(html, 0, k);
      }
    }
    seq(|spans|, k requires 0 <= k < |spans| => html[spans[k].0..spans[k].1])
  }

  /** The text of a shortest block starts with "BEGIN:VCARD", ends with
      "END:VCARD", and holds no other "END:VCARD" after its start tag. */
  lemma BlockTextShape(s: string, span: (nat, nat))
    requires IsBlock(s, span)
    ensures var b := s[span.0..span.1];
      |b| >= |VBegin| + |VEnd| && b[..|VBegin|] == VBegin && b[|b| - |VEnd|..] == VEnd
      && forall m :: |VBegin| <= m < |b| - |VEnd| ==> !OccursAt(b, VEnd, m)
  {
    var b := s[span.0..span.1];
    assert b[..|VBegin|] == s[span.0..span.0 + |VBegin|];
    assert b[|b| - |VEnd|..] == s[span.1 - |VEnd|..span.1];
    forall m | |VBegin| <= m < |b| - |VEnd|
      ensures !OccursAt(b, VEnd, m)
    {
      OccursInSlice(s, span.0, span.1, VEnd, m);
    }
  }

  /** Every block of `VCardBlocks` has that shape. */
  lemma VCardBlockShape(html: string, k: nat)
    requires k < |VCardBlocks(html)|
    ensures var b := VCardBlocks(html)[k];
      |b| >= |VBegin| + |VEnd| && b[..|VBegin|] == VBegin && b[|b| - |VEnd|..] == VEnd
      && forall m :: |VBegin| <= m < |b| - |VEnd| ==> !OccursAt(b, VEnd, m)
  {
    var span := VCardSpans(html, 0)[k];
    VCardSpanIsBlock(html, 0, k);
    BlockTextShape(html, span);
    assert VCardBlocks(html)[k] == html[span.0..span.1];
  }
}
