/** Splitting a rendered chat template into markers and plain text
    (engine/common/chat-auto-parser-helpers.cpp, `segmentize_markers`).

    `Segments` is the specification, `SegmentizeMarkers` the loop of the source, and
    `SegmentationIsUnique` says what a segmentation is without saying how to compute one. */
module Segmenter {

  datatype Kind = Text | Marker

  datatype Segment = Segment(kind: Kind, value: string)

  predicate IsOpener(c: char) {
    c == '<' || c == '['
  }

  predicate IsCloser(opener: char, c: char) {
    (opener == '<' && c == '>') || (opener == '[' && c == ']')
  }

  /** The text that a run of segments stands for. */
  function Concat(segs: seq<Segment>): string {
    if segs == [] then "" else segs[0].value + Concat(segs[1..])
  }

  lemma {:induction false} ConcatAppend(a: seq<Segment>, b: seq<Segment>)
    ensures Concat(a + b) == Concat(a) + Concat(b)
  {
    if a == [] {
      assert a + b == b;
    } else {
      calc {
        Concat(a + b);
        { assert (a + b)[0] == a[0] && (a + b)[1..] == a[1..] + b; }
        a[0].value + Concat(a[1..] + b);
        { ConcatAppend(a[1..], b); }
        a[0].value + (Concat(a[1..]) + Concat(b));
        Concat(a) + Concat(b);
      }
    }
  }

  /** The first opener at or after `i`, or the end of the text. */
  function NextOpener(s: string, i: nat): (k: nat)
    requires i <= |s|
    ensures i <= k <= |s|
    ensures forall j :: i <= j < k ==> !IsOpener(s[j])
    ensures k < |s| ==> IsOpener(s[k])
    decreases |s| - i
  {
    if i == |s| || IsOpener(s[i]) then i else NextOpener(s, i + 1)
  }

  /** The first closer of `opener` at or after `i`, or the end of the text. */
  function NextCloser(s: string, i: nat, opener: char): (k: nat)
    requires i <= |s|
    ensures i <= k <= |s|
    ensures forall j :: i <= j < k ==> !IsCloser(opener, s[j])
    ensures k < |s| ==> IsCloser(opener, s[k])
    decreases |s| - i
  {
    if i == |s| || IsCloser(opener, s[i]) then i else NextCloser(s, i + 1, opener)
  }

  /** The first segment: a marker is cut at its first closer, text runs to the next opener, and
      an opener that is never closed turns the rest into text. */
  function Head(text: string): (s: Segment)
    requires text != []
    ensures 0 < |s.value| <= |text| && s.value == text[..|s.value|]
  {
    if IsOpener(text[0]) then
      var k := NextCloser(text, 1, text[0]);
      if k == |text| then Segment(Text, text) else Segment(Marker, text[..k + 1])
    else Segment(Text, text[..NextOpener(text, 0)])
  }

  function Segments(text: string): seq<Segment>
    decreases |text|
  {
    if text == [] then [] else [Head(text)] + Segments(text[|Head(text).value|..])
  }

  // ---- What a segmentation is ----

  predicate NoOpener(v: string) {
    forall j :: 0 <= j < |v| ==> !IsOpener(v[j])
  }

  /** No closer of the leading character anywhere in `v[1..hi]`. */
  predicate Unclosed(v: string, hi: int)
    requires hi <= |v|
  {
    forall j :: 1 <= j < hi ==> !IsCloser(v[0], v[j])
  }

  /** An opener, then its first closer at the very end. */
  predicate IsMarker(v: string) {
    |v| >= 2 && IsOpener(v[0]) && IsCloser(v[0], v[|v| - 1]) && Unclosed(v, |v| - 1)
  }

  /** A last text may hold openers only if it starts with one that is never closed. */
  predicate IsTail(v: string) {
    v != [] && (NoOpener(v) || (IsOpener(v[0]) && Unclosed(v, |v|)))
  }

  predicate GoodAt(segs: seq<Segment>, i: nat)
    requires i < |segs|
  {
    var v := segs[i].value;
    if segs[i].kind == Marker then IsMarker(v)
    else if i + 1 == |segs| then IsTail(v)
    else v != [] && NoOpener(v) && segs[i + 1].value != [] && IsOpener(segs[i + 1].value[0])
  }

  ghost predicate IsSegmentation(text: string, segs: seq<Segment>) {
    Concat(segs) == text && forall i :: 0 <= i < |segs| ==> GoodAt(segs, i)
  }

  lemma GoodShift(head: Segment, rest: seq<Segment>, i: nat)
    requires i < |rest|
    ensures GoodAt([head] + rest, i + 1) == GoodAt(rest, i)
  {
    var all := [head] + rest;
    assert all[i + 1] == rest[i];
    if i + 1 < |rest| {
      assert all[i + 2] == rest[i + 1];
    }
  }

  /** The head of a text is good in front of whatever the rest of the text starts with. */
  lemma HeadIsGood(text: string)
    requires text != []
    ensures var h := Head(text); var n := |h.value|;
            if h.kind == Marker then IsMarker(h.value)
            else if n == |text| then IsTail(h.value)
            else NoOpener(h.value) && IsOpener(text[n])
  {
  }

  lemma {:induction false} SegmentsAreSegmentation(text: string)
    ensures IsSegmentation(text, Segments(text))
    decreases |text|
  {
    if text != [] {
      var h := Head(text);
      var after := text[|h.value|..];
      var segs, rest := Segments(text), Segments(after);
      SegmentsAreSegmentation(after);
      HeadIsGood(text);
      assert text == h.value + after;
      assert segs[1..] == rest;
      if after != [] {
        assert rest[0] == Head(after);
        assert segs[1].value[0] == after[0] == text[|h.value|];
      }
      assert GoodAt(segs, 0);
      forall i | 0 < i < |segs|
        ensures GoodAt(segs, i)
      {
        GoodShift(h, rest, i - 1);
      }
    }
  }

  /** Concatenation, first-closer markers and maximal texts leave exactly one segmentation. */
  lemma {:induction false} SegmentationIsUnique(text: string, segs: seq<Segment>)
    ensures IsSegmentation(text, segs) <==> segs == Segments(text)
    decreases |text|
  {
    SegmentsAreSegmentation(text);
    if IsSegmentation(text, segs) && segs != [] {
      var rest := segs[1..];
      assert segs == [segs[0]] + rest;
      FirstIsHead(text, segs);
      assert text[|segs[0].value|..] == Concat(rest);
      forall i | 0 <= i < |rest|
        ensures GoodAt(rest, i)
      {
        GoodShift(segs[0], rest, i);
      }
      SegmentationIsUnique(Concat(rest), rest);
    }
  }

  /** Any segmentation starts with the head of the text. */
  lemma FirstIsHead(text: string, segs: seq<Segment>)
    requires IsSegmentation(text, segs) && segs != []
    ensures text != [] && segs[0] == Head(text)
  {
    var v, rest := segs[0].value, segs[1..];
    assert GoodAt(segs, 0);
    assert text == v + Concat(rest);
    assert text[..|v|] == v;
    if rest == [] {
      assert text == v;
    } else if segs[0].kind == Text {
      assert text[|v|] == rest[0].value[0];
    }
    if segs[0].kind == Marker {
      MarkerHead(text, |v| - 1);
    } else if IsOpener(v[0]) {
      UnclosedHead(text);
    } else {
      TextHead(text, |v|);
    }
  }

  lemma MarkerHead(text: string, k: nat)
    requires 1 <= k < |text| && IsOpener(text[0]) && IsCloser(text[0], text[k])
    requires Unclosed(text, k)
    ensures Head(text) == Segment(Marker, text[..k + 1])
  {
    assert NextCloser(text, 1, text[0]) == k;
  }

  lemma UnclosedHead(text: string)
    requires text != [] && IsOpener(text[0]) && Unclosed(text, |text|)
    ensures Head(text) == Segment(Text, text)
  {
    assert NextCloser(text, 1, text[0]) == |text|;
  }

  lemma TextHead(text: string, k: nat)
    requires 0 < k <= |text| && (forall j :: 0 <= j < k ==> !IsOpener(text[j])) && (k < |text| ==> IsOpener(text[k]))
    ensures Head(text) == Segment(Text, text[..k])
  {
    assert NextOpener(text, 0) == k;
  }

  // ---- The loop ----

  /** The cuts above, at an offset of the text the loop scans. */
  lemma TextBorder(text: string, lo: nat, hi: nat)
    requires lo < hi <= |text| && (hi < |text| ==> IsOpener(text[hi]))
    requires forall j :: lo <= j < hi ==> !IsOpener(text[j])
    ensures Segments(text[lo..]) == [Segment(Text, text[lo..hi])] + Segments(text[hi..])
  {
    var rest := text[lo..];
    TextHead(rest, hi - lo);
    assert rest[..hi - lo] == text[lo..hi] && rest[hi - lo..] == text[hi..];
  }

  lemma MarkerBorder(text: string, lo: nat, hi: nat)
    requires lo < hi < |text| && IsOpener(text[lo]) && IsCloser(text[lo], text[hi])
    requires forall j :: lo < j < hi ==> !IsCloser(text[lo], text[j])
    ensures Segments(text[lo..]) == [Segment(Marker, text[lo..hi + 1])] + Segments(text[hi + 1..])
  {
    var rest := text[lo..];
    MarkerHead(rest, hi - lo);
    assert rest[..hi - lo + 1] == text[lo..hi + 1] && rest[hi - lo + 1..] == text[hi + 1..];
  }

  /** `done` followed by the segmentation of the text from `lo` on is the whole segmentation. */
  ghost predicate DoneUpTo(text: string, segs: seq<Segment>, lo: int) {
    0 <= lo <= |text| && segs + Segments(text[lo..]) == Segments(text)
  }

  lemma Push(text: string, segs: seq<Segment>, seg: Segment, lo: nat, hi: nat)
    requires DoneUpTo(text, segs, lo) && hi <= |text|
    requires Segments(text[lo..]) == [seg] + Segments(text[hi..])
    ensures DoneUpTo(text, segs + [seg], hi)
  {
    assert segs + ([seg] + Segments(text[hi..])) == (segs + [seg]) + Segments(text[hi..]);
  }

  method SegmentizeMarkers(text: string) returns (segs: seq<Segment>)
    ensures segs == Segments(text)
    ensures IsSegmentation(text, segs)
  {
    hide Segments, Concat, GoodAt;
    segs := [];
    var inMarker := false;
    var opener := '\0';
    var lastBorder := 0;
    var cur := 0;
    assert DoneUpTo(text, segs, 0) by {
      assert text[0..] == text;
    }
    while cur < |text|
      invariant lastBorder <= cur <= |text|
      invariant DoneUpTo(text, segs, lastBorder)
      invariant !inMarker ==> forall j :: lastBorder <= j < cur ==> !IsOpener(text[j])
      invariant inMarker ==> lastBorder < cur && opener == text[lastBorder] && IsOpener(opener)
      invariant inMarker ==> forall j :: lastBorder < j < cur ==> !IsCloser(opener, text[j])
    {
      if !inMarker && IsOpener(text[cur]) {
        if lastBorder < cur {
          TextBorder(text, lastBorder, cur);
          Push(text, segs, Segment(Text, text[lastBorder..cur]), lastBorder, cur);
          segs := segs + [Segment(Text, text[lastBorder..cur])];
        }
        lastBorder := cur;
        inMarker := true;
        opener := text[cur];
      } else if inMarker && IsCloser(opener, text[cur]) {
        MarkerBorder(text, lastBorder, cur);
        Push(text, segs, Segment(Marker, text[lastBorder..cur + 1]), lastBorder, cur + 1);
        segs := segs + [Segment(Marker, text[lastBorder..cur + 1])];
        lastBorder := cur + 1;
        inMarker := false;
        opener := '\0';
      }
      cur := cur + 1;
    }
    if lastBorder < |text| {
      LastBorder(text, lastBorder);
      Push(text, segs, Segment(Text, text[lastBorder..]), lastBorder, |text|);
      segs := segs + [Segment(Text, text[lastBorder..])];
    }
    AllDone(text, segs);
    SegmentsAreSegmentation(text);
  }

  lemma AllDone(text: string, segs: seq<Segment>)
    requires DoneUpTo(text, segs, |text|)
    ensures segs == Segments(text)
  {
    assert text[|text|..] == [];
    assert segs + [] == segs;
  }

  lemma LastBorder(text: string, lo: nat)
    requires lo < |text|
    requires (forall j :: lo <= j < |text| ==> !IsOpener(text[j])) ||
             (IsOpener(text[lo]) && forall j :: lo < j < |text| ==> !IsCloser(text[lo], text[j]))
    ensures Segments(text[lo..]) == [Segment(Text, text[lo..])] + Segments(text[|text|..])
  {
    var rest := text[lo..];
    if IsOpener(text[lo]) {
      UnclosedHead(rest);
    } else {
      TextHead(rest, |rest|);
      assert rest[..|rest|] == rest;
    }
    assert rest[|rest|..] == text[|text|..];
  }
}
