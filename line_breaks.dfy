/**
 * The `renderMathJaxWithLineBreaks` helper that app/quiz/Question.tsx and
 * app/quiz/Result.tsx both define: `text.split(/<br>/i)`, then one fragment
 * per segment, each followed by a `<br />` element except the last.
 * MathJax typesetting of a segment is not modelled; a fragment keeps the
 * segment's text.
 */
module LineBreaks {
  import Js

  /** A `<br>` tag, in any letter case, starts at position `i` (what `/<br>/i` matches). */
  predicate BreakAt(text: string, i: nat) {
    i + 4 <= |text| && text[i] == '<' && (text[i + 1] == 'b' || text[i + 1] == 'B')
    && (text[i + 2] == 'r' || text[i + 2] == 'R') && text[i + 3] == '>'
  }

  predicate IsBreak(d: string) {
    BreakAt(d, 0) && |d| == 4
  }

  /** No `<br>` in any letter case occurs in `s`. */
  predicate BreakFree(s: string) {
    forall i :: 0 <= i < |s| ==> !BreakAt(s, i)
  }

  /**
   * `text.split(/<br>/i)`: the pieces between successive matches, scanning
   * left to right; an empty text, or a match at either end, gives empty pieces.
   */
  function Split(text: string): (segments: seq<string>)
    ensures |segments| >= 1
    decreases |text|
  {
    if text == [] then [[]]
    else if BreakAt(text, 0) then [[]] + Split(text[4..])
    else
      var rest := Split(text[1..]);
      [[text[0]] + rest[0]] + rest[1..]
  }

  /** The matched delimiters, as written in the text, in order. */
  function Delimiters(text: string): (ds: seq<string>)
    decreases |text|
  {
    if text == [] then []
    else if BreakAt(text, 0) then [text[..4]] + Delimiters(text[4..])
    else Delimiters(text[1..])
  }

  /** `s0 + d0 + s1 + d1 + ... + sn`. */
  function Interleave(segments: seq<string>, delimiters: seq<string>): string
    requires |segments| == |delimiters| + 1
    decreases |delimiters|
  {
    if delimiters == [] then segments[0]
    else segments[0] + delimiters[0] + Interleave(segments[1..], delimiters[1..])
  }

  lemma InterleavePrefix(c: char, segments: seq<string>, delimiters: seq<string>)
    requires |segments| == |delimiters| + 1
    ensures Interleave([[c] + segments[0]] + segments[1..], delimiters) == [c] + Interleave(segments, delimiters)
  {
    var segs := [[c] + segments[0]] + segments[1..];
    assert segs[1..] == segments[1..];
  }

  lemma {:induction false} SplitCount(text: string)
    ensures |Split(text)| == |Delimiters(text)| + 1
    decreases |text|
  {
    if text == [] {
    } else if BreakAt(text, 0) {
      SplitCount(text[4..]);
    } else {
      SplitCount(text[1..]);
    }
  }

  lemma {:induction false} DelimitersAreBreaks(text: string)
    ensures forall k :: 0 <= k < |Delimiters(text)| ==> IsBreak(Delimiters(text)[k])
    decreases |text|
  {
    if text == [] {
    } else if BreakAt(text, 0) {
      DelimitersAreBreaks(text[4..]);
      var ds := Delimiters(text);
      assert ds == [text[..4]] + Delimiters(text[4..]);
    } else {
      DelimitersAreBreaks(text[1..]);
    }
  }

  /** Splitting loses nothing: the segments with the matched delimiters between them are the text. */
  lemma {:induction false} SplitReassembles(text: string)
    ensures |Split(text)| == |Delimiters(text)| + 1
    ensures forall k :: 0 <= k < |Delimiters(text)| ==> IsBreak(Delimiters(text)[k])
    ensures Interleave(Split(text), Delimiters(text)) == text
    decreases |text|
  {
    SplitCount(text);
    DelimitersAreBreaks(text);
    if text == [] {
    } else if BreakAt(text, 0) {
      var t := text[4..];
      SplitReassembles(t);
      assert Split(text) == [[]] + Split(t);
      assert Delimiters(text) == [text[..4]] + Delimiters(t);
      assert Interleave(Split(text), Delimiters(text)) == text[..4] + Interleave(Split(t), Delimiters(t)) by {
        assert Split(text)[1..] == Split(t);
        assert Delimiters(text)[1..] == Delimiters(t);
      }
      assert text == text[..4] + t;
    } else {
      var t := text[1..];
      SplitReassembles(t);
      InterleavePrefix(text[0], Split(t), Delimiters(t));
      assert text == [text[0]] + t;
    }
  }

  /** Every segment is free of `<br>`, and the first one is a prefix of the text. */
  lemma {:induction false} SegmentsBreakFree(text: string)
    ensures Split(text)[0] <= text
    ensures forall k :: 0 <= k < |Split(text)| ==> BreakFree(Split(text)[k])
    decreases |text|
  {
    if text == [] {
    } else if BreakAt(text, 0) {
      SegmentsBreakFree(text[4..]);
      var segs := Split(text);
      forall k | 0 <= k < |segs| ensures BreakFree(segs[k]) {
        if k > 0 { assert segs[k] == Split(text[4..])[k - 1]; }
      }
    } else {
      SegmentsBreakFree(text[1..]);
      var rest := Split(text[1..]);
      var first := [text[0]] + rest[0];
      assert first <= text by {
        assert text == [text[0]] + text[1..];
      }
      forall i | 0 <= i < |first| ensures !BreakAt(first, i) {
        if i > 0 && BreakAt(first, i) {
          assert BreakAt(rest[0], i - 1);
        }
      }
      var segs := Split(text);
      forall k | 0 <= k < |segs| ensures BreakFree(segs[k]) {
        if k > 0 { assert segs[k] == rest[k]; }
      }
    }
  }

  /** A text without `<br>` is exactly one segment, the text itself; with one, it is several. */
  lemma {:induction false} SingleSegmentIffBreakFree(text: string)
    ensures |Split(text)| == 1 <==> BreakFree(text)
    ensures BreakFree(text) ==> Split(text) == [text]
  {
    SplitReassembles(text);
    SegmentsBreakFree(text);
    if |Split(text)| == 1 {
      assert Split(text)[0] == text;
    } else {
      var d := Delimiters(text)[0];
      var s0 := Split(text)[0];
      assert text == s0 + d + Interleave(Split(text)[1..], Delimiters(text)[1..]);
      assert text[|s0|..|s0| + 4] == d;
      assert BreakAt(text, |s0|);
    }
  }

  /** The text with every matched `<br>` written in lower case. */
  function CanonicalBreaks(text: string): (r: string)
    decreases |text|
  {
    if text == [] then []
    else if BreakAt(text, 0) then "<br>" + CanonicalBreaks(text[4..])
    else [text[0]] + CanonicalBreaks(text[1..])
  }

  /** `b` equals `a` except that some upper-case letters of `a` are lower case in `b`. */
  predicate SameUpToCase(a: string, b: string) {
    |a| == |b| &&
    forall i :: 0 <= i < |a| ==> a[i] == b[i] || ('A' <= a[i] <= 'Z' && b[i] as int == a[i] as int + 32)
  }

  /** Every `<br>` in the text is already lower case. */
  predicate LowerCaseBreaks(text: string) {
    forall i :: 0 <= i < |text| && BreakAt(text, i) ==> text[i + 1] == 'b' && text[i + 2] == 'r'
  }

  /** Prepending a character to the first piece prepends it to the joined text. */
  lemma JoinPrepend(c: char, xs: seq<string>, sep: string)
    requires xs != []
    ensures Js.Join([[c] + xs[0]] + xs[1..], sep) == [c] + Js.Join(xs, sep)
  {
    var ys := [[c] + xs[0]] + xs[1..];
    assert ys[1..] == xs[1..];
    if |xs| > 1 {
      assert Js.Join(ys, sep) == ([c] + xs[0]) + sep + Js.Join(xs[1..], sep);
    }
  }

  lemma {:induction false} JoinIsCanonical(text: string)
    ensures Js.Join(Split(text), "<br>") == CanonicalBreaks(text)
    decreases |text|
  {
    if text == [] {
    } else if BreakAt(text, 0) {
      var rest := Split(text[4..]);
      JoinIsCanonical(text[4..]);
      assert Split(text) == [[]] + rest;
      assert ([[]] + rest)[1..] == rest;
      assert Js.Join([[]] + rest, "<br>") == "<br>" + Js.Join(rest, "<br>");
    } else {
      var rest := Split(text[1..]);
      JoinIsCanonical(text[1..]);
      assert Split(text) == [[text[0]] + rest[0]] + rest[1..];
      JoinPrepend(text[0], rest, "<br>");
    }
  }

  lemma {:induction false} CanonicalCase(text: string)
    ensures SameUpToCase(text, CanonicalBreaks(text))
    decreases |text|
  {
    if text != [] {
      var k := if BreakAt(text, 0) then 4 else 1;
      var t := text[k..];
      CanonicalCase(t);
      var c := CanonicalBreaks(text);
      assert c[k..] == CanonicalBreaks(t);
      forall i | 0 <= i < |text|
        ensures text[i] == c[i] || ('A' <= text[i] <= 'Z' && c[i] as int == text[i] as int + 32)
      {
        if i >= k { assert text[i] == t[i - k] && c[i] == CanonicalBreaks(t)[i - k]; }
      }
    }
  }

  lemma {:induction false} CanonicalIdentity(text: string)
    requires LowerCaseBreaks(text)
    ensures CanonicalBreaks(text) == text
    decreases |text|
  {
    if text != [] {
      var k := if BreakAt(text, 0) then 4 else 1;
      var t := text[k..];
      forall i | 0 <= i < |t| && BreakAt(t, i) ensures t[i + 1] == 'b' && t[i + 2] == 'r' {
        assert BreakAt(text, i + k);
      }
      CanonicalIdentity(t);
      assert text == text[..k] + t;
    }
  }

  /**
   * Joining the segments with `<br>` gives the text back, up to the letter
   * case of the delimiters; exactly when every delimiter was lower case.
   */
  lemma JoinRestoresText(text: string)
    ensures SameUpToCase(text, Js.Join(Split(text), "<br>"))
    ensures LowerCaseBreaks(text) ==> Js.Join(Split(text), "<br>") == text
  {
    JoinIsCanonical(text);
    CanonicalCase(text);
    if LowerCaseBreaks(text) {
      CanonicalIdentity(text);
    }
  }

  /** One rendered fragment: a typeset segment, followed by a `<br />` or not. */
  datatype Fragment = Fragment(segment: string, lineBreak: bool)

  function CountBreaks(fragments: seq<Fragment>): nat
    decreases |fragments|
  {
    if fragments == [] then 0
    else (if fragments[0].lineBreak then 1 else 0) + CountBreaks(fragments[1..])
  }

  /** The list of fragments `renderMathJaxWithLineBreaks(text)` returns. */
  function RenderLines(text: string): (fragments: seq<Fragment>)
  {
    var segments := Split(text);
    seq(|segments|, index requires 0 <= index < |segments| =>
      Fragment(segments[index], index < |segments| - 1))
  }

  lemma {:induction false} BreaksBetween(fragments: seq<Fragment>)
    requires fragments != []
    requires forall i :: 0 <= i < |fragments| ==> (fragments[i].lineBreak <==> i < |fragments| - 1)
    ensures CountBreaks(fragments) == |fragments| - 1
    decreases |fragments|
  {
    if |fragments| > 1 {
      BreaksBetween(fragments[1..]);
    }
  }

  /**
   * What the helper renders: one fragment per segment, in order; exactly one
   * `<br />` per `<br>` in the text, that is one fewer than the segments;
   * and a text without `<br>` is a single fragment holding the whole text.
   */
  lemma RenderLinesShape(text: string)
    ensures |RenderLines(text)| == |Split(text)|
    ensures forall i :: 0 <= i < |Split(text)| ==> RenderLines(text)[i].segment == Split(text)[i]
    ensures CountBreaks(RenderLines(text)) == |Split(text)| - 1 == |Delimiters(text)|
    ensures BreakFree(text) <==> RenderLines(text) == [Fragment(text, false)]
  {
    var r := RenderLines(text);
    BreaksBetween(r);
    SplitReassembles(text);
    SingleSegmentIffBreakFree(text);
  }
}
