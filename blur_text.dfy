/**
  The BlurText component: the text is cut into word or letter segments, and each
  segment is a span whose style depends only on whether the component has been
  seen and on the segment's index. The IntersectionObserver callback is an event
  carrying the first entry's `isIntersecting`; CSS transitions are not animated,
  only their parameters are computed. Characters are Unicode scalar values, so
  letter mode matches the browser only for text inside the Basic Multilingual Plane.
 */
module BlurText {

  datatype AnimateBy = Words | Letters
  datatype Direction = Top | Bottom

  const DefaultDelay: int := 50
  const DefaultAnimateBy: AnimateBy := Words
  const DefaultDirection: Direction := Top
  /** The no-break space placed after every word but the last. */
  const Nbsp: char := '\U{A0}'
  const TransitionMs: nat := 500
  const HiddenBlurPx: nat := 10
  const HiddenOffsetPx: nat := 20

  /** JavaScript's `s.split(sep)` for a one-character separator. */
  function Split(s: string, sep: char): (parts: seq<string>)
    ensures |parts| >= 1
    ensures forall k :: 0 <= k < |parts| ==> sep !in parts[k]
  {
    if s == [] then [[]]
    else
      var rest := Split(s[1..], sep);
      if s[0] == sep then [[]] + rest
      else [[s[0]] + rest[0]] + rest[1..]
  }

  /** JavaScript's `parts.join(glue)` for a one-character glue. */
  function Join(parts: seq<string>, glue: char): string {
    if parts == [] then []
    else if |parts| == 1 then parts[0]
    else parts[0] + [glue] + Join(parts[1..], glue)
  }

  /** `s` with every `from` replaced by `to`. */
  function Replace(s: string, from: char, to: char): (r: string)
    ensures |r| == |s|
  {
    if s == [] then [] else [if s[0] == from then to else s[0]] + Replace(s[1..], from, to)
  }

  /** Splitting on a character and joining with another replaces the one by the other. */
  lemma {:induction false} JoinSplit(s: string, sep: char, glue: char)
    ensures Join(Split(s, sep), glue) == Replace(s, sep, glue)
  {
    if s != [] {
      JoinSplit(s[1..], sep, glue);
      var rest := Split(s[1..], sep);
      if s[0] != sep && |rest| > 1 {
        assert Join(rest, glue) == rest[0] + [glue] + Join(rest[1..], glue);
        assert ([[s[0]] + rest[0]] + rest[1..])[1..] == rest[1..];
      } else if s[0] == sep {
        assert ([[]] + rest)[1..] == rest;
      }
    }
  }

  lemma {:induction false} ReplaceSame(s: string, c: char)
    ensures Replace(s, c, c) == s
  {
    if s != [] { ReplaceSame(s[1..], c); }
  }

  /** Word mode: joining the segments with a space gives the text back. */
  lemma SplitRoundTrip(s: string)
    ensures Join(Split(s, ' '), ' ') == s
  {
    JoinSplit(s, ' ', ' ');
    ReplaceSame(s, ' ');
  }

  /** JavaScript's `s.split("")`: one segment per character, in order; none for the empty text. */
  function LetterSegments(s: string): (parts: seq<string>)
    ensures |parts| == |s|
    ensures forall k :: 0 <= k < |s| ==> parts[k] == [s[k]]
  {
    seq(|s|, k requires 0 <= k < |s| => [s[k]])
  }

  /**
    The memoised `segments` of the component: in word mode pieces without a
    space that join back to the text, in letter mode one piece per character.
   */
  function Segments(text: string, animateBy: AnimateBy): (parts: seq<string>)
    ensures animateBy == Words ==> |parts| >= 1 && Join(parts, ' ') == text && forall k :: 0 <= k < |parts| ==> ' ' !in parts[k]
    ensures animateBy == Letters ==> |parts| == |text| && forall k :: 0 <= k < |text| ==> parts[k] == [text[k]]
  {
    if animateBy == Words then SplitRoundTrip(text); Split(text, ' ') else LetterSegments(text)
  }

  /** The transition delay of segment `i`: `i * delay` milliseconds. */
  function DelayMs(i: nat, delay: int): (ms: int)
    ensures i == 0 ==> ms == 0
    ensures delay >= 0 ==> ms >= 0
  {
    i * delay
  }

  /** The first segment starts at once, and with a positive delay each later one starts later. */
  lemma DelayStaggered(i: nat, j: nat, delay: int)
    ensures DelayMs(0, delay) == 0
    ensures i < j && delay > 0 ==> DelayMs(i, delay) < DelayMs(j, delay)
    ensures DelayMs(j, delay) - DelayMs(i, delay) == (j - i) * delay
  {
    assert j * delay - i * delay == (j - i) * delay;
    if i < j && delay > 0 {
      assert (j - i) * delay > 0;
    }
  }

  /** The inline style of one span: blur, opacity, vertical offset and transition. */
  datatype SegmentStyle = SegmentStyle(blurPx: nat, opacity: nat, translateYPx: int, transitionMs: nat, delayMs: int)

  /**
    Shown segments are sharp, opaque and in place; hidden ones are blurred,
    transparent and 20px above (direction top) or below (bottom); every segment
    takes 500ms and its delay does not depend on visibility.
   */
  function StyleOf(inView: bool, direction: Direction, i: nat, delay: int): (st: SegmentStyle)
    ensures inView ==> st.blurPx == 0 && st.opacity == 1 && st.translateYPx == 0
    ensures !inView ==> st.blurPx == 10 && st.opacity == 0
    ensures !inView ==> st.translateYPx == (if direction == Top then -20 else 20)
    ensures st.transitionMs == 500 && st.delayMs == DelayMs(i, delay)
  {
    if inView then SegmentStyle(0, 1, 0, TransitionMs, DelayMs(i, delay))
    else SegmentStyle(HiddenBlurPx, 0, if direction == Top then -(HiddenOffsetPx as int) else HiddenOffsetPx,
                      TransitionMs, DelayMs(i, delay))
  }

  /** The text after segment `i` of `n`: a no-break space after every word but the last. */
  function Suffix(animateBy: AnimateBy, i: nat, n: nat): (r: string)
    ensures r == [Nbsp] || r == []
    ensures r == [Nbsp] <==> animateBy == Words && i + 1 < n
  {
    if animateBy == Words && i < n - 1 then [Nbsp] else []
  }

  datatype Span = Span(segment: string, suffix: string, style: SegmentStyle)

  /** The spans the component renders. */
  function Render(text: string, delay: int, animateBy: AnimateBy, direction: Direction, inView: bool): (r: seq<Span>)
    ensures |r| == |Segments(text, animateBy)|
    ensures forall i :: 0 <= i < |r| ==> r[i].segment == Segments(text, animateBy)[i]
    ensures forall i :: 0 <= i < |r| ==> r[i].style.delayMs == i * delay
    ensures forall i :: 0 <= i < |r| ==> r[i].style == StyleOf(inView, direction, i, delay)
    ensures forall i :: 0 <= i < |r| ==> r[i].suffix == Suffix(animateBy, i, |r|)
  {
    var segments := Segments(text, animateBy);
    seq(|segments|, i requires 0 <= i < |segments| =>
      Span(segments[i], Suffix(animateBy, i, |segments|), StyleOf(inView, direction, i, delay)))
  }

  /** The characters the spans show, in order. */
  function Shown(spans: seq<Span>): string {
    if spans == [] then [] else spans[0].segment + spans[0].suffix + Shown(spans[1..])
  }

  lemma {:induction false} ShownWords(spans: seq<Span>, parts: seq<string>)
    requires |parts| >= 1 && |spans| == |parts|
    requires forall i :: 0 <= i < |spans| ==> spans[i].segment == parts[i]
    requires forall i :: 0 <= i < |spans| ==> spans[i].suffix == (if i < |parts| - 1 then [Nbsp] else [])
    ensures Shown(spans) == Join(parts, Nbsp)
  {
    if |parts| > 1 {
      ShownWords(spans[1..], parts[1..]);
    }
  }

  lemma {:induction false} ShownLetters(spans: seq<Span>, s: string)
    requires |spans| == |s|
    requires forall i :: 0 <= i < |spans| ==> spans[i].segment == [s[i]] && spans[i].suffix == []
    ensures Shown(spans) == s
  {
    if s != [] {
      ShownLetters(spans[1..], s[1..]);
    }
  }

  /**
    What a reader sees: in word mode the text with every space turned into a
    no-break space, in letter mode the text itself.
   */
  lemma RenderedText(text: string, delay: int, direction: Direction, inView: bool)
    ensures Shown(Render(text, delay, Words, direction, inView)) == Replace(text, ' ', Nbsp)
    ensures Shown(Render(text, delay, Letters, direction, inView)) == text
  {
    ShownWords(Render(text, delay, Words, direction, inView), Split(text, ' '));
    JoinSplit(text, ' ', Nbsp);
    ShownLetters(Render(text, delay, Letters, direction, inView), text);
  }

  /** The visibility after a series of observer callbacks. */
  function AfterCallbacks(inView: bool, entries: seq<bool>): bool
    decreases entries
  {
    if entries == [] then inView else AfterCallbacks(inView || entries[0], entries[1..])
  }

  /** A revealed component stays revealed, and it is revealed once any entry intersected. */
  lemma {:induction false} RevealIsPermanent(inView: bool, entries: seq<bool>)
    ensures AfterCallbacks(inView, entries) <==> inView || true in entries
    decreases entries
  {
    if entries != [] {
      RevealIsPermanent(inView || entries[0], entries[1..]);
      assert entries == [entries[0]] + entries[1..];
    }
  }

  /** One mounted BlurText: its props and its `inView` state. */
  class BlurTextView {
    const text: string
    const delay: int
    const animateBy: AnimateBy
    const direction: Direction
    var inView: bool

    constructor (text: string, delay: int, animateBy: AnimateBy, direction: Direction)
      ensures this.text == text && this.delay == delay
      ensures this.animateBy == animateBy && this.direction == direction
      ensures !inView
    {
      this.text := text;
      this.delay := delay;
      this.animateBy := animateBy;
      this.direction := direction;
      inView := false;
    }

    /** A BlurText given only its text: 50ms per segment, by words, from the top. */
    constructor WithDefaults(text: string)
      ensures this.text == text && delay == DefaultDelay
      ensures animateBy == DefaultAnimateBy && direction == DefaultDirection
      ensures !inView
    {
      this.text := text;
      delay := DefaultDelay;
      animateBy := DefaultAnimateBy;
      direction := DefaultDirection;
      inView := false;
    }

    /** The observer callback: an intersecting entry reveals the text; nothing hides it again. */
    method OnIntersection(isIntersecting: bool)
      modifies this
      ensures inView == AfterCallbacks(old(inView), [isIntersecting])
      ensures old(inView) ==> inView
    {
      if isIntersecting {
        inView := true;
      }
    }

    /** The rendered spans: they read as the text (spaces kept as no-break spaces), hidden until revealed. */
    function Spans(): (r: seq<Span>)
      reads this
      ensures Shown(r) == if animateBy == Words then Replace(text, ' ', Nbsp) else text
      ensures forall i :: 0 <= i < |r| ==> (r[i].style.opacity == 1 <==> inView)
    {
      RenderedText(text, delay, direction, inView);
      Render(text, delay, animateBy, direction, inView)
    }
  }
}
