/**
 * What the fireworks canvas draws for one character at one moment: which
 * phrase is showing, whether the character's firework is inside its time
 * window, where it sits, and whether it is still a rising rocket or already
 * an explosion. Time `t` is in milliseconds since the fireworks started
 * (after the tree's delay), so it is never negative.
 */
module FireworksChoreography {
  import opened FireworksGlyph
  import opened FireworksText

  /** Length of one phrase's window, in milliseconds. */
  const Duration: real := 6300.0
  /** Fraction of a firework's window spent as a rising rocket. */
  const RocketPhaseRatio: real := 0.15
  /** Delay between successive characters of a single-line phrase, in milliseconds. */
  const StaggerStep: real := 200.0
  /** Height of the anchor line, as a fraction of the canvas height. */
  const Anchor: real := 0.75
  /** Distance between the lines of a multi-line phrase, as a fraction of the canvas height. */
  const LineSpacing: real := 0.20

  /** The record `makeChars` stores per character: its particles and its line. */
  datatype CharFirework = CharFirework(particles: seq<Point>, lineIndex: nat, totalLines: nat)

  /** What `firework` draws: nothing, the rocket, or the explosion of character `index`. */
  datatype Shot =
    | Dark
    | Rocket(x: real, y: real, id: int, progress: real)
    | Explosion(index: nat, x: real, y: real, id: int, progress: real)

  /** The phrase showing at time `t` among `count` phrases: `parseInt(t / duration) % str.length`. */
  function PhraseIndex(t: real, count: nat): (k: nat)
    requires t >= 0.0 && count > 0
    ensures k < count
  {
    (t / Duration).Floor % count
  }

  /** Time since the current phrase's window opened: `t % duration`. */
  function CycleTime(t: real): (c: real)
    requires t >= 0.0
    ensures 0.0 <= c < Duration
  {
    var q := t / Duration;
    assert q * Duration == t;
    t - Duration * q.Floor as real
  }

  lemma FloorIs(q: real, n: int)
    requires n as real <= q < n as real + 1.0
    ensures q.Floor == n
  {
  }

  /** Inside the n-th window, the phrase is the n-th in the cycle and the clock restarts at the window's start. */
  lemma PhraseInWindow(t: real, n: nat, count: nat)
    requires count > 0
    requires n as real * Duration <= t < (n + 1) as real * Duration
    ensures PhraseIndex(t, count) == n % count
    ensures CycleTime(t) == t - n as real * Duration
  {
    var q := t / Duration;
    assert q * Duration == t;
    assert n as real <= q < n as real + 1.0;
    FloorIs(q, n);
  }

  /** The phrases cycle for ever, with period `duration * str.length`. */
  lemma PhrasePeriodic(t: real, count: nat)
    requires t >= 0.0 && count > 0
    ensures PhraseIndex(t + Duration * count as real, count) == PhraseIndex(t, count)
    ensures CycleTime(t + Duration * count as real) == CycleTime(t)
  {
    var q := t / Duration;
    assert q * Duration == t;
    var n := q.Floor;
    assert n >= 0;
    PhraseInWindow(t, n, count);
    var later := t + Duration * count as real;
    assert (n + count) as real * Duration <= later < (n + count + 1) as real * Duration;
    PhraseInWindow(later, n + count, count);
    ModShift(n, count);
  }

  lemma ModShift(n: nat, count: nat)
    requires count > 0
    ensures (n + count) % count == n % count
  {
    ModUnique(n + count, count, n / count + 1, n % count);
  }

  /** The remainder is the only `r` in [0, d) with `a == d * q + r` for some `q`. */
  lemma ModUnique(a: int, d: int, q: int, r: int)
    requires d > 0 && 0 <= r < d && a == d * q + r
    ensures a % d == r
  {
    var x := q - a / d;
    assert d * x == a % d - r;
    MultipleBound(d, x);
  }

  /** A non-zero multiple of `d` is at least `d` away from zero. */
  lemma {:induction false} MultipleBound(d: int, x: int)
    requires d > 0
    ensures x == 0 || d * x >= d || d * x <= -d
    decreases if x < 0 then -x else x
  {
    if x > 1 {
      MultipleBound(d, x - 1);
      assert d * x == d * (x - 1) + d;
    } else if x < -1 {
      MultipleBound(d, x + 1);
      assert d * x == d * (x + 1) - d;
    }
  }

  /** Delay of character `i`'s firework: none in a multi-line phrase, 200 ms per character otherwise. */
  function StaggerDelay(texts: Texts, phrase: nat, i: nat): real
    requires phrase < |texts.phrases|
  {
    if IsMultiline(texts.multiline, texts.phrases[phrase]) then 0.0 else i as real * StaggerStep
  }

  /** The phrase showing at time `t`, by its index in the table. */
  function Showing(texts: Texts, t: real): (k: nat)
    requires t >= 0.0 && texts.phrases != []
    ensures k < |texts.phrases|
  {
    PhraseIndex(t, |texts.phrases|)
  }

  /** Line index of each stored character, in order. */
  function LinesOf(chars: seq<CharFirework>): (ls: seq<nat>)
    ensures |ls| == |chars|
    ensures forall k :: 0 <= k < |chars| ==> ls[k] == chars[k].lineIndex
  {
    if chars == [] then [] else LinesOf(chars[..|chars| - 1]) + [chars[|chars| - 1].lineIndex]
  }

  /**
   * With the phrases the effect starts with, the phrase index runs through
   * 0, 1, 2 in turn, and only 'I LOVE YOU' (index 2) ignites all its
   * characters together.
   */
  lemma GreetingsStagger(t: real, i: nat)
    requires t >= 0.0
    ensures Showing(Greetings, t) == (t / Duration).Floor % 3
    ensures StaggerDelay(Greetings, Showing(Greetings, t), i)
      == if Showing(Greetings, t) == 2 then 0.0 else i as real * StaggerStep
  {
    GreetingsMultiline();
  }

  /** Horizontal slot `k` of `n` across a canvas `w` wide: `(k + 1) * w / (n + 1)`. */
  function SlotX(k: nat, n: nat, w: real): real {
    (k + 1) as real * w / (n + 1) as real
  }

  /** Position of line `lineIndex` relative to the middle of `totalLines` lines. */
  function LinePosition(lineIndex: nat, totalLines: nat): real {
    lineIndex as real - (totalLines - 1) as real / 2.0
  }

  /** Vertical offset of a line: none for a single line, otherwise `LineSpacing * h` per line from the middle. */
  function LineOffset(lineIndex: nat, totalLines: nat, h: real): real {
    if totalLines > 1 then LinePosition(lineIndex, totalLines) * (LineSpacing * h) else 0.0
  }

  /** Height (measured up from the bottom) at which a line's fireworks explode. */
  function LineY(lineIndex: nat, totalLines: nat, h: real): real {
    h * Anchor + LineOffset(lineIndex, totalLines, h)
  }

  function Clamp01(x: real): real {
    if x > 1.0 then 1.0 else if x < 0.0 then 0.0 else x
  }

  /**
   * `firework(t, i, ...)`: character `i` of `chars` at time `t` on a canvas
   * `w` by `h`. The sine jitter of the position is left out.
   */
  function Firework(texts: Texts, t: real, i: nat, chars: seq<CharFirework>, w: real, h: real): (s: Shot)
    requires t >= 0.0 && texts.phrases != [] && i < |chars|
    ensures s != Dark <==> StaggerDelay(texts, Showing(texts, t), i) <= CycleTime(t)
    ensures s.Rocket? ==> 0.0 <= s.progress < 1.0
    ensures s.Explosion? ==> 0.0 <= s.progress <= 1.0 && s.index == i
    ensures s != Dark && w > 0.0 ==> 0.0 < s.x < w
    ensures s != Dark ==> s.y == LineY(chars[i].lineIndex, chars[i].totalLines, h)
  {
    var phrase := Showing(texts, t);
    var fireworkTime := CycleTime(t) - StaggerDelay(texts, phrase, i);
    if fireworkTime < 0.0 || fireworkTime > Duration then Dark
    else
      var id := i + |chars| * phrase;
      var normalizedTime := fireworkTime / Duration;
      var ls := LinesOf(chars);
      var dx := SlotX(CountOnLine(ls[..i], ls[i]), CountOnLine(ls, ls[i]), w);
      var dy := LineY(chars[i].lineIndex, chars[i].totalLines, h);
      IndexOnLineBelowCount(ls, i);
      SlotInside(CountOnLine(ls[..i], ls[i]), CountOnLine(ls, ls[i]), w);
      if normalizedTime < RocketPhaseRatio then
        Rocket(dx, dy, id, normalizedTime / RocketPhaseRatio)
      else
        Explosion(i, dx, dy, id, Clamp01((normalizedTime - RocketPhaseRatio) / (1.0 - RocketPhaseRatio)))
  }

  /** In a single-line phrase, character `i` stays dark until `200 * i` ms into the phrase's window. */
  lemma StaggeredIgnition(texts: Texts, t: real, i: nat, chars: seq<CharFirework>, w: real, h: real)
    requires t >= 0.0 && texts.phrases != [] && i < |chars|
    requires !IsMultiline(texts.multiline, texts.phrases[Showing(texts, t)])
    ensures Firework(texts, t, i, chars, w, h) == Dark <==> CycleTime(t) < i as real * StaggerStep
  {
  }

  /** In a multi-line phrase, every character is lit for the whole window. */
  lemma MultilineIgnitesTogether(texts: Texts, t: real, i: nat, chars: seq<CharFirework>, w: real, h: real)
    requires t >= 0.0 && texts.phrases != [] && i < |chars|
    requires IsMultiline(texts.multiline, texts.phrases[Showing(texts, t)])
    ensures Firework(texts, t, i, chars, w, h) != Dark
  {
  }

  /** Fraction of its window the firework of character `i` has used at time `t`. */
  function NormalizedTime(texts: Texts, t: real, i: nat): real
    requires t >= 0.0 && texts.phrases != []
  {
    (CycleTime(t) - StaggerDelay(texts, Showing(texts, t), i)) / Duration
  }

  /**
   * The rocket is drawn exactly while under 15% of the window has passed, its
   * parameter rising from 0 towards 1; after that the explosion is drawn with
   * parameter `(n - 0.15) / 0.85`, which never needs its clamp, and which
   * starts at 0 where the rocket ends.
   */
  lemma PhaseSplit(texts: Texts, t: real, i: nat, chars: seq<CharFirework>, w: real, h: real)
    requires t >= 0.0 && texts.phrases != [] && i < |chars|
    requires Firework(texts, t, i, chars, w, h) != Dark
    ensures var s := Firework(texts, t, i, chars, w, h);
      && 0.0 <= NormalizedTime(texts, t, i) < 1.0
      && (s.Rocket? <==> NormalizedTime(texts, t, i) < RocketPhaseRatio)
      && (s.Rocket? ==> s.progress * RocketPhaseRatio == NormalizedTime(texts, t, i))
      && (s.Explosion? ==> s.progress * (1.0 - RocketPhaseRatio) == NormalizedTime(texts, t, i) - RocketPhaseRatio)
  {
    var n := NormalizedTime(texts, t, i);
    assert n * Duration == CycleTime(t) - StaggerDelay(texts, Showing(texts, t), i);
  }

  /** Slot `k` of `n` lies strictly inside the canvas. */
  lemma SlotInside(k: nat, n: nat, w: real)
    requires k < n
    ensures w > 0.0 ==> 0.0 < SlotX(k, n, w) < w
  {
    var a, b := (k + 1) as real, (n + 1) as real;
    assert 0.0 < a < b;
    assert SlotX(k, n, w) * b == a * w;
    if w > 0.0 {
      assert a * w < b * w;
    }
  }

  /** Slots move strictly rightwards as `k` grows. */
  lemma SlotsIncrease(k1: nat, k2: nat, n: nat, w: real)
    requires k1 < k2 && w > 0.0
    ensures SlotX(k1, n, w) < SlotX(k2, n, w)
  {
    var a1, a2, b := (k1 + 1) as real, (k2 + 1) as real, (n + 1) as real;
    assert SlotX(k1, n, w) * b == a1 * w;
    assert SlotX(k2, n, w) * b == a2 * w;
    assert a1 * w < a2 * w;
  }

  /** Of two lit characters on the same line, the later one sits strictly further right. */
  lemma LaterCharactersFurtherRight(texts: Texts, t: real, i: nat, j: nat, chars: seq<CharFirework>, w: real, h: real)
    requires t >= 0.0 && texts.phrases != [] && i < j < |chars| && w > 0.0
    requires chars[i].lineIndex == chars[j].lineIndex
    requires Firework(texts, t, i, chars, w, h) != Dark && Firework(texts, t, j, chars, w, h) != Dark
    ensures Firework(texts, t, i, chars, w, h).x < Firework(texts, t, j, chars, w, h).x
  {
    var ls := LinesOf(chars);
    EarlierOnLineFirst(ls, i, j);
    SlotsIncrease(CountOnLine(ls[..i], ls[i]), CountOnLine(ls[..j], ls[j]), CountOnLine(ls, ls[i]), w);
  }

  /** Sum of the line offsets of lines `0..count` of `totalLines`. */
  function SumOffsets(count: nat, totalLines: nat, h: real): real {
    if count == 0 then 0.0 else SumOffsets(count - 1, totalLines, h) + LineOffset(count - 1, totalLines, h)
  }

  function SumPositions(count: nat, totalLines: nat): real {
    if count == 0 then 0.0 else SumPositions(count - 1, totalLines) + LinePosition(count - 1, totalLines)
  }

  lemma {:induction false} SumPositionsClosed(count: nat, totalLines: nat)
    ensures SumPositions(count, totalLines) * 2.0 == (count as real) * (count as real - totalLines as real)
  {
    if count > 0 {
      SumPositionsClosed(count - 1, totalLines);
    }
  }

  lemma {:induction false} SumOffsetsScaled(count: nat, totalLines: nat, h: real)
    requires totalLines > 1
    ensures SumOffsets(count, totalLines, h) == SumPositions(count, totalLines) * (LineSpacing * h)
  {
    if count > 0 {
      SumOffsetsScaled(count - 1, totalLines, h);
    }
  }

  /** The lines of a multi-line phrase are centred on the anchor: their offsets cancel out. */
  lemma LineOffsetsCancel(totalLines: nat, h: real)
    ensures SumOffsets(totalLines, totalLines, h) == 0.0
  {
    if totalLines > 1 {
      SumPositionsClosed(totalLines, totalLines);
      SumOffsetsScaled(totalLines, totalLines, h);
    } else if totalLines == 1 {
      assert SumOffsets(1, 1, h) == SumOffsets(0, 1, h) + LineOffset(0, 1, h);
    }
  }

  /** Lines the same distance above and below the middle get opposite offsets. */
  lemma LineOffsetsSymmetric(lineIndex: nat, totalLines: nat, h: real)
    requires lineIndex < totalLines
    ensures LineOffset(lineIndex, totalLines, h) == -LineOffset(totalLines - 1 - lineIndex, totalLines, h)
  {
  }
}
