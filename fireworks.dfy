/**
 * The fireworks canvas: the state its effect keeps between frames (canvas
 * size, particles per glyph, the memoised phrase and its per-character
 * particle sets) and the three operations that change it, `resize`,
 * `makeChars` and the per-frame `render`.
 */
module Fireworks {
  import opened FireworksGlyph
  import opened FireworksText
  import opened FireworksChoreography

  /** A closure variable that starts out `undefined`. */
  datatype Option<T> = None | Some(value: T)

  /** Milliseconds the fireworks wait for the tree to appear. */
  const TreeAppearDelay: real := 3000.0

  /** The per-character records `makeChars` builds, and how many draws that consumed. */
  datatype Built = Built(chars: seq<CharFirework>, used: nat)

  /** Every record carries the line tags of the slot it was built for. */
  predicate Matches(chars: seq<CharFirework>, slots: seq<Slot>) {
    && |chars| == |slots|
    && forall k :: 0 <= k < |chars| ==>
         chars[k].lineIndex == slots[k].lineIndex && chars[k].totalLines == slots[k].totalLines
  }

  /** Every particle of every record sits inside the glyph square and on its character. */
  predicate OnTheirGlyphs(chars: seq<CharFirework>, slots: seq<Slot>, glyph: (char, nat) -> seq<int>, size: nat, need: nat)
    requires |chars| == |slots|
  {
    forall k :: 0 <= k < |chars| ==>
      |chars[k].particles| <= need &&
      forall p :: p in chars[k].particles ==> InBox(p, size) && OnGlyph(glyph(slots[k].ch, size), size, p)
  }

  /**
   * The records for a layout, one `makeChar` per slot in order, each sampling
   * from the draws the previous ones left over.
   */
  function BuildChars(slots: seq<Slot>, glyph: (char, nat) -> seq<int>, size: nat, need: nat, draws: seq<Draw>): (r: Built)
    requires size > 0 && AllInUnit(draws)
    ensures r.used <= |draws| && |r.chars| == |slots|
    decreases |slots|
  {
    if slots == [] then Built([], 0)
    else
      var first := Sample(glyph(slots[0].ch, size), size, draws, need);
      assert AllInUnit(draws[first.used..]);
      var rest := BuildChars(slots[1..], glyph, size, need, draws[first.used..]);
      Built([CharFirework(first.points, slots[0].lineIndex, slots[0].totalLines)] + rest.chars, first.used + rest.used)
  }

  /** Each record carries the line tags of its slot. */
  lemma {:induction false} BuildCharsMatches(slots: seq<Slot>, glyph: (char, nat) -> seq<int>, size: nat, need: nat, draws: seq<Draw>)
    requires size > 0 && AllInUnit(draws)
    ensures Matches(BuildChars(slots, glyph, size, need, draws).chars, slots)
    decreases |slots|
  {
    if slots != [] {
      var first := Sample(glyph(slots[0].ch, size), size, draws, need);
      assert AllInUnit(draws[first.used..]);
      BuildCharsMatches(slots[1..], glyph, size, need, draws[first.used..]);
    }
  }

  /** Each record holds at most `need` particles, all inside the glyph square and on its character. */
  lemma {:induction false} BuildCharsSampled(slots: seq<Slot>, glyph: (char, nat) -> seq<int>, size: nat, need: nat, draws: seq<Draw>)
    requires size > 0 && AllInUnit(draws)
    ensures OnTheirGlyphs(BuildChars(slots, glyph, size, need, draws).chars, slots, glyph, size, need)
    decreases |slots|
  {
    if slots != [] {
      var first := Sample(glyph(slots[0].ch, size), size, draws, need);
      assert AllInUnit(draws[first.used..]);
      SampleOnGlyph(glyph(slots[0].ch, size), size, draws, need);
      BuildCharsSampled(slots[1..], glyph, size, need, draws[first.used..]);
    }
  }

  /** Unless the draws ran out, every record holds exactly `need` particles. */
  lemma {:induction false} BuildCharsFull(slots: seq<Slot>, glyph: (char, nat) -> seq<int>, size: nat, need: nat, draws: seq<Draw>)
    requires size > 0 && AllInUnit(draws)
    ensures var r := BuildChars(slots, glyph, size, need, draws);
      r.used < |draws| ==> forall k :: 0 <= k < |r.chars| ==> |r.chars[k].particles| == need
    decreases |slots|
  {
    if slots != [] {
      var first := Sample(glyph(slots[0].ch, size), size, draws, need);
      assert AllInUnit(draws[first.used..]);
      BuildCharsFull(slots[1..], glyph, size, need, draws[first.used..]);
    }
  }

  /** The layout of phrase `phrase` of the table. */
  function PhraseLayout(texts: Texts, phrase: nat): seq<Slot>
    requires phrase < |texts.phrases|
  {
    Layout(texts.multiline, texts.phrases[phrase])
  }

  /** Records of phrase `phrase` built at the current glyph size. */
  function PhraseChars(texts: Texts, phrase: nat, glyph: (char, nat) -> seq<int>, w: int, draws: seq<Draw>): Built
    requires phrase < |texts.phrases| && AllInUnit(draws)
  {
    BuildChars(PhraseLayout(texts, phrase), glyph, GlyphSize(w), ParticleCount(w), draws)
  }

  /** What one frame draws from record `from` on: `firework` for each stored record, in order. */
  function Shots(texts: Texts, t: real, chars: seq<CharFirework>, w: real, h: real, from: nat): (r: seq<Shot>)
    requires t >= 0.0 && texts.phrases != []
    ensures |r| == |chars| - from || (from > |chars| && r == [])
    decreases |chars| - from
  {
    if from >= |chars| then [] else [Firework(texts, t, from, chars, w, h)] + Shots(texts, t, chars, w, h, from + 1)
  }

  /** Entry `i - from` of a frame's shots is what `firework` draws for record `i`. */
  lemma {:induction false} ShotsAt(texts: Texts, t: real, chars: seq<CharFirework>, w: real, h: real, from: nat, i: nat)
    requires t >= 0.0 && texts.phrases != [] && from <= i < |chars|
    ensures Shots(texts, t, chars, w, h, from)[i - from] == Firework(texts, t, i, chars, w, h)
    decreases i - from
  {
    if from < i {
      ShotsAt(texts, t, chars, w, h, from + 1, i);
    }
  }

  class FireworksCanvas {
    var w: nat
    var h: nat
    var particles: nat
    var current: Option<nat>
    var chars: Option<seq<CharFirework>>
    /** The values `Math.random()` has yet to return, in pairs. */
    var draws: seq<Draw>
    /** What drawing a character at a given size onto a blank square leaves in its RGBA bytes. */
    const glyph: (char, nat) -> seq<int>
    /** The phrases (`str`) and the multi-line ones (`multilineStrings`), fixed when the effect starts. */
    const texts: Texts

    /**
     * The particle count follows the width, the draws are in [0, 1), and the
     * stored records, once built, are laid out for the memoised phrase.
     */
    ghost predicate Valid()
      reads this
    {
      && texts.phrases != []
      && particles == ParticleCount(w)
      && AllInUnit(draws)
      && (current.Some? ==> current.value < |texts.phrases|)
      && (chars.Some? ==> current.Some? && Matches(chars.value, PhraseLayout(texts, current.value)))
    }

    /** Mounting the effect: `resize()`, with nothing built yet. */
    constructor (offsetWidth: nat, offsetHeight: nat, glyph: (char, nat) -> seq<int>, draws: seq<Draw>)
      requires AllInUnit(draws)
      ensures Valid()
      ensures w == offsetWidth && h == offsetHeight && particles == ParticleCount(offsetWidth)
      ensures current == None && chars == None
      ensures this.glyph == glyph && this.draws == draws && texts == Greetings
    {
      w, h := offsetWidth, offsetHeight;
      particles := ParticleCount(offsetWidth);
      current, chars := None, None;
      this.glyph := glyph;
      this.draws := draws;
      texts := Greetings;
    }

    /** `resize`: take the canvas size; 55 particles per glyph below 400 pixels, 99 otherwise. */
    method Resize(offsetWidth: nat, offsetHeight: nat)
      requires Valid()
      modifies this`w, this`h, this`particles
      ensures Valid()
      ensures w == offsetWidth && h == offsetHeight
      ensures particles == (if offsetWidth < 400 then 55 else 99)
    {
      w, h := offsetWidth, offsetHeight;
      particles := if offsetWidth < 400 then 55 else 99;
    }

    /**
     * `makeChars(t)`: memoised on the phrase index. When the phrase showing at
     * `t` is the one already built, nothing changes; otherwise its layout is
     * rebuilt, one `makeChar` per non-space character.
     */
    method MakeChars(t: real)
      requires Valid() && t >= 0.0
      modifies this`current, this`chars, this`draws
      ensures Valid()
      ensures current == Some(Showing(texts, t)) && chars.Some?
      ensures old(current) == Some(Showing(texts, t)) && old(chars).Some? ==>
        chars == old(chars) && draws == old(draws)
      ensures !(old(current) == Some(Showing(texts, t)) && old(chars).Some?) ==>
        var b := PhraseChars(texts, Showing(texts, t), glyph, w, old(draws));
        chars == Some(b.chars) && draws == old(draws)[b.used..]
    {
      var actual := PhraseIndex(t, |texts.phrases|);
      if current == Some(actual) && chars.Some? {
        return;
      }
      current := Some(actual);
      var slots := Layout(texts.multiline, texts.phrases[actual]);
      var built, used := MakeCharsOf(slots, glyph, GlyphSize(w), particles, draws);
      BuildCharsMatches(slots, glyph, GlyphSize(w), particles, draws);
      draws := draws[used..];
      chars := Some(built);
    }

    /**
     * `render(t)` for a frame timestamp `t`: nothing before the tree has
     * appeared; afterwards `makeChars` on the delayed clock, then one
     * `firework` per stored record.
     */
    method Render(t: real) returns (shots: seq<Shot>)
      requires Valid()
      modifies this`current, this`chars, this`draws
      ensures Valid()
      ensures t < TreeAppearDelay ==> shots == [] && current == old(current) && chars == old(chars) && draws == old(draws)
      ensures t >= TreeAppearDelay ==>
        && current == Some(Showing(texts, t - TreeAppearDelay)) && chars.Some?
        && shots == Shots(texts, t - TreeAppearDelay, chars.value, w as real, h as real, 0)
      ensures t >= TreeAppearDelay && old(current) == Some(Showing(texts, t - TreeAppearDelay)) && old(chars).Some? ==>
        chars == old(chars) && draws == old(draws)
      ensures t >= TreeAppearDelay && !(old(current) == Some(Showing(texts, t - TreeAppearDelay)) && old(chars).Some?) ==>
        var b := PhraseChars(texts, Showing(texts, t - TreeAppearDelay), glyph, w, old(draws));
        chars == Some(b.chars) && draws == old(draws)[b.used..]
    {
      if t < TreeAppearDelay {
        return [];
      }
      var adjustedTime := t - TreeAppearDelay;
      MakeChars(adjustedTime);
      shots := Fireworks(texts, adjustedTime, chars.value, w as real, h as real);
    }
  }

  /**
   * The body of `makeChars` once the phrase has changed: `makeChar` for each
   * slot in turn, each drawing from what the previous ones left.
   */
  method MakeCharsOf(slots: seq<Slot>, glyph: (char, nat) -> seq<int>, size: nat, need: nat, draws: seq<Draw>)
    returns (built: seq<CharFirework>, used: nat)
    requires size > 0 && AllInUnit(draws)
    ensures Built(built, used) == BuildChars(slots, glyph, size, need, draws)
  {
    built, used := [], 0;
    var rest, left := slots, draws;
    while rest != []
      invariant AllInUnit(left)
      invariant BuildChars(slots, glyph, size, need, draws)
        == var more := BuildChars(rest, glyph, size, need, left);
           Built(built + more.chars, used + more.used)
      decreases |rest|
    {
      var points, n := MakeChar(glyph(rest[0].ch, size), size, left, need);
      ghost var more := BuildChars(rest[1..], glyph, size, need, left[n..]);
      assert AllInUnit(left[n..]);
      assert built + ([CharFirework(points, rest[0].lineIndex, rest[0].totalLines)] + more.chars)
        == (built + [CharFirework(points, rest[0].lineIndex, rest[0].totalLines)]) + more.chars;
      built := built + [CharFirework(points, rest[0].lineIndex, rest[0].totalLines)];
      used := used + n;
      rest, left := rest[1..], left[n..];
    }
    assert built + [] == built;
  }

  /** The `chars.forEach(... firework(...))` of `render`. */
  method Fireworks(texts: Texts, t: real, chars: seq<CharFirework>, w: real, h: real) returns (shots: seq<Shot>)
    requires t >= 0.0 && texts.phrases != []
    ensures shots == Shots(texts, t, chars, w, h, 0)
  {
    shots := [];
    var i := 0;
    while i < |chars|
      invariant 0 <= i <= |chars|
      invariant shots + Shots(texts, t, chars, w, h, i) == Shots(texts, t, chars, w, h, 0)
    {
      assert shots + Shots(texts, t, chars, w, h, i)
        == (shots + [Firework(texts, t, i, chars, w, h)]) + Shots(texts, t, chars, w, h, i + 1);
      shots := shots + [Firework(texts, t, i, chars, w, h)];
      i := i + 1;
    }
    assert Shots(texts, t, chars, w, h, i) == [];
  }

  /**
   * The records of a phrase follow its layout: one per non-space character,
   * tagged with the character's line, every particle inside the glyph square
   * and on its character, and a full set of particles for each character
   * unless the draws ran out.
   */
  lemma PhraseCharsFollowLayout(texts: Texts, phrase: nat, glyph: (char, nat) -> seq<int>, w: int, draws: seq<Draw>)
    requires phrase < |texts.phrases| && AllInUnit(draws)
    ensures var b := PhraseChars(texts, phrase, glyph, w, draws);
      var slots := PhraseLayout(texts, phrase);
      && |b.chars| == |slots|
      && Matches(b.chars, slots)
      && OnTheirGlyphs(b.chars, slots, glyph, GlyphSize(w), ParticleCount(w))
      && (b.used < |draws| ==> forall k :: 0 <= k < |b.chars| ==> |b.chars[k].particles| == ParticleCount(w))
  {
    var slots := PhraseLayout(texts, phrase);
    BuildCharsMatches(slots, glyph, GlyphSize(w), ParticleCount(w), draws);
    BuildCharsSampled(slots, glyph, GlyphSize(w), ParticleCount(w), draws);
    BuildCharsFull(slots, glyph, GlyphSize(w), ParticleCount(w), draws);
  }
}
