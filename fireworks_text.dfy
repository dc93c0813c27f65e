/**
 * The phrases the fireworks spell out, and how a phrase is laid out as one
 * firework per non-space character, each tagged with its display line.
 */
module FireworksText {

  /** The phrases, shown in turn. */
  const Phrases: seq<string> := ["MERRY", "CHRISTMAS", "I LOVE YOU"]

  /** Phrases shown on several lines, with their lines in display order. */
  const MultilineStrings: map<string, seq<string>> := map["I LOVE YOU" := ["YOU", "I LOVE"]]

  /** A phrase table: the phrases in turn, and those among them shown on several lines. */
  datatype Texts = Texts(phrases: seq<string>, multiline: map<string, seq<string>>)

  /** The table the fireworks effect is created with. */
  const Greetings: Texts := Texts(Phrases, MultilineStrings)

  /** One character of a laid-out phrase: the glyph, its line and the number of lines. */
  datatype Slot = Slot(ch: char, lineIndex: nat, totalLines: nat)

  predicate IsMultiline(multiline: map<string, seq<string>>, phrase: string) {
    phrase in multiline
  }

  /** The characters of `s` in order, spaces dropped (`[...s].filter(c => c !== ' ')`). */
  function NoSpaces(s: string): (r: string)
    ensures ' ' !in r
    ensures |r| <= |s|
    ensures ' ' !in s ==> r == s
    decreases |s|
  {
    if s == [] then []
    else (if s[0] == ' ' then [] else [s[0]]) + NoSpaces(s[1..])
  }

  /** One slot per non-space character of `line`, all on line `lineIndex` of `totalLines`. */
  function Tag(line: string, lineIndex: nat, totalLines: nat): (r: seq<Slot>) {
    Slots(NoSpaces(line), lineIndex, totalLines)
  }

  /** One slot per character of `cs`, in order, all on line `lineIndex` of `totalLines`. */
  function Slots(cs: string, lineIndex: nat, totalLines: nat): seq<Slot> {
    seq(|cs|, k requires 0 <= k < |cs| => Slot(cs[k], lineIndex, totalLines))
  }

  /** The slots of lines `from..` of a multi-line phrase, line after line. */
  function Lines(lines: seq<string>, from: nat): seq<Slot>
    decreases |lines| - from
  {
    if from >= |lines| then []
    else Tag(lines[from], from, |lines|) + Lines(lines, from + 1)
  }

  /** The layout `makeChars` builds for a phrase, given the table of multi-line phrases. */
  function Layout(multiline: map<string, seq<string>>, phrase: string): seq<Slot> {
    if IsMultiline(multiline, phrase) then Lines(multiline[phrase], 0)
    else Tag(phrase, 0, 1)
  }

  /** The characters of a layout, in order. */
  function Glyphs(slots: seq<Slot>): string {
    seq(|slots|, k requires 0 <= k < |slots| => slots[k].ch)
  }

  /** Lines `from..` of a multi-line phrase written one after the other. */
  function Joined(lines: seq<string>, from: nat): string
    decreases |lines| - from
  {
    if from >= |lines| then [] else lines[from] + Joined(lines, from + 1)
  }

  /** The line index of each slot, in order. */
  function LineIndices(slots: seq<Slot>): seq<nat> {
    seq(|slots|, k requires 0 <= k < |slots| => slots[k].lineIndex)
  }

  /** How many entries of `ls` are on line `l` (the `filter(c => c.lineIndex === l).length` of a layout). */
  function CountOnLine(ls: seq<nat>, l: nat): nat {
    if ls == [] then 0
    else CountOnLine(ls[..|ls| - 1], l) + (if ls[|ls| - 1] == l then 1 else 0)
  }

  lemma {:induction false} NoSpacesAppend(a: string, b: string)
    ensures NoSpaces(a + b) == NoSpaces(a) + NoSpaces(b)
    decreases |a|
  {
    if a == [] {
      assert a + b == b;
    } else {
      var head := if a[0] == ' ' then [] else [a[0]];
      assert (a + b)[0] == a[0] && (a + b)[1..] == a[1..] + b;
      NoSpacesAppend(a[1..], b);
      assert head + (NoSpaces(a[1..]) + NoSpaces(b)) == (head + NoSpaces(a[1..])) + NoSpaces(b);
    }
  }

  lemma GlyphsAppend(a: seq<Slot>, b: seq<Slot>)
    ensures Glyphs(a + b) == Glyphs(a) + Glyphs(b)
  {
  }

  /** A single-line phrase: every non-space character, in order, on line 0 of 1. */
  lemma SingleLineLayout(multiline: map<string, seq<string>>, phrase: string)
    requires !IsMultiline(multiline, phrase)
    ensures |Layout(multiline, phrase)| == |NoSpaces(phrase)|
    ensures Glyphs(Layout(multiline, phrase)) == NoSpaces(phrase)
    ensures forall k :: 0 <= k < |Layout(multiline, phrase)| ==>
      Layout(multiline, phrase)[k].lineIndex == 0 && Layout(multiline, phrase)[k].totalLines == 1
  {
  }

  /** A multi-line phrase: the characters are those of its lines, in line order, spaces dropped. */
  lemma {:induction false} LinesGlyphs(lines: seq<string>, from: nat)
    ensures Glyphs(Lines(lines, from)) == NoSpaces(Joined(lines, from))
    decreases |lines| - from
  {
    if from < |lines| {
      LinesGlyphs(lines, from + 1);
      GlyphsAppend(Tag(lines[from], from, |lines|), Lines(lines, from + 1));
      NoSpacesAppend(lines[from], Joined(lines, from + 1));
    }
  }

  /**
   * A multi-line phrase: every slot carries the number of lines, and the line
   * indices run from `from` upward without ever going back.
   */
  lemma {:induction false} LinesTags(lines: seq<string>, from: nat)
    ensures forall k :: 0 <= k < |Lines(lines, from)| ==>
      Lines(lines, from)[k].totalLines == |lines| && from <= Lines(lines, from)[k].lineIndex < |lines|
    ensures forall j, k :: 0 <= j < k < |Lines(lines, from)| ==>
      Lines(lines, from)[j].lineIndex <= Lines(lines, from)[k].lineIndex
    decreases |lines| - from
  {
    if from < |lines| {
      LinesTags(lines, from + 1);
    }
  }

  lemma {:induction false} CountOnLineAppend(a: seq<nat>, b: seq<nat>, l: nat)
    ensures CountOnLine(a + b, l) == CountOnLine(a, l) + CountOnLine(b, l)
    decreases |b|
  {
    if b == [] {
      assert a + b == a;
    } else {
      assert (a + b)[..|a + b| - 1] == a + b[..|b| - 1];
      CountOnLineAppend(a, b[..|b| - 1], l);
    }
  }

  lemma {:induction false} CountOnOneLine(ls: seq<nat>, lineIndex: nat, l: nat)
    requires forall k :: 0 <= k < |ls| ==> ls[k] == lineIndex
    ensures CountOnLine(ls, l) == if l == lineIndex then |ls| else 0
    decreases |ls|
  {
    if ls != [] {
      CountOnOneLine(ls[..|ls| - 1], lineIndex, l);
    }
  }

  /**
   * The entry at `i` has fewer entries of its own line before it than its
   * line holds: its position within the line (`findIndex`) is below the
   * line's count.
   */
  lemma IndexOnLineBelowCount(ls: seq<nat>, i: nat)
    requires i < |ls|
    ensures CountOnLine(ls[..i], ls[i]) < CountOnLine(ls, ls[i])
  {
    assert ls[..i + 1][..i] == ls[..i];
    assert ls == ls[..i + 1] + ls[i + 1..];
    CountOnLineAppend(ls[..i + 1], ls[i + 1..], ls[i]);
  }

  /** Of two entries on the same line, the earlier one has fewer entries of that line before it. */
  lemma EarlierOnLineFirst(ls: seq<nat>, i: nat, j: nat)
    requires i < j < |ls| && ls[i] == ls[j]
    ensures CountOnLine(ls[..i], ls[i]) < CountOnLine(ls[..j], ls[j])
  {
    assert ls[..j] == ls[..i + 1] + ls[i + 1..j];
    assert ls[..i + 1][..i] == ls[..i];
    CountOnLineAppend(ls[..i + 1], ls[i + 1..j], ls[i]);
  }

  lemma LineIndicesAppend(a: seq<Slot>, b: seq<Slot>)
    ensures LineIndices(a + b) == LineIndices(a) + LineIndices(b)
  {
  }

  /** Line `l` of a multi-line phrase holds one slot per non-space character of that line. */
  lemma {:induction false} LinesCountOnLine(lines: seq<string>, from: nat, l: nat)
    requires from <= l < |lines|
    ensures CountOnLine(LineIndices(Lines(lines, from)), l) == |NoSpaces(lines[l])|
    decreases |lines| - from
  {
    var t := LineIndices(Tag(lines[from], from, |lines|));
    var rest := LineIndices(Lines(lines, from + 1));
    assert Lines(lines, from) == Tag(lines[from], from, |lines|) + Lines(lines, from + 1);
    LineIndicesAppend(Tag(lines[from], from, |lines|), Lines(lines, from + 1));
    CountOnLineAppend(t, rest, l);
    assert forall k :: 0 <= k < |t| ==> t[k] == from;
    CountOnOneLine(t, from, l);
    if from < l {
      LinesCountOnLine(lines, from + 1, l);
    } else {
      LinesAbove(lines, from + 1, l);
    }
  }

  lemma {:induction false} LinesAbove(lines: seq<string>, from: nat, l: nat)
    requires l < from
    ensures CountOnLine(LineIndices(Lines(lines, from)), l) == 0
    decreases |lines| - from
  {
    if from < |lines| {
      var tag := Tag(lines[from], from, |lines|);
      var t := LineIndices(tag);
      var rest := LineIndices(Lines(lines, from + 1));
      assert LineIndices(Lines(lines, from)) == t + rest by {
        assert Lines(lines, from) == tag + Lines(lines, from + 1);
        LineIndicesAppend(tag, Lines(lines, from + 1));
      }
      assert CountOnLine(t, l) == 0 by {
        assert forall k :: 0 <= k < |t| ==> t[k] == from;
        CountOnOneLine(t, from, l);
      }
      assert CountOnLine(rest, l) == 0 by {
        LinesAbove(lines, from + 1, l);
      }
      CountOnLineAppend(t, rest, l);
    } else {
      assert LineIndices(Lines(lines, from)) == [];
    }
  }

  /** Of the three phrases the effect starts with, only the third, 'I LOVE YOU', is shown on several lines. */
  lemma GreetingsMultiline()
    ensures |Greetings.phrases| == 3
    ensures forall k :: 0 <= k < 3 ==> (IsMultiline(Greetings.multiline, Greetings.phrases[k]) <==> k == 2)
  {
    assert Greetings.multiline.Keys == {"I LOVE YOU"};
    assert |Greetings.phrases[0]| == 5 && |Greetings.phrases[1]| == 9 && Greetings.phrases[2] == "I LOVE YOU";
  }

  /** 'MERRY' becomes five fireworks on line 0 of 1. */
  lemma MerryLayout()
    ensures Layout(MultilineStrings, "MERRY") == Slots("MERRY", 0, 1)
  {
    assert !IsMultiline(MultilineStrings, "MERRY");
  }

  /** A single space between two space-free words disappears. */
  lemma DropOneSpace(x: string, y: string)
    requires ' ' !in x && ' ' !in y
    ensures NoSpaces(x + " " + y) == x + y
  {
    assert NoSpaces(x + " ") == x by {
      NoSpacesAppend(x, " ");
      assert NoSpaces(" ") == [];
      assert x + [] == x;
    }
    NoSpacesAppend(x + " ", y);
  }

  lemma ILoveNoSpaces()
    ensures NoSpaces("I LOVE") == "ILOVE"
  {
    assert "I LOVE" == "I" + " " + "LOVE";
    DropOneSpace("I", "LOVE");
    assert "I" + "LOVE" == "ILOVE";
  }

  lemma ILoveYouLines(phrase: string)
    requires phrase == "I LOVE YOU"
    ensures Layout(MultilineStrings, phrase) == Tag("YOU", 0, 2) + Tag("I LOVE", 1, 2)
  {
    assert IsMultiline(MultilineStrings, phrase);
    var lines := MultilineStrings[phrase];
    assert lines == ["YOU", "I LOVE"];
    assert Lines(lines, 2) == [];
    assert Lines(lines, 1) == Tag("I LOVE", 1, 2) + [];
  }

  /** 'I LOVE YOU' becomes 'YOU' on line 0, then 'ILOVE' on line 1, both of 2 lines. */
  lemma ILoveYouLayout(phrase: string)
    requires phrase == "I LOVE YOU"
    ensures Layout(MultilineStrings, phrase) == Slots("YOU", 0, 2) + Slots("ILOVE", 1, 2)
  {
    ILoveYouLines(phrase);
    ILoveNoSpaces();
  }
}
