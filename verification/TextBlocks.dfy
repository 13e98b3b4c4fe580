/** How texts fall into lines, and lines into the sections of a note or the entries of a memory file: each
    split is described by the one partition it computes. */
module TextBlocks {
  import opened Common
  import opened MemoryText
  import opened Chunker

  // ----- Lines -----

  predicate NoBreak(line: string) {
    forall i :: 0 <= i < |line| ==> !IsBreak(line[i])
  }

  /** One line break: `\r\n`, or a single break character. */
  predicate IsOneBreak(s: string) {
    s == "\r\n" || (|s| == 1 && IsBreak(s[0]))
  }

  function Woven(lines: seq<string>, ends: seq<string>): string
    requires |ends| == |lines|
  {
    if |lines| == 0 then "" else lines[0] + ends[0] + Woven(lines[1..], ends[1..])
  }

  /** The lines and their ends make up the text: no line holds a break, each but the last ends in one, the
      last ends in one or is not empty, and no break is torn apart. */
  predicate Weaves(t: string, lines: seq<string>, ends: seq<string>) {
    && |ends| == |lines| && Woven(lines, ends) == t
    && (forall i :: 0 <= i < |lines| ==> NoBreak(lines[i]))
    && (forall i :: 0 <= i < |ends| ==> IsOneBreak(ends[i]) || (i == |ends| - 1 && ends[i] == "" && lines[i] != ""))
    && (forall i :: 0 <= i < |ends| - 1 && ends[i] == "\r" ==> !(lines[i + 1] == "" && ends[i + 1] == "\n"))
  }

  lemma WovenCons(line: string, end: string, lines: seq<string>, ends: seq<string>)
    requires |ends| == |lines|
    ensures Woven([line] + lines, [end] + ends) == line + end + Woven(lines, ends)
  {
    assert ([line] + lines)[1..] == lines && ([end] + ends)[1..] == ends;
  }

  lemma WeavesBreak(t: string, end: string, rest: string, lines: seq<string>, ends: seq<string>)
    requires Weaves(rest, lines, ends) && IsOneBreak(end) && t == end + rest
    requires end == "\r" && |rest| > 0 ==> rest[0] != '\n'
    ensures Weaves(t, [""] + lines, [end] + ends)
  {
    WovenCons("", end, lines, ends);
    assert "" + end + Woven(lines, ends) == t;
  }

  lemma WeavesChar(c: char, rest: string, lines: seq<string>, ends: seq<string>)
    requires Weaves(rest, lines, ends) && !IsBreak(c) && |lines| > 0
    ensures Weaves([c] + rest, [[c] + lines[0]] + lines[1..], ends)
  {
    var longer := [[c] + lines[0]] + lines[1..];
    WovenCons([c] + lines[0], ends[0], lines[1..], ends[1..]);
    assert [ends[0]] + ends[1..] == ends;
    assert [c] + rest == [c] + lines[0] + ends[0] + Woven(lines[1..], ends[1..]);
    assert NoBreak(longer[0]);
    forall i | 0 < i < |longer| ensures NoBreak(longer[i]) && longer[i] == lines[i] {
      assert longer[i] == lines[i];
    }
  }

  /** The lines of a text are what its line breaks leave. */
  lemma {:induction false} LinesExactly(t: string) returns (ends: seq<string>)
    ensures Weaves(t, SplitLines(t), ends)
    decreases |t|
  {
    if |t| == 0 {
      ends := [];
    } else if IsBreak(t[0]) {
      var k := BreakLength(t);
      var end, rest := t[..k], t[k..];
      var more := LinesExactly(rest);
      assert t == end + rest;
      assert IsOneBreak(end) by { OneBreak(t); }
      hide SplitLines, IsBreak, Weaves;
      assert SplitLines(t) == [""] + SplitLines(rest) by { BreakIs(t); }
      WeavesBreak(t, end, rest, SplitLines(rest), more);
      ends := [end] + more;
    } else {
      var rest := t[1..];
      var more := LinesExactly(rest);
      assert t == [t[0]] + rest;
      if |rest| == 0 {
        ends := [""];
        assert SplitLines(t) == [[t[0]]];
        assert Woven([[t[0]]], [""]) == [t[0]] + "" + Woven([[t[0]]][1..], [""][1..]);
        assert [[t[0]]][1..] == [] && [""][1..] == [];
      } else {
        LinesOfSome(rest);
        WeavesChar(t[0], rest, SplitLines(rest), more);
        ends := more;
      }
    }
  }

  lemma BreakIs(t: string)
    requires |t| > 0 && IsBreak(t[0])
    ensures SplitLines(t) == [""] + SplitLines(t[BreakLength(t)..])
  {
  }

  lemma OneBreak(t: string)
    requires |t| > 0 && IsBreak(t[0])
    ensures IsOneBreak(t[..BreakLength(t)])
    ensures t[..BreakLength(t)] == "\r" && |t| > 1 ==> t[1] != '\n'
  {
    if BreakLength(t) == 2 { assert t[..2] == ['\r', '\n']; }
  }

  lemma LinesOfSome(t: string)
    requires |t| > 0
    ensures |SplitLines(t)| > 0
  {
  }

  // ----- Sections -----

  function Flattened(blocks: seq<seq<string>>): seq<string> {
    if |blocks| == 0 then [] else Flattened(blocks[..|blocks| - 1]) + blocks[|blocks| - 1]
  }

  /** A block runs from a line up to before the next heading. */
  predicate IsBlock(block: seq<string>) {
    |block| > 0 && forall i :: 0 < i < |block| ==> !IsHeading(block[i])
  }

  /** The lines fall into blocks at exactly the headings. */
  predicate FallsInto(lines: seq<string>, blocks: seq<seq<string>>) {
    && Flattened(blocks) == lines && (forall i :: 0 <= i < |blocks| ==> IsBlock(blocks[i]))
    && forall i :: 0 < i < |blocks| ==> IsHeading(blocks[i][0])
  }

  predicate Blank(s: string) {
    forall i :: 0 <= i < |s| ==> IsSpace(s[i])
  }

  predicate Newlines(s: string) {
    forall i :: 0 <= i < |s| ==> s[i] == '\n'
  }

  /** The text without the newlines at its ends. */
  ghost predicate TrimmedTo(text: string, s: string) {
    && |s| > 0 && s[0] != '\n' && s[|s| - 1] != '\n'
    && exists a, b :: Newlines(a) && Newlines(b) && text == a + s + b
  }

  /** What a block becomes: nothing if it is blank, else its lines without the newlines at the ends. */
  ghost predicate BlockBecomes(block: seq<string>, out: seq<string>) {
    if Blank(JoinLines(block)) then out == [] else |out| == 1 && TrimmedTo(JoinLines(block), out[0])
  }

  ghost predicate BlocksBecome(blocks: seq<seq<string>>, outs: seq<seq<string>>) {
    |outs| == |blocks| && forall i :: 0 <= i < |blocks| ==> BlockBecomes(blocks[i], outs[i])
  }

  lemma {:induction false} TrimLeft(s: string) returns (a: string)
    ensures Newlines(a) && s == a + StripNewlinesLeft(s)
    ensures |StripNewlinesLeft(s)| > 0 ==> StripNewlinesLeft(s)[0] != '\n'
  {
    a := "";
    if |s| > 0 && s[0] == '\n' {
      a := TrimLeft(s[1..]);
      a := "\n" + a;
    }
  }

  lemma {:induction false} TrimRight(s: string) returns (b: string)
    ensures Newlines(b) && s == StripNewlinesRight(s) + b
    ensures |StripNewlinesRight(s)| > 0 ==> StripNewlinesRight(s)[|StripNewlinesRight(s)| - 1] != '\n'
    ensures |StripNewlinesRight(s)| > 0 ==> StripNewlinesRight(s)[0] == s[0]
  {
    b := "";
    if |s| > 0 && s[|s| - 1] == '\n' {
      b := TrimRight(s[..|s| - 1]);
      b := b + "\n";
    }
  }

  lemma {:induction false} BlankLeft(s: string)
    ensures |StripLeft(s)| == 0 <==> Blank(s)
    ensures StripLeft(s) == s || (|s| > 0 && IsSpace(s[0]))
  {
    if |s| > 0 && IsSpace(s[0]) {
      BlankLeft(s[1..]);
      assert forall i :: 0 <= i < |s| - 1 ==> s[1..][i] == s[i + 1];
      assert Blank(s[1..]) ==> Blank(s) by {
        if Blank(s[1..]) {
          forall i | 0 <= i < |s| ensures IsSpace(s[i]) {
            if i > 0 { assert s[i] == s[1..][i - 1]; }
          }
        }
      }
    }
  }

  lemma StripsToNothing(s: string)
    ensures |Strip(s)| == 0 <==> Blank(s)
  {
    BlankLeft(s);
    var left := StripLeft(s);
    if |left| > 0 { RightKeepsFirst(left); }
  }

  lemma {:induction false} RightKeepsFirst(s: string)
    requires |s| > 0 && !IsSpace(s[0])
    ensures |StripRight(s)| > 0
  {
    if IsSpace(s[|s| - 1]) { RightKeepsFirst(s[..|s| - 1]); }
  }

  lemma SectionIs(block: seq<string>)
    ensures BlockBecomes(block, Section(block))
  {
    var text := JoinLines(block);
    var left := StripNewlinesLeft(text);
    var section := StripNewlinesRight(left);
    var a := TrimLeft(text);
    var b := TrimRight(left);
    StripsToNothing(section);
    hide Strip, JoinLines, IsSpace;
    assert text == a + section + b;
    BlankAround(a, section, b);
    if !Blank(section) { assert TrimmedTo(text, section); }
  }

  lemma BlankAround(a: string, s: string, b: string)
    requires Newlines(a) && Newlines(b)
    ensures Blank(a + s + b) <==> Blank(s)
  {
    var t := a + s + b;
    assert IsSpace('\n');
    assert forall i :: 0 <= i < |s| ==> t[|a| + i] == s[i];
    if Blank(t) {
      forall i | 0 <= i < |s| ensures IsSpace(s[i]) { assert t[|a| + i] == s[i]; }
    }
  }

  lemma FlattenedSnoc(blocks: seq<seq<string>>, block: seq<string>)
    ensures Flattened(blocks + [block]) == Flattened(blocks) + block
  {
    assert (blocks + [block])[..|blocks|] == blocks;
  }

  lemma {:induction false} FlattenedConcat(a: seq<seq<string>>, b: seq<seq<string>>)
    ensures Flattened(a + b) == Flattened(a) + Flattened(b)
  {
    if |b| == 0 {
      assert a + b == a;
    } else {
      var n := |b| - 1;
      FlattenedConcat(a, b[..n]);
      assert a + b == (a + b[..n]) + [b[n]];
      FlattenedSnoc(a + b[..n], b[n]);
    }
  }

  lemma FlattenedCons(first: seq<string>, rest: seq<seq<string>>)
    ensures Flattened([first] + rest) == first + Flattened(rest)
  {
    FlattenedConcat([first], rest);
    FlattenedSnoc([], first);
    assert [] + [first] == [first] && Flattened([]) + first == first;
  }

  /** From a buffer on: its lines open the first block. */
  lemma {:induction false} SectionsFrom(lines: seq<string>, current: seq<string>)
    returns (blocks: seq<seq<string>>, outs: seq<seq<string>>)
    requires IsBlock(current)
    ensures FallsInto(current + lines, blocks) && |blocks| > 0 && blocks[0][0] == current[0]
    ensures BlocksBecome(blocks, outs) && Flattened(outs) == Sections(lines, current)
    decreases |lines|
  {
    SectionIs(current);
    hide IsHeading, BlockBecomes, Section;
    if |lines| == 0 {
      blocks, outs := [current], [Section(current)];
      FlattenedCons(current, []);
      FlattenedCons(Section(current), []);
      assert [current] + [] == [current] && [Section(current)] + [] == [Section(current)];
      assert current + [] == current && Section(current) + [] == Section(current);
    } else if IsHeading(lines[0]) {
      var more, after := SectionsFrom(lines[1..], [lines[0]]);
      blocks, outs := [current] + more, [Section(current)] + after;
      FlattenedCons(current, more);
      FlattenedCons(Section(current), after);
      assert [lines[0]] + lines[1..] == lines;
    } else {
      blocks, outs := SectionsFrom(lines[1..], current + [lines[0]]);
      assert current + [lines[0]] + lines[1..] == current + lines;
    }
  }

  /** The sections of a note are its blocks at the headings, in order: without the newlines at their ends,
      and without the blank ones. */
  lemma SectionsAreBlocks(lines: seq<string>) returns (blocks: seq<seq<string>>, outs: seq<seq<string>>)
    ensures FallsInto(lines, blocks)
    ensures BlocksBecome(blocks, outs) && Flattened(outs) == Sections(lines, [])
  {
    hide IsHeading, BlockBecomes;
    if |lines| == 0 {
      blocks, outs := [], [];
      NoSection();
    } else {
      blocks, outs := SectionsFrom(lines[1..], [lines[0]]);
      assert [lines[0]] + lines[1..] == lines && [] + [lines[0]] == [lines[0]];
    }
  }

  lemma NoSection()
    ensures Sections([], []) == []
  {
    assert JoinLines([]) == "";
  }

  // ----- Pieces -----

  function Concat(pieces: seq<string>): string {
    if |pieces| == 0 then "" else pieces[0] + Concat(pieces[1..])
  }

  /** A section within the limit is one piece; a longer one is cut into pieces of just the limit, with the
      rest at the end. */
  lemma {:induction false} PiecesAreSlices(section: string, max: nat)
    requires 0 < max && |section| > 0
    ensures var ps := PiecesOf(section, max);
            && Concat(ps) == section && (|section| <= max ==> ps == [section])
            && forall i :: 0 <= i < |ps| - 1 ==> |ps[i]| == max
    decreases |section|
  {
    if |section| <= max {
      assert [section][1..] == [];
    } else {
      var rest := section[max..];
      PiecesAreSlices(rest, max);
      assert HardSplit(rest, max) == PiecesOf(rest, max);
      assert PiecesOf(section, max) == [section[..max]] + PiecesOf(rest, max);
      assert ([section[..max]] + PiecesOf(rest, max))[1..] == PiecesOf(rest, max);
    }
  }

  // ----- Entries of a memory file -----

  /** The blocks between the separators, which are section lines; no block holds one. */
  predicate FallsBetween(lines: seq<string>, blocks: seq<seq<string>>, separators: seq<string>) {
    && |blocks| == |separators| + 1 && Interleaved(blocks, separators) == lines
    && (forall i :: 0 <= i < |separators| ==> IsSectionLine(separators[i]))
    && forall i, j :: 0 <= i < |blocks| && 0 <= j < |blocks[i]| ==> !IsSectionLine(blocks[i][j])
  }

  function Interleaved(blocks: seq<seq<string>>, separators: seq<string>): seq<string>
    requires |blocks| == |separators| + 1
  {
    if |separators| == 0 then blocks[0] else blocks[0] + [separators[0]] + Interleaved(blocks[1..], separators[1..])
  }

  /** The text without the white space at its ends. */
  ghost predicate StrippedTo(text: string, s: string) {
    && |s| > 0 && !IsSpace(s[0]) && !IsSpace(s[|s| - 1])
    && exists a, b :: Blank(a) && Blank(b) && text == a + s + b
  }

  /** What the lines of a block become: nothing if they are blank, else their text without the white space
      at the ends. */
  ghost predicate EntryOf(block: seq<string>, out: seq<string>) {
    if Blank(JoinLines(block)) then out == [] else |out| == 1 && StrippedTo(JoinLines(block), out[0])
  }

  ghost predicate EntriesOf(blocks: seq<seq<string>>, outs: seq<seq<string>>) {
    |outs| == |blocks| && forall i :: 0 <= i < |blocks| ==> EntryOf(blocks[i], outs[i])
  }

  lemma {:induction false} SpaceLeft(s: string) returns (a: string)
    ensures Blank(a) && s == a + StripLeft(s)
  {
    a := "";
    if |s| > 0 && IsSpace(s[0]) {
      a := SpaceLeft(s[1..]);
      a := [s[0]] + a;
    }
  }

  lemma {:induction false} SpaceRight(s: string) returns (b: string)
    ensures Blank(b) && s == StripRight(s) + b
  {
    b := "";
    if |s| > 0 && IsSpace(s[|s| - 1]) {
      b := SpaceRight(s[..|s| - 1]);
      b := b + [s[|s| - 1]];
    }
  }

  lemma FlushIs(block: seq<string>)
    ensures EntryOf(block, Flush(block))
  {
    var text := JoinLines(block);
    StripsToNothing(text);
    var a := SpaceLeft(text);
    var b := SpaceRight(StripLeft(text));
    hide JoinLines, IsSpace, StripLeft, StripRight;
    assert text == a + Strip(text) + b;
    if !Blank(text) { assert StrippedTo(text, Strip(text)); }
  }

  lemma InterleavedCons(block: seq<string>, separator: string, blocks: seq<seq<string>>, separators: seq<string>)
    requires |blocks| == |separators| + 1
    ensures Interleaved([block] + blocks, [separator] + separators)
            == block + [separator] + Interleaved(blocks, separators)
  {
    assert ([block] + blocks)[1..] == blocks && ([separator] + separators)[1..] == separators;
  }

  lemma FallsCons(block: seq<string>, separator: string, rest: seq<string>, blocks: seq<seq<string>>,
                  separators: seq<string>)
    requires FallsBetween(rest, blocks, separators) && IsSectionLine(separator)
    requires forall i :: 0 <= i < |block| ==> !IsSectionLine(block[i])
    ensures FallsBetween(block + [separator] + rest, [block] + blocks, [separator] + separators)
  {
    hide IsSectionLine;
    InterleavedCons(block, separator, blocks, separators);
  }

  lemma OneBlock(block: seq<string>)
    requires forall i :: 0 <= i < |block| ==> !IsSectionLine(block[i])
    ensures FallsBetween(block, [block], [])
  {
    hide IsSectionLine;
  }

  /** From a buffer on: its lines open the first block. */
  lemma {:induction false} EntriesFrom(lines: seq<string>, buffer: seq<string>)
    returns (blocks: seq<seq<string>>, separators: seq<string>, outs: seq<seq<string>>)
    requires forall i :: 0 <= i < |buffer| ==> !IsSectionLine(buffer[i])
    ensures FallsBetween(buffer + lines, blocks, separators)
    ensures EntriesOf(blocks, outs) && Flattened(outs) == Entries(lines, buffer)
    decreases |lines|
  {
    FlushIs(buffer);
    hide IsSectionLine, EntryOf, Flush;
    hide FallsBetween;
    if |lines| == 0 {
      OneBlock(buffer);
      blocks, separators, outs := [buffer], [], [Flush(buffer)];
      FlattenedCons(Flush(buffer), []);
      assert [Flush(buffer)] + [] == [Flush(buffer)] && Flush(buffer) + [] == Flush(buffer) && buffer + [] == buffer;
    } else if IsSectionLine(lines[0]) {
      var more, between, after := EntriesFrom(lines[1..], []);
      blocks, separators, outs := [buffer] + more, [lines[0]] + between, [Flush(buffer)] + after;
      FlattenedCons(Flush(buffer), after);
      assert [] + lines[1..] == lines[1..] && buffer + [lines[0]] + lines[1..] == buffer + lines;
      FallsCons(buffer, lines[0], lines[1..], more, between);
    } else {
      blocks, separators, outs := EntriesFrom(lines[1..], buffer + [lines[0]]);
      assert buffer + [lines[0]] + lines[1..] == buffer + lines;
    }
  }

  /** The entries of a memory file are what stands between its section lines, in order: without the white
      space at the ends, and without the blank ones.  So parsing loses nothing but white space and
      separators. */
  lemma EntriesAreBlocks(text: string)
    returns (blocks: seq<seq<string>>, separators: seq<string>, outs: seq<seq<string>>)
    ensures FallsBetween(SplitLines(text), blocks, separators)
    ensures EntriesOf(blocks, outs) && Flattened(outs) == Parse(text)
  {
    blocks, separators, outs := EntriesFrom(SplitLines(text), []);
    assert [] + SplitLines(text) == SplitLines(text);
  }
}
