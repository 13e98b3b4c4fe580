/** The `§`-delimited memory file: parser, printer and lossless compaction.

    Texts are sequences of code points.  White space and line breaks are those of Python's
    `str.strip` and `str.splitlines`; `casefold` is the parameter `fold`. */
module MemoryText {

  const SECTION := '\U{00A7}'
  const JOIN: string := ['\n', SECTION, '\n']

  predicate IsBreak(c: char) {
    c in ['\n', '\r', '\U{000B}', '\U{000C}', '\U{001C}', '\U{001D}', '\U{001E}', '\U{0085}', '\U{2028}', '\U{2029}']
  }

  predicate IsSpace(c: char) {
    || IsBreak(c)
    || c in ['\t', '\U{001F}', ' ', '\U{00A0}', '\U{1680}', '\U{202F}', '\U{205F}', '\U{3000}']
    || '\U{2000}' <= c <= '\U{200A}'
  }

  function StripLeft(s: string): (r: string)
    ensures |r| > 0 ==> !IsSpace(r[0])
    ensures |r| <= |s|
  {
    if |s| > 0 && IsSpace(s[0]) then StripLeft(s[1..]) else s
  }

  function StripRight(s: string): (r: string)
    ensures |r| > 0 ==> !IsSpace(r[|r| - 1])
    ensures |r| > 0 && |s| > 0 ==> r[0] == s[0]
  {
    if |s| > 0 && IsSpace(s[|s| - 1]) then StripRight(s[..|s| - 1]) else s
  }

  function Strip(s: string): (r: string)
    ensures |r| > 0 ==> !IsSpace(r[0]) && !IsSpace(r[|r| - 1])
  {
    StripRight(StripLeft(s))
  }

  /** The length of the line break a text begins with; `\r\n` is one break. */
  function BreakLength(t: string): (n: nat)
    requires |t| > 0
    ensures n <= |t| && (n > 0 <==> IsBreak(t[0]))
  {
    if t[0] == '\r' && |t| > 1 && t[1] == '\n' then 2 else if IsBreak(t[0]) then 1 else 0
  }

  function AddHead(c: char, lines: seq<string>): seq<string> {
    if |lines| == 0 then [[c]] else [[c] + lines[0]] + lines[1..]
  }

  /** `str.splitlines`: a final break opens no further line. */
  function SplitLines(t: string): seq<string>
    decreases |t|
  {
    if |t| == 0 then []
    else if IsBreak(t[0]) then [""] + SplitLines(t[BreakLength(t)..])
    else AddHead(t[0], SplitLines(t[1..]))
  }

  function JoinLines(lines: seq<string>): string {
    if |lines| == 0 then "" else if |lines| == 1 then lines[0] else lines[0] + "\n" + JoinLines(lines[1..])
  }

  predicate IsSectionLine(line: string) {
    Strip(line) == [SECTION]
  }

  function Flush(buffer: seq<string>): seq<string> {
    var body := Strip(JoinLines(buffer));
    if |body| > 0 then [body] else []
  }

  function Entries(lines: seq<string>, buffer: seq<string>): seq<string> {
    if |lines| == 0 then Flush(buffer)
    else if IsSectionLine(lines[0]) then Flush(buffer) + Entries(lines[1..], [])
    else Entries(lines[1..], buffer + [lines[0]])
  }

  function Parse(text: string): seq<string> {
    Entries(SplitLines(text), [])
  }

  function Serialize(entries: seq<string>): string {
    if |entries| == 0 then "" else if |entries| == 1 then entries[0] else entries[0] + JOIN + Serialize(entries[1..])
  }

  /** `parse_memory_file`: one pass over the lines with a buffer that is flushed at every section line. */
  method ParseMemoryFile(text: string) returns (entries: seq<string>)
    ensures entries == Parse(text)
  {
    hide SplitLines, Flush, IsSectionLine;
    var lines := SplitLines(text);
    var buffer: seq<string> := [];
    entries := [];
    for i := 0 to |lines|
      invariant entries + Entries(lines[i..], buffer) == Parse(text)
    {
      assert lines[i..][1..] == lines[i + 1..];
      if IsSectionLine(lines[i]) {
        entries := entries + Flush(buffer);
        buffer := [];
      } else {
        buffer := buffer + [lines[i]];
      }
    }
    entries := entries + Flush(buffer);
  }

  // ----- Canonical entries -----

  predicate BreaksOnlyAtNewlines(s: string) {
    forall i :: 0 <= i < |s| && IsBreak(s[i]) ==> s[i] == '\n'
  }

  predicate NoSections(lines: seq<string>) {
    forall i :: 0 <= i < |lines| ==> !IsSectionLine(lines[i])
  }

  /** What the parser produces: trimmed, non-empty, and without a section line inside. */
  predicate Canonical(e: string) {
    |e| > 0 && Strip(e) == e && BreaksOnlyAtNewlines(e) && NoSections(SplitLines(e))
  }

  predicate AllCanonical(es: seq<string>) {
    forall i :: 0 <= i < |es| ==> Canonical(es[i])
  }

  predicate Unbroken(lines: seq<string>) {
    forall i :: 0 <= i < |lines| ==> forall j :: 0 <= j < |lines[i]| ==> !IsBreak(lines[i][j])
  }

  lemma {:induction false} LinesAreUnbroken(t: string)
    ensures Unbroken(SplitLines(t))
    decreases |t|
  {
    hide IsBreak, BreakLength;
    if |t| > 0 {
      LinesAreUnbroken(t[if IsBreak(t[0]) then BreakLength(t) else 1..]);
    }
  }

  // ----- What the parser produces is canonical -----

  function AddFirst(c: char, ps: seq<string>): (r: seq<string>)
    requires |ps| > 0
    ensures |r| > 0
  {
    if c == '\n' then [""] + ps else [[c] + ps[0]] + ps[1..]
  }

  function AddLast(ps: seq<string>, c: char): (r: seq<string>)
    requires |ps| > 0
    ensures |r| > 0
  {
    if c == '\n' then ps + [""] else ps[..|ps| - 1] + [ps[|ps| - 1] + [c]]
  }

  /** Splitting at `\n` alone, the last piece included. */
  function Pieces(s: string): (ps: seq<string>)
    ensures |ps| > 0
  {
    if |s| == 0 then [""] else AddFirst(s[0], Pieces(s[1..]))
  }

  lemma AddBothEnds(c: char, ps: seq<string>, d: char)
    requires |ps| > 0
    ensures AddLast(AddFirst(c, ps), d) == AddFirst(c, AddLast(ps, d))
  {
    if c != '\n' && d != '\n' && |ps| == 1 {
      assert [c] + (ps[0] + [d]) == [c] + ps[0] + [d];
    }
  }

  lemma {:induction false} PiecesSnoc(s: string, c: char)
    ensures Pieces(s + [c]) == AddLast(Pieces(s), c)
  {
    assert AddFirst(c, [""]) == AddLast([""], c) by { assert [c] + "" == "" + [c]; }
    hide AddFirst, AddLast;
    if |s| == 0 {
      assert s + [c] == [c];
      assert Pieces([c][1..]) == [""];
    } else {
      assert (s + [c])[1..] == s[1..] + [c];
      PiecesSnoc(s[1..], c);
      AddBothEnds(s[0], Pieces(s[1..]), c);
    }
  }

  lemma {:induction false} PiecesOfLines(line: string, rest: string)
    requires forall j :: 0 <= j < |line| ==> line[j] != '\n'
    ensures Pieces(line) == [line]
    ensures Pieces(line + "\n" + rest) == [line] + Pieces(rest)
  {
    var all := line + "\n" + rest;
    if |line| == 0 {
      assert all[1..] == rest;
    } else {
      PiecesOfLines(line[1..], rest);
      assert all[1..] == line[1..] + "\n" + rest;
      assert line == [line[0]] + line[1..];
    }
  }

  lemma {:induction false} PiecesOfJoin(lines: seq<string>)
    requires |lines| > 0 && Unbroken(lines)
    ensures Pieces(JoinLines(lines)) == lines
  {
    assert Unbroken(lines[1..]);
    if |lines| == 1 {
      PiecesOfLines(lines[0], "");
    } else {
      PiecesOfJoin(lines[1..]);
      PiecesOfLines(lines[0], JoinLines(lines[1..]));
    }
  }

  lemma {:induction false} SplitIsPieces(s: string)
    requires BreaksOnlyAtNewlines(s) && |s| > 0 && s[|s| - 1] != '\n'
    ensures SplitLines(s) == Pieces(s)
  {
    assert BreaksOnlyAtNewlines(s[1..]);
    if |s| == 1 {
      assert s[1..] == "" && Pieces("") == [""] && SplitLines("") == [];
      assert [s[0]] + "" == [s[0]];
    } else {
      SplitIsPieces(s[1..]);
    }
  }

  lemma {:induction false} StripLeftSnoc(s: string, c: char)
    requires IsSpace(c)
    ensures StripLeft(s + [c]) == if StripLeft(s) == "" then "" else StripLeft(s) + [c]
  {
    hide IsSpace;
    if |s| == 0 {
      assert s + [c] == [c];
    } else if IsSpace(s[0]) {
      assert (s + [c])[1..] == s[1..] + [c];
      StripLeftSnoc(s[1..], c);
    }
  }

  lemma StripSnoc(s: string, c: char)
    requires IsSpace(c)
    ensures Strip(s + [c]) == Strip(s)
  {
    hide IsSpace;
    StripLeftSnoc(s, c);
    assert (StripLeft(s) + [c])[..|StripLeft(s)|] == StripLeft(s);
  }

  lemma {:induction false} StripLeftKeeps(s: string)
    requires NoSections(Pieces(s)) && BreaksOnlyAtNewlines(s)
    ensures NoSections(Pieces(StripLeft(s))) && BreaksOnlyAtNewlines(StripLeft(s))
  {
    hide IsSpace, IsBreak;
    if |s| > 0 && IsSpace(s[0]) {
      var rest := Pieces(s[1..]);
      assert BreaksOnlyAtNewlines(s[1..]);
      forall i | 0 <= i < |rest|
        ensures !IsSectionLine(rest[i])
      {
        if s[0] == '\n' {
          assert rest[i] == Pieces(s)[i + 1];
        } else if i > 0 {
          assert rest[i] == Pieces(s)[i];
        } else {
          assert Pieces(s)[0] == [s[0]] + rest[0];
          assert ([s[0]] + rest[0])[1..] == rest[0];
        }
      }
      StripLeftKeeps(s[1..]);
    }
  }

  lemma {:induction false} StripRightKeeps(s: string)
    requires NoSections(Pieces(s)) && BreaksOnlyAtNewlines(s)
    ensures NoSections(Pieces(StripRight(s))) && BreaksOnlyAtNewlines(StripRight(s))
  {
    hide IsSpace, IsBreak;
    if |s| > 0 && IsSpace(s[|s| - 1]) {
      var front, c := s[..|s| - 1], s[|s| - 1];
      assert s == front + [c];
      PiecesSnoc(front, c);
      var ps := Pieces(front);
      assert BreaksOnlyAtNewlines(front);
      forall i | 0 <= i < |ps|
        ensures !IsSectionLine(ps[i])
      {
        if c == '\n' || i < |ps| - 1 {
          assert ps[i] == Pieces(s)[i];
        } else {
          StripSnoc(ps[i], c);
          assert Pieces(s)[i] == ps[i] + [c];
        }
      }
      StripRightKeeps(front);
    }
  }

  lemma {:induction false} JoinBreaks(lines: seq<string>)
    requires Unbroken(lines)
    ensures BreaksOnlyAtNewlines(JoinLines(lines))
  {
    hide IsBreak;
    if |lines| > 1 {
      assert Unbroken(lines[1..]);
      JoinBreaks(lines[1..]);
    }
  }

  lemma StripIsStripped(s: string)
    ensures Strip(Strip(s)) == Strip(s)
  {
  }

  lemma FlushIsCanonical(buffer: seq<string>)
    requires Unbroken(buffer) && NoSections(buffer)
    ensures AllCanonical(Flush(buffer))
  {
    assert |buffer| == 0 ==> Strip(JoinLines(buffer)) == "";
    assert IsSpace('\n');
    hide IsBreak, IsSpace, Unbroken, NoSections, StripLeft, StripRight, Pieces, SplitLines, JoinLines,
        BreaksOnlyAtNewlines;
    var text := JoinLines(buffer);
    var body := Strip(text);
    if |buffer| > 0 && |body| > 0 {
      PiecesOfJoin(buffer);
      JoinBreaks(buffer);
      StripLeftKeeps(text);
      StripRightKeeps(StripLeft(text));
      StripIsStripped(text);
      assert body[|body| - 1] != '\n';
      SplitIsPieces(body);
    }
  }

  lemma {:induction false} EntriesAreCanonical(lines: seq<string>, buffer: seq<string>)
    requires Unbroken(lines) && Unbroken(buffer) && NoSections(buffer)
    ensures AllCanonical(Entries(lines, buffer))
  {
    hide IsBreak, IsSectionLine, Flush, Canonical;
    if |lines| == 0 {
      FlushIsCanonical(buffer);
    } else {
      assert Unbroken(lines[1..]);
      if IsSectionLine(lines[0]) {
        FlushIsCanonical(buffer);
        EntriesAreCanonical(lines[1..], []);
      } else {
        EntriesAreCanonical(lines[1..], buffer + [lines[0]]);
      }
    }
  }

  lemma ParseIsCanonical(text: string)
    ensures AllCanonical(Parse(text))
  {
    LinesAreUnbroken(text);
    EntriesAreCanonical(SplitLines(text), []);
  }

  // ----- Printing undoes parsing -----

  /** One unfolding of `SplitLines`. */
  lemma SplitUnfold(t: string, k: nat)
    requires |t| > 0 && k == (if IsBreak(t[0]) then BreakLength(t) else 1)
    ensures SplitLines(t) == if IsBreak(t[0]) then [""] + SplitLines(t[k..]) else AddHead(t[0], SplitLines(t[k..]))
  {
    hide IsBreak, AddHead, BreakLength;
  }

  lemma BreakLengthAppend(a: string, tail: string)
    requires |a| > 1 && !IsBreak(a[|a| - 1])
    ensures BreakLength(a + tail) == BreakLength(a) && (BreakLength(a) < |a|)
  {
    assert IsBreak('\n');
  }

  lemma {:induction false} SplitAppend(a: string, tail: string)
    requires |a| > 0 && !IsBreak(a[|a| - 1]) && |tail| > 0 && tail[0] == '\n'
    ensures SplitLines(a + tail) == SplitLines(a) + SplitLines(tail[1..])
    ensures |SplitLines(a)| > 0
    decreases |a|
  {
    hide IsBreak, AddHead, BreakLength, SplitLines;
    var k := if IsBreak(a[0]) then BreakLength(a) else 1;
    SplitUnfold(a, k);
    if |a| == 1 {
      assert a == [a[0]];
      SplitOne(a[0], tail);
    } else {
      BreakLengthAppend(a, tail);
      SplitUnfold(a + tail, k);
      assert (a + tail)[k..] == a[k..] + tail;
      SplitAppend(a[k..], tail);
      AddHeadConcat(a[0], SplitLines(a[k..]), SplitLines(tail[1..]));
    }
  }

  lemma SplitOne(c: char, tail: string)
    requires !IsBreak(c) && |tail| > 0 && tail[0] == '\n'
    ensures SplitLines([c]) == [[c]] && SplitLines([c] + tail) == [[c]] + SplitLines(tail[1..])
  {
    assert IsBreak('\n') && BreakLength(tail) == 1 && SplitLines("") == [] && AddHead(c, []) == [[c]];
    hide IsBreak, BreakLength, AddHead, SplitLines;
    SplitUnfold(tail, 1);
    SplitUnfold([c] + tail, 1);
    SplitUnfold([c], 1);
    assert ([c] + tail)[1..] == tail && [c][1..] == "";
    AddHeadAlone(c, SplitLines(tail[1..]));
  }

  lemma AddHeadAlone(c: char, lines: seq<string>)
    ensures AddHead(c, [""] + lines) == AddHead(c, []) + lines
  {
    assert [c] + "" == [c];
  }

  lemma AddHeadConcat(c: char, a: seq<string>, b: seq<string>)
    requires |a| > 0
    ensures AddHead(c, a + b) == AddHead(c, a) + b && |AddHead(c, a)| > 0
  {
    assert (a + b)[1..] == a[1..] + b;
  }

  lemma SplitConcat(a: string, b: string)
    requires |a| > 0 && !IsBreak(a[|a| - 1])
    ensures SplitLines(a + "\n" + b) == SplitLines(a) + SplitLines(b)
  {
    hide SplitLines, IsBreak;
    var tail := "\n" + b;
    assert a + "\n" + b == a + tail && tail[1..] == b;
    SplitAppend(a, tail);
  }

  lemma {:induction false} JoinOfPieces(s: string)
    ensures JoinLines(Pieces(s)) == s
  {
    if |s| > 0 {
      JoinOfPieces(s[1..]);
      var ps := Pieces(s[1..]);
      if s[0] == '\n' {
        assert ([""] + ps)[1..] == ps;
        assert s == "" + "\n" + s[1..];
      } else if |ps| == 1 {
        assert s == [s[0]] + s[1..];
      } else {
        assert ([[s[0]] + ps[0]] + ps[1..])[1..] == ps[1..];
        assert s == [s[0]] + s[1..];
      }
    }
  }

  lemma {:induction false} EntriesOfLines(block: seq<string>, buffer: seq<string>)
    requires NoSections(block)
    ensures Entries(block, buffer) == Flush(buffer + block)
  {
    hide Flush, IsSectionLine;
    if |block| == 0 {
      assert buffer + block == buffer;
    } else {
      EntriesOfLines(block[1..], buffer + [block[0]]);
      assert buffer + [block[0]] + block[1..] == buffer + block;
    }
  }

  lemma {:induction false} EntriesOfBlock(block: seq<string>, buffer: seq<string>, more: seq<string>)
    requires NoSections(block)
    ensures Entries(block + [[SECTION]] + more, buffer) == Flush(buffer + block) + Entries(more, [])
  {
    hide Flush, IsSectionLine;
    var all := block + [[SECTION]] + more;
    if |block| == 0 {
      assert buffer + block == buffer && all[1..] == more;
      SectionIsSection();
    } else {
      assert buffer + [block[0]] + block[1..] == buffer + block;
      assert all[1..] == block[1..] + [[SECTION]] + more;
      EntriesOfBlock(block[1..], buffer + [block[0]], more);
    }
  }

  lemma SectionIsSection()
    ensures IsSectionLine([SECTION])
  {
    assert !IsSpace(SECTION);
  }

  /** A canonical entry is one block of lines that the parser reads back as the entry. */
  lemma FlushOfEntry(e: string)
    requires Canonical(e)
    ensures Flush(SplitLines(e)) == [e]
  {
    assert IsSpace('\n');
    hide IsSpace, StripLeft, StripRight, SplitLines, NoSections, BreaksOnlyAtNewlines;
    assert e[|e| - 1] != '\n';
    SplitIsPieces(e);
    JoinOfPieces(e);
  }

  lemma SplitOfSerialize(e: string, rest: string)
    requires Canonical(e)
    ensures SplitLines(e + JOIN + rest) == SplitLines(e) + [[SECTION]] + SplitLines(rest)
  {
    SplitOne(SECTION, "\n");
    hide SplitLines, NoSections, StripLeft, StripRight;
    assert !IsBreak(SECTION) && !IsBreak(e[|e| - 1]);
    SplitConcat([SECTION], rest);
    SplitConcat(e, [SECTION] + "\n" + rest);
    assert e + JOIN + rest == e + "\n" + ([SECTION] + "\n" + rest);
  }

  /** Reading back what was printed gives the entries, for every list of canonical entries. */
  lemma {:induction false} ParseSerialize(es: seq<string>)
    requires AllCanonical(es)
    ensures Parse(Serialize(es)) == es
  {
    EntriesOfNothing();
    assert |es| == 0 ==> Parse(Serialize(es)) == [];
    assert |es| > 0 ==> Canonical(es[0]) && NoSections(SplitLines(es[0]));
    hide Canonical, Flush, SplitLines, Entries;
    if |es| > 0 {
      var lines := SplitLines(es[0]);
      FlushOfEntry(es[0]);
      assert [] + lines == lines;
      if |es| == 1 {
        EntriesOfLines(lines, []);
      } else {
        var rest := Serialize(es[1..]);
        SplitOfSerialize(es[0], rest);
        EntriesOfBlock(lines, [], SplitLines(rest));
        assert AllCanonical(es[1..]);
        ParseSerialize(es[1..]);
        assert es == [es[0]] + es[1..];
      }
    }
  }

  lemma EntriesOfNothing()
    ensures Flush([]) == []
  {
  }

  /** Parsing, printing and parsing again changes nothing, whatever the text. */
  lemma ParseSerializeParse(text: string)
    ensures Parse(Serialize(Parse(text))) == Parse(text)
  {
    ParseIsCanonical(text);
    ParseSerialize(Parse(text));
  }
}
