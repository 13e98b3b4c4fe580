/** Heading-aware chunking of a Markdown body by greedy packing. */
module Chunker {
  import opened Common
  import opened MemoryText

  const GAP: string := "\n\n"

  function StripNewlinesLeft(s: string): string {
    if |s| > 0 && s[0] == '\n' then StripNewlinesLeft(s[1..]) else s
  }

  function StripNewlinesRight(s: string): string {
    if |s| > 0 && s[|s| - 1] == '\n' then StripNewlinesRight(s[..|s| - 1]) else s
  }

  /** A buffered section; sections of white space only are dropped. */
  function Section(lines: seq<string>): seq<string> {
    var section := StripNewlinesRight(StripNewlinesLeft(JoinLines(lines)));
    if |Strip(section)| > 0 then [section] else []
  }

  predicate IsHeading(line: string) {
    |line| > 0 && line[0] == '#'
  }

  /** `_split_sections` from a buffer of lines on. */
  function Sections(lines: seq<string>, current: seq<string>): seq<string> {
    if |lines| == 0 then Section(current)
    else if IsHeading(lines[0]) && |current| > 0 then Section(current) + Sections(lines[1..], [lines[0]])
    else Sections(lines[1..], current + [lines[0]])
  }

  method SplitSections(body: string) returns (sections: seq<string>)
    ensures sections == Sections(SplitLines(body), [])
  {
    hide SplitLines, Section, IsHeading;
    var lines := SplitLines(body);
    var current: seq<string> := [];
    sections := [];
    for i := 0 to |lines|
      invariant sections + Sections(lines[i..], current) == Sections(lines, [])
    {
      assert lines[i..][1..] == lines[i + 1..];
      if IsHeading(lines[i]) && |current| > 0 {
        sections := sections + Section(current);
        current := [lines[i]];
      } else {
        current := current + [lines[i]];
      }
    }
    sections := sections + Section(current);
  }

  /** `_hard_split`. */
  function HardSplit(text: string, max: nat): (pieces: seq<string>)
    requires max > 0
    ensures forall i :: 0 <= i < |pieces| ==> 0 < |pieces[i]| <= max
  {
    if |text| == 0 then [] else if |text| <= max then [text] else [text[..max]] + HardSplit(text[max..], max)
  }

  function PiecesOf(section: string, max: nat): seq<string>
    requires max > 0
  {
    if |section| > max then HardSplit(section, max) else [section]
  }

  function AllPieces(sections: seq<string>, max: nat): seq<string>
    requires max > 0
  {
    if |sections| == 0 then [] else PiecesOf(sections[0], max) + AllPieces(sections[1..], max)
  }

  function Candidate(buffer: string, piece: string): string {
    if |buffer| > 0 then buffer + GAP + piece else piece
  }

  function Closing(buffer: string): seq<string> {
    if |buffer| > 0 then [buffer] else []
  }

  /** The packing loop from a buffer on. */
  function Pack(pieces: seq<string>, max: nat, buffer: string): seq<string> {
    if |pieces| == 0 then Closing(buffer)
    else if |Candidate(buffer, pieces[0])| <= max then Pack(pieces[1..], max, Candidate(buffer, pieces[0]))
    else Closing(buffer) + Pack(pieces[1..], max, pieces[0])
  }

  /** `chunk_markdown`; `None` stands for the raised `ValueError`. */
  function Chunks(body: string, max: int): Option<seq<string>> {
    if max <= 0 then None
    else if |Strip(body)| == 0 then Some([])
    else Some(Pack(AllPieces(Sections(SplitLines(Strip(body)), []), max), max, ""))
  }

  method ChunkMarkdown(body: string, max: int) returns (chunks: Option<seq<string>>)
    ensures chunks == Chunks(body, max)
  {
    hide SplitLines, Sections, Strip, PiecesOf, Candidate, Closing;
    if max <= 0 { return None; }
    var stripped := Strip(body);
    if |stripped| == 0 { return Some([]); }
    var done: seq<string> := [];
    var buffer := "";
    var sections := SplitSections(stripped);
    ghost var goal := Pack(AllPieces(sections, max), max, "");
    for i := 0 to |sections|
      invariant done + Pack(AllPieces(sections[i..], max), max, buffer) == goal
    {
      var pieces := PiecesOf(sections[i], max);
      ghost var rest := AllPieces(sections[i + 1..], max);
      assert sections[i..][1..] == sections[i + 1..];
      for j := 0 to |pieces|
        invariant done + Pack(pieces[j..] + rest, max, buffer) == goal
      {
        assert (pieces[j..] + rest)[1..] == pieces[j + 1..] + rest;
        var candidate := Candidate(buffer, pieces[j]);
        if |candidate| <= max {
          buffer := candidate;
        } else {
          done := done + Closing(buffer);
          buffer := pieces[j];
        }
      }
      assert pieces[|pieces|..] + rest == rest;
    }
    done := done + Closing(buffer);
    return Some(done);
  }

  // ----- Sizes -----

  predicate Sized(pieces: seq<string>, max: nat) {
    forall i :: 0 <= i < |pieces| ==> 0 < |pieces[i]| <= max
  }

  lemma {:induction false} SectionsAreVisible(lines: seq<string>, current: seq<string>)
    ensures forall i :: 0 <= i < |Sections(lines, current)| ==> |Sections(lines, current)[i]| > 0
  {
    if |lines| > 0 {
      SectionsAreVisible(lines[1..], [lines[0]]);
      SectionsAreVisible(lines[1..], current + [lines[0]]);
    }
  }

  lemma {:induction false} PiecesAreSized(sections: seq<string>, max: nat)
    requires max > 0 && forall i :: 0 <= i < |sections| ==> |sections[i]| > 0
    ensures Sized(AllPieces(sections, max), max)
  {
    if |sections| > 0 { PiecesAreSized(sections[1..], max); }
  }

  /** Every chunk is non-empty and within the limit. */
  lemma {:induction false} ChunksAreSized(pieces: seq<string>, max: nat, buffer: string)
    requires Sized(pieces, max) && |buffer| <= max
    ensures Sized(Pack(pieces, max, buffer), max)
  {
    if |pieces| > 0 {
      assert Sized(pieces[1..], max);
      var candidate := Candidate(buffer, pieces[0]);
      if |candidate| <= max {
        ChunksAreSized(pieces[1..], max, candidate);
      } else {
        ChunksAreSized(pieces[1..], max, pieces[0]);
      }
    }
  }

  // ----- Content -----

  /** The visible characters of a text. */
  function Visible(s: string): string {
    if |s| == 0 then "" else (if IsSpace(s[0]) then "" else [s[0]]) + Visible(s[1..])
  }

  function VisibleAll(ls: seq<string>): string {
    if |ls| == 0 then "" else Visible(ls[0]) + VisibleAll(ls[1..])
  }

  lemma {:induction false} VisibleConcat(a: string, b: string)
    ensures Visible(a + b) == Visible(a) + Visible(b)
  {
    hide IsSpace;
    if |a| == 0 {
      assert a + b == b;
    } else {
      assert (a + b)[1..] == a[1..] + b;
      VisibleConcat(a[1..], b);
    }
  }

  lemma {:induction false} VisibleAllConcat(a: seq<string>, b: seq<string>)
    ensures VisibleAll(a + b) == VisibleAll(a) + VisibleAll(b)
  {
    hide Visible;
    if |a| == 0 {
      assert a + b == b;
    } else {
      assert (a + b)[1..] == a[1..] + b;
      VisibleAllConcat(a[1..], b);
    }
  }

  lemma {:induction false} VisibleStripLeft(s: string)
    ensures Visible(StripLeft(s)) == Visible(s)
  {
    hide IsSpace;
    if |s| > 0 { VisibleStripLeft(s[1..]); }
  }

  lemma {:induction false} VisibleStripRight(s: string)
    ensures Visible(StripRight(s)) == Visible(s)
  {
    hide IsSpace;
    if |s| > 0 && IsSpace(s[|s| - 1]) {
      var front, last := s[..|s| - 1], s[|s| - 1..];
      assert s == front + last;
      VisibleConcat(front, last);
      assert Visible(last) == "" by { assert last[1..] == ""; }
      VisibleStripRight(front);
    }
  }

  lemma VisibleStrip(s: string)
    ensures Visible(Strip(s)) == Visible(s)
  {
    VisibleStripLeft(s);
    VisibleStripRight(StripLeft(s));
  }

  lemma {:induction false} VisibleNewlinesLeft(s: string)
    ensures Visible(StripNewlinesLeft(s)) == Visible(s)
  {
    if |s| > 0 { VisibleNewlinesLeft(s[1..]); }
  }

  lemma {:induction false} VisibleNewlinesRight(s: string)
    ensures Visible(StripNewlinesRight(s)) == Visible(s)
  {
    if |s| > 0 && s[|s| - 1] == '\n' {
      var front, last := s[..|s| - 1], s[|s| - 1..];
      assert s == front + last;
      VisibleConcat(front, last);
      assert Visible(last) == "" by { assert last[1..] == "" && IsSpace('\n'); }
      VisibleNewlinesRight(front);
    }
  }

  lemma {:induction false} VisibleJoin(lines: seq<string>)
    ensures Visible(JoinLines(lines)) == VisibleAll(lines)
  {
    hide IsSpace;
    if |lines| == 1 {
      assert VisibleAll(lines[1..]) == "";
    } else if |lines| > 1 {
      VisibleJoin(lines[1..]);
      VisibleConcat(lines[0], "\n" + JoinLines(lines[1..]));
      VisibleConcat("\n", JoinLines(lines[1..]));
      assert lines[0] + "\n" + JoinLines(lines[1..]) == lines[0] + ("\n" + JoinLines(lines[1..]));
      VisibleNewline();
    }
  }

  lemma VisibleNewline()
    ensures Visible("\n") == "" && Visible(GAP) == ""
  {
    assert IsSpace('\n');
    assert GAP[1..] == "\n" && "\n"[1..] == "";
  }

  /** Splitting into lines drops white space only. */
  lemma {:induction false} VisibleLines(t: string)
    ensures VisibleAll(SplitLines(t)) == Visible(t)
    decreases |t|
  {
    hide IsSpace, IsBreak;
    if |t| > 0 {
      if IsBreak(t[0]) {
        var k := BreakLength(t);
        VisibleLines(t[k..]);
        assert t == t[..k] + t[k..];
        VisibleConcat(t[..k], t[k..]);
        BreakIsInvisible(t);
      } else {
        VisibleLines(t[1..]);
        VisibleHead(t[0], SplitLines(t[1..]));
      }
    }
  }

  lemma BreakIsInvisible(t: string)
    requires |t| > 0 && IsBreak(t[0])
    ensures Visible(t[..BreakLength(t)]) == ""
  {
    var b := t[..BreakLength(t)];
    assert IsSpace(b[0]);
    if |b| == 2 {
      assert b[1..] == "\n" && "\n"[1..] == "" && IsSpace('\n');
    } else {
      assert b[1..] == "";
    }
  }

  lemma VisibleCons(c: char, s: string)
    ensures Visible([c] + s) == (if IsSpace(c) then "" else [c]) + Visible(s)
  {
    assert ([c] + s)[1..] == s;
  }

  lemma VisibleNothing()
    ensures Visible("") == "" && VisibleAll([]) == ""
  {
  }

  lemma VisibleAllCons(first: string, rest: seq<string>)
    ensures VisibleAll([first] + rest) == Visible(first) + VisibleAll(rest)
  {
    hide Visible;
    assert ([first] + rest)[1..] == rest;
  }

  lemma Associative(a: string, b: string, c: string)
    ensures (a + b) + c == a + (b + c)
  {
  }

  lemma AddHeadIs(c: char, lines: seq<string>)
    ensures |lines| == 0 ==> AddHead(c, lines) == [[c] + ""] + []
    ensures |lines| > 0 ==> AddHead(c, lines) == [[c] + lines[0]] + lines[1..] && lines == [lines[0]] + lines[1..]
  {
    assert [c] + "" == [c];
  }

  lemma VisibleHead(c: char, lines: seq<string>)
    ensures VisibleAll(AddHead(c, lines)) == (if IsSpace(c) then "" else [c]) + VisibleAll(lines)
  {
    hide IsSpace, Visible, VisibleAll, AddHead;
    VisibleNothing();
    AddHeadIs(c, lines);
    var head := if IsSpace(c) then "" else [c];
    if |lines| == 0 {
      VisibleCons(c, "");
      VisibleAllCons([c] + "", []);
      Associative(head, "", "");
    } else {
      VisibleCons(c, lines[0]);
      VisibleAllCons([c] + lines[0], lines[1..]);
      VisibleAllCons(lines[0], lines[1..]);
      Associative(head, Visible(lines[0]), VisibleAll(lines[1..]));
    }
  }

  lemma VisibleSection(lines: seq<string>)
    ensures VisibleAll(Section(lines)) == VisibleAll(lines)
  {
    hide IsSpace, Visible, VisibleAll, JoinLines, Strip;
    VisibleNothing();
    var joined := JoinLines(lines);
    var section := StripNewlinesRight(StripNewlinesLeft(joined));
    VisibleJoin(lines);
    VisibleNewlinesLeft(joined);
    VisibleNewlinesRight(StripNewlinesLeft(joined));
    VisibleStrip(section);
    VisibleAllCons(section, []);
    assert [section] + [] == [section] && Visible(section) + "" == Visible(section);
  }

  lemma {:induction false} VisibleSections(lines: seq<string>, current: seq<string>)
    ensures VisibleAll(Sections(lines, current)) == VisibleAll(current) + VisibleAll(lines)
  {
    hide Visible, Section, IsHeading, VisibleAll;
    VisibleNothing();
    if |lines| == 0 {
      VisibleSection(current);
    } else {
      assert lines == [lines[0]] + lines[1..];
      VisibleAllConcat([lines[0]], lines[1..]);
      if IsHeading(lines[0]) && |current| > 0 {
        VisibleSection(current);
        VisibleSections(lines[1..], [lines[0]]);
        VisibleAllConcat(Section(current), Sections(lines[1..], [lines[0]]));
      } else {
        VisibleSections(lines[1..], current + [lines[0]]);
        VisibleAllConcat(current, [lines[0]]);
      }
    }
  }

  lemma {:induction false} VisibleHardSplit(text: string, max: nat)
    requires max > 0
    ensures VisibleAll(HardSplit(text, max)) == Visible(text)
  {
    assert Visible("") == "";
    hide Visible;
    if |text| == 0 {
      assert text == "";
    } else if |text| <= max {
      assert [text][1..] == [];
    } else {
      VisibleHardSplit(text[max..], max);
      assert text == text[..max] + text[max..];
      VisibleConcat(text[..max], text[max..]);
    }
  }

  lemma {:induction false} VisiblePieces(sections: seq<string>, max: nat)
    requires max > 0
    ensures VisibleAll(AllPieces(sections, max)) == VisibleAll(sections)
  {
    hide Visible;
    if |sections| > 0 {
      VisiblePieces(sections[1..], max);
      if |sections[0]| > max { VisibleHardSplit(sections[0], max); } else { assert [sections[0]][1..] == []; }
      VisibleAllConcat(PiecesOf(sections[0], max), AllPieces(sections[1..], max));
    }
  }

  lemma {:induction false} VisiblePack(pieces: seq<string>, max: nat, buffer: string)
    ensures VisibleAll(Pack(pieces, max, buffer)) == Visible(buffer) + VisibleAll(pieces)
  {
    hide Visible;
    VisibleClosing(buffer);
    if |pieces| > 0 {
      VisibleCandidate(buffer, pieces[0]);
      if |Candidate(buffer, pieces[0])| <= max {
        VisiblePack(pieces[1..], max, Candidate(buffer, pieces[0]));
      } else {
        VisiblePack(pieces[1..], max, pieces[0]);
        VisibleAllConcat(Closing(buffer), Pack(pieces[1..], max, pieces[0]));
      }
    }
  }

  lemma VisibleClosing(buffer: string)
    ensures VisibleAll(Closing(buffer)) == Visible(buffer)
  {
    assert [buffer][1..] == [];
  }

  lemma VisibleCandidate(buffer: string, piece: string)
    ensures Visible(Candidate(buffer, piece)) == Visible(buffer) + Visible(piece)
  {
    if |buffer| > 0 {
      VisibleNewline();
      VisibleConcat(buffer + GAP, piece);
      VisibleConcat(buffer, GAP);
    }
  }

  /** Chunking keeps the visible characters of the body in order, in non-empty chunks within the limit. */
  lemma ChunksKeepContent(body: string, max: int)
    requires max > 0
    ensures VisibleAll(Chunks(body, max).value) == Visible(body)
    ensures Sized(Chunks(body, max).value, max)
  {
    assert Sized([], max);
    hide Visible, VisibleAll, SplitLines, Sections, AllPieces, Pack, Strip, Sized;
    VisibleNothing();
    VisibleStrip(body);
    if |Strip(body)| > 0 {
      var sections := Sections(SplitLines(Strip(body)), []);
      VisibleLines(Strip(body));
      VisibleSections(SplitLines(Strip(body)), []);
      VisiblePieces(sections, max);
      VisiblePack(AllPieces(sections, max), max, "");
      SectionsAreVisible(SplitLines(Strip(body)), []);
      PiecesAreSized(sections, max);
      ChunksAreSized(AllPieces(sections, max), max, "");
    }
  }

  // ----- Greedy packing -----

  function JoinGap(group: seq<string>): string {
    if |group| == 0 then ""
    else if |group| == 1 then group[0]
    else JoinGap(group[..|group| - 1]) + GAP + group[|group| - 1]
  }

  function Flatten(groups: seq<seq<string>>): seq<string> {
    if |groups| == 0 then [] else groups[0] + Flatten(groups[1..])
  }

  /** The groups of pieces that the packing loop forms. */
  function Groups(pieces: seq<string>, max: nat, group: seq<string>): seq<seq<string>> {
    if |pieces| == 0 then (if |group| > 0 then [group] else [])
    else if |Candidate(JoinGap(group), pieces[0])| <= max then Groups(pieces[1..], max, group + [pieces[0]])
    else (if |group| > 0 then [group] else []) + Groups(pieces[1..], max, [pieces[0]])
  }

  function JoinAll(groups: seq<seq<string>>): seq<string> {
    if |groups| == 0 then [] else [JoinGap(groups[0])] + JoinAll(groups[1..])
  }

  lemma JoinGapSnoc(group: seq<string>, piece: string)
    requires |group| > 0 ==> |JoinGap(group)| > 0
    ensures JoinGap(group + [piece]) == Candidate(JoinGap(group), piece)
  {
    assert (group + [piece])[..|group|] == group;
  }

  /** The chunks are the joined groups. */
  lemma {:induction false} PackJoinsGroups(pieces: seq<string>, max: nat, group: seq<string>)
    requires Sized(pieces, max) && (|group| > 0 ==> |JoinGap(group)| > 0)
    ensures JoinAll(Groups(pieces, max, group)) == Pack(pieces, max, JoinGap(group))
    decreases |pieces|
  {
    assert |group| == 0 ==> JoinGap(group) == "";
    assert |pieces| > 0 ==> JoinGap([pieces[0]]) == pieces[0] && |Candidate(JoinGap(group), pieces[0])| > 0;
    hide JoinGap, Candidate;
    if |pieces| == 0 {
      assert [group][1..] == [] && JoinAll([group]) == [JoinGap(group)] + JoinAll([]);
    } else {
      assert Sized(pieces[1..], max);
      JoinGapSnoc(group, pieces[0]);
      if |Candidate(JoinGap(group), pieces[0])| <= max {
        PackJoinsGroups(pieces[1..], max, group + [pieces[0]]);
      } else {
        PackJoinsGroups(pieces[1..], max, [pieces[0]]);
        var rest := Groups(pieces[1..], max, [pieces[0]]);
        assert ([group] + rest)[1..] == rest;
      }
    }
  }

  /** The groups are consecutive and not empty. */
  lemma {:induction false} GroupsArePieces(pieces: seq<string>, max: nat, group: seq<string>)
    ensures Flatten(Groups(pieces, max, group)) == group + pieces
    ensures forall i :: 0 <= i < |Groups(pieces, max, group)| ==> |Groups(pieces, max, group)[i]| > 0
    ensures |group| > 0 ==> |Groups(pieces, max, group)| > 0 && group <= Groups(pieces, max, group)[0]
    decreases |pieces|
  {
    hide JoinGap, Candidate;
    if |pieces| == 0 {
      assert [group][1..] == [] && Flatten([group]) == group + Flatten([]);
    } else {
      assert pieces == [pieces[0]] + pieces[1..];
      if |Candidate(JoinGap(group), pieces[0])| <= max {
        GroupsArePieces(pieces[1..], max, group + [pieces[0]]);
        assert group + [pieces[0]] + pieces[1..] == group + pieces;
      } else {
        GroupsArePieces(pieces[1..], max, [pieces[0]]);
        var rest := Groups(pieces[1..], max, [pieces[0]]);
        assert ([group] + rest)[1..] == rest && [] + rest == rest;
        assert Flatten([group] + rest) == group + Flatten(rest) == group + pieces;
      }
    }
  }

  /** The first piece of the next group would not have fitted into group `i`. */
  predicate Tight(gs: seq<seq<string>>, max: nat, i: nat) {
    i + 1 < |gs| && |gs[i + 1]| > 0 ==> |JoinGap(gs[i])| + |GAP| + |gs[i + 1][0]| > max
  }

  /** A group ends only where the next piece no longer fits. */
  lemma {:induction false} GroupsAreGreedy(pieces: seq<string>, max: nat, group: seq<string>)
    requires Sized(pieces, max) && (|group| > 0 ==> |JoinGap(group)| > 0)
    ensures forall i: nat :: Tight(Groups(pieces, max, group), max, i)
    decreases |pieces|
  {
    if |pieces| > 0 {
      assert Sized(pieces[1..], max);
      JoinGapSnoc(group, pieces[0]);
      assert |JoinGap([pieces[0]])| > 0;
      assert |group| == 0 ==> |Candidate(JoinGap(group), pieces[0])| <= max;
      hide JoinGap;
      var gs := Groups(pieces, max, group);
      if |Candidate(JoinGap(group), pieces[0])| <= max {
        GroupsAreGreedy(pieces[1..], max, group + [pieces[0]]);
        assert gs == Groups(pieces[1..], max, group + [pieces[0]]);
      } else {
        GroupsAreGreedy(pieces[1..], max, [pieces[0]]);
        GroupsArePieces(pieces[1..], max, [pieces[0]]);
        var rest := Groups(pieces[1..], max, [pieces[0]]);
        assert rest[0][0] == pieces[0];
        assert gs == [group] + rest;
        forall i: nat
          ensures Tight(gs, max, i)
        {
          if i > 0 { assert Tight(rest, max, i - 1); }
        }
      }
    }
  }

  /** Each chunk joins consecutive pieces, and no chunk could have taken the first piece of the next one. */
  lemma PackingIsGreedy(body: string, max: int)
    requires max > 0 && |Strip(body)| > 0
    ensures var pieces := AllPieces(Sections(SplitLines(Strip(body)), []), max);
            var gs := Groups(pieces, max, []);
            && Chunks(body, max).value == JoinAll(gs) && Flatten(gs) == pieces
            && (forall i :: 0 <= i < |gs| ==> |gs[i]| > 0)
            && (forall i: nat :: Tight(gs, max, i))
  {
    hide SplitLines, Sections, AllPieces, Strip, Groups, Flatten, JoinAll, Pack, Sized, Tight;
    var sections := Sections(SplitLines(Strip(body)), []);
    var pieces := AllPieces(sections, max);
    SectionsAreVisible(SplitLines(Strip(body)), []);
    PiecesAreSized(sections, max);
    PackJoinsGroups(pieces, max, []);
    GroupsArePieces(pieces, max, []);
    GroupsAreGreedy(pieces, max, []);
    assert [] + pieces == pieces;
  }
}
