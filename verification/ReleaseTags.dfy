/** Release tag names `<skill>/v<sequence>`: how the publisher prints them and the subscriber
    parses and orders them. */
module ReleaseTags {
  import opened Common

  datatype ReleaseTag = ReleaseTag(sequence: nat, name: string)

  predicate IsDigit(c: char) { '0' <= c <= '9' }

  function DigitOf(d: nat): (c: char)
    requires d < 10
    ensures IsDigit(c) && DigitValue(c) == d
  {
    '0' + d as char
  }

  function DigitValue(c: char): (d: nat)
    requires IsDigit(c)
    ensures d < 10
  {
    (c - '0') as nat
  }

  /** Decimal rendering without leading zeros. */
  function Decimal(n: nat): (s: string)
    ensures |s| > 0 && forall i :: 0 <= i < |s| ==> IsDigit(s[i])
  {
    if n < 10 then [DigitOf(n)] else Decimal(n / 10) + [DigitOf(n % 10)]
  }

  function Value(s: string): nat
    requires forall i :: 0 <= i < |s| ==> IsDigit(s[i])
  {
    if s == "" then 0 else 10 * Value(s[..|s| - 1]) + DigitValue(s[|s| - 1])
  }

  /** The publisher's tag for a release. */
  function Render(skill: string, sequence: nat): string {
    skill + "/v" + Decimal(sequence)
  }

  /** `_parse_release_tag`: the prefix, then `v`, then digits that do not start with zero. */
  function Parse(skill: string, name: string): Option<nat> {
    var prefix := skill + "/v";
    if |name| > |prefix| && name[..|prefix|] == prefix && name[|prefix|] != '0'
       && forall i :: |prefix| <= i < |name| ==> IsDigit(name[i])
    then Some(Value(name[|prefix|..])) else None
  }

  lemma {:induction false} ValueDecimal(n: nat)
    ensures Value(Decimal(n)) == n
    ensures Decimal(n)[0] == '0' ==> n == 0
  {
    if n >= 10 {
      ValueDecimal(n / 10);
      assert Decimal(n)[..|Decimal(n)| - 1] == Decimal(n / 10);
    }
  }

  lemma {:induction false} DecimalValue(s: string)
    requires |s| > 0 && s[0] != '0' && forall i :: 0 <= i < |s| ==> IsDigit(s[i])
    ensures Value(s) > 0 && Decimal(Value(s)) == s
  {
    var front, last := s[..|s| - 1], s[|s| - 1];
    assert s == front + [last];
    if front != "" {
      DecimalValue(front);
      assert Value(s) / 10 == Value(front) && Value(s) % 10 == DigitValue(last);
    } else {
      assert Value(front) == 0;
      assert s == [last];
    }
  }

  /** The subscriber reads back the sequence that the publisher printed. */
  lemma ParseRender(skill: string, sequence: nat)
    requires sequence > 0
    ensures Parse(skill, Render(skill, sequence)) == Some(sequence)
  {
    var prefix, name := skill + "/v", Render(skill, sequence);
    ValueDecimal(sequence);
    assert name[|prefix|..] == Decimal(sequence);
    forall i | |prefix| <= i < |name| ensures IsDigit(name[i]) {
      assert name[i] == Decimal(sequence)[i - |prefix|];
    }
  }

  /** Every accepted name is the printed name of its sequence: two different tags of a skill never
      carry the same sequence. */
  lemma RenderParse(skill: string, name: string)
    requires Parse(skill, name).Some?
    ensures Parse(skill, name).value > 0 && Render(skill, Parse(skill, name).value) == name
  {
    var prefix := skill + "/v";
    DecimalValue(name[|prefix|..]);
    assert name == name[..|prefix|] + name[|prefix|..];
  }

  function InsertTag(t: ReleaseTag, ts: seq<ReleaseTag>): (out: seq<ReleaseTag>)
    ensures multiset(out) == multiset(ts) + multiset{t}
  {
    if ts == [] then [t]
    else if t.sequence < ts[0].sequence then [t] + ts
    else
      assert ts == [ts[0]] + ts[1..];
      [ts[0]] + InsertTag(t, ts[1..])
  }

  ghost predicate Ascending(ts: seq<ReleaseTag>) {
    forall i, j :: 0 <= i < j < |ts| ==> ts[i].sequence <= ts[j].sequence
  }

  lemma {:induction false} InsertAscending(t: ReleaseTag, ts: seq<ReleaseTag>)
    requires Ascending(ts)
    ensures Ascending(InsertTag(t, ts))
  {
    if ts != [] && t.sequence >= ts[0].sequence {
      InsertAscending(t, ts[1..]);
      var tail := InsertTag(t, ts[1..]);
      forall j | 0 <= j < |tail| ensures ts[0].sequence <= tail[j].sequence {
        assert tail[j] in multiset(tail);
        assert tail[j] == t || tail[j] in ts[1..];
      }
    }
  }

  /** The tags of the well-formed lines, in listing order. */
  function Parsed(skill: string, lines: seq<string>): seq<ReleaseTag> {
    if lines == [] then []
    else
      Parsed(skill, lines[..|lines| - 1]) +
      (var p := Parse(skill, lines[|lines| - 1]); if p.Some? then [ReleaseTag(p.value, lines[|lines| - 1])] else [])
  }

  lemma {:induction false} ParsedAre(skill: string, lines: seq<string>, t: ReleaseTag)
    ensures t in Parsed(skill, lines) <==> t.name in lines && Parse(skill, t.name) == Some(t.sequence)
  {
    if lines != [] {
      var front, last := lines[..|lines| - 1], lines[|lines| - 1];
      ParsedAre(skill, front, t);
      assert lines == front + [last];
    }
  }

  /** How many non-blank lines are not release tags of the skill. */
  function Malformed(skill: string, lines: seq<string>): nat {
    if lines == [] then 0
    else
      var last := lines[|lines| - 1];
      Malformed(skill, lines[..|lines| - 1]) + if last != "" && Parse(skill, last).None? then 1 else 0
  }

  function SortTags(ts: seq<ReleaseTag>): (out: seq<ReleaseTag>)
    ensures multiset(out) == multiset(ts)
  {
    if ts == [] then []
    else
      assert ts == [ts[0]] + ts[1..];
      InsertTag(ts[0], SortTags(ts[1..]))
  }

  lemma {:induction false} SortAscending(ts: seq<ReleaseTag>)
    ensures Ascending(SortTags(ts))
  {
    if ts != [] {
      SortAscending(ts[1..]);
      InsertAscending(ts[0], SortTags(ts[1..]));
    }
  }

  /** `list_release_tags` on the stripped lines of `git tag --list`: malformed names are skipped
      and counted, the rest come back in ascending sequence order. */
  method ListReleaseTags(skill: string, lines: seq<string>) returns (tags: seq<ReleaseTag>, malformed: nat)
    ensures Ascending(tags)
    ensures multiset(tags) == multiset(Parsed(skill, lines))
    ensures forall t :: t in tags <==> t.name in lines && Parse(skill, t.name) == Some(t.sequence)
    ensures malformed == Malformed(skill, lines)
  {
    var found := [];
    malformed := 0;
    var i := 0;
    while i < |lines|
      invariant 0 <= i <= |lines|
      invariant found == Parsed(skill, lines[..i]) && malformed == Malformed(skill, lines[..i])
    {
      var name := lines[i];
      assert lines[..i + 1][..i] == lines[..i];
      if name != "" {
        var parsed := Parse(skill, name);
        if parsed.Some? {
          found := found + [ReleaseTag(parsed.value, name)];
        } else {
          malformed := malformed + 1;
        }
      }
      i := i + 1;
    }
    assert lines[..i] == lines;
    tags := SortTags(found);
    SortAscending(found);
    forall t ensures t in tags <==> t.name in lines && Parse(skill, t.name) == Some(t.sequence) {
      ParsedAre(skill, lines, t);
      assert t in multiset(tags) <==> t in multiset(found);
    }
  }
}
