/** The deletion marker inside a persisted note: printer and parser.

    The regular expression is deterministic, because every field is followed by a blank that the field
    cannot contain; so matching is reading the fields from left to right. */
module DeletionMarker {
  import opened Common
  import opened MemoryText
  import opened Reclaim
  import opened MemoryDeletion

  const OPEN: string := "<!-- "
  const VERSION_PREFIX: string := "mc-marker-"
  const VERSION: string := "mc-marker-v1"
  const DIGEST_LENGTH: nat := 64

  predicate IsVersionChar(c: char) {
    '0' <= c <= '9' || 'A' <= c <= 'Z' || 'a' <= c <= 'z' || c in ['.', '_', '-']
  }

  predicate IsKeyChar(c: char) {
    !IsSpace(c) && c != '<' && c != '>'
  }

  predicate IsHexChar(c: char) {
    '0' <= c <= '9' || 'a' <= c <= 'f'
  }

  function KindName(k: Kind): string {
    if k == Memory then "memory" else "user"
  }

  /** `promotion_key`. */
  function KeyText(k: Kind, digest: string): string {
    KindName(k) + ":" + digest
  }

  function Flag(b: bool): string {
    if b then "true" else "false"
  }

  predicate AllHex(s: string) {
    forall i :: 0 <= i < |s| ==> IsHexChar(s[i])
  }

  /** The markers of version 1 whose key belongs to their kind and digest. */
  predicate Coherent(m: Marker) {
    m.key == Promotion(m.kind, m.digest) && |m.digest| == DIGEST_LENGTH && AllHex(m.digest)
  }

  function FromDelete(flag: bool, rest: string): string {
    " delete-after-persist=" + (Flag(flag) + (" -->" + rest))
  }

  function FromDigest(m: Marker, rest: string): string {
    " digest=" + (m.digest + FromDelete(m.deleteAfterPersist, rest))
  }

  function FromKind(m: Marker, rest: string): string {
    " kind=" + (KindName(m.kind) + FromDigest(m, rest))
  }

  /** A coherent marker printed in front of `rest`. */
  function Printed(m: Marker, rest: string): string {
    OPEN + (VERSION + (" key=" + (KeyText(m.kind, m.digest) + FromKind(m, rest))))
  }

  /** `render_marker` for a coherent marker. */
  function Render(m: Marker): string {
    Printed(m, "")
  }

  // ----- Reading -----

  /** What follows a literal. */
  function Eat(s: string, literal: string): Option<string> {
    if literal <= s then Some(s[|literal|..]) else None
  }

  function Run(s: string, accepts: char -> bool): (n: nat)
    ensures n <= |s| && (forall i :: 0 <= i < n ==> accepts(s[i])) && (n < |s| ==> !accepts(s[n]))
  {
    if |s| > 0 && accepts(s[0]) then 1 + Run(s[1..], accepts) else 0
  }

  function ReadFlag(s: string): Option<bool> {
    if Eat(s, "true").Some? && Eat(s[4..], " -->").Some? then Some(true)
    else if Eat(s, "false").Some? && Eat(s[5..], " -->").Some? then Some(false)
    else None
  }

  datatype Fields = Fields(version: string, key: string, kind: Kind, digest: string, delete: bool)

  function ReadDigest(s: string, kind: Kind, version: string, key: string): Option<Fields> {
    match Eat(s, " digest=")
    case None => None
    case Some(t) =>
      if |t| < DIGEST_LENGTH || !AllHex(t[..DIGEST_LENGTH]) then None
      else match Eat(t[DIGEST_LENGTH..], " delete-after-persist=")
        case None => None
        case Some(u) => match ReadFlag(u)
          case None => None
          case Some(flag) => Some(Fields(version, key, kind, t[..DIGEST_LENGTH], flag))
  }

  function ReadKind(s: string, version: string, key: string): Option<Fields> {
    match Eat(s, " kind=")
    case None => None
    case Some(t) =>
      if Eat(t, "memory").Some? then ReadDigest(t[6..], Memory, version, key)
      else if Eat(t, "user").Some? then ReadDigest(t[4..], User, version, key)
      else None
  }

  function ReadKey(s: string, version: string): Option<Fields> {
    match Eat(s, " key=")
    case None => None
    case Some(t) =>
      var n := Run(t, IsKeyChar);
      if n == 0 then None else ReadKind(t[n..], version, t[..n])
  }

  /** The pattern, matched at the start of `s`. */
  function MatchAt(s: string): Option<Fields> {
    match Eat(s, OPEN)
    case None => None
    case Some(t) =>
      var n := Run(t, IsVersionChar);
      if n <= |VERSION_PREFIX| || !(VERSION_PREFIX <= t) then None else ReadKey(t[n..], t[..n])
  }

  predicate OccursAt(s: string, t: string, i: nat) {
    i + |t| <= |s| && s[i..i + |t|] == t
  }

  function Positions(s: string, t: string, n: nat): (ps: seq<nat>)
    requires n <= |s|
    ensures forall i: nat :: i in ps <==> i < n && OccursAt(s, t, i)
    ensures forall a, b :: 0 <= a < b < |ps| ==> ps[a] < ps[b]
  {
    if n == 0 then []
    else
      var below := Positions(s, t, n - 1);
      assert forall a :: 0 <= a < |below| ==> below[a] in below;
      if OccursAt(s, t, n - 1) then below + [n - 1] else below
  }

  const MARK: string := OPEN + VERSION_PREFIX

  /** `parse_marker`: exactly one opening, the whole pattern there, version 1 and a key of its own fields. */
  function Parse(note: string): Option<Marker> {
    var ps := Positions(note, MARK, |note|);
    if |ps| != 1 then None
    else
      assert ps[0] in ps;
      match MatchAt(note[ps[0]..])
      case None => None
      case Some(f) =>
        if f.version != VERSION || f.key != KeyText(f.kind, f.digest) then None
        else Some(Marker(Promotion(f.kind, f.digest), f.kind, f.digest, f.delete))
  }

  // ----- Reading what was printed -----

  lemma EatConcat(literal: string, rest: string)
    ensures Eat(literal + rest, literal) == Some(rest)
  {
  }

  lemma EatGives(s: string, literal: string)
    requires Eat(s, literal).Some?
    ensures s == literal + Eat(s, literal).value
  {
  }

  lemma {:induction false} RunConcat(a: string, b: string, accepts: char -> bool)
    requires (forall i :: 0 <= i < |a| ==> accepts(a[i])) && |b| > 0 && !accepts(b[0])
    ensures Run(a + b, accepts) == |a|
  {
    if |a| == 0 {
      assert a + b == b;
    } else {
      assert (a + b)[1..] == a[1..] + b;
      RunConcat(a[1..], b, accepts);
    }
  }

  lemma ReadsFlag(flag: bool, rest: string)
    ensures ReadFlag(Flag(flag) + (" -->" + rest)) == Some(flag)
  {
    var s := Flag(flag) + (" -->" + rest);
    EatConcat(Flag(flag), " -->" + rest);
    EatConcat(" -->", rest);
    if !flag { assert s[0] == 'f'; }
  }

  lemma ReadsDigest(m: Marker, rest: string, version: string, key: string)
    requires Coherent(m)
    ensures ReadDigest(FromDigest(m, rest), m.kind, version, key)
            == Some(Fields(version, key, m.kind, m.digest, m.deleteAfterPersist))
  {
    hide ReadFlag, Flag;
    var t := m.digest + FromDelete(m.deleteAfterPersist, rest);
    EatConcat(" digest=", t);
    assert t[..DIGEST_LENGTH] == m.digest && t[DIGEST_LENGTH..] == FromDelete(m.deleteAfterPersist, rest);
    EatConcat(" delete-after-persist=", Flag(m.deleteAfterPersist) + (" -->" + rest));
    ReadsFlag(m.deleteAfterPersist, rest);
  }

  lemma ReadsKind(m: Marker, rest: string, version: string, key: string)
    requires Coherent(m)
    ensures ReadKind(FromKind(m, rest), version, key)
            == Some(Fields(version, key, m.kind, m.digest, m.deleteAfterPersist))
  {
    hide ReadDigest, FromDigest;
    var t := KindName(m.kind) + FromDigest(m, rest);
    EatConcat(" kind=", t);
    EatConcat(KindName(m.kind), FromDigest(m, rest));
    if m.kind == User { assert t[0] == 'u'; }
    ReadsDigest(m, rest, version, key);
  }

  lemma KeyCharsOfKey(m: Marker)
    requires Coherent(m)
    ensures forall i :: 0 <= i < |KeyText(m.kind, m.digest)| ==> IsKeyChar(KeyText(m.kind, m.digest)[i])
  {
    var key := KeyText(m.kind, m.digest);
    var head := KindName(m.kind) + ":";
    forall i | 0 <= i < |key|
      ensures IsKeyChar(key[i])
    {
      if i < |head| {
        assert key[i] == head[i];
      } else {
        assert key[i] == m.digest[i - |head|];
      }
    }
  }

  lemma ReadsKey(m: Marker, rest: string, version: string)
    requires Coherent(m)
    ensures ReadKey(" key=" + (KeyText(m.kind, m.digest) + FromKind(m, rest)), version) ==
            Some(Fields(version, KeyText(m.kind, m.digest), m.kind, m.digest, m.deleteAfterPersist))
  {
    var key, afterKey := KeyText(m.kind, m.digest), FromKind(m, rest);
    assert |key| > 0 && |afterKey| > 0 && afterKey[0] == ' ' && !IsKeyChar(' ');
    hide ReadKind, FromKind, KeyText, IsSpace;
    EatConcat(" key=", key + afterKey);
    KeyCharsOfKey(m);
    RunConcat(key, afterKey, IsKeyChar);
    assert (key + afterKey)[|key|..] == afterKey && (key + afterKey)[..|key|] == key;
    ReadsKind(m, rest, version, key);
  }

  /** The pattern matches a printed marker and reads its fields back. */
  lemma MatchesPrinted(m: Marker, rest: string)
    requires Coherent(m)
    ensures MatchAt(Printed(m, rest))
            == Some(Fields(VERSION, KeyText(m.kind, m.digest), m.kind, m.digest, m.deleteAfterPersist))
  {
    hide ReadKey, FromKind, KeyText;
    var afterVersion := " key=" + (KeyText(m.kind, m.digest) + FromKind(m, rest));
    var t := VERSION + afterVersion;
    EatConcat(OPEN, t);
    RunConcat(VERSION, afterVersion, IsVersionChar);
    assert t[|VERSION|..] == afterVersion && t[..|VERSION|] == VERSION && VERSION_PREFIX <= t;
    ReadsKey(m, rest, VERSION);
  }

  // ----- What was read was printed -----

  lemma FlagGives(s: string) returns (rest: string)
    requires ReadFlag(s).Some?
    ensures s == Flag(ReadFlag(s).value) + (" -->" + rest)
  {
    var word := Flag(ReadFlag(s).value);
    EatGives(s, word);
    EatGives(s[|word|..], " -->");
    rest := s[|word|..][4..];
  }

  lemma DigestGives(s: string, kind: Kind, version: string, key: string) returns (rest: string)
    requires ReadDigest(s, kind, version, key).Some?
    ensures var f := ReadDigest(s, kind, version, key).value;
            && f.version == version && f.key == key && f.kind == kind && |f.digest| == DIGEST_LENGTH && AllHex(f.digest)
            && s == FromDigest(Marker(Promotion(kind, f.digest), kind, f.digest, f.delete), rest)
  {
    hide ReadFlag, Flag;
    EatGives(s, " digest=");
    var t := Eat(s, " digest=").value;
    assert t == t[..DIGEST_LENGTH] + t[DIGEST_LENGTH..];
    EatGives(t[DIGEST_LENGTH..], " delete-after-persist=");
    rest := FlagGives(Eat(t[DIGEST_LENGTH..], " delete-after-persist=").value);
  }

  lemma KindGives(s: string, version: string, key: string) returns (rest: string)
    requires ReadKind(s, version, key).Some?
    ensures var f := ReadKind(s, version, key).value;
            && f.version == version && f.key == key && |f.digest| == DIGEST_LENGTH && AllHex(f.digest)
            && s == FromKind(Marker(Promotion(f.kind, f.digest), f.kind, f.digest, f.delete), rest)
  {
    hide ReadDigest, FromDigest, AllHex;
    EatGives(s, " kind=");
    var t := Eat(s, " kind=").value;
    if Eat(t, "memory").Some? {
      EatGives(t, "memory");
      rest := DigestGives(t[6..], Memory, version, key);
    } else {
      EatGives(t, "user");
      rest := DigestGives(t[4..], User, version, key);
    }
  }

  lemma MatchGives(s: string) returns (rest: string)
    requires MatchAt(s).Some? && MatchAt(s).value.version == VERSION
    requires MatchAt(s).value.key == KeyText(MatchAt(s).value.kind, MatchAt(s).value.digest)
    ensures var f := MatchAt(s).value;
            var m := Marker(Promotion(f.kind, f.digest), f.kind, f.digest, f.delete);
            Coherent(m) && s == Printed(m, rest)
  {
    hide ReadKind, FromKind, KeyText, AllHex;
    EatGives(s, OPEN);
    var t := Eat(s, OPEN).value;
    var n := Run(t, IsVersionChar);
    assert t == t[..n] + t[n..];
    EatGives(t[n..], " key=");
    var u := Eat(t[n..], " key=").value;
    var k := Run(u, IsKeyChar);
    assert u == u[..k] + u[k..];
    rest := KindGives(u[k..], t[..n], u[..k]);
  }

  // ----- The marker of a note -----

  /** The marker stands in the note, and no other opening does. */
  ghost predicate Carries(note: string, m: Marker) {
    Coherent(m) && |Positions(note, MARK, |note|)| == 1 && exists i: nat :: OccursAt(note, Render(m), i)
  }

  lemma {:induction false} PrintedIsRendered(m: Marker, rest: string)
    ensures Printed(m, rest) == Render(m) + rest
  {
    var end := Flag(m.deleteAfterPersist);
    assert end + (" -->" + rest) == end + (" -->" + "") + rest;
    assert FromDelete(m.deleteAfterPersist, rest) == FromDelete(m.deleteAfterPersist, "") + rest;
    assert FromDigest(m, rest) == FromDigest(m, "") + rest;
    assert FromKind(m, rest) == FromKind(m, "") + rest;
    var key := KeyText(m.kind, m.digest);
    assert key + FromKind(m, rest) == key + FromKind(m, "") + rest;
    assert " key=" + (key + FromKind(m, rest)) == " key=" + (key + FromKind(m, "")) + rest;
    assert VERSION + (" key=" + (key + FromKind(m, rest))) == VERSION + (" key=" + (key + FromKind(m, ""))) + rest;
  }

  /** Parsing a note gives a marker exactly when the note carries that marker as it is printed, and no
      second opening. */
  lemma ParseExactly(note: string, m: Marker)
    ensures Parse(note) == Some(m) <==> Carries(note, m)
  {
    var ps := Positions(note, MARK, |note|);
    if Parse(note) == Some(m) {
      ParsedIsCarried(note, m);
    }
    if Carries(note, m) {
      CarriedIsParsed(note, m);
    }
  }

  lemma ParsedIsCarried(note: string, m: Marker)
    requires Parse(note) == Some(m)
    ensures Carries(note, m)
  {
    hide MatchAt, Printed, KeyText;
    var p := Positions(note, MARK, |note|)[0];
    assert p in Positions(note, MARK, |note|);
    var rest := MatchGives(note[p..]);
    PrintedIsRendered(m, rest);
    assert note[p..] == Render(m) + rest;
    assert OccursAt(note, Render(m), p);
  }

  lemma CarriedIsParsed(note: string, m: Marker)
    requires Carries(note, m)
    ensures Parse(note) == Some(m)
  {
    hide MatchAt, KeyText, FromKind;
    var i: nat :| OccursAt(note, Render(m), i);
    var rest := note[i + |Render(m)|..];
    assert note[i..] == Render(m) + rest;
    PrintedIsRendered(m, rest);
    MatchesPrinted(m, rest);
    OpensWithMark(m);
    assert note[i..i + |MARK|] == Render(m)[..|MARK|];
    assert i in Positions(note, MARK, |note|);
  }

  lemma OpensWithMark(m: Marker)
    ensures MARK <= Render(m)
  {
    hide KeyText, FromKind;
  }

  /** A note carries at most one marker. */
  lemma OneMarker(note: string, a: Marker, b: Marker)
    requires Carries(note, a) && Carries(note, b)
    ensures a == b
  {
    ParseExactly(note, a);
    ParseExactly(note, b);
  }

  /** With this parser, an entry is deleted only on a note that spells out, as its one marker, the kind and
      digest of the entry and the permission to delete. */
  lemma DeletionIsSpelledOut(hs: Hashes, r: Record, note: Option<string>, es: seq<string>, i: nat)
    requires hs.marker == Parse && Authorizes(hs, r, note, es, i)
    ensures Carries(note.value, Marker(Promotion(r.kind, r.digest), r.kind, hs.digest(r.kind, es[i]), true))
  {
    ParseExactly(note.value, Marker(Promotion(r.kind, r.digest), r.kind, r.digest, true));
  }
}
