/** File names of the per-key lease and posting-journal files.

    `Slug` escapes every character outside [A-Za-z0-9._-] as '%' followed by at least two
    lower-case hexadecimal digits.  Two keys share their lock and journal files exactly when
    their slugs are equal, so mutual exclusion per key rests on injectivity. */
module Slug {

  /** The characters that the escape pattern leaves alone. */
  predicate IsSafe(c: char) {
    || 'A' <= c <= 'Z'
    || 'a' <= c <= 'z'
    || '0' <= c <= '9'
    || c == '.' || c == '_' || c == '-'
  }

  function HexDigit(d: nat): (c: char)
    requires d < 16
    ensures IsSafe(c) && HexValue(c) == d
  {
    if d < 10 then '0' + d as char else 'a' + (d - 10) as char
  }

  function HexValue(c: char): (v: nat)
    ensures v < 16
  {
    if '0' <= c <= '9' then (c - '0') as nat
    else if 'a' <= c <= 'f' then (c - 'a') as nat + 10
    else 0
  }

  /** `f"{n:x}"`. */
  function Hex(n: nat): (s: string)
    ensures |s| >= 1
    ensures n < 16 ==> s == [HexDigit(n)]
  {
    if n < 16 then [HexDigit(n)] else Hex(n / 16) + [HexDigit(n % 16)]
  }

  /** `f"%{n:02x}"`. */
  function Escape(n: nat): string {
    if n < 16 then ['%', '0'] + Hex(n) else ['%'] + Hex(n)
  }

  function SlugChar(c: char): string {
    if IsSafe(c) then [c] else Escape(c as nat)
  }

  function Slug(key: string): string {
    if key == "" then "" else SlugChar(key[0]) + Slug(key[1..])
  }

  /** Every code point of the key is below `n`. */
  predicate Below(key: string, n: nat) {
    forall i :: 0 <= i < |key| ==> key[i] as nat < n
  }

  /** Every code point fits in two hexadecimal digits. */
  predicate Narrow(key: string) {
    Below(key, 256)
  }

  /** The decoder that inverts `Slug` on narrow keys. */
  function Unslug(s: string): string {
    if s == "" then ""
    else if s[0] == '%' && |s| >= 3 then
      [(HexValue(s[1]) * 16 + HexValue(s[2])) as char] + Unslug(s[3..])
    else [s[0]] + Unslug(s[1..])
  }

  lemma EscapeTwoDigits(n: nat)
    requires n < 256
    ensures Escape(n) == ['%', HexDigit(n / 16), HexDigit(n % 16)]
  {
    if n >= 16 {
      assert Hex(n) == Hex(n / 16) + [HexDigit(n % 16)];
    }
  }

  lemma {:induction false} UnslugSlug(key: string)
    requires Narrow(key)
    ensures Unslug(Slug(key)) == key
  {
    if key != "" {
      var c, rest := key[0], key[1..];
      UnslugSlug(rest);
      assert key == [c] + rest;
      if IsSafe(c) {
        assert Slug(key) == [c] + Slug(rest);
        assert Slug(key)[1..] == Slug(rest);
      } else {
        var n := c as nat;
        EscapeTwoDigits(n);
        assert Slug(key) == ['%', HexDigit(n / 16), HexDigit(n % 16)] + Slug(rest);
        assert Slug(key)[3..] == Slug(rest);
      }
    }
  }

  /** Distinct narrow keys never share a lease file or a journal file. */
  lemma SlugInjective(a: string, b: string)
    requires Narrow(a) && Narrow(b)
    ensures Slug(a) == Slug(b) <==> a == b
  {
    UnslugSlug(a);
    UnslugSlug(b);
  }

  /** Outside that alphabet the escape is ambiguous: U+0100 and U+0010 '0' collide, so two
      different keys would share one lock. */
  lemma SlugCollision()
    ensures "\U{0100}" != "\U{0010}0"
    ensures Slug("\U{0100}") == Slug("\U{0010}0")
  {
    assert Hex(256) == Hex(16) + [HexDigit(0)];
    assert Hex(16) == Hex(1) + [HexDigit(0)];
    assert Hex(256) == "100" && Hex(16) == "10";
    var wide, narrow := "\U{0100}", "\U{0010}0";
    assert wide[1..] == "" && narrow[1..] == "0" && narrow[1..][1..] == "";
    assert Slug(wide) == "%100";
    assert Slug(narrow) == "%10" + Slug("0") == "%100";
  }

  /** No two keys over the code points below `n` share a slug. */
  ghost predicate CollisionFreeBelow(n: nat) {
    forall a: string, b: string :: Below(a, n) && Below(b, n) && Slug(a) == Slug(b) ==> a == b
  }

  /** The escape is collision-free on an initial range of code points if and only if that range
      stops before U+0100. */
  lemma CollisionFreeExactly(n: nat)
    ensures CollisionFreeBelow(n) <==> n <= 256
  {
    if n <= 256 {
      forall a: string, b: string | Below(a, n) && Below(b, n) && Slug(a) == Slug(b) ensures a == b {
        SlugInjective(a, b);
      }
    } else {
      SlugCollision();
      assert Below("\U{0100}", n) && Below("\U{0010}0", n);
    }
  }
}
