/** Lossless compaction of a memory file and its application to disk. */
module Compaction {
  import opened MemoryText

  // ----- Deduplication -----

  /** The key that decides duplicates; the source collapses white space and folds case. */
  type Key = string -> string

  /** The words of a text, as `str.split()` finds them. */
  function Words(text: string, word: string): seq<string> {
    if |text| == 0 then (if |word| > 0 then [word] else [])
    else if IsSpace(text[0]) then (if |word| > 0 then [word] else []) + Words(text[1..], "")
    else Words(text[1..], word + [text[0]])
  }

  function Spaced(words: seq<string>): string {
    if |words| == 0 then "" else if |words| == 1 then words[0] else words[0] + " " + Spaced(words[1..])
  }

  /** `_normalize`, with `fold` for `str.casefold`. */
  function Normalize(fold: Key): Key {
    (text: string) => fold(Spaced(Words(text, "")))
  }

  function Keys(es: seq<string>, key: Key): set<string> {
    set i | 0 <= i < |es| :: key(es[i])
  }

  function Dedupe(es: seq<string>, key: Key, seen: set<string>): seq<string> {
    if |es| == 0 then []
    else if key(es[0]) in seen then Dedupe(es[1..], key, seen)
    else [es[0]] + Dedupe(es[1..], key, seen + {key(es[0])})
  }

  /** The loop of `curate`. */
  method Curate(es: seq<string>, key: Key) returns (kept: seq<string>)
    ensures kept == Dedupe(es, key, {})
  {
    var seen: set<string> := {};
    kept := [];
    for i := 0 to |es|
      invariant kept + Dedupe(es[i..], key, seen) == Dedupe(es, key, {})
    {
      assert es[i..][1..] == es[i + 1..];
      if key(es[i]) !in seen {
        seen := seen + {key(es[i])};
        kept := kept + [es[i]];
      }
    }
  }

  predicate DistinctKeys(es: seq<string>, key: Key) {
    forall i, j :: 0 <= i < j < |es| ==> key(es[i]) != key(es[j])
  }

  /** The positions kept by deduplication: the first of every key not seen before. */
  predicate IsFirst(es: seq<string>, key: Key, seen: set<string>, i: nat)
    requires i < |es|
  {
    key(es[i]) !in seen && forall j :: 0 <= j < i ==> key(es[j]) != key(es[i])
  }

  function Firsts(es: seq<string>, key: Key, seen: set<string>, n: nat): seq<string>
    requires n <= |es|
  {
    if n == 0 then [] else Firsts(es, key, seen, n - 1) + (if IsFirst(es, key, seen, n - 1) then [es[n - 1]] else [])
  }

  lemma {:induction false} FirstsOfTail(es: seq<string>, key: Key, seen: set<string>, n: nat)
    requires 0 < |es| && n < |es|
    ensures Firsts(es, key, seen, n + 1) ==
            (if key(es[0]) in seen then Firsts(es[1..], key, seen, n)
             else [es[0]] + Firsts(es[1..], key, seen + {key(es[0])}, n))
  {
    if n == 0 {
      assert Firsts(es, key, seen, 0) == [];
    } else {
      FirstsOfTail(es, key, seen, n - 1);
      var rest := if key(es[0]) in seen then seen else seen + {key(es[0])};
      assert IsFirst(es, key, seen, n) <==> IsFirst(es[1..], key, rest, n - 1) by {
        assert forall j :: 0 <= j < n - 1 ==> es[1..][j] == es[j + 1];
        if IsFirst(es[1..], key, rest, n - 1) {
          forall j | 0 <= j < n
            ensures key(es[j]) != key(es[n])
          {
            if j > 0 { assert es[1..][j - 1] == es[j]; }
          }
        }
      }
    }
  }

  /** Deduplication keeps exactly the first entry of every key, in the old order. */
  lemma {:induction false} DedupeKeepsFirsts(es: seq<string>, key: Key, seen: set<string>)
    ensures Dedupe(es, key, seen) == Firsts(es, key, seen, |es|)
  {
    if |es| > 0 {
      var rest := if key(es[0]) in seen then seen else seen + {key(es[0])};
      DedupeKeepsFirsts(es[1..], key, rest);
      FirstsOfTail(es, key, seen, |es| - 1);
    }
  }

  /** No key is lost and none appears twice. */
  lemma {:induction false} DedupeKeys(es: seq<string>, key: Key, seen: set<string>)
    ensures Keys(Dedupe(es, key, seen), key) == Keys(es, key) - seen
    ensures DistinctKeys(Dedupe(es, key, seen), key)
    ensures forall e :: e in Dedupe(es, key, seen) ==> e in es
  {
    if |es| > 0 {
      var first := key(es[0]);
      var rest := if first in seen then seen else seen + {first};
      DedupeKeys(es[1..], key, rest);
      KeysOfCons(es[0], es[1..], key);
      assert es == [es[0]] + es[1..];
      if first !in seen {
        var tail := Dedupe(es[1..], key, rest);
        KeysOfCons(es[0], tail, key);
        forall j | 0 <= j < |tail|
          ensures key(tail[j]) != first
        {
          assert key(tail[j]) in Keys(tail, key);
        }
      }
    }
  }

  lemma KeysOfCons(e: string, es: seq<string>, key: Key)
    ensures Keys([e] + es, key) == {key(e)} + Keys(es, key)
  {
    forall k | k in {key(e)} + Keys(es, key)
      ensures k in Keys([e] + es, key)
    {
      if k == key(e) {
        assert ([e] + es)[0] == e;
      } else {
        var i :| 0 <= i < |es| && key(es[i]) == k;
        assert ([e] + es)[i + 1] == es[i];
      }
    }
  }

  lemma {:induction false} DedupeOfDistinct(es: seq<string>, key: Key, seen: set<string>)
    requires DistinctKeys(es, key) && Keys(es, key) !! seen
    ensures Dedupe(es, key, seen) == es
  {
    if |es| > 0 {
      assert key(es[0]) in Keys(es, key);
      assert DistinctKeys(es[1..], key);
      forall k | k in Keys(es[1..], key)
        ensures k !in seen + {key(es[0])}
      {
        var i :| 0 <= i < |es| - 1 && key(es[1..][i]) == k;
        assert es[1..][i] == es[i + 1];
        assert key(es[i + 1]) in Keys(es, key);
      }
      DedupeOfDistinct(es[1..], key, seen + {key(es[0])});
    }
  }

  lemma DedupeIdempotent(es: seq<string>, key: Key)
    ensures Dedupe(Dedupe(es, key, {}), key, {}) == Dedupe(es, key, {})
  {
    DedupeKeys(es, key, {});
    DedupeOfDistinct(Dedupe(es, key, {}), key, {});
  }

  // ----- The canonical text -----

  function Compacted(text: string, key: Key): string {
    Serialize(Dedupe(Parse(text), key, {}))
  }

  /** Compacting twice is compacting once. */
  lemma CompactedIdempotent(text: string, key: Key)
    ensures Compacted(Compacted(text, key), key) == Compacted(text, key)
  {
    var es := Dedupe(Parse(text), key, {});
    CompactedEntries(text, key);
    ParseSerialize(es);
    DedupeIdempotent(Parse(text), key);
  }

  lemma CompactedEntries(text: string, key: Key)
    ensures AllCanonical(Dedupe(Parse(text), key, {})) && DistinctKeys(Dedupe(Parse(text), key, {}), key)
  {
    hide Canonical, Parse;
    ParseIsCanonical(text);
    DedupeKeys(Parse(text), key, {});
    var kept := Dedupe(Parse(text), key, {});
    forall i | 0 <= i < |kept|
      ensures Canonical(kept[i])
    {
      assert kept[i] in Parse(text);
    }
  }

  /** A text is left unchanged exactly when it is the printed form of trimmed, section-free entries
      with distinct keys. */
  lemma UnchangedExactly(text: string, key: Key)
    ensures Compacted(text, key) == text <==>
            exists es :: AllCanonical(es) && DistinctKeys(es, key) && text == Serialize(es)
  {
    if Compacted(text, key) == text {
      CompactedEntries(text, key);
    }
    forall es | AllCanonical(es) && DistinctKeys(es, key) && text == Serialize(es)
      ensures Compacted(text, key) == text
    {
      ParseSerialize(es);
      DedupeOfDistinct(es, key, {});
    }
  }

  // ----- Applying it to the file -----

  datatype Stored = Missing | Text(text: string)

  class MemoryDisk {
    var file: Stored
    var backups: map<string, string>

    constructor (file: Stored)
      ensures this.file == file && backups == map[]
    {
      this.file := file;
      backups := map[];
    }

    function Content(): string
      reads this
    {
      if file.Missing? then "" else file.text
    }

    /** `apply_curation`; `stamp` is the second-resolution name of the backup. */
    method ApplyCuration(key: Key, dryRun: bool, stamp: string) returns (changed: bool)
      modifies this
      ensures changed <==> Compacted(old(Content()), key) != old(Content())
      ensures changed && !dryRun ==>
                file == Text(Compacted(old(Content()), key))
                && backups == old(backups)[stamp := old(Content())]
      ensures !(changed && !dryRun) ==> file == old(file) && backups == old(backups)
    {
      var original := Content();
      var entries := ParseMemoryFile(original);
      var kept := Curate(entries, key);
      var canonical := Serialize(kept);
      changed := canonical != original;
      if dryRun || !changed {
        return;
      }
      backups := backups[stamp := original];
      file := Text(canonical);
    }

    /** Applied twice, the second call finds nothing to change and leaves the first backup alone. */
    method ApplyTwice(key: Key, stamp: string, later: string) returns (changed: bool, again: bool)
      modifies this
      ensures !again
      ensures Content() == Compacted(old(Content()), key)
      ensures backups == if changed then old(backups)[stamp := old(Content())] else old(backups)
    {
      CompactedIdempotent(Content(), key);
      changed := ApplyCuration(key, false, stamp);
      again := ApplyCuration(key, false, later);
    }
  }

  // ----- The key of the source -----

  predicate IsWord(w: string) {
    |w| > 0 && forall i :: 0 <= i < |w| ==> !IsSpace(w[i])
  }

  predicate AllWords(ws: seq<string>) {
    forall i :: 0 <= i < |ws| ==> IsWord(ws[i])
  }

  lemma {:induction false} WordsAreWords(text: string, word: string)
    requires |word| > 0 ==> IsWord(word)
    ensures AllWords(Words(text, word))
  {
    if |text| > 0 {
      if IsSpace(text[0]) {
        WordsAreWords(text[1..], "");
      } else {
        WordsAreWords(text[1..], word + [text[0]]);
      }
    }
  }

  /** Splitting goes on inside a word as if it had been read before. */
  lemma {:induction false} WordsOfWord(w: string, rest: string, word: string)
    requires forall i :: 0 <= i < |w| ==> !IsSpace(w[i])
    ensures Words(w + rest, word) == Words(rest, word + w)
  {
    if |w| == 0 {
      assert w + rest == rest && word + w == word;
    } else {
      assert (w + rest)[1..] == w[1..] + rest && word + [w[0]] + w[1..] == word + w;
      WordsOfWord(w[1..], rest, word + [w[0]]);
    }
  }

  /** Splitting the joined words gives the words back. */
  lemma {:induction false} WordsOfSpaced(ws: seq<string>)
    requires AllWords(ws)
    ensures Words(Spaced(ws), "") == ws
  {
    if |ws| == 1 {
      WordsOfWord(ws[0], "", "");
      assert ws[0] + "" == ws[0] && "" + ws[0] == ws[0];
    } else if |ws| > 1 {
      var rest := " " + Spaced(ws[1..]);
      assert Spaced(ws) == ws[0] + rest;
      WordsOfWord(ws[0], rest, "");
      assert "" + ws[0] == ws[0] && rest[1..] == Spaced(ws[1..]);
      WordsOfSpaced(ws[1..]);
      assert ws == [ws[0]] + ws[1..];
    }
  }

  /** Up to case folding, two texts have one key exactly if they have the same words. */
  lemma SameKeyExactly(fold: Key, a: string, b: string)
    ensures Words(a, "") == Words(b, "") ==> Normalize(fold)(a) == Normalize(fold)(b)
    ensures (forall x: string, y: string :: fold(x) == fold(y) ==> x == y) ==>
              (Normalize(fold)(a) == Normalize(fold)(b) <==> Words(a, "") == Words(b, ""))
  {
    WordsAreWords(a, "");
    WordsAreWords(b, "");
    WordsOfSpaced(Words(a, ""));
    WordsOfSpaced(Words(b, ""));
  }

  /** Compaction keeps of any entries with the same words exactly one: no two kept entries agree up to white
      space and case, and for every entry some kept one agrees with it up to them. */
  lemma OnePerWording(fold: Key, es: seq<string>)
    ensures var kept := Dedupe(es, Normalize(fold), {});
            && (forall i, j :: 0 <= i < j < |kept| ==> Words(kept[i], "") != Words(kept[j], ""))
            && (forall e :: e in es ==> exists k :: k in kept && Normalize(fold)(k) == Normalize(fold)(e))
  {
    var key := Normalize(fold);
    var kept := Dedupe(es, key, {});
    DedupeKeys(es, key, {});
    forall e | e in es ensures exists k :: k in kept && key(k) == key(e) {
      var i :| 0 <= i < |es| && es[i] == e;
      assert key(es[i]) in Keys(es, key);
      assert key(e) in Keys(kept, key);
      var j :| 0 <= j < |kept| && key(kept[j]) == key(e);
      assert kept[j] in kept;
    }
  }
}
