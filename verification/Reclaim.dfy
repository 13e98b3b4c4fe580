/** How many characters removing entries frees, and the order in which candidates are taken. */
module Reclaim {
  import opened Common
  import opened MemoryText

  const SEPARATOR: nat := 3

  function CharCount(es: seq<string>): nat {
    |Serialize(es)|
  }

  function Without(es: seq<string>, i: nat): seq<string>
    requires i < |es|
  {
    es[..i] + es[i + 1..]
  }

  /** `reclaimable_chars`: the change of the file's size when entry `i` goes. */
  function Reclaimable(es: seq<string>, i: nat): int
    requires i < |es|
  {
    CharCount(es) - CharCount(Without(es, i))
  }

  function TotalLength(es: seq<string>): nat {
    if |es| == 0 then 0 else |es[0]| + TotalLength(es[1..])
  }

  lemma {:induction false} CharCountIs(es: seq<string>)
    ensures CharCount(es) == TotalLength(es) + (if |es| == 0 then 0 else SEPARATOR * (|es| - 1))
  {
    if |es| > 1 {
      CharCountIs(es[1..]);
    }
  }

  lemma {:induction false} TotalLengthConcat(a: seq<string>, b: seq<string>)
    ensures TotalLength(a + b) == TotalLength(a) + TotalLength(b)
  {
    if |a| == 0 {
      assert a + b == b;
    } else {
      assert (a + b)[1..] == a[1..] + b;
      TotalLengthConcat(a[1..], b);
    }
  }

  /** Removing one of several entries frees its text and one separator. */
  lemma ReclaimableIs(es: seq<string>, i: nat)
    requires i < |es|
    ensures Reclaimable(es, i) == |es[i]| + (if |es| == 1 then 0 else SEPARATOR)
  {
    assert es == es[..i] + ([es[i]] + es[i + 1..]);
    TotalLengthConcat(es[..i], [es[i]] + es[i + 1..]);
    TotalLengthConcat(es[..i], es[i + 1..]);
    CharCountIs(es);
    CharCountIs(Without(es, i));
  }

  // ----- Removing a set of entries -----

  /** The entries below position `n` whose positions are not in `gone`. */
  function Surviving(es: seq<string>, gone: set<nat>, n: nat): seq<string>
    requires n <= |es|
  {
    if n == 0 then [] else Surviving(es, gone, n - 1) + (if n - 1 in gone then [] else [es[n - 1]])
  }

  /** The sum the shadow report projects. */
  function ReclaimSum(es: seq<string>, gone: set<nat>, n: nat): int
    requires n <= |es|
  {
    if n == 0 then 0 else ReclaimSum(es, gone, n - 1) + (if n - 1 in gone then Reclaimable(es, n - 1) else 0)
  }

  lemma {:induction false} ReclaimPrefix(es: seq<string>, gone: set<nat>, n: nat)
    requires n <= |es| && |es| > 1
    ensures |Surviving(es, gone, n)| <= n
    ensures ReclaimSum(es, gone, n) ==
            TotalLength(es[..n]) - TotalLength(Surviving(es, gone, n)) + SEPARATOR * (n - |Surviving(es, gone, n)|)
  {
    hide Reclaimable;
    if n > 0 {
      ReclaimPrefix(es, gone, n - 1);
      ReclaimableIs(es, n - 1);
      assert es[..n] == es[..n - 1] + [es[n - 1]];
      TotalLengthConcat(es[..n - 1], [es[n - 1]]);
      TotalLengthConcat(Surviving(es, gone, n - 1), [es[n - 1]]);
      assert TotalLength([es[n - 1]]) == |es[n - 1]|;
      assert Surviving(es, gone, n - 1) + [] == Surviving(es, gone, n - 1);
    }
  }

  /** The projected sum is what the removal frees, except that removing all of several entries frees one
      separator less. */
  lemma ReclaimSumIs(es: seq<string>, gone: set<nat>)
    ensures var left := Surviving(es, gone, |es|);
            var freed := CharCount(es) - CharCount(left);
            ReclaimSum(es, gone, |es|) == freed + (if left == [] && |es| >= 2 then SEPARATOR else 0)
  {
    var left := Surviving(es, gone, |es|);
    CharCountIs(es);
    CharCountIs(left);
    if |es| == 1 {
      ReclaimableIs(es, 0);
      assert Surviving(es, gone, 0) == [];
    } else if |es| > 1 {
      ReclaimPrefix(es, gone, |es|);
      assert es[..|es|] == es;
    }
  }

  // ----- Binding candidates to positions -----

  datatype Kind = Memory | User

  datatype Ranked = Ranked(reclaim: int, kind: Kind, digest: nat, index: nat, text: string)

  /** `_first_unclaimed_index`. */
  method FirstUnclaimed(es: seq<string>, text: string, claimed: set<nat>) returns (index: Option<nat>)
    ensures index.Some? ==> index.value < |es| && es[index.value] == text && index.value !in claimed
    ensures index.Some? ==> forall j :: 0 <= j < index.value && es[j] == text ==> j in claimed
    ensures index.None? ==> forall j :: 0 <= j < |es| && es[j] == text ==> j in claimed
  {
    for i := 0 to |es|
      invariant forall j :: 0 <= j < i && es[j] == text ==> j in claimed
    {
      if es[i] == text && i !in claimed {
        return Some(i);
      }
    }
    return None;
  }

  /** How often `text` stands at a position below `n` that is not claimed. */
  function Free(es: seq<string>, claimed: set<nat>, text: string, n: nat): nat
    requires n <= |es|
  {
    if n == 0 then 0 else Free(es, claimed, text, n - 1) + (if n - 1 !in claimed && es[n - 1] == text then 1 else 0)
  }

  lemma {:induction false} FreeAll(es: seq<string>, text: string, n: nat)
    requires n <= |es|
    ensures Free(es, {}, text, n) == multiset(es[..n])[text]
  {
    if n > 0 {
      FreeAll(es, text, n - 1);
      assert es[..n] == es[..n - 1] + [es[n - 1]];
    }
  }

  lemma {:induction false} FreeClaim(es: seq<string>, claimed: set<nat>, i: nat, text: string, n: nat)
    requires n <= |es| && i < |es| && i !in claimed
    ensures Free(es, claimed, text, n) == Free(es, claimed + {i}, text, n) + (if i < n && es[i] == text then 1 else 0)
  {
    if n > 0 { FreeClaim(es, claimed, i, text, n - 1); }
  }

  lemma {:induction false} FreeLacks(es: seq<string>, claimed: set<nat>, text: string, n: nat)
    requires n <= |es| && forall j :: 0 <= j < n && es[j] == text ==> j in claimed
    ensures Free(es, claimed, text, n) == 0
  {
    if n > 0 { FreeLacks(es, claimed, text, n - 1); }
  }

  /** Every text stands in the file as often as it is free or already bound. */
  ghost predicate Balanced(es: seq<string>, claimed: set<nat>, done: seq<string>) {
    forall t :: multiset(es)[t] == Free(es, claimed, t, |es|) + multiset(done)[t]
  }

  lemma BalancedStart(es: seq<string>)
    ensures Balanced(es, {}, [])
  {
    assert es[..|es|] == es;
    forall t
      ensures multiset(es)[t] == Free(es, {}, t, |es|)
    {
      FreeAll(es, t, |es|);
    }
  }

  lemma BalancedStep(es: seq<string>, claimed: set<nat>, done: seq<string>, i: nat)
    requires Balanced(es, claimed, done) && i < |es| && i !in claimed
    ensures Balanced(es, claimed + {i}, done + [es[i]])
  {
    forall t
      ensures multiset(es)[t] == Free(es, claimed + {i}, t, |es|) + multiset(done + [es[i]])[t]
    {
      FreeClaim(es, claimed, i, t, |es|);
    }
  }

  lemma BalancedFits(es: seq<string>, claimed: set<nat>, done: seq<string>)
    requires Balanced(es, claimed, done)
    ensures multiset(done) <= multiset(es)
  {
  }

  /** What binding the candidates of one kind promises. */
  predicate Bound(es: seq<string>, kind: Kind, digest: (Kind, string) -> nat, texts: seq<string>, ranked: seq<Ranked>) {
    && |ranked| == |texts|
    && (forall k :: 0 <= k < |ranked| ==> BoundTo(es, kind, digest, texts[k], ranked[k]))
    && (forall k, l :: 0 <= k < l < |ranked| ==> ranked[k].index != ranked[l].index)
  }

  predicate BoundTo(es: seq<string>, kind: Kind, digest: (Kind, string) -> nat, text: string, r: Ranked) {
    && r.kind == kind && r.text == text && r.digest == digest(kind, text)
    && r.index < |es| && es[r.index] == text && r.reclaim == Reclaimable(es, r.index)
  }

  /** The inner loop of `order_by_reclaim`; `None` stands for the raised `ValueError`.  It fails exactly
      when some text is asked for more often than the file has it. */
  method BindKind(es: seq<string>, kind: Kind, digest: (Kind, string) -> nat, texts: seq<string>)
    returns (bound: Option<seq<Ranked>>)
    ensures bound.Some? ==> Bound(es, kind, digest, texts, bound.value)
    ensures bound.Some? <==> multiset(texts) <= multiset(es)
  {
    assert Bound(es, kind, digest, [], []);
    hide Reclaimable, Free, BoundTo, Bound, Balanced;
    var ranked: seq<Ranked> := [];
    var claimed: set<nat> := {};
    BalancedStart(es);
    assert texts[..0] == [];
    for i := 0 to |texts|
      invariant Bound(es, kind, digest, texts[..i], ranked)
      invariant forall k :: 0 <= k < |ranked| ==> ranked[k].index in claimed
      invariant Balanced(es, claimed, texts[..i])
    {
      assert texts[..i + 1] == texts[..i] + [texts[i]];
      var index := FirstUnclaimed(es, texts[i], claimed);
      if index.None? {
        TooMany(es, claimed, texts, i);
        return None;
      }
      BalancedStep(es, claimed, texts[..i], index.value);
      var one := Ranked(Reclaimable(es, index.value), kind, digest(kind, texts[i]), index.value, texts[i]);
      BoundSnoc(es, kind, digest, texts[..i], ranked, one, texts[i]);
      claimed := claimed + {index.value};
      ranked := ranked + [one];
    }
    assert texts[..|texts|] == texts;
    BalancedFits(es, claimed, texts);
    return Some(ranked);
  }

  lemma BoundSnoc(es: seq<string>, kind: Kind, digest: (Kind, string) -> nat, texts: seq<string>,
                  ranked: seq<Ranked>, one: Ranked, text: string)
    requires Bound(es, kind, digest, texts, ranked)
    requires one.index < |es| && es[one.index] == text
             && one == Ranked(Reclaimable(es, one.index), kind, digest(kind, text), one.index, text)
    requires forall k :: 0 <= k < |ranked| ==> ranked[k].index != one.index
    ensures Bound(es, kind, digest, texts + [text], ranked + [one])
  {
    hide Reclaimable;
  }

  lemma TooMany(es: seq<string>, claimed: set<nat>, texts: seq<string>, i: nat)
    requires i < |texts| && Balanced(es, claimed, texts[..i])
    requires forall j :: 0 <= j < |es| && es[j] == texts[i] ==> j in claimed
    ensures !(multiset(texts) <= multiset(es))
  {
    FreeLacks(es, claimed, texts[i], |es|);
    assert texts == texts[..i] + ([texts[i]] + texts[i + 1..]);
    assert multiset(texts)[texts[i]] > multiset(es)[texts[i]];
  }

  // ----- Ranking -----

  function KindRank(k: Kind): nat { if k == Memory then 0 else 1 }

  /** The sort key: reclaim downward, then kind, then digest. */
  predicate NotAfter(a: Ranked, b: Ranked) {
    || a.reclaim > b.reclaim
    || (a.reclaim == b.reclaim && KindRank(a.kind) < KindRank(b.kind))
    || (a.reclaim == b.reclaim && a.kind == b.kind && a.digest <= b.digest)
  }

  predicate SortedRanks(rs: seq<Ranked>) {
    forall i, j :: 0 <= i < j < |rs| ==> NotAfter(rs[i], rs[j])
  }

  function InsertRank(r: Ranked, rs: seq<Ranked>): (out: seq<Ranked>)
    ensures multiset(out) == multiset{r} + multiset(rs)
  {
    if |rs| == 0 then [r]
    else if NotAfter(r, rs[0]) then [r] + rs
    else
      assert rs == [rs[0]] + rs[1..];
      [rs[0]] + InsertRank(r, rs[1..])
  }

  /** Python's stable sort by the key. */
  function SortRanks(rs: seq<Ranked>): (out: seq<Ranked>)
    ensures multiset(out) == multiset(rs)
  {
    if |rs| == 0 then []
    else
      assert rs == [rs[0]] + rs[1..];
      InsertRank(rs[0], SortRanks(rs[1..]))
  }

  lemma {:induction false} InsertRankSorted(r: Ranked, rs: seq<Ranked>)
    requires SortedRanks(rs)
    ensures SortedRanks(InsertRank(r, rs))
  {
    if |rs| > 0 && !NotAfter(r, rs[0]) {
      assert SortedRanks(rs[1..]);
      InsertRankSorted(r, rs[1..]);
      var tail := InsertRank(r, rs[1..]);
      forall j | 0 <= j < |tail|
        ensures NotAfter(rs[0], tail[j])
      {
        assert tail[j] in multiset(tail);
        assert tail[j] == r || tail[j] in rs[1..];
      }
    }
  }

  lemma {:induction false} SortRanksSorted(rs: seq<Ranked>)
    ensures SortedRanks(SortRanks(rs))
  {
    if |rs| > 0 {
      SortRanksSorted(rs[1..]);
      InsertRankSorted(rs[0], SortRanks(rs[1..]));
    }
  }

  /** `order_by_reclaim` over the two files. */
  method OrderByReclaim(memory: seq<string>, user: seq<string>, fromMemory: seq<string>, fromUser: seq<string>,
                        digest: (Kind, string) -> nat)
    returns (ranked: Option<seq<Ranked>>)
    ensures ranked.Some? <==> multiset(fromMemory) <= multiset(memory) && multiset(fromUser) <= multiset(user)
    ensures ranked.Some? ==>
              && SortedRanks(ranked.value)
              && exists m, u ::
                   && Bound(memory, Memory, digest, fromMemory, m) && Bound(user, User, digest, fromUser, u)
                   && multiset(ranked.value) == multiset(m + u)
  {
    var m := BindKind(memory, Memory, digest, fromMemory);
    if m.None? { return None; }
    var u := BindKind(user, User, digest, fromUser);
    if u.None? { return None; }
    SortRanksSorted(m.value + u.value);
    return Some(SortRanks(m.value + u.value));
  }
}
