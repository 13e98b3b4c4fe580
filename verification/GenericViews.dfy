/** The repository scanner's worklist of decoded text views.

    NFC, percent-decoding, JSON escapes and the Base64 runs of a text are functions of `Codecs`. */
module GenericViews {
  import opened Common

  const MAX_VIEWS: nat := 256

  datatype View = View(text: string, line: Option<nat>)

  /** A Base64 run: where it starts, and its decoding if it has one. */
  datatype Run = Run(start: nat, decoded: Option<string>)

  datatype Codecs = Codecs(nfc: string -> string, percent: string -> string, json: string -> string,
                           runs: string -> seq<Run>)

  function Newlines(s: string): nat {
    if |s| == 0 then 0 else Newlines(s[..|s| - 1]) + (if s[|s| - 1] == '\n' then 1 else 0)
  }

  /** The line of a decoded run: inherited, else counted up to the run. */
  function LineOf(view: View, start: nat): Option<nat> {
    if view.line.Some? then view.line
    else Some(Newlines(if start <= |view.text| then view.text[..start] else view.text) + 1)
  }

  function Decodings(c: Codecs, view: View, n: nat): seq<View>
    requires n <= |c.runs(view.text)|
  {
    if n == 0 then []
    else
      var run := c.runs(view.text)[n - 1];
      Decodings(c, view, n - 1) + (if run.decoded.Some? then [View(run.decoded.value, LineOf(view, run.start))] else [])
  }

  /** Everything that one normalized view decodes to. */
  function Children(c: Codecs, view: View): seq<View> {
    [View(c.percent(view.text), view.line), View(c.json(view.text), view.line)]
        + Decodings(c, view, |c.runs(view.text)|)
  }

  function Normal(c: Codecs, v: View): View {
    View(c.nfc(v.text), v.line)
  }

  ghost predicate Idempotent(f: string -> string) {
    forall s :: f(f(s)) == f(s)
  }

  function Texts(vs: seq<View>): set<string> {
    set i | 0 <= i < |vs| :: vs[i].text
  }

  predicate DistinctTexts(vs: seq<View>) {
    forall i, j :: 0 <= i < j < |vs| ==> vs[i].text != vs[j].text
  }

  /** View `i` is the normal form of the input or of a decoding of an earlier view. */
  ghost predicate Derived(c: Codecs, start: View, vs: seq<View>, i: nat)
    requires i < |vs|
  {
    || vs[i] == Normal(c, start)
    || (exists j, child :: 0 <= j < i && child in Children(c, vs[j]) && vs[i] == Normal(c, child))
  }

  /** The queue comes from the input and the views found so far. */
  ghost predicate Sourced(c: Codecs, start: View, vs: seq<View>, v: View) {
    v == start || exists j :: 0 <= j < |vs| && v in Children(c, vs[j])
  }

  /** A set of texts that holds the normal form of every decoding of its members. */
  ghost predicate Closed(c: Codecs, texts: set<string>) {
    forall v: View :: v.text in texts ==> forall child :: child in Children(c, v) ==> c.nfc(child.text) in texts
  }

  /** What one step still owes: the child is a view already, or it waits in the queue. */
  predicate Covered(c: Codecs, seen: set<string>, queue: seq<View>, child: View) {
    c.nfc(child.text) in seen || child in queue
  }

  /** The two inner loops: queue the decodings that are not views yet. */
  method Enqueue(c: Codecs, current: View, seen: set<string>, queue0: seq<View>) returns (queue: seq<View>)
    requires Idempotent(c.nfc) && c.nfc(current.text) == current.text && current.text in seen
    requires forall s :: s in seen ==> c.nfc(s) == s
    ensures forall v :: v in queue0 ==> v in queue
    ensures forall v :: v in queue ==> v in queue0 || v in Children(c, current)
    ensures forall child :: child in Children(c, current) ==> Covered(c, seen, queue, child)
  {
    var children := Children(c, current);
    queue := queue0;
    for k := 0 to |children|
      invariant forall v :: v in queue0 ==> v in queue
      invariant forall v :: v in queue ==> v in queue0 || v in children
      invariant forall i :: 0 <= i < k ==> Covered(c, seen, queue, children[i])
    {
      var child := children[k];
      if child.text != current.text && child.text !in seen {
        queue := queue + [child];
      }
    }
  }

  /** `generic_views`.  The views are distinct, each is derived, and unless the cap is reached they are
      closed under decoding. */
  method Views(c: Codecs, text: string) returns (views: seq<View>)
    requires Idempotent(c.nfc)
    ensures 0 < |views| <= MAX_VIEWS && views[0] == View(c.nfc(text), None)
    ensures DistinctTexts(views)
    ensures forall i :: 0 <= i < |views| ==>
              Derived(c, View(text, None), views, i)
              && c.nfc(views[i].text) == views[i].text
    ensures |views| < MAX_VIEWS ==> forall v :: v in views ==> forall child :: child in Children(c, v) ==>
            c.nfc(child.text) in Texts(views)
  {
    var start := View(text, None);
    var queue := [start];
    var seen: set<string> := {};
    views := [];
    while |queue| > 0 && |views| < MAX_VIEWS
      invariant |views| <= MAX_VIEWS && seen == Texts(views) && DistinctTexts(views)
      invariant |views| == 0 ==> queue == [start]
      invariant |views| > 0 ==> views[0] == Normal(c, start)
      invariant forall s :: s in seen ==> c.nfc(s) == s
      invariant forall i :: 0 <= i < |views| ==> Derived(c, start, views, i)
      invariant forall v :: v in queue ==> Sourced(c, start, views, v)
      invariant forall v :: v in views ==> forall child :: child in Children(c, v) ==> Covered(c, seen, queue, child)
      decreases MAX_VIEWS - |views|, |queue|
    {
      hide Children;
      var view := queue[0];
      ghost var old_queue := queue;
      queue := queue[1..];
      assert old_queue == [view] + queue;
      var normalized := c.nfc(view.text);
      if normalized in seen { continue; }
      var current := View(normalized, view.line);
      ghost var before := views;
      seen := seen + {normalized};
      views := views + [current];
      ViewsGrow(c, start, before, current, view, old_queue);
      queue := Enqueue(c, current, seen, queue);
    }
  }

  /** Adding the normal form of a queued view keeps the derivations. */
  lemma ViewsGrow(c: Codecs, start: View, vs: seq<View>, current: View, view: View, queue: seq<View>)
    requires current == Normal(c, view) && Sourced(c, start, vs, view)
    requires forall i :: 0 <= i < |vs| ==> Derived(c, start, vs, i)
    requires forall v :: v in queue ==> Sourced(c, start, vs, v)
    requires current.text !in Texts(vs) && DistinctTexts(vs)
    ensures forall i :: 0 <= i < |vs| + 1 ==> Derived(c, start, vs + [current], i)
    ensures forall v :: v in queue || v in Children(c, current) ==> Sourced(c, start, vs + [current], v)
    ensures Texts(vs + [current]) == Texts(vs) + {current.text} && DistinctTexts(vs + [current])
  {
    hide Children;
    var longer := vs + [current];
    forall i | 0 <= i < |longer|
      ensures Derived(c, start, longer, i)
    {
      if i < |vs| {
        assert Derived(c, start, vs, i);
        if vs[i] != Normal(c, start) {
          var j, child :| 0 <= j < i && child in Children(c, vs[j]) && vs[i] == Normal(c, child);
          assert longer[j] == vs[j] && longer[i] == vs[i];
        }
      } else if view != start {
        var j :| 0 <= j < |vs| && view in Children(c, vs[j]);
        assert longer[j] == vs[j];
      }
    }
    forall v | v in queue || v in Children(c, current)
      ensures Sourced(c, start, longer, v)
    {
      if v in Children(c, current) {
        assert longer[|vs|] == current;
      } else if v != start {
        var j :| 0 <= j < |vs| && v in Children(c, vs[j]);
        assert longer[j] == vs[j];
      }
    }
    assert Texts(longer) == Texts(vs) + {current.text} by {
      assert longer[|vs|] == current;
      forall s | s in Texts(vs) + {current.text}
        ensures s in Texts(longer)
      {
        if s != current.text {
          var i :| 0 <= i < |vs| && vs[i].text == s;
          assert longer[i] == vs[i];
        }
      }
    }
    forall i | 0 <= i < |vs|
      ensures longer[i].text != current.text
    {
      assert vs[i].text in Texts(vs);
    }
  }

  // ----- The result is the least closed set -----

  lemma {:induction false} DecodingTexts(c: Codecs, v: View, w: View, n: nat)
    requires v.text == w.text && n <= |c.runs(v.text)|
    ensures |Decodings(c, v, n)| == |Decodings(c, w, n)|
    ensures forall i :: 0 <= i < |Decodings(c, v, n)| ==> Decodings(c, v, n)[i].text == Decodings(c, w, n)[i].text
  {
    if n > 0 { DecodingTexts(c, v, w, n - 1); }
  }

  /** What a view decodes to does not depend on its line. */
  lemma ChildTexts(c: Codecs, v: View, w: View, child: View) returns (twin: View)
    requires v.text == w.text && child in Children(c, v)
    ensures twin in Children(c, w) && twin.text == child.text
  {
    DecodingTexts(c, v, w, |c.runs(v.text)|);
    var i :| 0 <= i < |Children(c, v)| && Children(c, v)[i] == child;
    twin := Children(c, w)[i];
  }

  /** Derived views lie in every closed set that holds the normal form of the input. */
  lemma {:induction false} DerivedIsReachable(c: Codecs, start: View, vs: seq<View>, texts: set<string>, n: nat)
    requires n <= |vs| && Closed(c, texts) && c.nfc(start.text) in texts
    requires forall i :: 0 <= i < |vs| ==> Derived(c, start, vs, i)
    ensures forall i :: 0 <= i < n ==> vs[i].text in texts
  {
    if n > 0 {
      DerivedIsReachable(c, start, vs, texts, n - 1);
      assert Derived(c, start, vs, n - 1);
      if vs[n - 1] != Normal(c, start) {
        var j, child :| 0 <= j < n - 1 && child in Children(c, vs[j]) && vs[n - 1] == Normal(c, child);
        assert vs[j].text in texts;
      }
    }
  }

  /** A result below the cap is the least set that holds the normal form of the input and is closed under
      decoding: nothing is missed and nothing is invented. */
  lemma ViewsAreTheClosure(c: Codecs, text: string, vs: seq<View>)
    requires 0 < |vs| && vs[0] == View(c.nfc(text), None)
    requires forall i :: 0 <= i < |vs| ==> Derived(c, View(text, None), vs, i)
    requires forall v :: v in vs ==> forall child :: child in Children(c, v) ==> c.nfc(child.text) in Texts(vs)
    ensures c.nfc(text) in Texts(vs) && Closed(c, Texts(vs))
    ensures forall texts: set<string> :: Closed(c, texts) && c.nfc(text) in texts ==> Texts(vs) <= texts
  {
    hide Children;
    forall v: View, child | v.text in Texts(vs) && child in Children(c, v)
      ensures c.nfc(child.text) in Texts(vs)
    {
      var i :| 0 <= i < |vs| && vs[i].text == v.text;
      var twin := ChildTexts(c, v, vs[i], child);
    }
    forall texts: set<string> | Closed(c, texts) && c.nfc(text) in texts
      ensures Texts(vs) <= texts
    {
      DerivedIsReachable(c, View(text, None), vs, texts, |vs|);
    }
  }
}
