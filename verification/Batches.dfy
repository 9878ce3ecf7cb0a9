/**
 The batch node: several steps contracted into one, run wave by wave.  `Waves` layers the
 inner dependency graph; the lemmas show that it fails exactly on a cycle, that a step's
 wave is the length of its longest inner dependency chain, and that a batch calls the same
 steps' Run as the pipeline does when it lists them one by one.
 */
module Batches {
  import opened Options
  import opened Commands
  import opened Steps
  import opened Schedule

  // ---------------------------------------------------------------- the inner graph

  function NamesOf(cs: seq<Meta>): set<string> {
    set c | c in cs :: c.name
  }

  ghost predicate DistinctNames(cmds: seq<Meta>) {
    forall i, j :: 0 <= i < j < |cmds| ==> cmds[i].name != cmds[j].name
  }

  /** Every step of the path depends on the next one. */
  ghost predicate IsChain(cmds: seq<Meta>, p: seq<Meta>) {
    && |p| > 0
    && (forall i :: 0 <= i < |p| ==> p[i] in cmds)
    && (forall i, j :: 0 <= i < j < |p| && j == i + 1 ==> p[j].name in p[i].deps)
  }

  ghost predicate IsCycle(cmds: seq<Meta>, p: seq<Meta>) {
    IsChain(cmds, p) && |p| >= 2 && p[0] == p[|p| - 1]
  }

  ghost predicate Cyclic(cmds: seq<Meta>) {
    exists p :: IsCycle(cmds, p)
  }

  // ---------------------------------------------------------------- layerings

  function Flat(waves: seq<seq<Meta>>): multiset<Meta> {
    if waves == [] then multiset{} else Flat(waves[..|waves| - 1]) + multiset(waves[|waves| - 1])
  }

  /** The names placed in the given waves. */
  function Placed(waves: seq<seq<Meta>>): set<string> {
    if waves == [] then {} else Placed(waves[..|waves| - 1]) + NamesOf(waves[|waves| - 1])
  }

  /** Each command in one wave, no wave empty, every inner dependency in an earlier wave. */
  ghost predicate Layers(cmds: seq<Meta>, waves: seq<seq<Meta>>) {
    && Flat(waves) == multiset(cmds)
    && (forall w :: 0 <= w < |waves| ==> waves[w] != [])
    && DepsEarlier(NamesOf(cmds), waves)
  }

  ghost predicate DepsEarlier(inner: set<string>, waves: seq<seq<Meta>>) {
    forall w, c, d :: 0 <= w < |waves| && c in waves[w] && d in c.deps && d in inner ==> d in Placed(waves[..w])
  }

  /** No command could run one wave earlier. */
  ghost predicate Tight(waves: seq<seq<Meta>>) {
    forall w, c {:trigger Held(waves, w, c)} :: 1 <= w < |waves| && c in waves[w] ==> Held(waves, w, c)
  }

  /** A dependency in the wave before keeps the command in wave w. */
  ghost predicate Held(waves: seq<seq<Meta>>, w: nat, c: Meta)
    requires 1 <= w <= |waves|
  {
    exists d :: d in c.deps && d in NamesOf(waves[w - 1])
  }

  /** Every one of these commands waits for another one of them. */
  ghost predicate Stuck(cmds: seq<Meta>, blocked: seq<Meta>) {
    && blocked != []
    && (forall c :: c in blocked ==> c in cmds)
    && (forall c {:trigger Waits(c, blocked)} :: c in blocked ==> Waits(c, blocked))
  }

  ghost predicate Waits(c: Meta, blocked: seq<Meta>) {
    exists b :: b in blocked && b.name in c.deps
  }

  predicate InnerDepsSatisfied(m: Meta, inner: set<string>, done: set<string>) {
    forall d :: d in m.deps && d in inner ==> d in done
  }

  /** The commands that are ready, or those that are not, in list order. */
  function Ready(cmds: seq<Meta>, inner: set<string>, done: set<string>, yes: bool): seq<Meta> {
    if cmds == [] then []
    else
      var last := cmds[|cmds| - 1];
      Ready(cmds[..|cmds| - 1], inner, done, yes) + if InnerDepsSatisfied(last, inner, done) == yes then [last] else []
  }

  lemma ReadyNext(cmds: seq<Meta>, c: Meta, inner: set<string>, done: set<string>, yes: bool)
    ensures Ready(cmds + [c], inner, done, yes)
            == Ready(cmds, inner, done, yes) + if InnerDepsSatisfied(c, inner, done) == yes then [c] else []
  {
    assert (cmds + [c])[..|cmds|] == cmds;
  }

  lemma {:induction false} ReadyHas(cmds: seq<Meta>, inner: set<string>, done: set<string>, yes: bool, c: Meta)
    ensures c in Ready(cmds, inner, done, yes) <==> c in cmds && InnerDepsSatisfied(c, inner, done) == yes
  {
    if cmds != [] {
      var init, last := cmds[..|cmds| - 1], cmds[|cmds| - 1];
      assert cmds == init + [last];
      ReadyHas(init, inner, done, yes, c);
      ReadyNext(init, last, inner, done, yes);
    }
  }

  lemma {:induction false} ReadyLosesNone(cmds: seq<Meta>, inner: set<string>, done: set<string>)
    ensures multiset(Ready(cmds, inner, done, true)) + multiset(Ready(cmds, inner, done, false)) == multiset(cmds)
  {
    if cmds != [] {
      var init, last := cmds[..|cmds| - 1], cmds[|cmds| - 1];
      assert cmds == init + [last];
      ReadyLosesNone(init, inner, done);
      ReadyNext(init, last, inner, done, true);
      ReadyNext(init, last, inner, done, false);
    }
  }

  /** The two halves of a list, in list order. */
  method Partition(remaining: seq<Meta>, inner: set<string>, done: set<string>)
    returns (wave: seq<Meta>, blocked: seq<Meta>)
    ensures wave == Ready(remaining, inner, done, true) && blocked == Ready(remaining, inner, done, false)
    ensures multiset(wave) + multiset(blocked) == multiset(remaining)
    ensures forall c :: c in wave ==> c in remaining && InnerDepsSatisfied(c, inner, done)
    ensures forall c :: c in blocked ==> c in remaining && !InnerDepsSatisfied(c, inner, done)
  {
    wave, blocked := [], [];
    for i := 0 to |remaining|
      invariant wave == Ready(remaining[..i], inner, done, true)
      invariant blocked == Ready(remaining[..i], inner, done, false)
    {
      assert remaining[..i + 1] == remaining[..i] + [remaining[i]];
      ReadyNext(remaining[..i], remaining[i], inner, done, true);
      ReadyNext(remaining[..i], remaining[i], inner, done, false);
      if InnerDepsSatisfied(remaining[i], inner, done) {
        wave := wave + [remaining[i]];
      } else {
        blocked := blocked + [remaining[i]];
      }
    }
    assert remaining[..|remaining|] == remaining;
    ReadyLosesNone(remaining, inner, done);
    forall c ensures c in wave <==> c in remaining && InnerDepsSatisfied(c, inner, done) {
      ReadyHas(remaining, inner, done, true, c);
    }
    forall c ensures c in blocked <==> c in remaining && !InnerDepsSatisfied(c, inner, done) {
      ReadyHas(remaining, inner, done, false, c);
    }
  }

  /** A new wave keeps the dependencies earlier ... */
  lemma NextWaveEarlier(inner: set<string>, waves: seq<seq<Meta>>, wave: seq<Meta>)
    requires DepsEarlier(inner, waves)
    requires forall c :: c in wave ==> InnerDepsSatisfied(c, inner, Placed(waves))
    ensures DepsEarlier(inner, waves + [wave])
  {
    var next: seq<seq<Meta>> := waves + [wave];
    forall w, c: Meta, d | 0 <= w < |next| && c in next[w] && d in c.deps && d in inner
      ensures d in Placed(next[..w])
    {
      if w < |waves| {
        assert next[..w] == waves[..w] && c in waves[w];
      } else {
        assert next[..w] == waves && c in wave;
      }
    }
  }

  lemma HeldStays(waves: seq<seq<Meta>>, wave: seq<Meta>, w: nat, c: Meta)
    requires 1 <= w < |waves| && Held(waves, w, c)
    ensures Held(waves + [wave], w, c)
  {
    assert (waves + [wave])[w - 1] == waves[w - 1];
  }

  /** A command that was not ready before the last wave and is ready after it. */
  lemma HeldByLast(inner: set<string>, before: set<string>, waves: seq<seq<Meta>>, wave: seq<Meta>, c: Meta)
    requires waves != [] && before == Placed(waves[..|waves| - 1])
    requires !InnerDepsSatisfied(c, inner, before) && InnerDepsSatisfied(c, inner, Placed(waves))
    ensures Held(waves + [wave], |waves|, c)
  {
    var d :| d in c.deps && d in inner && d !in before;
    assert d in NamesOf(waves[|waves| - 1]) && (waves + [wave])[|waves| - 1] == waves[|waves| - 1];
  }

  /** ... and the layering tight. */
  lemma NextWaveTight(inner: set<string>, before: set<string>, waves: seq<seq<Meta>>, wave: seq<Meta>)
    requires Tight(waves)
    requires waves != [] ==> before == Placed(waves[..|waves| - 1])
    requires waves != [] ==> forall c :: c in wave ==> !InnerDepsSatisfied(c, inner, before)
    requires forall c :: c in wave ==> InnerDepsSatisfied(c, inner, Placed(waves))
    ensures Tight(waves + [wave])
  {
    var next: seq<seq<Meta>> := waves + [wave];
    forall w, c: Meta | 1 <= w < |next| && c in next[w]
      ensures Held(next, w, c)
    {
      if w == |waves| {
        HeldByLast(inner, before, waves, wave, c);
      } else {
        assert c in waves[w] && Held(waves, w, c);
        HeldStays(waves, wave, w, c);
      }
    }
  }

  lemma {:induction false} PlacedHas(waves: seq<seq<Meta>>, n: string)
    ensures n in Placed(waves) <==> exists w, c :: 0 <= w < |waves| && c in waves[w] && c.name == n
  {
    if waves != [] {
      var last := |waves| - 1;
      PlacedHas(waves[..last], n);
      if n in NamesOf(waves[last]) {
        var c :| c in waves[last] && c.name == n;
      }
      if w, c :| 0 <= w < |waves| && c in waves[w] && c.name == n {
        assert w < last ==> waves[..last][w] == waves[w];
      }
    }
  }

  lemma {:induction false} FlatHas(waves: seq<seq<Meta>>, c: Meta)
    ensures c in Flat(waves) <==> exists w :: 0 <= w < |waves| && c in waves[w]
  {
    if waves != [] {
      var last := |waves| - 1;
      FlatHas(waves[..last], c);
      if w :| 0 <= w < |waves| && c in waves[w] {
        assert w < last ==> waves[..last][w] == waves[w];
      }
      if w :| 0 <= w < last && c in waves[..last][w] {
        assert c in waves[w];
      }
    }
  }

  /** When no command is ready, each one waits for a command that is not ready either. */
  lemma AllBlocked(cmds: seq<Meta>, waves: seq<seq<Meta>>, remaining: seq<Meta>, blocked: seq<Meta>)
    requires multiset(remaining) + Flat(waves) == multiset(cmds) && remaining != []
    requires multiset(blocked) == multiset(remaining)
    requires forall c :: c in blocked ==> !InnerDepsSatisfied(c, NamesOf(cmds), Placed(waves))
    ensures Stuck(cmds, blocked)
  {
    assert |multiset(blocked)| == |blocked| && |multiset(remaining)| == |remaining|;
    forall c | c in blocked
      ensures c in cmds && Waits(c, blocked)
    {
      assert c in multiset(blocked) && c in multiset(cmds);
      var d :| d in c.deps && d in NamesOf(cmds) && d !in Placed(waves);
      var b :| b in cmds && b.name == d;
      PlacedHas(waves, d);
      FlatHas(waves, b);
      assert b in multiset(cmds) && b !in Flat(waves);
      assert b in multiset(remaining) && b in multiset(blocked);
    }
  }

  /** Between two waves: what is placed is a tight layering, and each command that is left
      had to wait for the last wave. */
  ghost predicate Layering(cmds: seq<Meta>, waves: seq<seq<Meta>>, remaining: seq<Meta>) {
    && multiset(remaining) + Flat(waves) == multiset(cmds)
    && (forall w :: 0 <= w < |waves| ==> waves[w] != [])
    && DepsEarlier(NamesOf(cmds), waves) && Tight(waves)
    && (waves != [] ==> NoneReady(remaining, NamesOf(cmds), Placed(waves[..|waves| - 1])))
  }

  ghost predicate NoneReady(remaining: seq<Meta>, inner: set<string>, done: set<string>) {
    forall c :: c in remaining ==> !InnerDepsSatisfied(c, inner, done)
  }

  lemma NextLayer(cmds: seq<Meta>, waves: seq<seq<Meta>>, remaining: seq<Meta>, wave: seq<Meta>, blocked: seq<Meta>)
    requires Layering(cmds, waves, remaining) && wave != []
    requires multiset(wave) + multiset(blocked) == multiset(remaining)
    requires NoneReady(blocked, NamesOf(cmds), Placed(waves))
    requires forall c :: c in wave ==> c in remaining && InnerDepsSatisfied(c, NamesOf(cmds), Placed(waves))
    ensures Layering(cmds, waves + [wave], blocked)
    ensures Placed(waves + [wave]) == Placed(waves) + NamesOf(wave)
  {
    assert (waves + [wave])[..|waves|] == waves;
    NextWaveEarlier(NamesOf(cmds), waves, wave);
    if waves == [] {
      NextWaveTight(NamesOf(cmds), {}, waves, wave);
    } else {
      NextWaveTight(NamesOf(cmds), Placed(waves[..|waves| - 1]), waves, wave);
    }
  }

  /** Waves of commands whose inner dependencies are done; None when some commands are left
      that all wait for each other. */
  method Waves(cmds: seq<Meta>) returns (r: Option<seq<seq<Meta>>>)
    ensures r.Some? ==> Layers(cmds, r.value) && Tight(r.value)
    ensures r.None? ==> Cyclic(cmds)
    ensures DistinctNames(cmds) ==> (r.None? <==> Cyclic(cmds))
  {
    var inner := NamesOf(cmds);
    var done := {};
    var remaining := cmds;
    var waves := [];
    while remaining != []
      invariant Layering(cmds, waves, remaining) && inner == NamesOf(cmds) && done == Placed(waves)
      decreases |remaining|
    {
      var wave, blocked := Partition(remaining, inner, done);
      assert |multiset(remaining)| == |multiset(wave)| + |multiset(blocked)|;
      if |wave| == 0 {
        AllBlocked(cmds, waves, remaining, blocked);
        StuckIsCyclic(cmds, blocked);
        return None;
      }
      NextLayer(cmds, waves, remaining, wave, blocked);
      done := done + NamesOf(wave);
      waves := waves + [wave];
      remaining := blocked;
    }
    if DistinctNames(cmds) && Cyclic(cmds) {
      LayeredIsAcyclic(cmds, waves);
    }
    return Some(waves);
  }

  // ---------------------------------------------------------------- stuck means cyclic

  /** A walk of n steps through commands that wait for each other. */
  lemma {:induction false} Walk(cmds: seq<Meta>, blocked: seq<Meta>, n: nat, c: Meta) returns (p: seq<Meta>)
    requires Stuck(cmds, blocked) && c in blocked
    ensures |p| == n + 1 && p[0] == c && IsChain(cmds, p)
    ensures forall i :: 0 <= i < |p| ==> p[i] in blocked
  {
    p := [c];
    if n > 0 {
      assert Waits(c, blocked);
      var b :| b in blocked && b.name in c.deps;
      var q := Walk(cmds, blocked, n - 1, b);
      ChainCons(cmds, c, q);
      p := [c] + q;
    }
  }

  lemma ChainCons(cmds: seq<Meta>, c: Meta, q: seq<Meta>)
    requires c in cmds && IsChain(cmds, q) && q[0].name in c.deps
    ensures IsChain(cmds, [c] + q)
  {
    var p := [c] + q;
    forall i | 0 <= i < |p| ensures p[i] in cmds {
      assert i > 0 ==> p[i] == q[i - 1];
    }
    forall i, j | 0 <= i < j < |p| && j == i + 1 ensures p[j].name in p[i].deps {
      assert p[j] == q[j - 1];
      assert i > 0 ==> p[i] == q[i - 1];
    }
  }

  lemma ChainPart(cmds: seq<Meta>, p: seq<Meta>, lo: nat, hi: nat)
    requires IsChain(cmds, p) && lo < hi <= |p|
    ensures IsChain(cmds, p[lo..hi])
  {
  }

  /** A sequence longer than the set its elements come from repeats one of them. */
  lemma {:induction false} Pigeonhole(p: seq<Meta>, s: set<Meta>)
    requires |p| > |s| && forall i :: 0 <= i < |p| ==> p[i] in s
    ensures exists i, j :: 0 <= i < j < |p| && p[i] == p[j]
  {
    var last := p[|p| - 1];
    if i :| 0 <= i < |p| - 1 && p[i] == last {
    } else {
      var q := p[..|p| - 1];
      Pigeonhole(q, s - {last});
      var i, j :| 0 <= i < j < |q| && q[i] == q[j];
      assert p[i] == p[j];
    }
  }

  lemma StuckIsCyclic(cmds: seq<Meta>, blocked: seq<Meta>)
    requires Stuck(cmds, blocked)
    ensures Cyclic(cmds)
  {
    var nodes := set c | c in blocked;
    assert blocked[0] in blocked;
    var p := Walk(cmds, blocked, |nodes|, blocked[0]);
    Pigeonhole(p, nodes);
    var i, j :| 0 <= i < j < |p| && p[i] == p[j];
    ChainPart(cmds, p, i, j + 1);
    assert IsCycle(cmds, p[i..j + 1]);
  }

  // ---------------------------------------------------------------- layers and chains

  lemma SameName(cmds: seq<Meta>, a: Meta, b: Meta)
    requires DistinctNames(cmds) && a in cmds && b in cmds && a.name == b.name
    ensures a == b
  {
  }

  /** The next step of a chain sits in an earlier wave. */
  lemma ChainDescends(cmds: seq<Meta>, waves: seq<seq<Meta>>, w: nat, p: seq<Meta>) returns (v: nat)
    requires DistinctNames(cmds) && Layers(cmds, waves)
    requires w < |waves| && IsChain(cmds, p) && |p| >= 2 && p[0] in waves[w]
    ensures v < w && p[1] in waves[v]
  {
    assert p[1] in cmds && p[1].name in p[0].deps && p[1].name in NamesOf(cmds);
    PlacedHas(waves[..w], p[1].name);
    var u, c :| 0 <= u < |waves[..w]| && c in waves[..w][u] && c.name == p[1].name;
    v := u;
    FlatHas(waves, c);
    assert c in multiset(cmds);
    SameName(cmds, c, p[1]);
  }

  /** A chain that starts in wave w has at most w + 1 steps. */
  lemma {:induction false} ChainBound(cmds: seq<Meta>, waves: seq<seq<Meta>>, w: nat, p: seq<Meta>)
    requires DistinctNames(cmds) && Layers(cmds, waves)
    requires w < |waves| && IsChain(cmds, p) && p[0] in waves[w]
    ensures |p| <= w + 1
  {
    if |p| > 1 {
      var v := ChainDescends(cmds, waves, w, p);
      ChainBound(cmds, waves, v, p[1..]);
    }
  }

  /** In a tight layering a step of wave w does start a chain of w + 1 steps. */
  lemma {:induction false} ChainExists(cmds: seq<Meta>, waves: seq<seq<Meta>>, w: nat, c: Meta) returns (p: seq<Meta>)
    requires Layers(cmds, waves) && Tight(waves) && w < |waves| && c in waves[w]
    ensures IsChain(cmds, p) && p[0] == c && |p| == w + 1
  {
    FlatHas(waves, c);
    assert c in multiset(cmds);
    p := [c];
    if w > 0 {
      assert Held(waves, w, c);
      var d :| d in c.deps && d in NamesOf(waves[w - 1]);
      var b :| b in waves[w - 1] && b.name == d;
      var q := ChainExists(cmds, waves, w - 1, b);
      ChainCons(cmds, c, q);
      p := [c] + q;
    }
  }

  /** Along a cycle the waves would descend for ever. */
  lemma {:induction false} CycleImpossible(cmds: seq<Meta>, waves: seq<seq<Meta>>, w: nat, p: seq<Meta>)
    requires DistinctNames(cmds) && Layers(cmds, waves)
    requires w < |waves| && IsCycle(cmds, p) && p[0] in waves[w]
    ensures false
    decreases w
  {
    var v := ChainDescends(cmds, waves, w, p);
    var turned := p[1..] + [p[1]];
    forall i, j | 0 <= i < j < |turned| && j == i + 1 ensures turned[j].name in turned[i].deps {
      assert turned[i] == p[i + 1];
      if j < |p| - 1 {
        assert turned[j] == p[j + 1];
      } else {
        assert turned[i] == p[0] && turned[j] == p[1];
      }
    }
    forall i | 0 <= i < |turned| ensures turned[i] in cmds {
      assert turned[i] == if i < |p| - 1 then p[i + 1] else p[1];
    }
    assert IsCycle(cmds, turned);
    CycleImpossible(cmds, waves, v, turned);
  }

  lemma LayeredIsAcyclic(cmds: seq<Meta>, waves: seq<seq<Meta>>)
    requires DistinctNames(cmds) && Layers(cmds, waves)
    ensures !Cyclic(cmds)
  {
    if p :| IsCycle(cmds, p) {
      assert p[0] in multiset(cmds);
      FlatHas(waves, p[0]);
      var w :| 0 <= w < |waves| && p[0] in waves[w];
      CycleImpossible(cmds, waves, w, p);
    }
  }

  /** A command's wave is one less than the length of its longest inner dependency chain. */
  lemma WaveIsLongestChain(cmds: seq<Meta>, waves: seq<seq<Meta>>, w: nat, c: Meta)
    requires DistinctNames(cmds) && Layers(cmds, waves) && Tight(waves) && w < |waves| && c in waves[w]
    ensures exists p :: IsChain(cmds, p) && p[0] == c && |p| == w + 1
    ensures forall p :: IsChain(cmds, p) && p[0] == c ==> |p| <= w + 1
  {
    var q := ChainExists(cmds, waves, w, c);
    forall p | IsChain(cmds, p) && p[0] == c ensures |p| <= w + 1 {
      ChainBound(cmds, waves, w, p);
    }
  }

  /** No valid layering puts a command earlier, so none has fewer waves. */
  lemma TightIsShortest(cmds: seq<Meta>, waves: seq<seq<Meta>>, other: seq<seq<Meta>>)
    requires DistinctNames(cmds) && Layers(cmds, waves) && Tight(waves) && Layers(cmds, other)
    ensures forall w, v, c :: 0 <= w < |waves| && 0 <= v < |other| && c in waves[w] && c in other[v] ==> w <= v
    ensures |waves| <= |other|
  {
    forall w, v, c | 0 <= w < |waves| && 0 <= v < |other| && c in waves[w] && c in other[v] ensures w <= v {
      var p := ChainExists(cmds, waves, w, c);
      ChainBound(cmds, other, v, p);
    }
    if waves != [] {
      var c := waves[|waves| - 1][0];
      assert c in waves[|waves| - 1];
      FlatHas(waves, c);
      FlatHas(other, c);
    }
  }

  // ---------------------------------------------------------------- the batch's own dependencies

  ghost predicate IsOuterDep(cmds: seq<Meta>, d: string) {
    d !in NamesOf(cmds) && exists c :: c in cmds && d in c.deps
  }

  /** The dependencies of the commands on steps outside the batch, each once. */
  method OuterDeps(cmds: seq<Meta>) returns (deps: seq<string>)
    ensures forall d :: d in deps <==> IsOuterDep(cmds, d)
    ensures forall i, j :: 0 <= i < j < |deps| ==> deps[i] != deps[j]
  {
    var inner, seen := NamesOf(cmds), {};
    deps := [];
    for i := 0 to |cmds|
      invariant forall d :: d in deps <==> d in seen
      invariant forall d :: d in seen <==> d !in inner && exists k :: 0 <= k < i && d in cmds[k].deps
      invariant forall i, j :: 0 <= i < j < |deps| ==> deps[i] != deps[j]
    {
      var own := cmds[i].deps;
      ghost var before := seen;
      for n := 0 to |own|
        invariant forall d :: d in deps <==> d in seen
        invariant forall d :: d in seen <==> d in before || (d !in inner && d in own[..n])
        invariant forall i, j :: 0 <= i < j < |deps| ==> deps[i] != deps[j]
      {
        assert own[..n + 1] == own[..n] + [own[n]];
        if own[n] in inner || own[n] in seen {
          continue;
        }
        seen := seen + {own[n]};
        deps := deps + [own[n]];
      }
      assert own[..|own|] == own;
    }
    forall c, d | c in cmds && d in c.deps && d !in inner ensures d in seen {
      var k :| 0 <= k < |cmds| && cmds[k] == c;
    }
  }

  /** Where the pipeline accepts the list, it also accepts the batch in its place: all the
      batch depends on stands before it. */
  lemma OuterDepsAreEarlier(steps: seq<Meta>, lo: nat, hi: nat, d: string)
    requires WellFormed(steps) && lo <= hi <= |steps| && IsOuterDep(steps[lo..hi], d)
    ensures Earlier(steps, lo, d)
  {
    forall i | lo <= i < hi ensures steps[i].name != d {
      assert steps[i] in steps[lo..hi];
    }
    var c :| c in steps[lo..hi] && d in c.deps;
    var k :| lo <= k < hi && steps[k] == c;
    assert Earlier(steps, k, d);
    var j :| 0 <= j < k && steps[j].name == d;
    assert j < lo;
  }

  // ---------------------------------------------------------------- running a batch

  /** The batch asks for no Run because of this command. */
  predicate Passes<W>(env: Env<W>, w0: W, c: Meta) {
    var a := env.check(c.name, 0, w0, 0);
    a == Satisfied || (a == CheckError && c.optional)
  }

  predicate Wanted<W>(env: Env<W>, w0: W, c: Meta) {
    env.check(c.name, 0, w0, 0) == Unsatisfied
  }

  /** The command makes its wave fail. */
  predicate Breaks<W>(env: Env<W>, w0: W, c: Meta) {
    var a := env.check(c.name, 0, w0, 0);
    !c.optional && (a == CheckError || (a == Unsatisfied && !env.succeeds(c.name, 0, w0, 0)))
  }

  /** A batch takes every command as a plain step: checked first, and run once. */
  function Plain(c: Meta): Meta {
    c.(kind := Auto, attempts := 1)
  }

  /** What the three mean in the pipeline's own terms. */
  lemma PlainStep<W>(env: Env<W>, w0: W, c: Meta)
    ensures Breaks(env, w0, c) <==> Verdict(env, w0, Plain(c)) == Failed
    ensures Wanted(env, w0, c) <==> NeedsRun(env, w0, Plain(c))
    ensures Passes(env, w0, c) <==> !NeedsRun(env, w0, Plain(c)) && Verdict(env, w0, Plain(c)) != Failed
    ensures c.kind != Handoff ==> (Wanted(env, w0, c) <==> NeedsRun(env, w0, c))
    ensures c.kind != Handoff && Attempts(c) == 1 ==> (Breaks(env, w0, c) <==> Verdict(env, w0, c) == Failed)
  {
    if env.succeeds(c.name, 0, w0, 0) {
      AchievedAt(env, w0, Plain(c), 0);
      AchievedAt(env, w0, c, 0);
    } else {
      assert !Achieves(env, w0, Plain(c));
    }
  }

  ghost predicate FirstToDecide<W>(env: Env<W>, w0: W, cmds: seq<Meta>, i: nat, r: Answer)
    requires i < |cmds|
  {
    && !Passes(env, w0, cmds[i])
    && (forall j :: 0 <= j < i ==> Passes(env, w0, cmds[j]))
    && (r == Unsatisfied <==> Wanted(env, w0, cmds[i]))
  }

  /** The batch's answer: that of the first command that does not pass. */
  function BatchAnswer<W>(env: Env<W>, w0: W, cmds: seq<Meta>): Answer {
    if cmds == [] then Satisfied
    else if Passes(env, w0, cmds[0]) then BatchAnswer(env, w0, cmds[1..])
    else env.check(cmds[0].name, 0, w0, 0)
  }

  /** The batch's Check: the first command that does not pass decides. */
  method CheckBatch<W>(env: Env<W>, w0: W, cmds: seq<Meta>) returns (r: Answer)
    ensures r == BatchAnswer(env, w0, cmds)
    ensures r == Satisfied <==> forall c :: c in cmds ==> Passes(env, w0, c)
    ensures r != Satisfied ==> exists i :: 0 <= i < |cmds| && FirstToDecide(env, w0, cmds, i, r)
  {
    for i := 0 to |cmds|
      invariant forall j :: 0 <= j < i ==> Passes(env, w0, cmds[j])
      invariant BatchAnswer(env, w0, cmds) == BatchAnswer(env, w0, cmds[i..])
    {
      assert cmds[i..][1..] == cmds[i + 1..];
      var a := env.check(cmds[i].name, 0, w0, 0);
      if a == CheckError {
        if cmds[i].optional {
          continue;
        }
        assert cmds[i] in cmds && FirstToDecide(env, w0, cmds, i, CheckError);
        return CheckError;
      }
      if a == Unsatisfied {
        assert cmds[i] in cmds && FirstToDecide(env, w0, cmds, i, Unsatisfied);
        return Unsatisfied;
      }
    }
    return Satisfied;
  }

  /** One command of a wave: whether its Run was called, and whether it failed the wave. */
  method RunOne<W>(env: Env<W>, w0: W, c: Meta) returns (called: bool, failed: bool)
    ensures called <==> Wanted(env, w0, c)
    ensures failed <==> Breaks(env, w0, c)
  {
    var a := env.check(c.name, 0, w0, 0);
    if a == CheckError {
      return false, !c.optional;
    }
    if a == Satisfied {
      return false, false;
    }
    if !env.succeeds(c.name, 0, w0, 0) {
      return true, !c.optional;
    }
    return true, false;
  }

  ghost predicate Sound<W>(env: Env<W>, w0: W, wave: seq<Meta>) {
    forall c :: c in wave ==> !Breaks(env, w0, c)
  }

  /** All goroutines of one wave; the answers are fixed, so their order does not matter. */
  method RunWave<W>(env: Env<W>, w0: W, wave: seq<Meta>) returns (ran: seq<Meta>, failed: bool)
    ensures multiset(ran) <= multiset(wave)
    ensures forall c :: c in ran <==> c in wave && Wanted(env, w0, c)
    ensures failed <==> !Sound(env, w0, wave)
  {
    ran, failed := [], false;
    for i := 0 to |wave|
      invariant multiset(ran) <= multiset(wave[..i])
      invariant forall c :: c in ran <==> c in wave[..i] && Wanted(env, w0, c)
      invariant failed <==> exists c :: c in wave[..i] && Breaks(env, w0, c)
    {
      assert wave[..i + 1] == wave[..i] + [wave[i]];
      var called, bad := RunOne(env, w0, wave[i]);
      if called {
        ran := ran + [wave[i]];
      }
      failed := failed || bad;
      assert bad ==> wave[i] in wave[..i + 1];
    }
    assert wave[..|wave|] == wave;
  }

  /** No inner dependency of a command that ran has failed. */
  ghost predicate InnerGuarded<W>(env: Env<W>, w0: W, cmds: seq<Meta>, ran: seq<Meta>) {
    forall c, b :: c in ran && b in cmds && b.name in c.deps ==> !Breaks(env, w0, b)
  }

  /** Exactly the first `over` waves were started, each after the ones before it had ended
      soundly and uncancelled; the batch failed if and only if the last of them did not. */
  ghost predicate FailFast<W>(env: Env<W>, w0: W, waves: seq<seq<Meta>>, over: nat, cancelled: nat -> bool, failed: bool) {
    && over <= |waves|
    && (over > 0 ==> CalmBefore(env, w0, waves, over - 1, cancelled))
    && (failed ==> over > 0 && !Calm(env, w0, waves, over - 1, cancelled))
    && (!failed ==> over == |waves| && (over > 0 ==> Calm(env, w0, waves, over - 1, cancelled)))
  }

  /** The wave ends without an error, and the context is alive then. */
  ghost predicate Calm<W>(env: Env<W>, w0: W, waves: seq<seq<Meta>>, v: nat, cancelled: nat -> bool) {
    v < |waves| && Sound(env, w0, waves[v]) && !cancelled(v)
  }

  ghost predicate CalmBefore<W>(env: Env<W>, w0: W, waves: seq<seq<Meta>>, w: nat, cancelled: nat -> bool) {
    forall v {:trigger Calm(env, w0, waves, v, cancelled)} :: 0 <= v < w ==> Calm(env, w0, waves, v, cancelled)
  }

  /** One more wave. */
  method RunNext<W>(env: Env<W>, w0: W, ghost cmds: seq<Meta>, waves: seq<seq<Meta>>, w: nat, ran0: seq<Meta>,
                    ghost cancelled: nat -> bool)
    returns (ran: seq<Meta>, bad: bool)
    requires DistinctNames(cmds) && Layers(cmds, waves) && w < |waves|
    requires WavesRan(env, w0, cmds, waves, w, ran0) && CalmBefore(env, w0, waves, w, cancelled)
    ensures WavesRan(env, w0, cmds, waves, w + 1, ran)
    ensures Calm(env, w0, waves, w, cancelled) <==> !bad && !cancelled(w)
  {
    var more;
    more, bad := RunWave(env, w0, waves[w]);
    SoundSoFar(env, w0, waves, w, cancelled);
    NextWaveRan(env, w0, cmds, waves, w, ran0, more);
    ran := ran0 + more;
  }

  /** The batch stops with this wave, or goes on. */
  lemma WaveEnds<W>(env: Env<W>, w0: W, waves: seq<seq<Meta>>, w: nat, cancelled: nat -> bool)
    requires w < |waves| && CalmBefore(env, w0, waves, w, cancelled)
    ensures if Calm(env, w0, waves, w, cancelled) then CalmBefore(env, w0, waves, w + 1, cancelled)
            else FailFast(env, w0, waves, w + 1, cancelled, true)
  {
  }

  lemma AllWavesEnd<W>(env: Env<W>, w0: W, waves: seq<seq<Meta>>, cancelled: nat -> bool)
    requires CalmBefore(env, w0, waves, |waves|, cancelled)
    ensures FailFast(env, w0, waves, |waves|, cancelled, false)
  {
    if |waves| > 0 {
      assert Calm(env, w0, waves, |waves| - 1, cancelled);
    }
  }

  lemma NothingRan<W>(env: Env<W>, w0: W, cmds: seq<Meta>, waves: seq<seq<Meta>>, cancelled: nat -> bool)
    ensures WavesRan(env, w0, cmds, waves, 0, []) && CalmBefore(env, w0, waves, 0, cancelled)
  {
  }

  /** Wave by wave, fail-fast. */
  method RunWaves<W>(env: Env<W>, w0: W, ghost cmds: seq<Meta>, waves: seq<seq<Meta>>, cancelled: nat -> bool)
    returns (ran: seq<Meta>, failed: bool, over: nat)
    requires DistinctNames(cmds) && Layers(cmds, waves)
    ensures FailFast(env, w0, waves, over, cancelled, failed)
    ensures WavesRan(env, w0, cmds, waves, over, ran)
  {
    ran, over := [], 0;
    NothingRan(env, w0, cmds, waves, cancelled);
    var w := 0;
    while w < |waves|
      invariant w == over <= |waves|
      invariant WavesRan(env, w0, cmds, waves, w, ran)
      invariant CalmBefore(env, w0, waves, w, cancelled)
      decreases |waves| - w
    {
      var bad;
      ran, bad := RunNext(env, w0, cmds, waves, w, ran, cancelled);
      WaveEnds(env, w0, waves, w, cancelled);
      over := w + 1;
      if bad || cancelled(w) {
        return ran, true, over;
      }
      w := w + 1;
    }
    AllWavesEnd(env, w0, waves, cancelled);
    return ran, false, over;
  }

  lemma SoundSoFar<W>(env: Env<W>, w0: W, waves: seq<seq<Meta>>, w: nat, cancelled: nat -> bool)
    requires w <= |waves| && CalmBefore(env, w0, waves, w, cancelled)
    ensures forall c :: c in Flat(waves[..w]) ==> !Breaks(env, w0, c)
  {
    forall c | c in Flat(waves[..w]) ensures !Breaks(env, w0, c) {
      FlatHas(waves[..w], c);
      var v :| 0 <= v < w && c in waves[..w][v];
      assert c in waves[v] && Calm(env, w0, waves, v, cancelled);
    }
  }

  /** A batch that fails although nothing cancels it holds a command that breaks it. */
  lemma FailureHasCause<W>(env: Env<W>, w0: W, cmds: seq<Meta>, waves: seq<seq<Meta>>, over: nat,
                           cancelled: nat -> bool, failed: bool)
    requires Layers(cmds, waves) && FailFast(env, w0, waves, over, cancelled, failed)
    ensures !failed ==> over == |waves| && forall c :: c in cmds ==> !Breaks(env, w0, c)
    ensures failed && !cancelled(over - 1) ==> exists c :: c in cmds && Breaks(env, w0, c)
  {
    if !failed {
      SoundSoFar(env, w0, waves, |waves|, cancelled);
      assert waves[..|waves|] == waves;
      forall c | c in cmds ensures !Breaks(env, w0, c) {
        assert c in multiset(cmds);
      }
    } else if !cancelled(over - 1) {
      var c :| c in waves[over - 1] && Breaks(env, w0, c);
      FlatHas(waves, c);
      assert c in multiset(cmds);
    }
  }

  /** The layers, then the waves; a cycle is an error before anything runs. */
  method RunBatch<W>(env: Env<W>, w0: W, cmds: seq<Meta>, cancelled: nat -> bool)
    returns (ran: seq<Meta>, failed: bool, ghost waves: seq<seq<Meta>>, ghost over: nat)
    requires DistinctNames(cmds)
    ensures multiset(ran) <= multiset(cmds) && InnerGuarded(env, w0, cmds, ran)
    ensures forall c :: c in ran ==> c in cmds && Wanted(env, w0, c)
    ensures Cyclic(cmds) ==> failed && ran == []
    ensures !Cyclic(cmds) ==>
              && Layers(cmds, waves) && Tight(waves) && FailFast(env, w0, waves, over, cancelled, failed)
              && forall c :: c in ran <==> c in Flat(waves[..over]) && Wanted(env, w0, c)
    ensures !failed ==> forall c :: c in cmds ==> (c in ran <==> Wanted(env, w0, c)) && !Breaks(env, w0, c)
    ensures !Cyclic(cmds) && (forall w :: !cancelled(w)) ==> (failed <==> exists c :: c in cmds && Breaks(env, w0, c))
  {
    var layers := Waves(cmds);
    if layers.None? {
      return [], true, [], 0;
    }
    waves := layers.value;
    ran, failed, over := RunWaves(env, w0, cmds, layers.value, cancelled);
    WavesRanPart(env, w0, cmds, waves, over, ran);
    FailureHasCause(env, w0, cmds, waves, over, cancelled, failed);
    assert over == |waves| ==> waves[..over] == waves;
    assert forall c :: c in cmds <==> c in multiset(cmds);
  }

  /** What has been run once w waves are over. */
  ghost predicate WavesRan<W>(env: Env<W>, w0: W, cmds: seq<Meta>, waves: seq<seq<Meta>>, w: nat, ran: seq<Meta>)
    requires w <= |waves|
  {
    && multiset(ran) <= Flat(waves[..w])
    && (forall c :: c in ran <==> c in Flat(waves[..w]) && Wanted(env, w0, c))
    && InnerGuarded(env, w0, cmds, ran)
  }

  lemma NextWaveRan<W>(env: Env<W>, w0: W, cmds: seq<Meta>, waves: seq<seq<Meta>>, w: nat, ran: seq<Meta>, more: seq<Meta>)
    requires DistinctNames(cmds) && Layers(cmds, waves) && w < |waves|
    requires WavesRan(env, w0, cmds, waves, w, ran)
    requires forall c :: c in Flat(waves[..w]) ==> !Breaks(env, w0, c)
    requires multiset(more) <= multiset(waves[w])
    requires forall c :: c in more <==> c in waves[w] && Wanted(env, w0, c)
    ensures WavesRan(env, w0, cmds, waves, w + 1, ran + more)
    ensures Flat(waves[..w + 1]) == Flat(waves[..w]) + multiset(waves[w])
  {
    assert waves[..w + 1][..w] == waves[..w];
    WaveGuarded(env, w0, cmds, waves, w, more);
    assert multiset(ran + more) == multiset(ran) + multiset(more);
    forall c ensures c in ran + more <==> c in Flat(waves[..w + 1]) && Wanted(env, w0, c) {
      assert c in waves[w] <==> c in multiset(waves[w]);
    }
  }

  lemma WavesRanPart<W>(env: Env<W>, w0: W, cmds: seq<Meta>, waves: seq<seq<Meta>>, w: nat, ran: seq<Meta>)
    requires Layers(cmds, waves) && w <= |waves| && WavesRan(env, w0, cmds, waves, w, ran)
    ensures multiset(ran) <= multiset(cmds)
    ensures forall c :: c in ran ==> c in cmds && Wanted(env, w0, c)
  {
    FlatPart(waves, w);
    forall c | c in ran ensures c in cmds {
      assert c in multiset(cmds);
    }
  }

  lemma {:induction false} FlatPart(waves: seq<seq<Meta>>, w: nat)
    requires w <= |waves|
    ensures Flat(waves[..w]) <= Flat(waves)
    decreases |waves| - w
  {
    if w == |waves| {
      assert waves[..w] == waves;
    } else {
      FlatPart(waves, w + 1);
      assert waves[..w + 1][..w] == waves[..w];
    }
  }

  /** The dependencies of the next wave lie in the waves that did not fail. */
  lemma WaveGuarded<W>(env: Env<W>, w0: W, cmds: seq<Meta>, waves: seq<seq<Meta>>, w: nat, more: seq<Meta>)
    requires DistinctNames(cmds) && Layers(cmds, waves) && w < |waves|
    requires forall c :: c in Flat(waves[..w]) ==> !Breaks(env, w0, c)
    requires forall c :: c in more ==> c in waves[w]
    ensures InnerGuarded(env, w0, cmds, more)
  {
    forall c, b | c in more && b in cmds && b.name in c.deps ensures !Breaks(env, w0, b) {
      assert c in waves[w] && b.name in NamesOf(cmds);
      assert b.name in Placed(waves[..w]);
      PlacedHas(waves[..w], b.name);
      var v, d :| 0 <= v < w && d in waves[..w][v] && d.name == b.name;
      FlatHas(waves[..w], d);
      FlatPart(waves, w);
      assert d in Flat(waves) && d in multiset(cmds);
      SameName(cmds, d, b);
    }
  }

  ghost predicate BatchFails<W>(env: Env<W>, w0: W, cmds: seq<Meta>) {
    Cyclic(cmds) || exists c :: c in cmds && Breaks(env, w0, c)
  }

  /** What the pipeline sees of a batch, and which Runs the batch has called. */
  ghost predicate NodeRan<W>(env: Env<W>, w0: W, cmds: seq<Meta>, ran: seq<Meta>, failed: bool) {
    var answer := BatchAnswer(env, w0, cmds);
    && multiset(ran) <= multiset(cmds) && InnerGuarded(env, w0, cmds, ran)
    && (forall c :: c in ran ==> Wanted(env, w0, c))
    && (answer == Satisfied ==> ran == [] && !failed)
    && (answer == CheckError ==> ran == [] && failed)
    && (answer == Unsatisfied ==> (failed <==> BatchFails(env, w0, cmds)))
    && (answer == Unsatisfied && Cyclic(cmds) ==> ran == [])
    && (answer == Unsatisfied && !failed ==> forall c :: c in cmds ==> (c in ran <==> Wanted(env, w0, c)))
  }

  /** The batch as a step of the pipeline: Run only when its Check is not satisfied. */
  method RunNode<W>(env: Env<W>, w0: W, cmds: seq<Meta>) returns (ran: seq<Meta>, failed: bool)
    requires DistinctNames(cmds)
    ensures NodeRan(env, w0, cmds, ran, failed)
    ensures !Cyclic(cmds) && (forall c :: c in cmds ==> c.optional) ==>
              !failed && forall c :: c in cmds ==> (c in ran <==> Wanted(env, w0, c))
  {
    var a := CheckBatch(env, w0, cmds);
    if a == Satisfied {
      return [], false;
    }
    if a == CheckError {
      return [], true;
    }
    ghost var waves, over;
    ran, failed, waves, over := RunBatch(env, w0, cmds, _ => false);
  }

  // ---------------------------------------------------------------- batch and list

  /** Steps that a pipeline accepts in this order have no inner cycle. */
  lemma ListedIsAcyclic(steps: seq<Meta>, lo: nat, hi: nat)
    requires WellFormed(steps) && lo <= hi <= |steps|
    ensures DistinctNames(steps[lo..hi]) && !Cyclic(steps[lo..hi])
  {
    var cmds := steps[lo..hi];
    if p :| IsCycle(cmds, p) {
      var last := |p| - 1;
      var a :| 0 <= a < |steps| && steps[a] == p[0];
      var b := ChainGoesBack(steps, cmds, p, last, a);
      assert false;
    }
  }

  lemma {:induction false} ChainGoesBack(steps: seq<Meta>, cmds: seq<Meta>, p: seq<Meta>, n: nat, a: nat) returns (b: nat)
    requires WellFormed(steps) && (forall c :: c in cmds ==> c in steps)
    requires IsChain(cmds, p) && n < |p| && a < |steps| && steps[a] == p[0]
    ensures b < |steps| && steps[b] == p[n] && b <= a && (n > 0 ==> b < a)
  {
    b := a;
    if n > 0 {
      var c := ChainGoesBack(steps, cmds, p, n - 1, a);
      assert p[n].name in p[n - 1].deps && p[n] in steps;
      assert Earlier(steps, c, p[n].name);
      var j :| 0 <= j < c && steps[j].name == p[n].name;
      var k :| 0 <= k < |steps| && steps[k] == p[n];
      assert j == k;
      b := j;
    }
  }

  /** The batch runs the command exactly when the pipeline does that lists it. */
  ghost predicate CalledAlike<W>(env: Env<W>, w0: W, steps: seq<Meta>, k: nat)
    requires k < |steps|
  {
    Wanted(env, w0, steps[k]) <==> CallsRun(env, w0, steps, k)
  }

  lemma CalledAlikeIff<W>(env: Env<W>, w0: W, steps: seq<Meta>, k: nat)
    requires k < |steps| && !Blocked(env, w0, steps, k)
    ensures CalledAlike(env, w0, steps, k)
            <==> (steps[k].kind == Handoff ==> env.check(steps[k].name, 0, w0, 0) == Unsatisfied)
  {
  }

  lemma OptionalNeverFails<W>(env: Env<W>, w0: W, steps: seq<Meta>, k: nat)
    requires k < |steps| && steps[k].optional
    ensures Final(env, w0, steps, k) != Failed
  {
  }

  /**
   Contracting optional steps into a batch node keeps what is run: with fixed answers and
   no failed dependency from outside, the inner graph is acyclic and the batch calls Run of
   exactly the commands that the pipeline runs when it lists them, if and only if every
   hand-off among them has an unsatisfied Check (the batch does check hand-offs).
   */
  lemma BatchRunsTheListedSteps<W>(env: Env<W>, w0: W, steps: seq<Meta>, lo: nat, hi: nat)
    requires WellFormed(steps) && lo <= hi <= |steps|
    requires forall k :: lo <= k < hi ==> steps[k].optional
    requires forall j, k :: 0 <= j < lo <= k < hi && steps[j].name in steps[k].deps ==>
               Final(env, w0, steps, j) != Failed
    ensures !Cyclic(steps[lo..hi]) && DistinctNames(steps[lo..hi])
    ensures (forall k :: lo <= k < hi ==> CalledAlike(env, w0, steps, k))
       <==> (forall k :: lo <= k < hi && steps[k].kind == Handoff ==> env.check(steps[k].name, 0, w0, 0) == Unsatisfied)
  {
    ListedIsAcyclic(steps, lo, hi);
    forall k | lo <= k < hi ensures !Blocked(env, w0, steps, k) {
      forall j | 0 <= j < k && steps[j].name in steps[k].deps ensures Final(env, w0, steps, j) != Failed {
        if j >= lo {
          OptionalNeverFails(env, w0, steps, j);
        }
      }
    }
    forall k | lo <= k < hi
      ensures CalledAlike(env, w0, steps, k)
              <==> (steps[k].kind == Handoff ==> env.check(steps[k].name, 0, w0, 0) == Unsatisfied)
    {
      CalledAlikeIff(env, w0, steps, k);
    }
  }
}
