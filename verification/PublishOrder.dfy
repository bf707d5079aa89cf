/**
 The publish layers of scripts/release/resolve-publish-order.py: packages without
 unpublished dependencies go first, layer by layer, and a cycle is reported.
 */
module PublishOrder {
  import opened Prelude

  /** Each publishable package and the publishable packages it depends on. */
  type Graph = map<string, set<string>>

  ghost predicate Closed(g: Graph) {
    forall p | p in g :: g[p] <= g.Keys
  }

  /** The packages of `rest` that depend on nothing in `rest`. */
  ghost function Ready(g: Graph, rest: set<string>): set<string>
    requires rest <= g.Keys
  {
    set p | p in rest && g[p] * rest == {}
  }

  /** The layering loop from the point where `rest` is left: the layers, or the packages
      among which it got stuck. */
  ghost function Layers(g: Graph, rest: set<string>): Result<seq<set<string>>, set<string>>
    requires rest <= g.Keys
    decreases |rest|
  {
    if rest == {} then Success([])
    else if Ready(g, rest) == {} then Failure(rest)
    else
      SmallerSet(rest, Ready(g, rest));
      var later := Layers(g, rest - Ready(g, rest));
      if later.Success? then Success([Ready(g, rest)] + later.value) else later
  }

  lemma SmallerSet(a: set<string>, b: set<string>)
    requires b != {} && b <= a
    ensures |a - b| < |a|
  {
    assert a == (a - b) + b;
    assert |a| == |a - b| + |b|;
  }

  // ------------------------------------------------------------------ chains and cycles

  /** Each package of the chain is a dependency of the next; all lie in `within`. */
  ghost predicate Chain(g: Graph, within: set<string>, c: seq<string>) {
    && c != []
    && (forall i | 0 <= i < |c| :: c[i] in within && c[i] in g)
    && (forall i | 0 <= i < |c| - 1 :: c[i] in g[c[i + 1]])
  }

  /** A chain of `edges` dependencies that ends in `p`. */
  ghost predicate ChainTo(g: Graph, within: set<string>, p: string, edges: nat) {
    exists c :: Chain(g, within, c) && |c| == edges + 1 && c[edges] == p
  }

  ghost predicate Cycle(g: Graph, within: set<string>, c: seq<string>) {
    Chain(g, within, c) && |c| >= 2 && c[0] == c[|c| - 1]
  }

  lemma Prepend(g: Graph, within: set<string>, d: string, c: seq<string>)
    requires Chain(g, within, c) && d in within && d in g && d in g[c[0]]
    ensures Chain(g, within, [d] + c)
  {
    var longer := [d] + c;
    forall i | 0 <= i < |longer| - 1
      ensures longer[i] in g[longer[i + 1]]
    {
      if i > 0 {
        assert longer[i] == c[i - 1] && longer[i + 1] == c[i - 1 + 1];
      }
    }
  }

  lemma Widen(g: Graph, a: set<string>, b: set<string>, c: seq<string>)
    requires Chain(g, a, c) && a <= b
    ensures Chain(g, b, c)
  {
  }

  /** Below the first, no package of a chain is ready. */
  lemma TailIsNotReady(g: Graph, rest: set<string>, c: seq<string>)
    requires rest <= g.Keys && Chain(g, rest, c) && |c| >= 2
    ensures Chain(g, rest - Ready(g, rest), c[1..])
  {
    forall i | 0 <= i < |c[1..]|
      ensures c[1..][i] !in Ready(g, rest)
    {
      assert c[i] in g[c[i + 1]] * rest;
    }
    forall i | 0 <= i < |c[1..]| - 1
      ensures c[1..][i] in g[c[1..][i + 1]]
    {
      assert c[i + 1] in g[c[i + 1 + 1]];
    }
  }

  // ------------------------------------------------------------------ success

  ghost predicate InLayer(layers: seq<set<string>>, k: nat, p: string) {
    k < |layers| && p in layers[k]
  }

  lemma LaterLayers(layers: seq<set<string>>, k: nat, p: string)
    requires layers != []
    ensures InLayer(layers, k + 1, p) <==> InLayer(layers[1..], k, p)
  {
  }

  /** Each layer is what is ready once the layers before it are gone. */
  ghost predicate Layered(g: Graph, rest: set<string>, layers: seq<set<string>>)
    requires rest <= g.Keys
    decreases |layers|
  {
    if layers == [] then rest == {}
    else layers[0] == Ready(g, rest) && Layered(g, rest - layers[0], layers[1..])
  }

  lemma {:induction false} SuccessIsLayered(g: Graph, rest: set<string>, layers: seq<set<string>>)
    requires rest <= g.Keys && Layers(g, rest) == Success(layers)
    ensures Layered(g, rest, layers)
    decreases |rest|
  {
    if rest != {} {
      SmallerSet(rest, Ready(g, rest));
      SuccessIsLayered(g, rest - Ready(g, rest), layers[1..]);
    }
  }

  /** A package sits in the layer numbered by its longest chain of dependencies: there is
      one of that length, and below there is none longer. */
  lemma {:induction false} LayerHasChain(g: Graph, rest: set<string>, layers: seq<set<string>>, k: nat, p: string)
    returns (c: seq<string>)
    requires rest <= g.Keys && Layered(g, rest, layers) && InLayer(layers, k, p)
    ensures Chain(g, rest, c) && |c| == k + 1 && c[k] == p
    decreases |layers|
  {
    if k == 0 {
      c := [p];
    } else {
      LaterLayers(layers, k - 1, p);
      var shorter := LayerHasChain(g, rest - layers[0], layers[1..], k - 1, p);
      c := ChainGrows(g, rest, shorter);
    }
  }

  /** A chain among what is not ready has a dependency to start from. */
  lemma ChainGrows(g: Graph, rest: set<string>, c: seq<string>) returns (longer: seq<string>)
    requires rest <= g.Keys && Chain(g, rest - Ready(g, rest), c)
    ensures Chain(g, rest, longer) && |longer| == |c| + 1 && longer[|c|] == c[|c| - 1]
  {
    var rest' := rest - Ready(g, rest);
    Widen(g, rest', rest, c);
    assert c[0] in rest' && g[c[0]] * rest != {};
    var d :| d in g[c[0]] * rest;
    Prepend(g, rest, d, c);
    longer := [d] + c;
  }

  lemma {:induction false} LayerBoundsChains(g: Graph, rest: set<string>, layers: seq<set<string>>, k: nat,
                                             c: seq<string>)
    requires rest <= g.Keys && Layered(g, rest, layers)
    requires Chain(g, rest, c) && InLayer(layers, k, c[|c| - 1])
    ensures |c| - 1 <= k
    decreases |layers|
  {
    if |c| >= 2 {
      TailIsNotReady(g, rest, c);
      var tail := c[1..];
      assert tail[|tail| - 1] == c[|c| - 1] && tail[|tail| - 1] in rest - layers[0];
      assert k > 0;
      LaterLayers(layers, k - 1, c[|c| - 1]);
      LayerBoundsChains(g, rest - layers[0], layers[1..], k - 1, tail);
    }
  }

  lemma {:induction false} EveryPackageHasALayer(g: Graph, rest: set<string>, layers: seq<set<string>>, p: string)
    requires rest <= g.Keys && Layered(g, rest, layers)
    ensures p in rest <==> exists k: nat :: InLayer(layers, k, p)
    decreases |layers|
  {
    if layers != [] {
      EveryPackageHasALayer(g, rest - layers[0], layers[1..], p);
      if p in layers[0] {
        assert InLayer(layers, 0, p);
      } else if p in rest {
        var k: nat :| InLayer(layers[1..], k, p);
        LaterLayers(layers, k, p);
      } else if exists k: nat :: InLayer(layers, k, p) {
        var k: nat :| InLayer(layers, k, p);
        LaterLayers(layers, k - 1, p);
      }
    }
  }

  /** Every package is in exactly one layer: the one whose number, counted from zero, is the
      length of its longest dependency chain. */
  lemma LayersAreLongestChains(g: Graph, layers: seq<set<string>>, p: string, k: nat)
    requires Layers(g, g.Keys) == Success(layers)
    ensures p in g <==> exists n: nat :: InLayer(layers, n, p)
    ensures InLayer(layers, k, p) <==> ChainTo(g, g.Keys, p, k) && !ChainTo(g, g.Keys, p, k + 1)
  {
    SuccessIsLayered(g, g.Keys, layers);
    EveryPackageHasALayer(g, g.Keys, layers, p);
    if InLayer(layers, k, p) {
      var c := LayerHasChain(g, g.Keys, layers, k, p);
      assert ChainTo(g, g.Keys, p, k);
      NoLongerChain(g, layers, k, p, k + 1);
    }
    if ChainTo(g, g.Keys, p, k) && !ChainTo(g, g.Keys, p, k + 1) {
      var c :| Chain(g, g.Keys, c) && |c| == k + 1 && c[k] == p;
      assert p in g;
      var n: nat :| InLayer(layers, n, p);
      LayerBoundsChains(g, g.Keys, layers, n, c);
      var b := LayerHasChain(g, g.Keys, layers, n, p);
      assert ChainTo(g, g.Keys, p, n);
      ShorterChains(g, p, n, k + 1);
    }
  }

  lemma NoLongerChain(g: Graph, layers: seq<set<string>>, k: nat, p: string, edges: nat)
    requires Layered(g, g.Keys, layers) && InLayer(layers, k, p) && edges > k
    ensures !ChainTo(g, g.Keys, p, edges)
  {
    if ChainTo(g, g.Keys, p, edges) {
      var c :| Chain(g, g.Keys, c) && |c| == edges + 1 && c[edges] == p;
      LayerBoundsChains(g, g.Keys, layers, k, c);
    }
  }

  lemma ShorterChains(g: Graph, p: string, edges: nat, fewer: nat)
    requires ChainTo(g, g.Keys, p, edges)
    ensures fewer <= edges ==> ChainTo(g, g.Keys, p, fewer)
  {
    if fewer <= edges {
      var c :| Chain(g, g.Keys, c) && |c| == edges + 1 && c[edges] == p;
      var tail := c[edges - fewer..];
      forall i | 0 <= i < |tail| - 1
        ensures tail[i] in g[tail[i + 1]]
      {
        assert c[edges - fewer + i] in g[c[edges - fewer + i + 1]];
      }
      assert Chain(g, g.Keys, tail) && tail[fewer] == p;
    }
  }

  /** Dependencies are published in strictly earlier layers. */
  lemma DependenciesComeFirst(g: Graph, layers: seq<set<string>>, p: string, d: string, i: nat, j: nat)
    requires Layers(g, g.Keys) == Success(layers) && p in g && d in g[p]
    requires InLayer(layers, i, d) && InLayer(layers, j, p)
    ensures i < j
  {
    SuccessIsLayered(g, g.Keys, layers);
    var c := LayerHasChain(g, g.Keys, layers, i, d);
    var longer := c + [p];
    forall n | 0 <= n < |longer| - 1
      ensures longer[n] in g[longer[n + 1]]
    {
      if n < |c| - 1 {
        assert c[n] in g[c[n + 1]];
      }
    }
    assert Chain(g, g.Keys, longer);
    LayerBoundsChains(g, g.Keys, layers, j, longer);
  }

  /** A graph that layers has no cycle: a cycle would lengthen its own longest chain. */
  lemma SuccessMeansAcyclic(g: Graph, layers: seq<set<string>>, c: seq<string>)
    requires Layers(g, g.Keys) == Success(layers)
    ensures !Cycle(g, g.Keys, c)
  {
    if Cycle(g, g.Keys, c) {
      var p := c[0];
      SuccessIsLayered(g, g.Keys, layers);
      EveryPackageHasALayer(g, g.Keys, layers, p);
      var k: nat :| InLayer(layers, k, p);
      var a := LayerHasChain(g, g.Keys, layers, k, p);
      Join(g, a, c);
      LayerBoundsChains(g, g.Keys, layers, k, a + c[1..]);
    }
  }

  lemma Join(g: Graph, a: seq<string>, c: seq<string>)
    requires Chain(g, g.Keys, a) && Chain(g, g.Keys, c) && a[|a| - 1] == c[0]
    ensures Chain(g, g.Keys, a + c[1..])
  {
    var longer, k := a + c[1..], |a| - 1;
    forall i | 0 <= i < |longer| - 1
      ensures longer[i] in g[longer[i + 1]]
    {
      if i < k {
        assert a[i] in g[a[i + 1]];
      } else {
        assert c[i - k] in g[c[i - k + 1]];
        assert longer[i] == c[i - k] && longer[i + 1] == c[i - k + 1];
      }
    }
  }

  // ------------------------------------------------------------------ failure

  lemma {:induction false} StuckSetIsDependent(g: Graph, rest: set<string>, stuck: set<string>)
    requires rest <= g.Keys && Layers(g, rest) == Failure(stuck)
    ensures stuck != {} && stuck <= rest && Ready(g, stuck) == {}
    decreases |rest|
  {
    if rest != {} && Ready(g, rest) != {} {
      SmallerSet(rest, Ready(g, rest));
      StuckSetIsDependent(g, rest - Ready(g, rest), stuck);
    }
  }

  lemma {:induction false} LongChains(g: Graph, stuck: set<string>, edges: nat) returns (c: seq<string>)
    requires stuck != {} && stuck <= g.Keys && Ready(g, stuck) == {}
    ensures Chain(g, stuck, c) && |c| == edges + 1
    decreases edges
  {
    if edges == 0 {
      var p :| p in stuck;
      c := [p];
    } else {
      var shorter := LongChains(g, stuck, edges - 1);
      assert shorter[0] !in Ready(g, stuck);
      var d :| d in g[shorter[0]] * stuck;
      Prepend(g, stuck, d, shorter);
      c := [d] + shorter;
    }
  }

  /** More places than packages: some package comes twice. */
  lemma {:induction false} Pigeonhole(c: seq<string>, within: set<string>) returns (i: nat, j: nat)
    requires |c| > |within| && forall k | 0 <= k < |c| :: c[k] in within
    ensures i < j < |c| && c[i] == c[j]
    decreases |c|
  {
    var init, last := c[..|c| - 1], c[|c| - 1];
    if last in init {
      i :| 0 <= i < |init| && init[i] == last;
      j := |c| - 1;
    } else {
      forall k | 0 <= k < |init|
        ensures init[k] in within - {last}
      {
        assert init[k] == c[k] && init[k] in init;
      }
      i, j := Pigeonhole(init, within - {last});
    }
  }

  /** Getting stuck means there is a cycle among the packages left. */
  lemma FailureMeansCycle(g: Graph, stuck: set<string>) returns (cycle: seq<string>)
    requires Layers(g, g.Keys) == Failure(stuck)
    ensures Cycle(g, stuck, cycle)
  {
    StuckSetIsDependent(g, g.Keys, stuck);
    var c := LongChains(g, stuck, |stuck|);
    var i, j := Pigeonhole(c, stuck);
    cycle := c[i..j + 1];
    forall k | 0 <= k < |cycle| - 1
      ensures cycle[k] in g[cycle[k + 1]]
    {
      assert c[i + k] in g[c[i + k + 1]];
    }
  }

  /** Layering succeeds exactly on acyclic graphs. */
  lemma LayersIffAcyclic(g: Graph)
    ensures Layers(g, g.Keys).Success? <==> !exists c :: Cycle(g, g.Keys, c)
  {
    match Layers(g, g.Keys)
    case Success(layers) =>
      if exists c :: Cycle(g, g.Keys, c) {
        var c :| Cycle(g, g.Keys, c);
        SuccessMeansAcyclic(g, layers, c);
      }
    case Failure(stuck) =>
      var c := FailureMeansCycle(g, stuck);
      StuckSetIsDependent(g, g.Keys, stuck);
      Widen(g, stuck, g.Keys, c);
      assert Cycle(g, g.Keys, c);
  }

  // ------------------------------------------------------------------ the program

  datatype Error = NoPackages | ExcludedDependency(package: string) | DependencyCycle(among: seq<string>)

  /** Python's order on strings: by code point, a prefix first. */
  predicate Before(a: string, b: string) {
    b != [] && (a == [] || a[0] < b[0] || (a[0] == b[0] && Before(a[1..], b[1..])))
  }

  lemma {:induction false} BeforeIsTotal(a: string, b: string)
    ensures a == b || Before(a, b) || Before(b, a)
    ensures !(Before(a, b) && Before(b, a)) && !Before(a, a)
    decreases |a|
  {
    if a != [] {
      BeforeIsTotal(a[1..], a[1..]);
      if b != [] {
        BeforeIsTotal(a[1..], b[1..]);
        if a[0] == b[0] && a[1..] == b[1..] {
          assert a == [a[0]] + a[1..] && b == [b[0]] + b[1..];
        }
      }
    }
  }

  lemma {:induction false} BeforeIsTransitive(a: string, b: string, c: string)
    requires Before(a, b) && Before(b, c)
    ensures Before(a, c)
    decreases |a|
  {
    if a != [] && a[0] == b[0] && b[0] == c[0] {
      BeforeIsTransitive(a[1..], b[1..], c[1..]);
    }
  }

  ghost predicate Sorted(names: seq<string>) {
    forall i, j | 0 <= i < j < |names| :: Before(names[i], names[j])
  }

  function Names(list: seq<string>): set<string> {
    set n | n in list
  }

  /** Inserts a new name at its place. */
  method InsertName(names: seq<string>, n: string) returns (r: seq<string>)
    requires Sorted(names) && n !in names
    ensures Sorted(r) && Names(r) == Names(names) + {n}
  {
    var i := 0;
    while i < |names| && Before(names[i], n)
      invariant 0 <= i <= |names|
      invariant forall k | 0 <= k < i :: Before(names[k], n)
    {
      i := i + 1;
    }
    forall k | i <= k < |names|
      ensures Before(n, names[k])
    {
      BeforeIsTotal(names[i], n);
      assert names[i] in names;
      if k > i {
        BeforeIsTransitive(n, names[i], names[k]);
      }
    }
    r := names[..i] + [n] + names[i..];
    InsertedNames(names, i, n);
  }

  lemma InsertedNames(names: seq<string>, i: nat, n: string)
    requires i <= |names|
    ensures Names(names[..i] + [n] + names[i..]) == Names(names) + {n}
  {
    assert names == names[..i] + names[i..];
  }

  /** `sorted` of a set of names. */
  method SortNames(names: set<string>) returns (r: seq<string>)
    ensures Sorted(r) && Names(r) == names
  {
    r := [];
    var left := names;
    while left != {}
      invariant Sorted(r) && Names(r) + left == names && Names(r) !! left
      decreases |left|
    {
      var n :| n in left;
      assert n !in Names(r);
      r := InsertName(r, n);
      left := left - {n};
    }
  }

  /** What is left of each dependency set once only `rest` is unpublished. */
  function LeftOf(g: Graph, rest: set<string>): Graph
    requires rest <= g.Keys
  {
    map p | p in rest :: g[p] * rest
  }

  /** The layers listed by name. */
  ghost predicate Lists(lists: seq<seq<string>>, layers: seq<set<string>>) {
    && |lists| == |layers|
    && forall k | 0 <= k < |lists| :: Sorted(lists[k]) && Names(lists[k]) == layers[k]
  }

  /** The layers already made, before those still to come. */
  ghost function Resumed(done: seq<set<string>>, later: Result<seq<set<string>>, set<string>>)
      : Result<seq<set<string>>, set<string>> {
    if later.Success? then Success(done + later.value) else later
  }

  /** `done` are the layers made when `rest` is left. */
  ghost predicate Made(g: Graph, rest: set<string>, done: seq<set<string>>) {
    rest <= g.Keys && Layers(g, g.Keys) == Resumed(done, Layers(g, rest))
  }

  lemma MadeOneMore(g: Graph, rest: set<string>, done: seq<set<string>>)
    requires Made(g, rest, done) && rest != {} && Ready(g, rest) != {}
    ensures Made(g, rest - Ready(g, rest), done + [Ready(g, rest)]) && |rest - Ready(g, rest)| < |rest|
  {
    var ready := Ready(g, rest);
    SmallerSet(rest, ready);
    assert Layers(g, rest) == Resumed([ready], Layers(g, rest - ready));
    ResumedTwice(done, ready, Layers(g, rest - ready));
  }

  lemma ListsOneMore(lists: seq<seq<string>>, layers: seq<set<string>>, list: seq<string>)
    requires Lists(lists, layers) && Sorted(list)
    ensures Lists(lists + [list], layers + [Names(list)])
  {
  }

  lemma ResumedNothing(later: Result<seq<set<string>>, set<string>>)
    ensures Resumed([], later) == later
  {
    if later.Success? {
      assert [] + later.value == later.value;
    }
  }

  lemma ResumedTwice(done: seq<set<string>>, layer: set<string>, later: Result<seq<set<string>>, set<string>>)
    ensures Resumed(done, Resumed([layer], later)) == Resumed(done + [layer], later)
  {
    if later.Success? {
      assert done + ([layer] + later.value) == done + [layer] + later.value;
    }
  }

  lemma NothingLeftOut(g: Graph)
    requires Closed(g)
    ensures LeftOf(g, g.Keys) == g
  {
    forall p | p in g
      ensures LeftOf(g, g.Keys)[p] == g[p]
    {
      assert g[p] <= g.Keys;
    }
  }

  lemma LeftOfStep(g: Graph, rest: set<string>, remaining: Graph)
    requires rest <= g.Keys && remaining == LeftOf(g, rest)
    ensures remaining.Keys == rest
    ensures (set n | n in remaining && remaining[n] == {}) == Ready(g, rest)
    ensures Struck(remaining, Ready(g, rest)) == LeftOf(g, rest - Ready(g, rest))
  {
    var ready := Ready(g, rest);
    forall n | n in rest - ready
      ensures Struck(remaining, ready)[n] == g[n] * (rest - ready)
    {
    }
  }

  /** Delete the published packages, as keys and as dependencies. */
  function Struck(remaining: Graph, ready: set<string>): Graph {
    map n | n in remaining && n !in ready :: remaining[n] - ready
  }

  /** `r` lists the layers of the graph by name, or names the packages it is stuck on. */
  ghost predicate Answers(g: Graph, r: Result<seq<seq<string>>, Error>) {
    match Layers(g, g.Keys)
    case Success(layers) => r.Success? && Lists(r.value, layers)
    case Failure(stuck) =>
      r.Failure? && r.error.DependencyCycle? && Sorted(r.error.among) && Names(r.error.among) == stuck
  }

  lemma NothingLeft(g: Graph, rest: set<string>, done: seq<set<string>>, layers: seq<seq<string>>)
    requires Made(g, rest, done) && rest == {} && Lists(layers, done)
    ensures Answers(g, Success(layers))
  {
    assert done + [] == done;
  }

  lemma NothingReady(g: Graph, rest: set<string>, done: seq<set<string>>, names: seq<string>)
    requires Made(g, rest, done) && rest != {} && Ready(g, rest) == {} && Sorted(names) && Names(names) == rest
    ensures Answers(g, Failure(DependencyCycle(names)))
  {
  }

  /** The layering loop of `resolve`. */
  method ResolveLayers(graph: Graph) returns (r: Result<seq<seq<string>>, Error>)
    requires Closed(graph)
    ensures Answers(graph, r)
  {
    var layers: seq<seq<string>> := [];
    var remaining := graph;
    ghost var rest, done: seq<set<string>> := graph.Keys, [];
    NothingLeftOut(graph);
    ResumedNothing(Layers(graph, graph.Keys));
    while remaining != map[]
      invariant Made(graph, rest, done) && remaining == LeftOf(graph, rest)
      invariant Lists(layers, done)
      decreases |rest|
    {
      LeftOfStep(graph, rest, remaining);
      var ready := set n | n in remaining && remaining[n] == {};
      if ready == {} {
        var names := SortNames(remaining.Keys);
        NothingReady(graph, rest, done, names);
        return Failure(DependencyCycle(names));
      }
      var sorted := SortNames(ready);
      MadeOneMore(graph, rest, done);
      ListsOneMore(layers, done, sorted);
      layers := layers + [sorted];
      remaining := Struck(remaining, ready);
      rest, done := rest - ready, done + [ready];
    }
    LeftOfStep(graph, rest, remaining);
    NothingLeft(graph, rest, done, layers);
    r := Success(layers);
  }

  /** The dependencies kept for a package: publishable ones other than itself. */
  function Kept(packages: map<string, set<string>>, p: string): set<string>
    requires p in packages
  {
    set d | d in packages[p] && d in packages && d != p
  }

  /** `resolve` after the manifests are read: each publishable package with the names it
      depends on, and all package names of the workspace. */
  method Resolve(packages: map<string, set<string>>, allPackages: set<string>)
    returns (r: Result<seq<seq<string>>, Error>)
    requires packages.Keys <= allPackages
    ensures packages == map[] ==> r == Failure(NoPackages)
    ensures packages != map[] && (exists p | p in packages :: packages[p] * allPackages - packages.Keys != {}) ==>
              r.Failure? && r.error.ExcludedDependency?
    ensures packages != map[] && (forall p | p in packages :: packages[p] * allPackages <= packages.Keys) ==>
              Answers(map p | p in packages :: Kept(packages, p), r)
  {
    if packages == map[] {
      return Failure(NoPackages);
    }
    var left := packages.Keys;
    while left != {}
      invariant left <= packages.Keys
      invariant forall p | p in packages && p !in left :: packages[p] * allPackages - packages.Keys == {}
      decreases |left|
    {
      var p :| p in left;
      var excluded := packages[p] * allPackages - packages.Keys;
      if excluded != {} {
        return Failure(ExcludedDependency(p));
      }
      left := left - {p};
    }
    var graph := map p | p in packages :: Kept(packages, p);
    r := ResolveLayers(graph);
  }
}
