/** The orbit map of src/bin/day6.rs: every edge `parent)child` says that
    `child` orbits `parent`. Both parts first record each child's parent in
    a map, then walk from a node up the chain of parents until they reach a
    node that orbits nothing. */
module Day6 {
  import opened Wrappers

  /** One line of the map: `child` orbits `parent`. */
  datatype Edge = Edge(parent: string, child: string)

  type Parents = map<string, string>

  /** The parents map after inserting the edges in order; a later edge for
      the same child replaces an earlier one, as `HashMap::insert` does. */
  function ParentsOf(edges: seq<Edge>): Parents
  {
    if |edges| == 0 then map[]
    else
      var last := edges[|edges| - 1];
      ParentsOf(edges[..|edges| - 1])[last.child := last.parent]
  }

  /** The loop both parts start with, proved against ParentsOf. */
  method BuildParents(edges: seq<Edge>) returns (parents: Parents)
    ensures parents == ParentsOf(edges)
  {
    parents := map[];
    for i := 0 to |edges|
      invariant parents == ParentsOf(edges[..i])
    {
      assert edges[..i + 1][..i] == edges[..i];
      parents := parents[edges[i].child := edges[i].parent];
    }
    assert edges[..|edges|] == edges;
  }

  /** Exactly the children of the edges have a parent. */
  lemma {:induction false} ParentsOfKeys(edges: seq<Edge>, c: string)
    ensures c in ParentsOf(edges) <==> exists k :: 0 <= k < |edges| && edges[k].child == c
  {
    if |edges| > 0 {
      var init := edges[..|edges| - 1];
      ParentsOfKeys(init, c);
      if c in ParentsOf(init) {
        var k :| 0 <= k < |init| && init[k].child == c;
        assert edges[k].child == c;
      }
      if exists k :: 0 <= k < |edges| && edges[k].child == c {
        var k :| 0 <= k < |edges| && edges[k].child == c;
        if k < |init| {
          assert init[k].child == c;
        }
      }
    }
  }

  /** A child's parent comes from the last edge that names that child. */
  lemma {:induction false} ParentsOfLatest(edges: seq<Edge>, k: nat)
    requires k < |edges|
    requires forall k' :: k < k' < |edges| ==> edges[k'].child != edges[k].child
    ensures edges[k].child in ParentsOf(edges)
    ensures ParentsOf(edges)[edges[k].child] == edges[k].parent
  {
    if k < |edges| - 1 {
      var init := edges[..|edges| - 1];
      assert edges[|edges| - 1].child != edges[k].child;
      forall k' | k < k' < |init|
        ensures init[k'].child != init[k].child
      {
        assert init[k'] == edges[k'];
      }
      ParentsOfLatest(init, k);
    }
  }

  // --- parent chains

  /** The number of parent steps from x to a node that orbits nothing, if
      that takes at most `fuel` steps. */
  function DepthWithin(p: Parents, x: string, fuel: nat): Option<nat>
    decreases fuel
  {
    if x !in p then Some(0)
    else if fuel == 0 then None
    else
      match DepthWithin(p, p[x], fuel - 1)
      case Some(d) => Some(d + 1)
      case None => None
  }

  /** The walk up from x ends. Every node the walk leaves has a parent, and
      a walk that ends passes each such node once, so |p| steps are enough
      (ChainEndsIfEndsAtAll). */
  predicate ChainEnds(p: Parents, x: string)
  {
    DepthWithin(p, x, |p|).Some?
  }

  /** More fuel does not change a depth that was found. */
  lemma {:induction false} DepthMoreFuel(p: Parents, x: string, f: nat, g: nat)
    requires f <= g
    requires DepthWithin(p, x, f).Some?
    ensures DepthWithin(p, x, g) == DepthWithin(p, x, f)
    decreases f
  {
    if x in p {
      DepthMoreFuel(p, p[x], f - 1, g - 1);
    }
  }

  /** Fuel equal to the depth is already enough. */
  lemma {:induction false} DepthFuelEnough(p: Parents, x: string, f: nat)
    requires DepthWithin(p, x, f).Some?
    ensures DepthWithin(p, x, DepthWithin(p, x, f).value) == DepthWithin(p, x, f)
    decreases f
  {
    if x in p {
      DepthFuelEnough(p, p[x], f - 1);
    }
  }

  /** The nodes a walk of at most `fuel` steps leaves from x. */
  function ChainKeys(p: Parents, x: string, fuel: nat): set<string>
    decreases fuel
  {
    if x !in p || fuel == 0 then {} else {x} + ChainKeys(p, p[x], fuel - 1)
  }

  /** Every node on a walk that ends is no deeper than where it started. */
  lemma {:induction false} ChainKeyDepth(p: Parents, z: string, g: nat, y: string)
    requires DepthWithin(p, z, g).Some?
    requires y in ChainKeys(p, z, g)
    ensures DepthWithin(p, y, g).Some?
    ensures DepthWithin(p, y, g).value <= DepthWithin(p, z, g).value
    decreases g
  {
    if y != z {
      ChainKeyDepth(p, p[z], g - 1, y);
      DepthMoreFuel(p, y, g - 1, g);
    }
  }

  /** A walk that ends leaves as many distinct nodes as it takes steps. */
  lemma {:induction false} ChainKeysCount(p: Parents, x: string, f: nat)
    requires DepthWithin(p, x, f).Some?
    ensures ChainKeys(p, x, f) <= p.Keys
    ensures |ChainKeys(p, x, f)| == DepthWithin(p, x, f).value
    decreases f
  {
    if x in p {
      ChainKeysCount(p, p[x], f - 1);
      if x in ChainKeys(p, p[x], f - 1) {
        ChainKeyDepth(p, p[x], f - 1, x);
        DepthMoreFuel(p, x, f - 1, f);
        assert false;
      }
    }
  }

  /** A walk that ends with any amount of fuel ends within |p| steps. */
  lemma ChainEndsIfEndsAtAll(p: Parents, x: string, f: nat)
    requires DepthWithin(p, x, f).Some?
    ensures ChainEnds(p, x)
    ensures DepthWithin(p, x, |p|) == DepthWithin(p, x, f)
  {
    ChainKeysCount(p, x, f);
    var d := DepthWithin(p, x, f).value;
    assert d <= |p.Keys| by {
      SubsetCard(ChainKeys(p, x, f), p.Keys);
    }
    DepthFuelEnough(p, x, f);
    DepthMoreFuel(p, x, d, |p|);
  }

  lemma SubsetCard(a: set<string>, b: set<string>)
    requires a <= b
    ensures |a| <= |b|
  {
    assert b == a + (b - a);
  }

  function Depth(p: Parents, x: string): nat
    requires ChainEnds(p, x)
  {
    DepthWithin(p, x, |p|).value
  }

  /** One step up the chain is one level less deep. */
  lemma ChainEndsStep(p: Parents, x: string)
    requires x in p && ChainEnds(p, x)
    ensures ChainEnds(p, p[x])
    ensures Depth(p, p[x]) + 1 == Depth(p, x)
  {
    DepthMoreFuel(p, p[x], |p| - 1, |p|);
  }

  /** The strict ancestors of x, nearest first: the nodes the source's
      `while parents.contains_key(..)` loops visit after x. */
  function Ancestors(p: Parents, x: string): (a: seq<string>)
    requires ChainEnds(p, x)
    ensures |a| == Depth(p, x)
    ensures |a| > 0 <==> x in p
    decreases Depth(p, x)
  {
    if x !in p then []
    else
      ChainEndsStep(p, x);
      [p[x]] + Ancestors(p, p[x])
  }

  /** Ancestors is the chain of parents: it starts at x's parent, each next
      entry is the parent of the one before, and the last orbits nothing. */
  lemma {:induction false} AncestorsAreParentChain(p: Parents, x: string)
    requires ChainEnds(p, x)
    ensures |Ancestors(p, x)| > 0 ==> Ancestors(p, x)[0] == p[x]
    ensures |Ancestors(p, x)| > 0 ==> Ancestors(p, x)[|Ancestors(p, x)| - 1] !in p
    ensures forall k :: 0 <= k < |Ancestors(p, x)| - 1 ==>
      Ancestors(p, x)[k] in p && Ancestors(p, x)[k + 1] == p[Ancestors(p, x)[k]]
    decreases Depth(p, x)
  {
    if x in p {
      ChainEndsStep(p, x);
      AncestorsAreParentChain(p, p[x]);
    }
  }

  /** Every ancestor's own chain ends, k + 1 levels higher up. */
  lemma {:induction false} AncestorDepths(p: Parents, x: string)
    requires ChainEnds(p, x)
    ensures forall k :: 0 <= k < |Ancestors(p, x)| ==>
      ChainEnds(p, Ancestors(p, x)[k]) && Depth(p, Ancestors(p, x)[k]) == |Ancestors(p, x)| - k - 1
    decreases Depth(p, x)
  {
    if x in p {
      ChainEndsStep(p, x);
      AncestorDepths(p, p[x]);
      var a, rest := Ancestors(p, x), Ancestors(p, p[x]);
      assert a == [p[x]] + rest;
      forall k | 0 <= k < |a|
        ensures ChainEnds(p, a[k]) && Depth(p, a[k]) == |a| - k - 1
      {
        if k > 0 {
          assert a[k] == rest[k - 1];
          assert ChainEnds(p, rest[k - 1]) && Depth(p, rest[k - 1]) == |rest| - (k - 1) - 1;
        }
      }
    }
  }

  /** An ancestor chain never repeats a node. */
  lemma AncestorsDistinct(p: Parents, x: string)
    requires ChainEnds(p, x)
    ensures forall i, j :: 0 <= i < j < |Ancestors(p, x)| ==> Ancestors(p, x)[i] != Ancestors(p, x)[j]
  {
    AncestorDepths(p, x);
  }

  /** The chain above an ancestor is the rest of the chain. */
  lemma {:induction false} AncestorsSuffix(p: Parents, x: string, k: nat)
    requires ChainEnds(p, x)
    requires k < |Ancestors(p, x)|
    ensures ChainEnds(p, Ancestors(p, x)[k])
    ensures Ancestors(p, Ancestors(p, x)[k]) == Ancestors(p, x)[k + 1..]
    decreases k
  {
    ChainEndsStep(p, x);
    if k > 0 {
      AncestorsSuffix(p, p[x], k - 1);
    }
  }

  // --- part 1

  predicate ChildChainsEnd(p: Parents, edges: seq<Edge>)
  {
    forall k :: 0 <= k < |edges| ==> ChainEnds(p, edges[k].child)
  }

  /** The total number of orbits: for each listed child, its number of
      strict ancestors. */
  function Orbits(p: Parents, edges: seq<Edge>): nat
    requires ChildChainsEnd(p, edges)
  {
    if |edges| == 0 then 0
    else Orbits(p, edges[..|edges| - 1]) + |Ancestors(p, edges[|edges| - 1].child)|
  }

  /** Every child has at least itself orbiting its parent, so there are at
      least as many orbits as edges. */
  lemma {:induction false} OrbitsAtLeastEdges(p: Parents, edges: seq<Edge>)
    requires ChildChainsEnd(p, edges)
    requires forall k :: 0 <= k < |edges| ==> edges[k].child in p
    ensures Orbits(p, edges) >= |edges|
  {
    if |edges| > 0 {
      OrbitsAtLeastEdges(p, edges[..|edges| - 1]);
    }
  }

  /** `part1`: a walk to the root from each listed child, counting steps.
      The source's walk does not end on a cyclic map, hence the requires. */
  method Part1(edges: seq<Edge>) returns (count: nat)
    requires ChildChainsEnd(ParentsOf(edges), edges)
    ensures count == Orbits(ParentsOf(edges), edges)
  {
    var parents := BuildParents(edges);
    count := 0;
    for i := 0 to |edges|
      invariant count == Orbits(parents, edges[..i])
    {
      var node := edges[i].child;
      ghost var chain := Ancestors(parents, node);
      ghost var steps := 0;
      while node in parents
        invariant steps <= |chain|
        invariant ChainEnds(parents, node) && Ancestors(parents, node) == chain[steps..]
        invariant count == Orbits(parents, edges[..i]) + steps
        decreases |chain| - steps
      {
        ChainEndsStep(parents, node);
        count := count + 1;
        node := parents[node];
        steps := steps + 1;
      }
      assert edges[..i + 1][..i] == edges[..i];
    }
    assert edges[..|edges|] == edges;
  }

  // --- part 2

  datatype Fault = NoYou | NoSan | NoRoute

  /** The first index at or after `from` that holds x. */
  function IndexFrom(s: seq<string>, x: string, from: nat): (i: nat)
    requires from <= |s| && x in s[from..]
    ensures from <= i < |s| && s[i] == x
    decreases |s| - from
  {
    if s[from] == x then from else IndexFrom(s, x, from + 1)
  }

  /** The first index of x in s (the only one, in the chains it is used on). */
  function IndexOf(s: seq<string>, x: string): (i: nat)
    requires x in s
    ensures i < |s| && s[i] == x
  {
    assert s[0..] == s;
    IndexFrom(s, x, 0)
  }

  /** The first index of san whose entry also occurs in you, or |san|. */
  function FirstShared(san: seq<string>, you: seq<string>): (j: nat)
    ensures j <= |san|
    ensures j < |san| ==> san[j] in you
    ensures forall j' :: 0 <= j' < j ==> san[j'] !in you
  {
    if |san| == 0 then 0
    else if san[0] in you then 0
    else 1 + FirstShared(san[1..], you)
  }

  /** The transfer count the source computes from the strict ancestors of
      YOU's parent and of SAN's parent: at the first ancestor C of SAN's
      parent that is also an ancestor of YOU's parent, the steps from each
      parent up to C, added. */
  function Transfers(you: seq<string>, san: seq<string>): (r: Result<nat, Fault>)
    ensures r.Ok? || r == Err(NoRoute)
    ensures r.Err? <==> forall j :: 0 <= j < |san| ==> san[j] !in you
  {
    var j := FirstShared(san, you);
    if j == |san| then Err(NoRoute) else Ok((j + 1) + (IndexOf(you, san[j]) + 1))
  }

  /** Meeting at C = san[j] = you[i] costs i + 1 steps up from YOU's parent
      and j + 1 steps up from SAN's parent, when C is the first of SAN's
      ancestors that YOU's chain reaches and YOU's chain has no repeats. */
  lemma TransfersMeetAt(you: seq<string>, san: seq<string>, i: nat, j: nat)
    requires i < |you| && j < |san| && san[j] == you[i]
    requires forall j' :: 0 <= j' < j ==> san[j'] !in you
    requires forall i1, i2 :: 0 <= i1 < i2 < |you| ==> you[i1] != you[i2]
    ensures Transfers(you, san) == Ok(i + j + 2)
  {
    assert FirstShared(san, you) == j;
  }

  /** The two walks of `part2` must end; a walk that meets YOU's chain
      follows it from then on, so only these two chains matter. */
  predicate Part2ChainsEnd(p: Parents)
  {
    && ("YOU" in p ==> ChainEnds(p, p["YOU"]))
    && ("YOU" in p && "SAN" in p ==> ChainEnds(p, p["SAN"]))
  }

  /** What `part2` returns, with its panics as errors. */
  function Part2Spec(edges: seq<Edge>): (r: Result<nat, Fault>)
    requires Part2ChainsEnd(ParentsOf(edges))
    ensures r == Err(NoYou) <==> "YOU" !in ParentsOf(edges)
    ensures r == Err(NoSan) <==> "YOU" in ParentsOf(edges) && "SAN" !in ParentsOf(edges)
  {
    var p := ParentsOf(edges);
    if "YOU" !in p then Err(NoYou)
    else if "SAN" !in p then Err(NoSan)
    else Transfers(Ancestors(p, p["YOU"]), Ancestors(p, p["SAN"]))
  }

  /** `visited` holds, for each of the first `count` entries of you, its
      place in you counted from 1. */
  ghost predicate RecordedUpTo(visited: map<string, nat>, you: seq<string>, count: nat)
    requires count <= |you|
  {
    && (forall x :: x in visited ==> 1 <= visited[x] <= count && you[visited[x] - 1] == x)
    && (forall k :: 0 <= k < count ==> you[k] in visited && visited[you[k]] == k + 1)
  }

  lemma RecordStep(visited: map<string, nat>, you: seq<string>, count: nat)
    requires count < |you| && RecordedUpTo(visited, you, count)
    requires forall i, j :: 0 <= i < j < |you| ==> you[i] != you[j]
    ensures RecordedUpTo(visited[you[count] := count + 1], you, count + 1)
  {
  }

  lemma RecordedAll(visited: map<string, nat>, you: seq<string>)
    requires RecordedUpTo(visited, you, |you|)
    requires forall i, j :: 0 <= i < j < |you| ==> you[i] != you[j]
    ensures forall x :: x in visited <==> x in you
    ensures forall x :: x in visited ==> visited[x] == IndexOf(you, x) + 1
  {
    forall x
      ensures x in visited <==> x in you
      ensures x in visited ==> visited[x] == IndexOf(you, x) + 1
    {
      if x in you {
        var i := IndexOf(you, x);
        assert you[i] in visited;
      }
    }
  }

  /** The first loop of `part2`: walking up from `start`, remember how
      many steps it took to reach each ancestor. */
  method RecordDistances(parents: Parents, start: string) returns (visited: map<string, nat>)
    requires ChainEnds(parents, start)
    ensures forall x :: x in visited <==> x in Ancestors(parents, start)
    ensures forall x :: x in visited ==> visited[x] == IndexOf(Ancestors(parents, start), x) + 1
  {
    var node := start;
    ghost var you := Ancestors(parents, node);
    AncestorsDistinct(parents, node);
    visited := map[];
    var count := 0;
    while node in parents
      invariant count <= |you|
      invariant ChainEnds(parents, node) && Ancestors(parents, node) == you[count..]
      invariant RecordedUpTo(visited, you, count)
      decreases |you| - count
    {
      ChainEndsStep(parents, node);
      assert you[count] == parents[node] && Ancestors(parents, parents[node]) == you[count + 1..];
      RecordStep(visited, you, count);
      count := count + 1;
      node := parents[node];
      visited := visited[node := count];
    }
    RecordedAll(visited, you);
  }

  /** The second loop of `part2`: walk up from `start` until a node
      recorded by RecordDistances turns up. */
  method MeetRecorded(parents: Parents, start: string, visited: map<string, nat>, ghost you: seq<string>)
    returns (r: Result<nat, Fault>)
    requires ChainEnds(parents, start)
    requires forall i1, i2 :: 0 <= i1 < i2 < |you| ==> you[i1] != you[i2]
    requires forall x :: x in visited <==> x in you
    requires forall x :: x in visited ==> visited[x] == IndexOf(you, x) + 1
    ensures r == Transfers(you, Ancestors(parents, start))
  {
    var node := start;
    ghost var san := Ancestors(parents, node);
    var count := 0;
    while node in parents
      invariant count <= |san|
      invariant ChainEnds(parents, node) && Ancestors(parents, node) == san[count..]
      invariant forall j :: 0 <= j < count ==> san[j] !in you
      decreases |san| - count
    {
      ChainEndsStep(parents, node);
      assert san[count] == parents[node] && Ancestors(parents, parents[node]) == san[count + 1..];
      count := count + 1;
      node := parents[node];
      if node in visited {
        TransfersMeetAt(you, san, IndexOf(you, node), count - 1);
        return Ok(count + visited[node]);
      }
    }
    assert count == |san|;
    return Err(NoRoute);
  }

  /** `part2`: record the distance from YOU's parent to each of its
      ancestors, then walk up from SAN's parent to the first recorded one. */
  method Part2(edges: seq<Edge>) returns (r: Result<nat, Fault>)
    requires Part2ChainsEnd(ParentsOf(edges))
    ensures r == Part2Spec(edges)
  {
    var parents := BuildParents(edges);
    if "YOU" !in parents {
      return Err(NoYou);
    }
    var visited := RecordDistances(parents, parents["YOU"]);
    if "SAN" !in parents {
      return Err(NoSan);
    }
    ghost var you := Ancestors(parents, parents["YOU"]);
    AncestorsDistinct(parents, parents["YOU"]);
    assert forall i1, i2 :: 0 <= i1 < i2 < |you| ==> you[i1] != you[i2];
    r := MeetRecorded(parents, parents["SAN"], visited, you);
  }

  /** A node whose parent's chain ends has a chain one step longer. */
  lemma ChainEndsUp(p: Parents, x: string)
    requires x in p && ChainEnds(p, p[x])
    ensures ChainEnds(p, x)
    ensures Depth(p, x) == Depth(p, p[x]) + 1
  {
    assert DepthWithin(p, x, |p| + 1) == Some(Depth(p, p[x]) + 1);
    ChainEndsIfEndsAtAll(p, x, |p| + 1);
  }

  // --- the tests' map

  function Sample(): seq<Edge>
  {
    [Edge("COM", "B"), Edge("B", "C"), Edge("C", "D"), Edge("D", "E"), Edge("E", "F"), Edge("B", "G"),
     Edge("G", "H"), Edge("D", "I"), Edge("E", "J"), Edge("J", "K"), Edge("K", "L")]
  }

  /** The parent links of the sample map, and its root COM. */
  predicate SampleLinks(p: Parents)
  {
    && "COM" !in p
    && "B" in p && p["B"] == "COM" && "C" in p && p["C"] == "B" && "D" in p && p["D"] == "C"
    && "E" in p && p["E"] == "D" && "F" in p && p["F"] == "E" && "G" in p && p["G"] == "B"
    && "H" in p && p["H"] == "G" && "I" in p && p["I"] == "D" && "J" in p && p["J"] == "E"
    && "K" in p && p["K"] == "J" && "L" in p && p["L"] == "K"
  }

  /** Inserting one more edge into the parents map. */
  lemma ParentsOfPrefix(edges: seq<Edge>, k: nat)
    requires k < |edges|
    ensures ParentsOf(edges[..k + 1]) == ParentsOf(edges[..k])[edges[k].child := edges[k].parent]
  {
    assert edges[..k + 1][..k] == edges[..k];
  }

  function SampleMap(): Parents
  {
    map["B" := "COM", "C" := "B", "D" := "C", "E" := "D", "F" := "E", "G" := "B",
        "H" := "G", "I" := "D", "J" := "E", "K" := "J", "L" := "K"]
  }

  lemma SampleParents()
    ensures ParentsOf(Sample()) == SampleMap()
  {
    var e := Sample();
    assert ParentsOf(e[..0]) == map[];
    ParentsOfPrefix(e, 0);
    ParentsOfPrefix(e, 1);
    ParentsOfPrefix(e, 2);
    ParentsOfPrefix(e, 3);
    ParentsOfPrefix(e, 4);
    ParentsOfPrefix(e, 5);
    ParentsOfPrefix(e, 6);
    ParentsOfPrefix(e, 7);
    ParentsOfPrefix(e, 8);
    ParentsOfPrefix(e, 9);
    ParentsOfPrefix(e, 10);
    assert e[..11] == e;
  }

  lemma SampleMapLinks()
    ensures SampleLinks(SampleMap())
  {
  }

  /** The depth of every node of the sample map. */
  lemma SampleDepths(p: Parents)
    requires SampleLinks(p)
    ensures "COM" !in p && ChainEnds(p, "COM") && Depth(p, "COM") == 0
    ensures ChainEnds(p, "B") && Depth(p, "B") == 1
    ensures ChainEnds(p, "C") && Depth(p, "C") == 2
    ensures ChainEnds(p, "D") && Depth(p, "D") == 3
    ensures ChainEnds(p, "E") && Depth(p, "E") == 4
    ensures ChainEnds(p, "F") && Depth(p, "F") == 5
    ensures ChainEnds(p, "G") && Depth(p, "G") == 2
    ensures ChainEnds(p, "H") && Depth(p, "H") == 3
    ensures ChainEnds(p, "I") && Depth(p, "I") == 4
    ensures ChainEnds(p, "J") && Depth(p, "J") == 5
    ensures ChainEnds(p, "K") && Depth(p, "K") == 6
    ensures ChainEnds(p, "L") && Depth(p, "L") == 7
  {
    ChainEndsUp(p, "B");
    ChainEndsUp(p, "C");
    ChainEndsUp(p, "D");
    ChainEndsUp(p, "E");
    ChainEndsUp(p, "F");
    ChainEndsUp(p, "G");
    ChainEndsUp(p, "H");
    ChainEndsUp(p, "I");
    ChainEndsUp(p, "J");
    ChainEndsUp(p, "K");
    ChainEndsUp(p, "L");
  }

  /** One more child's orbits added to the running total. */
  lemma OrbitsStep(p: Parents, edges: seq<Edge>, n: nat, child: string, depth: nat, before: nat, after: nat)
    requires n < |edges| && edges[n].child == child
    requires ChildChainsEnd(p, edges)
    requires ChainEnds(p, child) && Depth(p, child) == depth
    requires Orbits(p, edges[..n]) == before && after == before + depth
    ensures Orbits(p, edges[..n + 1]) == after
  {
    assert edges[..n + 1][..n] == edges[..n];
  }

  /** Every child of the sample has an ancestor chain that ends. */
  lemma SampleChainsEnd(p: Parents, edges: seq<Edge>)
    requires SampleLinks(p) && edges == Sample()
    ensures ChildChainsEnd(p, edges)
  {
    SampleDepths(p);
    forall k | 0 <= k < |edges|
      ensures ChainEnds(p, edges[k].child)
    {
      assert edges[k].child in ["B", "C", "D", "E", "F", "G", "H", "I", "J", "K", "L"];
    }
  }

  lemma SampleOrbitsFirst(p: Parents, edges: seq<Edge>)
    requires SampleLinks(p) && edges == Sample() && ChildChainsEnd(p, edges)
    ensures Orbits(p, edges[..6]) == 17
  {
    SampleDepths(p);
    assert Orbits(p, edges[..0]) == 0;
    OrbitsStep(p, edges, 0, "B", 1, 0, 1);
    OrbitsStep(p, edges, 1, "C", 2, 1, 3);
    OrbitsStep(p, edges, 2, "D", 3, 3, 6);
    OrbitsStep(p, edges, 3, "E", 4, 6, 10);
    OrbitsStep(p, edges, 4, "F", 5, 10, 15);
    OrbitsStep(p, edges, 5, "G", 2, 15, 17);
  }

  lemma SampleOrbits(p: Parents, edges: seq<Edge>)
    requires SampleLinks(p) && edges == Sample() && ChildChainsEnd(p, edges)
    ensures Orbits(p, edges) == 42
  {
    SampleOrbitsFirst(p, edges);
    SampleDepths(p);
    OrbitsStep(p, edges, 6, "H", 3, 17, 20);
    OrbitsStep(p, edges, 7, "I", 4, 20, 24);
    OrbitsStep(p, edges, 8, "J", 5, 24, 29);
    OrbitsStep(p, edges, 9, "K", 6, 29, 35);
    OrbitsStep(p, edges, 10, "L", 7, 35, 42);
    assert edges[..11] == edges;
  }

  /** `test_part1`: the sample map has 42 orbits. */
  lemma Part1Example()
    ensures ChildChainsEnd(ParentsOf(Sample()), Sample())
    ensures Orbits(ParentsOf(Sample()), Sample()) == 42
  {
    SampleParents();
    SampleMapLinks();
    SampleChainsEnd(ParentsOf(Sample()), Sample());
    SampleOrbits(ParentsOf(Sample()), Sample());
  }

  /** `test_part2`: the sample map with YOU orbiting K and SAN orbiting I. */
  function Sample2(): seq<Edge>
  {
    [Edge("COM", "B"), Edge("B", "C"), Edge("C", "D"), Edge("D", "E"), Edge("E", "F"), Edge("B", "G"),
     Edge("G", "H"), Edge("D", "I"), Edge("E", "J"), Edge("J", "K"), Edge("K", "L"),
     Edge("K", "YOU"), Edge("I", "SAN")]
  }

  lemma Sample2Parents()
    ensures ParentsOf(Sample2()) == SampleMap()["YOU" := "K"]["SAN" := "I"]
  {
    var e := Sample2();
    assert e[..11] == Sample();
    SampleParents();
    ParentsOfPrefix(e, 11);
    ParentsOfPrefix(e, 12);
    assert e[..13] == e;
  }

  lemma Sample2Links(p: Parents)
    requires p == SampleMap()["YOU" := "K"]["SAN" := "I"]
    ensures SampleLinks(p)
    ensures "YOU" in p && p["YOU"] == "K" && "SAN" in p && p["SAN"] == "I"
  {
    SampleMapLinks();
  }

  /** The two chains `part2` walks in the sample. */
  lemma SampleChains(p: Parents)
    requires SampleLinks(p)
    ensures ChainEnds(p, "K") && Ancestors(p, "K") == ["J", "E", "D", "C", "B", "COM"]
    ensures ChainEnds(p, "I") && Ancestors(p, "I") == ["D", "C", "B", "COM"]
  {
    SampleDepths(p);
    assert Ancestors(p, "COM") == [];
    assert Ancestors(p, "B") == ["COM"];
    assert Ancestors(p, "C") == ["B", "COM"];
    assert Ancestors(p, "D") == ["C", "B", "COM"];
    assert Ancestors(p, "E") == ["D", "C", "B", "COM"];
    assert Ancestors(p, "J") == ["E", "D", "C", "B", "COM"];
  }

  lemma SampleTransfers(you: seq<string>, san: seq<string>)
    requires you == ["J", "E", "D", "C", "B", "COM"] && san == ["D", "C", "B", "COM"]
    ensures Transfers(you, san) == Ok(4)
  {
    TransfersMeetAt(you, san, 2, 0);
  }

  /** `test_part2`: four transfers, meeting at D. */
  lemma Part2Example()
    ensures Part2ChainsEnd(ParentsOf(Sample2()))
    ensures Part2Spec(Sample2()) == Ok(4)
  {
    var p := ParentsOf(Sample2());
    Sample2Parents();
    Sample2Links(p);
    SampleChains(p);
    assert Part2Spec(Sample2()) == Transfers(Ancestors(p, "K"), Ancestors(p, "I"));
    SampleTransfers(Ancestors(p, "K"), Ancestors(p, "I"));
  }

  // --- when one parent is an ancestor of the other

  /** YOU and SAN both orbiting A, which orbits COM. */
  function SameParent(): seq<Edge>
  {
    [Edge("COM", "A"), Edge("A", "YOU"), Edge("A", "SAN")]
  }

  lemma SameParentMap()
    ensures ParentsOf(SameParent()) == map["A" := "COM", "YOU" := "A", "SAN" := "A"]
  {
    var e := SameParent();
    assert ParentsOf(e[..0]) == map[];
    ParentsOfPrefix(e, 0);
    ParentsOfPrefix(e, 1);
    ParentsOfPrefix(e, 2);
    assert e[..3] == e;
  }

  /** As written, `part2` counts the steps up to the first STRICT common
      ancestor: when YOU and SAN orbit the same object, it reports two
      transfers where none are needed. */
  lemma SameParentAsWritten()
    ensures Part2ChainsEnd(ParentsOf(SameParent()))
    ensures Part2Spec(SameParent()) == Ok(2)
  {
    var p := ParentsOf(SameParent());
    SameParentMap();
    assert "COM" !in p;
    ChainEndsUp(p, "A");
    assert Ancestors(p, "A") == ["COM"];
    TransfersMeetAt(["COM"], ["COM"], 0, 0);
  }

  /** The number of transfers between you[0] and san[0], the objects YOU and
      SAN orbit, given each object followed by its ancestors: the steps
      from each up to the first object on both chains. */
  function Hops(you: seq<string>, san: seq<string>): (r: Result<nat, Fault>)
    ensures r.Ok? || r == Err(NoRoute)
    ensures r.Err? <==> forall j :: 0 <= j < |san| ==> san[j] !in you
  {
    var j := FirstShared(san, you);
    if j == |san| then Err(NoRoute) else Ok(j + IndexOf(you, san[j]))
  }

  /** The intended `part2`, where the object either of them orbits may itself be
      the meeting point. */
  function IntendedTransfers(edges: seq<Edge>): (r: Result<nat, Fault>)
    requires Part2ChainsEnd(ParentsOf(edges))
    ensures r == Err(NoYou) <==> "YOU" !in ParentsOf(edges)
    ensures r == Err(NoSan) <==> "YOU" in ParentsOf(edges) && "SAN" !in ParentsOf(edges)
  {
    var p := ParentsOf(edges);
    if "YOU" !in p then Err(NoYou)
    else if "SAN" !in p then Err(NoSan)
    else Hops([p["YOU"]] + Ancestors(p, p["YOU"]), [p["SAN"]] + Ancestors(p, p["SAN"]))
  }

  /** Orbiting the same object takes no transfers. */
  lemma IntendedSameParent(edges: seq<Edge>)
    requires Part2ChainsEnd(ParentsOf(edges))
    requires "YOU" in ParentsOf(edges) && "SAN" in ParentsOf(edges)
    requires ParentsOf(edges)["YOU"] == ParentsOf(edges)["SAN"]
    ensures IntendedTransfers(edges) == Ok(0)
  {
  }

  /** In the sample where the source is wrong, the intended count is 0. */
  lemma SameParentIntended()
    ensures Part2ChainsEnd(ParentsOf(SameParent()))
    ensures IntendedTransfers(SameParent()) == Ok(0)
  {
    SameParentAsWritten();
    SameParentMap();
    IntendedSameParent(SameParent());
  }

  /** FirstShared only looks at whether san's entries occur in the other chain. */
  lemma {:induction false} FirstSharedSameMembers(san: seq<string>, a: seq<string>, b: seq<string>)
    requires forall j :: 0 <= j < |san| ==> (san[j] in a <==> san[j] in b)
    ensures FirstShared(san, a) == FirstShared(san, b)
  {
    if |san| > 0 {
      FirstSharedSameMembers(san[1..], a, b);
    }
  }

  /** When neither object is on the other's chain, counting from the objects
      themselves meets at the same place as counting from their parents. */
  lemma HopsAgree(y: string, you: seq<string>, s: string, san: seq<string>)
    requires s != y && s !in you && y !in san
    ensures Hops([y] + you, [s] + san) == Transfers(you, san)
  {
    SharedAgree(y, you, s, san);
    var j := FirstShared(san, you);
    if j < |san| {
      IndexOfSkip(y, you, san[j]);
      HopsAt([y] + you, [s] + san, 1 + j, san[j]);
    }
  }

  lemma HopsAt(you: seq<string>, san: seq<string>, j: nat, c: string)
    requires FirstShared(san, you) == j < |san| && san[j] == c
    ensures Hops(you, san) == Ok(j + IndexOf(you, c))
  {
  }

  /** Prepending an object to each chain that is on neither chain moves the
      first shared entry one place along. */
  lemma SharedAgree(y: string, you: seq<string>, s: string, san: seq<string>)
    requires s != y && s !in you && y !in san
    ensures FirstShared([s] + san, [y] + you) == 1 + FirstShared(san, you)
  {
    forall j | 0 <= j < |san|
      ensures san[j] in [y] + you <==> san[j] in you
    {
      InSkip(y, you, san[j]);
    }
    FirstSharedSameMembers(san, [y] + you, you);
    InSkip(y, you, s);
    FirstSharedSkip(s, san, [y] + you);
  }

  lemma InSkip(y: string, you: seq<string>, c: string)
    requires c != y
    ensures c in [y] + you <==> c in you
  {
    assert ([y] + you)[1..] == you;
  }

  lemma FirstSharedSkip(s: string, san: seq<string>, you: seq<string>)
    requires s !in you
    ensures FirstShared([s] + san, you) == 1 + FirstShared(san, you)
  {
    assert ([s] + san)[1..] == san;
  }

  lemma IndexOfSkip(y: string, you: seq<string>, c: string)
    requires c != y && c in you
    ensures IndexOf([y] + you, c) == 1 + IndexOf(you, c)
  {
    assert you[0..] == you;
    IndexFromShift(y, you, c, 0);
    assert ([y] + you)[0] == y;
  }

  lemma {:induction false} IndexFromShift(y: string, you: seq<string>, c: string, k: nat)
    requires k <= |you| && c in you[k..]
    ensures ([y] + you)[k + 1..] == you[k..]
    ensures IndexFrom([y] + you, c, k + 1) == 1 + IndexFrom(you, c, k)
    decreases |you| - k
  {
    assert ([y] + you)[k + 1..] == you[k..];
    if you[k] != c {
      assert you[k..] == [you[k]] + you[k + 1..];
      IndexFromShift(y, you, c, k + 1);
    }
  }

  /** The source's count is the intended one unless the object YOU orbits
      is SAN's object or one of its ancestors, or the other way round. */
  lemma IntendedAgreesAwayFromAncestors(edges: seq<Edge>)
    requires Part2ChainsEnd(ParentsOf(edges))
    requires var p := ParentsOf(edges);
      "YOU" in p && "SAN" in p ==>
        && p["SAN"] !in [p["YOU"]] + Ancestors(p, p["YOU"])
        && p["YOU"] !in Ancestors(p, p["SAN"])
    ensures IntendedTransfers(edges) == Part2Spec(edges)
  {
    var p := ParentsOf(edges);
    if "YOU" in p && "SAN" in p {
      InSkip(p["YOU"], Ancestors(p, p["YOU"]), p["SAN"]);
      HopsAgree(p["YOU"], Ancestors(p, p["YOU"]), p["SAN"], Ancestors(p, p["SAN"]));
    }
  }
}
