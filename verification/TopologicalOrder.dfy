/** The evaluation order of the configured graph: Kahn's algorithm over hash maps with a ready list
    that is re-sorted after every pop. */
module TopologicalOrder {
  import opened RmpConfig

  datatype OrderError = DuplicateName | MissingParent | CycleDetected

  // ----- specification

  /** Enabled node name to its listed parents. */
  type Graph = map<string, seq<string>>

  ghost predicate NoDuplicates(nodes: seq<RmpNode>) {
    forall i, j | 0 <= i < j < |nodes| && nodes[i].enabled && nodes[j].enabled :: nodes[i].name != nodes[j].name
  }

  ghost function GraphOf(nodes: seq<RmpNode>): Graph
    requires NoDuplicates(nodes)
  {
    map i | 0 <= i < |nodes| && nodes[i].enabled :: nodes[i].name := nodes[i].parents
  }

  /** Every parent entry is the root or an enabled node. */
  ghost predicate Resolves(g: Graph, parents: seq<string>) {
    forall p | p in parents :: p == "root" || p in g
  }

  ghost predicate ParentsPresent(g: Graph) {
    forall name | name in g :: Resolves(g, g[name])
  }

  function Elements(names: seq<string>): set<string> { set x | x in names }

  ghost predicate Ready(g: Graph, done: set<string>, name: string) {
    && name in g
    && name !in done
    && forall p | p in g[name] :: p == "root" || p in done
  }

  /** Every listed name was ready when it was taken, and no ready name comes before it. */
  ghost predicate GreedyPrefix(g: Graph, names: seq<string>) {
    forall k | 0 <= k < |names| ::
      && Ready(g, Elements(names[..k]), names[k])
      && forall other | Ready(g, Elements(names[..k]), other) :: !Before(other, names[k])
  }

  ghost predicate LeastReadyOrder(g: Graph, names: seq<string>) {
    GreedyPrefix(g, names) && Elements(names) == g.Keys
  }

  predicate HasParentIn(parents: seq<string>, s: set<string>) {
    exists p | p in parents :: p != "root" && p in s
  }

  /** A non-empty set of enabled nodes in which every node has a parent. */
  ghost predicate CycleAmong(g: Graph, s: set<string>) {
    && s != {} && s <= g.Keys
    && forall name | name in s :: HasParentIn(g[name], s)
  }

  // ----- properties of the specification

  /** The order lists every enabled node once. */
  lemma OrderIsPermutation(g: Graph, names: seq<string>)
    requires LeastReadyOrder(g, names)
    ensures |names| == |g|
    ensures forall name :: multiset(names)[name] == if name in g then 1 else 0
  {
    GreedyDistinct(g, names);
    DistinctCounts(names);
    assert forall name :: name in names <==> name in Elements(names);
  }

  lemma GreedyDistinct(g: Graph, names: seq<string>)
    requires GreedyPrefix(g, names)
    ensures forall i, j | 0 <= i < j < |names| :: names[i] != names[j]
  {
    forall i, j | 0 <= i < j < |names|
      ensures names[i] != names[j]
    {
      assert names[i] == names[..j][i];
      assert names[i] in Elements(names[..j]);
    }
  }

  lemma {:induction false} DistinctCounts(names: seq<string>)
    requires forall i, j | 0 <= i < j < |names| :: names[i] != names[j]
    ensures |Elements(names)| == |names|
    ensures forall x :: multiset(names)[x] == if x in names then 1 else 0
  {
    if names != [] {
      var n := |names| - 1;
      var front := names[..n];
      DistinctCounts(front);
      assert names == front + [names[n]];
      assert names[n] !in front;
      assert Elements(names) == Elements(front) + {names[n]};
    }
  }

  /** Every parent other than the root is evaluated before its child. */
  lemma ParentsFirst(g: Graph, names: seq<string>, k: nat, p: string)
    requires GreedyPrefix(g, names) && k < |names|
    requires p in g[names[k]] && p != "root"
    ensures p in names[..k]
  {
    assert Ready(g, Elements(names[..k]), names[k]);
  }

  /** The order is determined by the graph alone, so it depends neither on the iteration order of the
      hash maps nor on the order of the configuration list. */
  lemma {:induction false} OrderUnique(g: Graph, a: seq<string>, b: seq<string>)
    requires LeastReadyOrder(g, a) && LeastReadyOrder(g, b)
    ensures a == b
  {
    OrderIsPermutation(g, a);
    OrderIsPermutation(g, b);
    PrefixUnique(g, a, b, |a|);
    assert a == a[..|a|] == b[..|a|] == b;
  }

  lemma {:induction false} PrefixUnique(g: Graph, a: seq<string>, b: seq<string>, k: nat)
    requires GreedyPrefix(g, a) && GreedyPrefix(g, b) && k <= |a| && k <= |b|
    ensures a[..k] == b[..k]
  {
    if k > 0 {
      PrefixUnique(g, a, b, k - 1);
      BeforeTotal(a[k - 1], b[k - 1]);
      assert Ready(g, Elements(a[..k - 1]), b[k - 1]) && Ready(g, Elements(b[..k - 1]), a[k - 1]);
      assert a[..k] == a[..k - 1] + [a[k - 1]] && b[..k] == b[..k - 1] + [b[k - 1]];
    }
  }

  ghost predicate HasCycle(g: Graph) {
    exists s :: CycleAmong(g, s)
  }

  /** A cycle rules an order out. */
  lemma OrderExcludesCycle(g: Graph, names: seq<string>, s: set<string>)
    requires LeastReadyOrder(g, names)
    ensures !CycleAmong(g, s)
  {
    hide GreedyPrefix;
    if CycleAmong(g, s) {
      var name :| name in s;
      assert name in Elements(names);
      var k :| 0 <= k < |names| && names[k] == name;
      NoCycleMember(g, names, s, k);
    }
  }

  lemma {:induction false} NoCycleMember(g: Graph, names: seq<string>, s: set<string>, k: nat)
    requires GreedyPrefix(g, names) && CycleAmong(g, s) && k < |names|
    ensures names[k] !in s
    decreases k
  {
    if names[k] in s {
      assert names[k] in g && HasParentIn(g[names[k]], s);
      var p :| p in g[names[k]] && p != "root" && p in s;
      ParentsFirst(g, names, k, p);
      var j :| 0 <= j < k && names[j] == p;
      NoCycleMember(g, names, s, j);
    }
  }

  // ----- counting pending parents

  /** Parent entries, duplicates included, that are neither the root nor done. */
  function Pending(parents: seq<string>, done: set<string>): nat {
    if parents == [] then 0 else
      var n := |parents| - 1;
      Pending(parents[..n], done) + if parents[n] == "root" || parents[n] in done then 0 else 1
  }

  lemma {:induction false} PendingZero(parents: seq<string>, done: set<string>)
    ensures Pending(parents, done) == 0 <==> forall p | p in parents :: p == "root" || p in done
  {
    if parents != [] {
      var n := |parents| - 1;
      PendingZero(parents[..n], done);
      assert parents == parents[..n] + [parents[n]];
      assert forall p :: p in parents <==> p in parents[..n] || p == parents[n];
    }
  }

  lemma {:induction false} PendingAfter(parents: seq<string>, done: set<string>, name: string)
    requires name !in done
    ensures Pending(parents, done)
         == Pending(parents, done + {name}) + if name == "root" then 0 else multiset(parents)[name]
  {
    if parents != [] {
      var n := |parents| - 1;
      PendingAfter(parents[..n], done, name);
      assert parents == parents[..n] + [parents[n]];
    }
  }

  // ----- the algorithm

  function OutgoingOf(outgoing: map<string, seq<string>>, name: string): seq<string> {
    if name in outgoing then outgoing[name] else []
  }

  /** How often the edge from `parent` to `child` is listed. */
  function EdgeCount(outgoing: map<string, seq<string>>, parent: string, child: string): nat {
    multiset(OutgoingOf(outgoing, parent))[child]
  }

  /** `enabled` sends each enabled node's name to its index. */
  ghost predicate IndexesEnabled(nodes: seq<RmpNode>, enabled: map<string, nat>) {
    && (forall name | name in enabled ::
          enabled[name] < |nodes| && nodes[enabled[name]].enabled && nodes[enabled[name]].name == name)
    && (forall i | 0 <= i < |nodes| && nodes[i].enabled :: nodes[i].name in enabled && enabled[nodes[i].name] == i)
  }

  method CollectEnabled(nodes: seq<RmpNode>) returns (r: Result<map<string, nat>, OrderError>)
    ensures r.Ok? <==> NoDuplicates(nodes)
    ensures r.Ok? ==> IndexesEnabled(nodes, r.value)
    ensures r.Err? ==> r.error == DuplicateName
  {
    var enabled: map<string, nat> := map[];
    for index := 0 to |nodes|
      invariant IndexesEnabled(nodes[..index], enabled)
      invariant NoDuplicates(nodes[..index])
    {
      if nodes[index].enabled {
        if nodes[index].name in enabled {
          assert nodes[enabled[nodes[index].name]] == nodes[..index][enabled[nodes[index].name]];
          return Err(DuplicateName);
        }
        assert forall i | 0 <= i < index :: nodes[..index][i] == nodes[i];
        enabled := enabled[nodes[index].name := index];
      }
      assert nodes[..index + 1] == nodes[..index] + [nodes[index]];
    }
    assert nodes[..|nodes|] == nodes;
    return Ok(enabled);
  }

  lemma GraphOfIndexed(nodes: seq<RmpNode>, enabled: map<string, nat>)
    requires NoDuplicates(nodes) && IndexesEnabled(nodes, enabled)
    ensures GraphOf(nodes).Keys == enabled.Keys
    ensures forall name | name in enabled :: GraphOf(nodes)[name] == nodes[enabled[name]].parents
  {
    var g := GraphOf(nodes);
    forall name
      ensures name in g <==> name in enabled
      ensures name in enabled ==> g[name] == nodes[enabled[name]].parents
    {
      if name in enabled { assert nodes[enabled[name]].name in g; }
    }
  }

  /** What the edge-counting pass leaves behind for the nodes it has `seen`. */
  ghost predicate Counted(g: Graph, seen: set<string>, indegree: map<string, int>, outgoing: map<string, seq<string>>) {
    && indegree.Keys == g.Keys
    && (forall c | c in g :: indegree[c] == if c in seen then Pending(g[c], {}) else 0)
    && (forall p, c ::
          EdgeCount(outgoing, p, c) == (if p != "root" && c in g && c in seen then multiset(g[c])[p] else 0))
  }

  /** `after` is `before` plus the edges into `name` from its `counted` parent entries. */
  ghost predicate EdgesAdded(before: map<string, seq<string>>, after: map<string, seq<string>>,
                             name: string, counted: seq<string>) {
    forall p, c ::
      EdgeCount(after, p, c)
      == EdgeCount(before, p, c) + (if p != "root" && c == name then multiset(counted)[p] else 0)
  }

  ghost predicate DegreesAdded(g: Graph, before: map<string, int>, after: map<string, int>,
                               name: string, counted: seq<string>) {
    && after.Keys == g.Keys
    && forall c | c in g :: c in before && after[c] == before[c] + (if c == name then Pending(counted, {}) else 0)
  }

  lemma AddEdge(before: map<string, seq<string>>, edges: map<string, seq<string>>, name: string,
                counted: seq<string>, parent: string)
    requires EdgesAdded(before, edges, name, counted)
    ensures parent == "root" ==> EdgesAdded(before, edges, name, counted + [parent])
    ensures parent != "root" ==>
      EdgesAdded(before, edges[parent := OutgoingOf(edges, parent) + [name]], name, counted + [parent])
  {
    hide EdgeCount;
    var after := if parent == "root" then edges else edges[parent := OutgoingOf(edges, parent) + [name]];
    forall p, c
      ensures EdgeCount(after, p, c)
           == EdgeCount(before, p, c) + (if p != "root" && c == name then multiset(counted + [parent])[p] else 0)
    {
      AppendCount(counted, parent, p);
      if parent != "root" { AddEdgeAt(edges, name, parent, p, c); }
    }
  }

  lemma AppendCount(s: seq<string>, x: string, y: string)
    ensures multiset(s + [x])[y] == multiset(s)[y] + (if x == y then 1 else 0)
  {
    assert multiset(s + [x]) == multiset(s) + multiset{x};
  }

  lemma AddEdgeAt(edges: map<string, seq<string>>, name: string, parent: string, p: string, c: string)
    ensures EdgeCount(edges[parent := OutgoingOf(edges, parent) + [name]], p, c)
         == EdgeCount(edges, p, c) + (if p == parent && c == name then 1 else 0)
  {
    if p == parent { AppendCount(OutgoingOf(edges, p), name, c); }
  }

  lemma AddDegree(g: Graph, before: map<string, int>, degrees: map<string, int>, name: string,
                  counted: seq<string>, parent: string)
    requires DegreesAdded(g, before, degrees, name, counted) && name in g
    ensures parent == "root" ==> DegreesAdded(g, before, degrees, name, counted + [parent])
    ensures parent != "root" ==> DegreesAdded(g, before, degrees[name := degrees[name] + 1], name, counted + [parent])
  {
    assert (counted + [parent])[..|counted|] == counted;
  }

  /** Counts one node's parent entries. */
  method CountParents(ghost g: Graph, name: string, parents: seq<string>, keys: set<string>,
                      indegree: map<string, int>, outgoing: map<string, seq<string>>)
    returns (r: Option<(map<string, int>, map<string, seq<string>>)>)
    requires keys == g.Keys == indegree.Keys && name in g
    ensures r.Some? <==> Resolves(g, parents)
    ensures r.Some? ==> DegreesAdded(g, indegree, r.value.0, name, parents)
    ensures r.Some? ==> EdgesAdded(outgoing, r.value.1, name, parents)
  {
    hide DegreesAdded, EdgesAdded, OutgoingOf;
    var degrees, edges := indegree, outgoing;
    NothingAdded(g, indegree, outgoing, name);
    assert parents[..0] == [];
    for j := 0 to |parents|
      invariant degrees.Keys == g.Keys
      invariant DegreesAdded(g, indegree, degrees, name, parents[..j])
      invariant EdgesAdded(outgoing, edges, name, parents[..j])
      invariant Resolves(g, parents[..j])
    {
      var parent := parents[j];
      assert parents[..j + 1] == parents[..j] + [parent];
      AddDegree(g, indegree, degrees, name, parents[..j], parent);
      AddEdge(outgoing, edges, name, parents[..j], parent);
      if parent != "root" {
        if parent !in keys {
          return None;
        }
        degrees := degrees[name := degrees[name] + 1];
        edges := edges[parent := OutgoingOf(edges, parent) + [name]];
      }
    }
    assert parents[..|parents|] == parents;
    return Some((degrees, edges));
  }

  lemma NothingAdded(g: Graph, indegree: map<string, int>, outgoing: map<string, seq<string>>, name: string)
    requires indegree.Keys == g.Keys
    ensures DegreesAdded(g, indegree, indegree, name, []) && EdgesAdded(outgoing, outgoing, name, [])
  {
  }

  lemma CountedStep(g: Graph, seen: set<string>, name: string,
                    indegree: map<string, int>, outgoing: map<string, seq<string>>,
                    degrees: map<string, int>, edges: map<string, seq<string>>)
    requires Counted(g, seen, indegree, outgoing) && name in g && name !in seen
    requires DegreesAdded(g, indegree, degrees, name, g[name]) && EdgesAdded(outgoing, edges, name, g[name])
    ensures Counted(g, seen + {name}, degrees, edges)
  {
  }

  /** The counting pass over all nodes, in whatever order the hash map yields them. */
  method CountEdges(ghost g: Graph, nodes: seq<RmpNode>, enabled: map<string, nat>)
    returns (r: Option<(map<string, int>, map<string, seq<string>>)>)
    requires enabled.Keys == g.Keys
    requires forall name | name in enabled :: enabled[name] < |nodes| && nodes[enabled[name]].parents == g[name]
    ensures r.Some? <==> ParentsPresent(g)
    ensures r.Some? ==> Counted(g, g.Keys, r.value.0, r.value.1)
  {
    hide Counted, EdgesAdded, DegreesAdded, Resolves;
    var indegree: map<string, int> := map name | name in enabled :: 0;
    var outgoing: map<string, seq<string>> := map[];
    var todo := enabled.Keys;
    NothingCounted(g, indegree);
    assert g.Keys - todo == {};
    while todo != {}
      invariant todo <= g.Keys == indegree.Keys
      invariant Counted(g, g.Keys - todo, indegree, outgoing)
      invariant forall name | name in g && name !in todo :: Resolves(g, g[name])
      decreases todo
    {
      var name :| name in todo;
      var counted := CountParents(g, name, nodes[enabled[name]].parents, enabled.Keys, indegree, outgoing);
      if counted.None? {
        return None;
      }
      CountedStep(g, g.Keys - todo, name, indegree, outgoing, counted.value.0, counted.value.1);
      indegree, outgoing := counted.value.0, counted.value.1;
      CountedKeys(g, g.Keys - todo + {name}, indegree, outgoing);
      assert g.Keys - todo + {name} == g.Keys - (todo - {name});
      todo := todo - {name};
    }
    assert g.Keys - todo == g.Keys;
    return Some((indegree, outgoing));
  }

  lemma CountedKeys(g: Graph, seen: set<string>, indegree: map<string, int>, outgoing: map<string, seq<string>>)
    requires Counted(g, seen, indegree, outgoing)
    ensures indegree.Keys == g.Keys
  {
  }

  lemma NothingCounted(g: Graph, indegree: map<string, int>)
    requires indegree == map name | name in g :: 0
    ensures Counted(g, {}, indegree, map[])
  {
  }

  /** In-degrees of the nodes not yet taken, with the edges `rest` still to be subtracted. */
  ghost predicate DegreesAt(g: Graph, done: set<string>, indegree: map<string, int>, rest: seq<string>) {
    && indegree.Keys == g.Keys
    && forall c | c in g && c !in done :: indegree[c] == Pending(g[c], done) + multiset(rest)[c]
  }

  /** `ready` lists each untaken node of in-degree zero once, and nothing else. */
  ghost predicate Lists(g: Graph, done: set<string>, indegree: map<string, int>, ready: seq<string>) {
    && indegree.Keys == g.Keys
    && forall c :: multiset(ready)[c] == if c in g && c !in done && indegree[c] == 0 then 1 else 0
  }

  lemma ListsReady(g: Graph, done: set<string>, indegree: map<string, int>, ready: seq<string>, c: string)
    requires DegreesAt(g, done, indegree, []) && Lists(g, done, indegree, ready)
    ensures c in ready <==> Ready(g, done, c)
  {
    assert c in ready <==> c in multiset(ready);
    if c in g && c !in done { PendingZero(g[c], done); }
  }

  lemma TakeLeast(g: Graph, names: seq<string>, indegree: map<string, int>, ready: seq<string>)
    requires GreedyPrefix(g, names) && ready != [] && Sorted(ready)
    requires DegreesAt(g, Elements(names), indegree, []) && Lists(g, Elements(names), indegree, ready)
    ensures GreedyPrefix(g, names + [ready[0]])
    ensures Ready(g, Elements(names), ready[0])
    ensures Lists(g, Elements(names + [ready[0]]), indegree, ready[1..])
  {
    hide Lists, DegreesAt, Sorted, Before;
    var done := Elements(names);
    var all := names + [ready[0]];
    assert ready[0] in ready;
    ListsReady(g, done, indegree, ready, ready[0]);
    forall other | Ready(g, done, other)
      ensures !Before(other, ready[0])
    {
      ListsReady(g, done, indegree, ready, other);
      HeadIsLeast(ready, other);
    }
    forall k | 0 <= k < |all|
      ensures Ready(g, Elements(all[..k]), all[k])
      ensures forall other | Ready(g, Elements(all[..k]), other) :: !Before(other, all[k])
    {
      assert all[..k] == names[..k];
      if k == |names| { assert names[..k] == names; }
    }
    assert Elements(all) == done + {ready[0]};
    RestLists(g, done, indegree, ready);
  }

  lemma RestLists(g: Graph, done: set<string>, indegree: map<string, int>, ready: seq<string>)
    requires ready != [] && Lists(g, done, indegree, ready)
    ensures Lists(g, done + {ready[0]}, indegree, ready[1..])
  {
    assert ready == [ready[0]] + ready[1..];
    assert multiset(ready) == multiset{ready[0]} + multiset(ready[1..]);
    forall c
      ensures multiset(ready[1..])[c] == if c in g && c !in done + {ready[0]} && indegree[c] == 0 then 1 else 0
    {
      assert multiset(ready)[c] == multiset{ready[0]}[c] + multiset(ready[1..])[c];
    }
  }

  /** A taken node's parents are taken, so the children of the node just taken are all untaken. */
  lemma ChildUntaken(g: Graph, names: seq<string>, indegree: map<string, int>, outgoing: map<string, seq<string>>,
                     name: string, child: string)
    requires Counted(g, g.Keys, indegree, outgoing) && GreedyPrefix(g, names + [name])
    requires child in OutgoingOf(outgoing, name)
    ensures child in g && child !in Elements(names + [name])
  {
    hide GreedyPrefix;
    var all := names + [name];
    assert EdgeCount(outgoing, name, child) > 0;
    assert name != "root" && child in g && name in multiset(g[child]);
    assert name in g[child];
    if child in all {
      var k :| 0 <= k < |all| && all[k] == child;
      ParentsFirst(g, all, k, name);
      LastIsNew(g, names, name, k);
    }
  }

  lemma LastIsNew(g: Graph, names: seq<string>, name: string, k: nat)
    requires GreedyPrefix(g, names + [name]) && k <= |names|
    ensures name !in (names + [name])[..k]
  {
    var all := names + [name];
    GreedyDistinct(g, all);
    assert all[|names|] == name;
    assert forall j | 0 <= j < k :: all[..k][j] == all[j] != name;
  }

  lemma StartChildren(g: Graph, names: seq<string>, start: map<string, int>, indegree: map<string, int>,
                      outgoing: map<string, seq<string>>, name: string)
    requires Counted(g, g.Keys, start, outgoing) && name !in names
    requires DegreesAt(g, Elements(names), indegree, [])
    ensures DegreesAt(g, Elements(names + [name]), indegree, OutgoingOf(outgoing, name))
  {
    assert Elements(names + [name]) == Elements(names) + {name};
    forall c | c in g && c !in Elements(names + [name])
      ensures indegree[c] == Pending(g[c], Elements(names + [name])) + multiset(OutgoingOf(outgoing, name))[c]
    {
      PendingAfter(g[c], Elements(names), name);
      assert EdgeCount(outgoing, name, c) == if name == "root" then 0 else multiset(g[c])[name];
    }
  }

  lemma SubtractChild(g: Graph, done: set<string>, indegree: map<string, int>, rest: seq<string>, ready: seq<string>)
    requires DegreesAt(g, done, indegree, rest) && Lists(g, done, indegree, ready)
    requires rest != [] && rest[0] in g && rest[0] !in done
    ensures var degrees := indegree[rest[0] := indegree[rest[0]] - 1];
            && DegreesAt(g, done, degrees, rest[1..])
            && Lists(g, done, degrees, if degrees[rest[0]] == 0 then ready + [rest[0]] else ready)
  {
    var child := rest[0];
    var degrees := indegree[child := indegree[child] - 1];
    assert rest == [child] + rest[1..];
    assert multiset(rest) == multiset{child} + multiset(rest[1..]);
    forall c | c in g && c !in done
      ensures degrees[c] == Pending(g[c], done) + multiset(rest[1..])[c]
    {
      assert multiset(rest)[c] == multiset{child}[c] + multiset(rest[1..])[c];
    }
    forall c
      ensures multiset(ready + [child])[c] == multiset(ready)[c] + (if c == child then 1 else 0)
    {
      AppendCount(ready, child, c);
    }
  }

  /** Subtracts the edges of the node just taken and appends the children that became ready. */
  method ReleaseChildren(ghost g: Graph, ghost names: seq<string>, ghost start: map<string, int>,
                         name: string, outgoing: map<string, seq<string>>,
                         indegree: map<string, int>, ready: seq<string>)
    returns (degrees: map<string, int>, nowReady: seq<string>)
    requires Counted(g, g.Keys, start, outgoing) && GreedyPrefix(g, names + [name]) && name !in names
    requires DegreesAt(g, Elements(names), indegree, [])
    requires Lists(g, Elements(names + [name]), indegree, ready)
    ensures DegreesAt(g, Elements(names + [name]), degrees, [])
    ensures Lists(g, Elements(names + [name]), degrees, nowReady)
  {
    hide GreedyPrefix, Counted, DegreesAt, Lists, Elements, OutgoingOf;
    ghost var done := Elements(names + [name]);
    degrees, nowReady := indegree, ready;
    var children := OutgoingOf(outgoing, name);
    StartChildren(g, names, start, indegree, outgoing, name);
    assert children[0..] == children;
    for j := 0 to |children|
      invariant DegreesAt(g, done, degrees, children[j..])
      invariant Lists(g, done, degrees, nowReady)
    {
      var child := children[j];
      ChildUntaken(g, names, start, outgoing, name, child);
      SubtractChild(g, done, degrees, children[j..], nowReady);
      ListsKeys(g, done, degrees, nowReady);
      assert children[j..][1..] == children[j + 1..];
      degrees := degrees[child := degrees[child] - 1];
      if degrees[child] == 0 {
        nowReady := nowReady + [child];
      }
    }
    assert children[|children|..] == [];
  }

  lemma ListsKeys(g: Graph, done: set<string>, indegree: map<string, int>, ready: seq<string>)
    requires Lists(g, done, indegree, ready)
    ensures indegree.Keys == g.Keys
  {
  }

  /** The nodes without parents, gathered in whatever order the hash map yields them. */
  method InitialReady(ghost g: Graph, indegree: map<string, int>) returns (ready: seq<string>)
    requires indegree.Keys == g.Keys
    ensures Lists(g, {}, indegree, ready)
  {
    ready := [];
    var todo := indegree.Keys;
    while todo != {}
      invariant todo <= g.Keys
      invariant forall c :: multiset(ready)[c] == if c in g && c !in todo && indegree[c] == 0 then 1 else 0
      decreases todo
    {
      var name :| name in todo;
      forall c
        ensures multiset(ready + [name])[c] == multiset(ready)[c] + (if c == name then 1 else 0)
      {
        AppendCount(ready, name, c);
      }
      if indegree[name] == 0 {
        ready := ready + [name];
      }
      todo := todo - {name};
    }
  }

  lemma LeftoverIsCycle(g: Graph, names: seq<string>, indegree: map<string, int>)
    requires ParentsPresent(g) && DegreesAt(g, Elements(names), indegree, []) && Lists(g, Elements(names), indegree, [])
    requires !(g.Keys <= Elements(names))
    ensures CycleAmong(g, g.Keys - Elements(names))
  {
    var s := g.Keys - Elements(names);
    forall name | name in s
      ensures HasParentIn(g[name], s)
    {
      assert multiset([])[name] == 0;
      PendingZero(g[name], Elements(names));
      assert Resolves(g, g[name]);
    }
    assert s != {};
  }

  /** Takes ready nodes, least name first, until none is left. */
  method DrainReady(ghost g: Graph, start: map<string, int>, outgoing: map<string, seq<string>>)
    returns (names: seq<string>)
    requires ParentsPresent(g) && Counted(g, g.Keys, start, outgoing)
    ensures GreedyPrefix(g, names) && Elements(names) <= g.Keys
    ensures Elements(names) == g.Keys || CycleAmong(g, g.Keys - Elements(names))
  {
    hide GreedyPrefix, Counted, ParentsPresent, CycleAmong, Lists, DegreesAt;
    var indegree := start;
    names := [];
    StartDegrees(g, start, outgoing);
    var ready := InitialReady(g, indegree);
    ready := SortedReady(g, {}, indegree, ready);
    assert Elements(names) == {};
    NothingTaken(g);
    while ready != []
      invariant GreedyPrefix(g, names) && Elements(names) <= g.Keys
      invariant DegreesAt(g, Elements(names), indegree, [])
      invariant Lists(g, Elements(names), indegree, ready) && Sorted(ready)
      decreases g.Keys - Elements(names)
    {
      var name := ready[0];
      ghost var taken := Elements(names);
      TakeNext(g, names, indegree, ready);
      indegree, ready := ReleaseChildren(g, names, start, name, outgoing, indegree, ready[1..]);
      names := names + [name];
      ready := SortedReady(g, Elements(names), indegree, ready);
    }
    if !(g.Keys <= Elements(names)) {
      LeftoverIsCycle(g, names, indegree);
    }
  }

  lemma StartDegrees(g: Graph, start: map<string, int>, outgoing: map<string, seq<string>>)
    requires Counted(g, g.Keys, start, outgoing)
    ensures start.Keys == g.Keys && DegreesAt(g, {}, start, [])
  {
  }

  lemma NothingTaken(g: Graph)
    ensures GreedyPrefix(g, [])
  {
  }

  /** `TakeLeast`, with what the loop needs about the taken set. */
  lemma TakeNext(g: Graph, names: seq<string>, indegree: map<string, int>, ready: seq<string>)
    requires GreedyPrefix(g, names) && ready != [] && Sorted(ready) && Elements(names) <= g.Keys
    requires DegreesAt(g, Elements(names), indegree, []) && Lists(g, Elements(names), indegree, ready)
    ensures GreedyPrefix(g, names + [ready[0]]) && ready[0] !in names
    ensures Lists(g, Elements(names + [ready[0]]), indegree, ready[1..])
    ensures Elements(names) < Elements(names + [ready[0]]) <= g.Keys
  {
    TakeLeast(g, names, indegree, ready);
    hide GreedyPrefix, Lists, DegreesAt;
    assert Elements(names + [ready[0]]) == Elements(names) + {ready[0]};
    assert ready[0] in g && ready[0] !in Elements(names);
  }

  method SortedReady(ghost g: Graph, ghost done: set<string>, ghost indegree: map<string, int>, ready: seq<string>)
    returns (sorted: seq<string>)
    requires Lists(g, done, indegree, ready)
    ensures Lists(g, done, indegree, sorted) && Sorted(sorted)
  {
    sorted := SortNames(ready);
  }

  /** The indices of the listed nodes in the configuration. */
  ghost predicate IndexesOf(nodes: seq<RmpNode>, names: seq<string>, order: seq<nat>) {
    && |order| == |names|
    && forall k | 0 <= k < |order| :: order[k] < |nodes| && nodes[order[k]].enabled && nodes[order[k]].name == names[k]
  }

  /** `build_topological_order`: fails exactly on a duplicate enabled name, else on a parent that is not
      enabled, else on a cycle, and otherwise returns the unique least-ready order. */
  method BuildTopologicalOrder(nodes: seq<RmpNode>)
    returns (r: Result<seq<nat>, OrderError>, ghost names: seq<string>)
    ensures r == Err(DuplicateName) <==> !NoDuplicates(nodes)
    ensures r == Err(MissingParent) <==> NoDuplicates(nodes) && !ParentsPresent(GraphOf(nodes))
    ensures r == Err(CycleDetected) <==>
      NoDuplicates(nodes) && ParentsPresent(GraphOf(nodes)) && HasCycle(GraphOf(nodes))
    ensures r.Ok? ==> LeastReadyOrder(GraphOf(nodes), names) && IndexesOf(nodes, names, r.value)
  {
    hide GraphOf, NoDuplicates, ParentsPresent, IndexesEnabled, IndexesOf, HasCycle, LeastReadyOrder;
    names := [];
    var collected := CollectEnabled(nodes);
    if collected.Err? {
      return Err(DuplicateName), names;
    }
    GraphOfIndexed(nodes, collected.value);
    r, names := OrderEnabled(GraphOf(nodes), nodes, collected.value);
  }

  method OrderEnabled(ghost g: Graph, nodes: seq<RmpNode>, enabled: map<string, nat>)
    returns (r: Result<seq<nat>, OrderError>, ghost names: seq<string>)
    requires IndexesEnabled(nodes, enabled) && enabled.Keys == g.Keys
    requires forall name | name in enabled :: nodes[enabled[name]].parents == g[name]
    ensures r == Err(MissingParent) <==> !ParentsPresent(g)
    ensures r == Err(CycleDetected) <==> ParentsPresent(g) && HasCycle(g)
    ensures r != Err(DuplicateName)
    ensures r.Ok? ==> LeastReadyOrder(g, names) && IndexesOf(nodes, names, r.value)
  {
    hide GreedyPrefix, Counted, CycleAmong, ParentsPresent, IndexesOf;
    names := [];
    var counted := CountEdges(g, nodes, enabled);
    if counted.None? {
      return Err(MissingParent), names;
    }
    hide IndexesEnabled;
    var taken := DrainReady(g, counted.value.0, counted.value.1);
    var order := LookUp(nodes, enabled, taken);
    TakenCount(g, taken);
    OrderLength(nodes, taken, order);
    assert |enabled| == |enabled.Keys| == |g|;
    if |order| != |enabled| {
      assert HasCycle(g);
      return Err(CycleDetected), taken;
    }
    NoCycleWhenOrdered(g, taken);
    return Ok(order), taken;
  }

  lemma OrderLength(nodes: seq<RmpNode>, names: seq<string>, order: seq<nat>)
    requires IndexesOf(nodes, names, order)
    ensures |order| == |names|
  {
  }

  lemma NoCycleWhenOrdered(g: Graph, names: seq<string>)
    requires LeastReadyOrder(g, names)
    ensures !HasCycle(g)
  {
    forall s
      ensures !CycleAmong(g, s)
    {
      OrderExcludesCycle(g, names, s);
    }
  }

  method LookUp(nodes: seq<RmpNode>, enabled: map<string, nat>, names: seq<string>) returns (order: seq<nat>)
    requires IndexesEnabled(nodes, enabled) && Elements(names) <= enabled.Keys
    ensures IndexesOf(nodes, names, order)
  {
    order := [];
    for k := 0 to |names|
      invariant IndexesOf(nodes, names[..k], order)
    {
      assert names[k] in Elements(names);
      assert names[..k + 1] == names[..k] + [names[k]];
      order := order + [enabled[names[k]]];
    }
    assert names[..|names|] == names;
  }

  lemma TakenCount(g: Graph, names: seq<string>)
    requires GreedyPrefix(g, names) && Elements(names) <= g.Keys
    ensures |names| == |g| <==> Elements(names) == g.Keys
  {
    GreedyDistinct(g, names);
    DistinctCounts(names);
    SubsetSize(Elements(names), g.Keys);
    assert |g| == |g.Keys|;
  }

  lemma SubsetSize(a: set<string>, b: set<string>)
    requires a <= b
    ensures |a| == |b| <==> a == b
  {
    assert b == a + (b - a);
    assert |b| == |a| + |b - a|;
  }
}
