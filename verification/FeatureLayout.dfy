/** Which external features the learned policy predicts, and where they sit in its output vector. */
module FeatureLayout {
  import opened LinearAlgebra
  import opened RmpConfig
  import opened RmpLeaves
  import opened Backprop

  datatype Spec = Spec(key: string, dim: int, nodeNames: seq<string>)

  datatype SpecError = InconsistentDimensions

  predicate IsExternal(n: RmpNode) { n.enabled && (n.leaf == External || n.handcraftedLeaf == External) }

  /** The names of the external nodes with that key, in configuration order. */
  function NamesFor(nodes: seq<RmpNode>, key: string): seq<string> {
    if nodes == [] then []
    else
      var k := |nodes| - 1;
      NamesFor(nodes[..k], key) + if IsExternal(nodes[k]) && nodes[k].targetKey == key then [nodes[k].name] else []
  }

  type Dims = map<string, int>

  ghost predicate Dimensioned(nodes: seq<RmpNode>, dims: Dims) {
    forall i | 0 <= i < |nodes| && nodes[i].enabled :: nodes[i].name in dims
  }

  /** Two external nodes share a key but not a dimension. */
  ghost predicate Inconsistent(nodes: seq<RmpNode>, dims: Dims)
    requires Dimensioned(nodes, dims)
  {
    exists i, j | 0 <= i < |nodes| && 0 <= j < |nodes| && IsExternal(nodes[i]) && IsExternal(nodes[j]) ::
      nodes[i].targetKey == nodes[j].targetKey && dims[nodes[i].name] != dims[nodes[j].name]
  }

  /** A spec describes all external nodes of its key. */
  ghost predicate Describes(nodes: seq<RmpNode>, dims: Dims, key: string, dim: int, names: seq<string>)
    requires Dimensioned(nodes, dims)
  {
    names != [] && multiset(names) == multiset(NamesFor(nodes, key)) && OfDimension(nodes, dims, key, dim)
  }

  ghost predicate OfDimension(nodes: seq<RmpNode>, dims: Dims, key: string, dim: int)
    requires Dimensioned(nodes, dims)
  {
    forall i | 0 <= i < |nodes| && IsExternal(nodes[i]) && nodes[i].targetKey == key :: dims[nodes[i].name] == dim
  }

  ghost predicate Collected(nodes: seq<RmpNode>, dims: Dims, byKey: map<string, Spec>)
    requires Dimensioned(nodes, dims)
  {
    && (forall key :: key in byKey <==> NamesFor(nodes, key) != [])
    && forall key | key in byKey :: byKey[key].key == key && Describes(nodes, dims, key, byKey[key].dim, byKey[key].nodeNames)
  }

  lemma {:induction false} NamesNonEmpty(nodes: seq<RmpNode>, i: nat)
    requires i < |nodes| && IsExternal(nodes[i])
    ensures nodes[i].name in NamesFor(nodes, nodes[i].targetKey)
  {
    var k := |nodes| - 1;
    if i < k {
      NamesNonEmpty(nodes[..k], i);
      assert nodes[..k][i] == nodes[i];
    }
  }

  /** What one more node adds to the names of a key. */
  lemma NextNames(nodes: seq<RmpNode>, k: nat, x: string)
    requires k < |nodes|
    ensures NamesFor(nodes[..k + 1], x)
         == NamesFor(nodes[..k], x) + if IsExternal(nodes[k]) && nodes[k].targetKey == x then [nodes[k].name] else []
  {
    assert nodes[..k + 1][..k] == nodes[..k] && nodes[..k + 1][k] == nodes[k];
  }

  lemma NextDescribes(nodes: seq<RmpNode>, k: nat, dims: Dims, key: string, dim: int, names: seq<string>, more: seq<string>)
    requires k < |nodes| && Dimensioned(nodes[..k], dims) && Dimensioned(nodes[..k + 1], dims)
    requires Describes(nodes[..k], dims, key, dim, names)
    requires more == if IsExternal(nodes[k]) && nodes[k].targetKey == key then [nodes[k].name] else []
    requires IsExternal(nodes[k]) && nodes[k].targetKey == key ==> nodes[k].name in dims && dims[nodes[k].name] == dim
    ensures Describes(nodes[..k + 1], dims, key, dim, names + more)
  {
    hide IsExternal, Dimensioned, OfDimension;
    NextNames(nodes, k, key);
    assert multiset(names + more) == multiset(names) + multiset(more);
    assert multiset(NamesFor(nodes[..k], key) + more) == multiset(NamesFor(nodes[..k], key)) + multiset(more);
    NextOfDimension(nodes, k, dims, key, dim);
  }

  lemma NextOfDimension(nodes: seq<RmpNode>, k: nat, dims: Dims, key: string, dim: int)
    requires k < |nodes| && Dimensioned(nodes[..k], dims) && Dimensioned(nodes[..k + 1], dims)
    requires OfDimension(nodes[..k], dims, key, dim)
    requires IsExternal(nodes[k]) && nodes[k].targetKey == key ==> nodes[k].name in dims && dims[nodes[k].name] == dim
    ensures OfDimension(nodes[..k + 1], dims, key, dim)
  {
    var front, all := nodes[..k], nodes[..k + 1];
    assert all[k] == nodes[k] && forall i | 0 <= i < k :: all[i] == front[i];
  }

  lemma NextDimensioned(nodes: seq<RmpNode>, k: nat, dims: Dims)
    requires Dimensioned(nodes, dims) && k <= |nodes|
    ensures Dimensioned(nodes[..k], dims)
  {
    forall i | 0 <= i < k && nodes[..k][i].enabled
      ensures nodes[..k][i].name in dims
    {
      assert nodes[..k][i] == nodes[i];
    }
  }

  lemma FirstDescribes(nodes: seq<RmpNode>, k: nat, dims: Dims)
    requires k < |nodes| && Dimensioned(nodes[..k + 1], dims) && IsExternal(nodes[k]) && NamesFor(nodes[..k], nodes[k].targetKey) == []
    ensures nodes[k].name in dims
    ensures Describes(nodes[..k + 1], dims, nodes[k].targetKey, dims[nodes[k].name], [nodes[k].name])
  {
    var front, all := nodes[..k], nodes[..k + 1];
    assert all[k] == nodes[k] && forall i | 0 <= i < k :: all[i] == front[i];
    NextNames(nodes, k, nodes[k].targetKey);
    NoneBefore(front, nodes[k].targetKey);
  }

  /** `byKey` after looking at one more node. */
  ghost function NextByKey(byKey: map<string, Spec>, n: RmpNode, dims: Dims): map<string, Spec>
    requires n.enabled ==> n.name in dims
  {
    if !IsExternal(n) then byKey
    else if n.targetKey !in byKey then byKey[n.targetKey := Spec(n.targetKey, dims[n.name], [n.name])]
    else var s := byKey[n.targetKey]; byKey[n.targetKey := s.(nodeNames := s.nodeNames + [n.name])]
  }

  /** Adding one node to the collection. */
  lemma CollectNext(nodes: seq<RmpNode>, k: nat, dims: Dims, byKey: map<string, Spec>)
    requires k < |nodes| && Dimensioned(nodes, dims) && Dimensioned(nodes[..k], dims) && Collected(nodes[..k], dims, byKey)
    requires IsExternal(nodes[k]) && nodes[k].targetKey in byKey ==> byKey[nodes[k].targetKey].dim == dims[nodes[k].name]
    ensures Dimensioned(nodes[..k + 1], dims) && Collected(nodes[..k + 1], dims, NextByKey(byKey, nodes[k], dims))
  {
    hide Describes, Dimensioned, NamesFor;
    NextDimensioned(nodes, k + 1, dims);
    EnabledIn(nodes, k, dims);
    var after := NextByKey(byKey, nodes[k], dims);
    forall x
      ensures x in after <==> NamesFor(nodes[..k + 1], x) != []
      ensures x in after ==>
        after[x].key == x && Describes(nodes[..k + 1], dims, x, after[x].dim, after[x].nodeNames)
    {
      NextNames(nodes, k, x);
      var more := if IsExternal(nodes[k]) && nodes[k].targetKey == x then [nodes[k].name] else [];
      if x in byKey {
        NextDescribes(nodes, k, dims, x, byKey[x].dim, byKey[x].nodeNames, more);
        assert byKey[x].nodeNames + [] == byKey[x].nodeNames;
      } else if more != [] {
        FirstDescribes(nodes, k, dims);
      }
    }
  }

  lemma EnabledIn(nodes: seq<RmpNode>, k: nat, dims: Dims)
    requires Dimensioned(nodes, dims) && k < |nodes|
    ensures nodes[k].enabled ==> nodes[k].name in dims
  {
  }

  lemma NoneBefore(nodes: seq<RmpNode>, key: string)
    requires NamesFor(nodes, key) == []
    ensures forall i | 0 <= i < |nodes| && IsExternal(nodes[i]) :: nodes[i].targetKey != key
  {
    forall i | 0 <= i < |nodes| && IsExternal(nodes[i])
      ensures nodes[i].targetKey != key
    {
      NamesNonEmpty(nodes, i);
    }
  }

  lemma {:induction false} SomeNode(nodes: seq<RmpNode>, key: string) returns (i: nat)
    requires NamesFor(nodes, key) != []
    ensures i < |nodes| && IsExternal(nodes[i]) && nodes[i].targetKey == key
  {
    var k := |nodes| - 1;
    if IsExternal(nodes[k]) && nodes[k].targetKey == key {
      i := k;
    } else {
      i := SomeNode(nodes[..k], key);
    }
  }

  /** Keys in strictly increasing order, one spec each, describing every external node. */
  ghost predicate Covers(nodes: seq<RmpNode>, dims: Dims, specs: seq<Spec>)
    requires Dimensioned(nodes, dims)
  {
    && (forall i, j | 0 <= i < j < |specs| :: Before(specs[i].key, specs[j].key))
    && (forall i | 0 <= i < |specs| ::
          Describes(nodes, dims, specs[i].key, specs[i].dim, specs[i].nodeNames) && Sorted(specs[i].nodeNames))
    && (forall i | 0 <= i < |nodes| && IsExternal(nodes[i]) :: exists j :: 0 <= j < |specs| && specs[j].key == nodes[i].targetKey)
  }

  /** The collecting loop of `build_external_feature_specs`. */
  method Collect(nodes: seq<RmpNode>, dims: Dims) returns (r: Result<map<string, Spec>, SpecError>)
    requires Dimensioned(nodes, dims)
    ensures r.Err? <==> Inconsistent(nodes, dims)
    ensures r.Ok? ==> Collected(nodes, dims, r.value)
  {
    hide Collected, Dimensioned, Inconsistent;
    var byKey: map<string, Spec> := map[];
    NothingCollected(dims);
    assert nodes[..0] == [];
    for k := 0 to |nodes|
      invariant Dimensioned(nodes[..k], dims) && Collected(nodes[..k], dims, byKey)
    {
      EnabledIn(nodes, k, dims);
      var n := nodes[k];
      if IsExternal(n) && n.targetKey in byKey && byKey[n.targetKey].dim != dims[n.name] {
        CollectedClash(nodes, k, dims, byKey);
        return Err(InconsistentDimensions);
      }
      CollectNext(nodes, k, dims, byKey);
      if IsExternal(n) {
        if n.targetKey !in byKey {
          byKey := byKey[n.targetKey := Spec(n.targetKey, dims[n.name], [n.name])];
        } else {
          var s := byKey[n.targetKey];
          byKey := byKey[n.targetKey := s.(nodeNames := s.nodeNames + [n.name])];
        }
      }
    }
    assert nodes[..|nodes|] == nodes;
    CollectedConsistent(nodes, dims, byKey);
    return Ok(byKey);
  }

  lemma NothingCollected(dims: Dims)
    ensures Dimensioned([], dims) && Collected([], dims, map[])
  {
  }

  lemma CollectedClash(nodes: seq<RmpNode>, k: nat, dims: Dims, byKey: map<string, Spec>)
    requires Dimensioned(nodes, dims) && k < |nodes| && Dimensioned(nodes[..k], dims) && Collected(nodes[..k], dims, byKey)
    requires IsExternal(nodes[k]) && nodes[k].targetKey in byKey && byKey[nodes[k].targetKey].dim != dims[nodes[k].name]
    ensures Inconsistent(nodes, dims)
  {
    var i := SomeNode(nodes[..k], nodes[k].targetKey);
    assert nodes[..k][i] == nodes[i];
  }

  lemma CollectedConsistent(nodes: seq<RmpNode>, dims: Dims, byKey: map<string, Spec>)
    requires Dimensioned(nodes, dims) && Collected(nodes, dims, byKey)
    ensures !Inconsistent(nodes, dims)
  {
    forall i, j | 0 <= i < |nodes| && 0 <= j < |nodes| && IsExternal(nodes[i]) && IsExternal(nodes[j])
                  && nodes[i].targetKey == nodes[j].targetKey
      ensures dims[nodes[i].name] == dims[nodes[j].name]
    {
      NamesNonEmpty(nodes, i);
      assert nodes[i].targetKey in byKey;
    }
  }

  /** The keys in whatever order the hash map yields them. */
  method GatherKeys(byKey: map<string, Spec>) returns (keys: seq<string>)
    ensures forall key :: multiset(keys)[key] == if key in byKey then 1 else 0
  {
    keys := [];
    var todo := byKey.Keys;
    while todo != {}
      invariant todo <= byKey.Keys
      invariant forall key :: multiset(keys)[key] == if key in byKey && key !in todo then 1 else 0
      decreases todo
    {
      var key :| key in todo;
      forall x
        ensures multiset(keys + [key])[x] == multiset(keys)[x] + if x == key then 1 else 0
      {
        assert multiset(keys + [key]) == multiset(keys) + multiset{key};
      }
      keys := keys + [key];
      todo := todo - {key};
    }
  }

  /** `specs[j]` is the collected spec of key `j` with its names sorted. */
  ghost predicate Arranged(byKey: map<string, Spec>, sorted: seq<string>, specs: seq<Spec>) {
    && |specs| <= |sorted| && (forall i | 0 <= i < |sorted| :: sorted[i] in byKey)
    && forall j | 0 <= j < |specs| ::
         specs[j].key == byKey[sorted[j]].key && specs[j].dim == byKey[sorted[j]].dim && Sorted(specs[j].nodeNames)
         && multiset(specs[j].nodeNames) == multiset(byKey[sorted[j]].nodeNames)
  }

  /** `build_external_feature_specs`: fails exactly on inconsistent dimensions, and otherwise covers every
      external node by one spec, keys sorted and distinct. */
  method BuildSpecs(nodes: seq<RmpNode>, dims: Dims) returns (r: Result<seq<Spec>, SpecError>)
    requires Dimensioned(nodes, dims)
    ensures r.Err? <==> Inconsistent(nodes, dims)
    ensures r.Ok? ==> Covers(nodes, dims, r.value)
  {
    hide Inconsistent, Collected, Dimensioned, Covers, Sorted, Arranged;
    var collected := Collect(nodes, dims);
    if collected.Err? {
      return Err(collected.error);
    }
    var byKey := collected.value;
    var keys := GatherKeys(byKey);
    var sorted := SortNames(keys);
    KeysOf(byKey, keys, sorted);
    var specs := Arrange(byKey, sorted);
    SortedCover(nodes, dims, byKey, sorted, specs);
    return Ok(specs);
  }

  method Arrange(byKey: map<string, Spec>, sorted: seq<string>) returns (specs: seq<Spec>)
    requires forall i | 0 <= i < |sorted| :: sorted[i] in byKey
    ensures |specs| == |sorted| && Arranged(byKey, sorted, specs)
  {
    hide Sorted;
    specs := [];
    for i := 0 to |sorted|
      invariant |specs| == i && Arranged(byKey, sorted, specs)
    {
      var s := byKey[sorted[i]];
      specs := specs + [s.(nodeNames := SortNames(s.nodeNames))];
    }
  }

  lemma KeysOf(byKey: map<string, Spec>, keys: seq<string>, sorted: seq<string>)
    requires forall key :: multiset(keys)[key] == if key in byKey then 1 else 0
    requires Sorted(sorted) && multiset(sorted) == multiset(keys)
    ensures forall i | 0 <= i < |sorted| :: sorted[i] in byKey
    ensures forall key | key in byKey :: key in sorted
    ensures forall i, j | 0 <= i < j < |sorted| :: Before(sorted[i], sorted[j])
  {
    forall i | 0 <= i < |sorted|
      ensures sorted[i] in byKey
    {
      assert sorted[i] in multiset(sorted);
    }
    forall key | key in byKey
      ensures key in sorted
    {
      assert key in multiset(sorted);
    }
    forall i, j | 0 <= i < j < |sorted|
      ensures Before(sorted[i], sorted[j])
    {
      OnceOnly(sorted, i, j);
      BeforeTotal(sorted[i], sorted[j]);
    }
  }

  lemma OnceOnly(s: seq<string>, i: nat, j: nat)
    requires i < j < |s| && forall x :: multiset(s)[x] <= 1
    ensures s[i] != s[j]
  {
    assert s == s[..j] + s[j..];
    assert multiset(s) == multiset(s[..j]) + multiset(s[j..]);
    assert s[..j][i] == s[i] && s[j..][0] == s[j];
    assert s[i] in multiset(s[..j]) && s[j] in multiset(s[j..]);
    assert multiset(s)[s[j]] == multiset(s[..j])[s[j]] + multiset(s[j..])[s[j]];
  }

  lemma SortedCover(nodes: seq<RmpNode>, dims: Dims, byKey: map<string, Spec>, sorted: seq<string>, specs: seq<Spec>)
    requires Dimensioned(nodes, dims) && Collected(nodes, dims, byKey) && |specs| == |sorted| && Arranged(byKey, sorted, specs)
    requires forall key | key in byKey :: key in sorted
    requires forall i, j | 0 <= i < j < |sorted| :: Before(sorted[i], sorted[j])
    ensures Covers(nodes, dims, specs)
  {
    hide Sorted, Before, IsExternal, NamesFor;
    forall i | 0 <= i < |nodes| && IsExternal(nodes[i])
      ensures exists j :: 0 <= j < |specs| && specs[j].key == nodes[i].targetKey
    {
      NamesNonEmpty(nodes, i);
      assert nodes[i].targetKey in sorted;
      var j :| 0 <= j < |sorted| && sorted[j] == nodes[i].targetKey;
      assert specs[j].key == sorted[j];
    }
    forall j | 0 <= j < |specs|
      ensures specs[j].key == sorted[j] && Describes(nodes, dims, specs[j].key, specs[j].dim, specs[j].nodeNames)
    {
      var names := byKey[sorted[j]].nodeNames;
      assert names[0] in multiset(specs[j].nodeNames);
    }
  }

  // ----- the output vector

  ghost predicate ValidSpecs(specs: seq<Spec>) { forall i | 0 <= i < |specs| :: specs[i].dim >= 0 }

  ghost predicate DistinctKeys(specs: seq<Spec>) { forall i, j | 0 <= i < j < |specs| :: specs[i].key != specs[j].key }

  lemma CoveringKeysDistinct(nodes: seq<RmpNode>, dims: Dims, specs: seq<Spec>)
    requires Dimensioned(nodes, dims) && Covers(nodes, dims, specs)
    ensures DistinctKeys(specs)
  {
    forall i, j | 0 <= i < j < |specs|
      ensures specs[i].key != specs[j].key
    {
      BeforeIrreflexive(specs[i].key);
    }
  }

  /** Where spec `k` starts; for all specs, the output width. */
  function Start(specs: seq<Spec>, k: nat): (r: nat)
    requires ValidSpecs(specs) && k <= |specs|
  {
    if k == 0 then 0 else Start(specs, k - 1) + 2 * specs[k - 1].dim
  }

  function Width(specs: seq<Spec>): nat
    requires ValidSpecs(specs)
  {
    Start(specs, |specs|)
  }

  lemma {:induction false} StartsGrow(specs: seq<Spec>, j: nat, k: nat)
    requires ValidSpecs(specs) && j <= k <= |specs|
    ensures Start(specs, j) <= Start(specs, k)
    decreases k - j
  {
    if j < k { StartsGrow(specs, j, k - 1); }
  }

  /** Which slots of the first `k` specs hold metric diagonals. */
  function Diagonals(specs: seq<Spec>, k: nat): (r: seq<bool>)
    requires ValidSpecs(specs) && k <= |specs|
    ensures |r| == Start(specs, k)
  {
    if k == 0 then []
    else Diagonals(specs, k - 1) + seq(specs[k - 1].dim, _ => false) + seq(specs[k - 1].dim, _ => true)
  }

  function TaskOf(specs: seq<Spec>, minDiag: real): Task
    requires ValidSpecs(specs)
  {
    Task(Diagonals(specs, |specs|), minDiag)
  }

  function DiagonalRow(d: Vec, i: nat): (r: Vec)
    requires i < |d|
    ensures |r| == |d| && r[i] == d[i]
  {
    Zero(|d|)[i := d[i]]
  }

  /** The diagonal matrix `decode_output` fills. */
  function DiagonalMatrix(d: Vec): (m: seq<Vec>)
    ensures |m| == |d| && IsMatrix(m, |d|)
  {
    seq(|d|, i requires 0 <= i < |d| => DiagonalRow(d, i))
  }

  function Softened(a: Activations, minDiag: real, v: Vec): (d: Vec)
    ensures |d| == |v|
  {
    seq(|v|, i requires 0 <= i < |v| => Softplus(a)(v[i]) + minDiag)
  }

  function FeatureAt(a: Activations, minDiag: real, specs: seq<Spec>, output: Vec, k: nat): Feature
    requires ValidSpecs(specs) && k < |specs| && |output| == Width(specs)
  {
    var start, d := Start(specs, k), specs[k].dim;
    StartsGrow(specs, k + 1, |specs|);
    Feature(DiagonalMatrix(Softened(a, minDiag, output[start + d..start + 2 * d])), output[start..start + d])
  }

  /** The decoded features of the first `k` specs; the first spec of a key wins. */
  function Decoded(a: Activations, minDiag: real, specs: seq<Spec>, output: Vec, k: nat): map<string, Feature>
    requires ValidSpecs(specs) && k <= |specs| && |output| == Width(specs)
  {
    if k == 0 then map[]
    else
      var m := Decoded(a, minDiag, specs, output, k - 1);
      if specs[k - 1].key in m then m else m[specs[k - 1].key := FeatureAt(a, minDiag, specs, output, k - 1)]
  }

  /** `decode_output`. */
  method Decode(a: Activations, minDiag: real, specs: seq<Spec>, output: Vec) returns (decoded: map<string, Feature>)
    requires ValidSpecs(specs) && |output| == Width(specs)
    ensures decoded == Decoded(a, minDiag, specs, output, |specs|)
  {
    decoded := map[];
    var offset := 0;
    for k := 0 to |specs|
      invariant offset == Start(specs, k) && decoded == Decoded(a, minDiag, specs, output, k)
    {
      StartsGrow(specs, k + 1, |specs|);
      var d := specs[k].dim;
      var acceleration := output[offset..offset + d];
      offset := offset + d;
      var metricSqrt := DiagonalMatrix(Softened(a, minDiag, output[offset..offset + d]));
      offset := offset + d;
      if specs[k].key !in decoded {
        decoded := decoded[specs[k].key := Feature(metricSqrt, acceleration)];
      }
    }
  }

  datatype FlattenError = AccelerationSize | MetricSize

  function DiagonalOf(m: seq<Vec>, n: nat): (d: Vec)
    requires |m| == n && forall i | 0 <= i < n :: |m[i]| == n
    ensures |d| == n
  {
    seq(n, i requires 0 <= i < n => m[i][i])
  }

  /** The two blocks of one spec: zeros for an absent target. */
  function Blocks(s: Spec, targets: map<string, Feature>): (r: Result<Vec, FlattenError>)
    requires s.dim >= 0
    ensures r.Ok? ==> |r.value| == 2 * s.dim
  {
    if s.key !in targets then Ok(Zero(2 * s.dim))
    else
      var f := targets[s.key];
      if |f.acceleration| != s.dim then Err(AccelerationSize)
      else if !IsSquare(f, s.dim) then Err(MetricSize)
      else Ok(f.acceleration + DiagonalOf(f.metricSqrt, s.dim))
  }

  function Flat(specs: seq<Spec>, targets: map<string, Feature>, k: nat): (r: Result<Vec, FlattenError>)
    requires ValidSpecs(specs) && k <= |specs|
    ensures r.Ok? ==> |r.value| == Start(specs, k)
  {
    if k == 0 then Ok([])
    else match Flat(specs, targets, k - 1)
      case Err(e) => Err(e)
      case Ok(front) =>
        match Blocks(specs[k - 1], targets)
        case Err(e) => Err(e)
        case Ok(block) => Ok(front + block)
  }

  lemma {:induction false} FlatFails(specs: seq<Spec>, targets: map<string, Feature>, j: nat, k: nat)
    requires ValidSpecs(specs) && j <= k <= |specs| && Flat(specs, targets, j).Err?
    ensures Flat(specs, targets, k) == Flat(specs, targets, j)
    decreases k - j
  {
    if j < k { FlatFails(specs, targets, j, k - 1); }
  }

  /** `flatten_targets`: writes into a zeroed buffer of the output width. */
  method FlattenTargets(specs: seq<Spec>, targets: map<string, Feature>) returns (r: Result<Vec, FlattenError>)
    requires ValidSpecs(specs)
    ensures r == Flat(specs, targets, |specs|)
  {
    var flat := Zero(Width(specs));
    var offset := 0;
    for k := 0 to |specs|
      invariant offset == Start(specs, k) && |flat| == Width(specs) && offset <= Width(specs)
      invariant Flat(specs, targets, k) == Ok(flat[..offset])
      invariant forall i | offset <= i < |flat| :: flat[i] == 0.0
    {
      StartsGrow(specs, k + 1, |specs|);
      var s := specs[k];
      var block := Blocks(s, targets);
      if block.Err? {
        FlatFails(specs, targets, k + 1, |specs|);
        return Err(block.error);
      }
      flat := flat[..offset] + block.value + flat[offset + 2 * s.dim..];
      offset := offset + 2 * s.dim;
      assert flat[..offset] == flat[..Start(specs, k)] + block.value;
    }
    assert flat[..offset] == flat;
    return Ok(flat);
  }

  // ----- the round trip

  /** The output with every slot as the loss reads it. */
  function Activated(a: Activations, minDiag: real, specs: seq<Spec>, output: Vec, k: nat): (r: Vec)
    requires ValidSpecs(specs) && k <= |specs| && |output| == Width(specs)
    ensures |r| == Start(specs, k)
  {
    StartsGrow(specs, k, |specs|);
    var d := Diagonals(specs, k);
    seq(Start(specs, k), i requires 0 <= i < Start(specs, k) => Predicted(a, TaskOf(specs, minDiag), d[i], output[i]))
  }

  lemma {:induction false} DecodedKeys(a: Activations, minDiag: real, specs: seq<Spec>, output: Vec, k: nat)
    requires ValidSpecs(specs) && k <= |specs| && |output| == Width(specs) && DistinctKeys(specs)
    ensures forall key :: key in Decoded(a, minDiag, specs, output, k) ==> exists i :: 0 <= i < k && specs[i].key == key
    ensures forall i | 0 <= i < k ::
      specs[i].key in Decoded(a, minDiag, specs, output, k)
      && Decoded(a, minDiag, specs, output, k)[specs[i].key] == FeatureAt(a, minDiag, specs, output, i)
    decreases k
  {
    hide FeatureAt, ValidSpecs, Width;
    if k > 0 { DecodedKeys(a, minDiag, specs, output, k - 1); }
  }

  lemma DiagonalRoundTrip(d: Vec)
    ensures DiagonalOf(DiagonalMatrix(d), |d|) == d
  {
    hide DiagonalRow;
    forall i | 0 <= i < |d|
      ensures DiagonalOf(DiagonalMatrix(d), |d|)[i] == d[i]
    {
      assert DiagonalMatrix(d)[i] == DiagonalRow(d, i);
    }
  }

  /** The two blocks of one decoded spec. */
  function DecodedBlock(a: Activations, minDiag: real, specs: seq<Spec>, output: Vec, k: nat): (r: Vec)
    requires ValidSpecs(specs) && k < |specs| && |output| == Width(specs)
    ensures |r| == 2 * specs[k].dim
  {
    var start, d := Start(specs, k), specs[k].dim;
    StartsGrow(specs, k + 1, |specs|);
    output[start..start + d] + Softened(a, minDiag, output[start + d..start + 2 * d])
  }

  lemma ActivatedStep(a: Activations, minDiag: real, specs: seq<Spec>, output: Vec, k: nat)
    requires ValidSpecs(specs) && k < |specs| && |output| == Width(specs)
    ensures Activated(a, minDiag, specs, output, k + 1) == Activated(a, minDiag, specs, output, k) + DecodedBlock(a, minDiag, specs, output, k)
  {
    hide Softplus;
    StartsGrow(specs, k + 1, |specs|);
    var start, d := Start(specs, k), specs[k].dim;
    var l, r := Activated(a, minDiag, specs, output, k + 1), Activated(a, minDiag, specs, output, k) + DecodedBlock(a, minDiag, specs, output, k);
    forall i | 0 <= i < start + 2 * d
      ensures l[i] == r[i]
    {
      if start <= i < start + d { assert output[start..start + d][i - start] == output[i]; }
      if start + d <= i { assert output[start + d..start + 2 * d][i - start - d] == output[i]; }
    }
  }

  /** A decoded feature flattens to its two blocks. */
  lemma DecodedBlocks(a: Activations, minDiag: real, specs: seq<Spec>, output: Vec, k: nat, targets: map<string, Feature>)
    requires ValidSpecs(specs) && k < |specs| && |output| == Width(specs)
    requires specs[k].key in targets && targets[specs[k].key] == FeatureAt(a, minDiag, specs, output, k)
    ensures Blocks(specs[k], targets) == Ok(DecodedBlock(a, minDiag, specs, output, k))
  {
    hide DiagonalMatrix, DiagonalOf;
    StartsGrow(specs, k + 1, |specs|);
    var start, d := Start(specs, k), specs[k].dim;
    DiagonalRoundTrip(Softened(a, minDiag, output[start + d..start + 2 * d]));
  }

  lemma {:induction false} FlatDecoded(a: Activations, minDiag: real, specs: seq<Spec>, output: Vec, k: nat)
    requires ValidSpecs(specs) && k <= |specs| && |output| == Width(specs) && DistinctKeys(specs)
    ensures Flat(specs, Decoded(a, minDiag, specs, output, |specs|), k) == Ok(Activated(a, minDiag, specs, output, k))
    decreases k
  {
    hide Activated, Decoded, Blocks, DecodedBlock, FeatureAt, ValidSpecs;
    if k == 0 {
      assert Activated(a, minDiag, specs, output, 0) == [];
    } else {
      FlatDecoded(a, minDiag, specs, output, k - 1);
      DecodedKeys(a, minDiag, specs, output, |specs|);
      ActivatedStep(a, minDiag, specs, output, k - 1);
      DecodedBlocks(a, minDiag, specs, output, k - 1, Decoded(a, minDiag, specs, output, |specs|));
    }
  }

  /** Flattening what was decoded gives back every acceleration slot unchanged and every diagonal slot through
      softplus plus the floor. */
  lemma FlattenDecode(a: Activations, minDiag: real, specs: seq<Spec>, output: Vec)
    requires ValidSpecs(specs) && |output| == Width(specs) && DistinctKeys(specs)
    ensures var r := Flat(specs, Decoded(a, minDiag, specs, output, |specs|), |specs|);
      && r.Ok?
      && forall i | 0 <= i < |output| ::
           r.value[i] == if Diagonals(specs, |specs|)[i] then Softplus(a)(output[i]) + minDiag else output[i]
  {
    hide Decoded, Flat, Softplus;
    FlatDecoded(a, minDiag, specs, output, |specs|);
  }

  /** Supervising the network with its own decoded output costs nothing. */
  lemma SelfTargetsLossless(a: Activations, minDiag: real, specs: seq<Spec>, output: Vec, k: nat)
    requires ValidSpecs(specs) && |output| == Width(specs) && DistinctKeys(specs) && k <= |output|
    ensures var r := Flat(specs, Decoded(a, minDiag, specs, output, |specs|), |specs|);
      && r.Ok?
      && SlotLosses(a, TaskOf(specs, minDiag), output, r.value, k) == 0.0
  {
    hide Decoded, Flat, Softplus;
    FlattenDecode(a, minDiag, specs, output);
    if k > 0 {
      SelfTargetsLossless(a, minDiag, specs, output, k - 1);
      TimesOf(0.0, 0.0);
    }
  }
}
