/** The configured RMP graph: one record per node, as the solvers read it. */
module RmpConfig {

  datatype Result<+T, +E> = Ok(value: T) | Err(error: E)

  datatype Option<+T> = None | Some(value: T)

  datatype Axis = X | Y | Z | UnknownAxis

  /** The task map names the solver dispatches on; any other name is `UnknownMap`. */
  datatype TaskMap =
    | CspaceTargetMap | IdentityMap | JointLimitMap | TcpPosition | LinkPosition | LinkOrientationAxis
    | ControlPoints | CollisionDistance
    | Affine | ElemMultiply | ElemDivide | Sin | Cos | Tanh | SquareMap | AbsMap | Sum | WeightedSum
    | Difference | Concat | Slice | NormMap | Normalize
    | UnknownMap

  datatype LeafType =
    | NoLeaf | CspaceTarget | JointLimit | JointVelocityCap | Target | AxisTarget | WristAxisTarget
    | Collision | Damping | External | UnknownLeaf

  datatype RmpNode = RmpNode(
    name: string,
    parents: seq<string>,
    taskMap: TaskMap,
    leaf: LeafType,
    targetKey: string,
    linkName: string,
    axis: Axis,
    handcraftedLeaf: LeafType,
    parentWeights: seq<real>,
    bias: seq<real>,
    matrix: seq<real>,
    sliceStart: int,
    sliceLength: int,
    scale: real,
    identityMultiplier: real,
    epsilon: real,
    enabled: bool
  )

  /** A node with the source's default field values. */
  function SimpleNode(name: string, parent: string, taskMap: TaskMap, leaf: LeafType, enabled: bool): RmpNode {
    RmpNode(name, [parent], taskMap, leaf, "goal", "tcp", Z, NoLeaf, [], [], [], 0, 0, 1.0, 0.0, 0.000000001, enabled)
  }

  /** `default_rmp_graph_nodes`. */
  function DefaultGraphNodes(): seq<RmpNode> {
    [ SimpleNode("cspace_target", "root", CspaceTargetMap, CspaceTarget, true),
      SimpleNode("joint_limits", "root", JointLimitMap, JointLimit, true),
      SimpleNode("joint_velocity_cap", "root", IdentityMap, JointVelocityCap, true),
      SimpleNode("tcp_position", "root", TcpPosition, NoLeaf, true),
      SimpleNode("target", "tcp_position", IdentityMap, Target, true),
      SimpleNode("control_points", "root", ControlPoints, NoLeaf, true),
      SimpleNode("collision", "control_points", CollisionDistance, Collision, true),
      SimpleNode("damping", "root", IdentityMap, Damping, true),
      SimpleNode("body_link4", "root", LinkPosition, Target, false).(targetKey := "body_goal", linkName := "link4"),
      SimpleNode("tcp_orientation", "root", LinkOrientationAxis, Target, false).(targetKey := "orientation_goal") ]
  }

  // ----- the lexicographic order of node names

  predicate Before(a: string, b: string) {
    if b == "" then false
    else if a == "" then true
    else a[0] < b[0] || (a[0] == b[0] && Before(a[1..], b[1..]))
  }

  lemma {:induction false} BeforeIrreflexive(a: string)
    ensures !Before(a, a)
  {
    if a != "" { BeforeIrreflexive(a[1..]); }
  }

  lemma {:induction false} BeforeTransitive(a: string, b: string, c: string)
    requires Before(a, b) && Before(b, c)
    ensures Before(a, c)
  {
    if a != "" && a[0] == b[0] == c[0] { BeforeTransitive(a[1..], b[1..], c[1..]); }
  }

  lemma {:induction false} BeforeTotal(a: string, b: string)
    ensures Before(a, b) || Before(b, a) || a == b
  {
    if a != "" && b != "" && a[0] == b[0] {
      BeforeTotal(a[1..], b[1..]);
      assert a == [a[0]] + a[1..] && b == [b[0]] + b[1..];
    }
  }

  lemma BeforeAsymmetric(a: string, b: string)
    requires Before(a, b)
    ensures !Before(b, a)
  {
    if Before(b, a) {
      BeforeTransitive(a, b, a);
      BeforeIrreflexive(a);
    }
  }

  ghost predicate Sorted(s: seq<string>) {
    forall i, j | 0 <= i < j < |s| :: !Before(s[j], s[i])
  }

  lemma SortedCons(head: string, tail: seq<string>)
    requires Sorted(tail) && forall y | y in tail :: !Before(y, head)
    ensures Sorted([head] + tail)
  {
    var s := [head] + tail;
    forall i, j | 0 <= i < j < |s|
      ensures !Before(s[j], s[i])
    {
      assert s[j] == tail[j - 1];
      if i > 0 { assert s[i] == tail[i - 1]; }
    }
  }

  lemma HeadIsLeast(s: seq<string>, y: string)
    requires Sorted(s) && s != [] && y in s
    ensures !Before(y, s[0])
  {
    var j :| 0 <= j < |s| && s[j] == y;
    if j == 0 { BeforeIrreflexive(y); }
  }

  function Insert(x: string, s: seq<string>): (r: seq<string>)
    requires Sorted(s)
    ensures multiset(r) == multiset(s) + multiset{x}
  {
    if s == [] then [x]
    else if Before(s[0], x) then
      assert s == [s[0]] + s[1..];
      [s[0]] + Insert(x, s[1..])
    else [x] + s
  }

  lemma {:induction false} InsertSorted(x: string, s: seq<string>)
    requires Sorted(s)
    ensures Sorted(Insert(x, s))
  {
    if s == [] {
    } else if Before(s[0], x) {
      InsertSorted(x, s[1..]);
      var rest := Insert(x, s[1..]);
      forall y | y in rest
        ensures !Before(y, s[0])
      {
        assert y in multiset(rest);
        assert multiset(rest) == multiset(s[1..]) + multiset{x};
        if y in s[1..] { HeadIsLeast(s, y); } else { BeforeAsymmetric(s[0], x); }
      }
      SortedCons(s[0], rest);
    } else {
      forall y | y in s
        ensures !Before(y, x)
      {
        HeadIsLeast(s, y);
        if Before(y, x) {
          BeforeTotal(s[0], x);
          if s[0] != x { BeforeTransitive(y, x, s[0]); }
        }
      }
      SortedCons(x, s);
    }
  }

  /** `std::sort` on names. */
  function SortNames(s: seq<string>): (r: seq<string>)
    ensures Sorted(r) && multiset(r) == multiset(s)
  {
    if s == [] then [] else
      assert s == [s[0]] + s[1..];
      InsertSorted(s[0], SortNames(s[1..]));
      Insert(s[0], SortNames(s[1..]))
  }
}
