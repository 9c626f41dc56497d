# Verification of the RB10 RMPflow controller

A Dafny model of the controller's core and proofs about it. The arithmetic is over `real`; what the program takes
from libraries (`exp`, `sqrt`, `sin`, `cos`, `tanh`, `log1p`, the kinematics of the robot model) enters as functions
or values with stated facts. Imperative code is modelled by methods and classes that are proved equal to a
specification function; the properties are then proved about that function.

- **Graph solver.** `RmpConfig` and `TopologicalOrder` are the configured graph and its evaluation order. `TaskExpr`
  and `TaskMaps` are the task-map language and its compiled maps; `ChainRule`, `TaskGraph`, `NodeEvaluator` and
  `GraphBuild` are the interpreter that evaluates position, Jacobian, velocity and curvature of every node, `GraphSizes`
  and `SizeWitness` its row counts against the inferred dimensions. `GraphExact`, `CollisionExact` and `PolynomialGraph`
  say that these numbers are true derivatives, by Taylor expansions with a bounded remainder (`Calculus`, `Elementary`).
  `RmpLeaves`, `DefiniteSystem` and `DirectSolver` are the leaf policies, the accumulated root system and its resolution,
  `AxisBoost` the boost of its axis leaves. `EigenSolver`, `GraphRefinement` and `DefaultGraph` relate the interpreter to
  the hand-written solver.
- **Kinematics and geometry.** `Kinematics` and `ArmModel` are the forward chain, its Jacobians and the sensor points;
  `FloorSafety` is the floor check; `RaySensor` the simulated range sensors.
- **Control loop.** `ControlLoop` is the loop object, `SimulationLoop` closes it over the simulation backend and
  `HeldState` asks what its held state promises on the arm. `FlagGate` interleaves the loop with the callbacks;
  `FlagHistory` says over all runs what those interleavings do, `FlagTraces` and `FloorWitness` exhibit runs.
  `VelocityFilter` is the synchronized velocity filter.
- **Servo link.** `ServoProtocol` interleaves the control, data, servo and command-read threads; `FrameReader` is the
  byte-stream reader over short reads.
- **Learning.** `Network`, `Backprop`, `Derivative`, `BackpropExact`, `Trainer`, `FeatureLayout` and `SpecBuild` are the
  two-layer policy, its hand-written gradient, the optimizer and the output layout with the features it is built from.

`Exact(f, g, q, qd)` in `ChainRule` is the meaning of a node geometry `g` for the map `f`: along every path with
velocity `qd` and any acceleration `qdd`, `f` has value `g.x`, first derivative `g.velocity = J qd` and second
derivative `J qdd + curvature`, as the coefficients of a second-order expansion with a cubic remainder. It
has at most one witness (`ChainRule.ExactUnique`), so an exact geometry is fixed completely; the interpreter's numbers
are compared with derivatives, not with another formula.

Where a promised property does not hold of the code, the code is kept and the condition under which it holds is proved
exactly; where a failing input is not plain from the condition, a lemma exhibits one:

- A penetrating collision row keeps its Jacobian and drops its velocity (`CollisionExact.PenetratingVelocity`; an input
  in `CollisionExact.PenetratingFails`).
- The joint-limit node ignores its parent's Jacobian, so it is right only over a root-like parent
  (`GraphExact.JointLimitExact`, `GraphExact.JointLimitFails`).
- `collision_distance` has one row per point and obstacle; its inferred dimension is right only for one obstacle
  (`GraphSizes.CollisionDimension`). The bias of an affine node is trusted before its matrix
  (`TaskMaps.InferredDimension`). A node named "root" overwrites the root's state but not its dimension. The built solver
  is called with a wrong size exactly when a compiled map reads such a node (`GraphSizes.BuiltSolver`,
  `GraphSizes.DimensionsAgree`, `SizeWitness.JoinedFails`, `SizeWitness.ReplacedRootFails`); unread, they do no harm
  (`GraphSizes.UnreadCollisions`).
- The learning interface counts 33 points, the solver 20 (`TaskMaps.LearningInferenceDiffers`). The two infer the same
  dimensions exactly on graphs that count no points (`SpecBuild.SameDimensions`), and always off that branch
  (`SpecBuild.OffBranch`).
- The interpreter and the hand-written solver give penetrating rows different velocities, so their root metrics differ by
  those rows' gap terms, and agree exactly when these add up to zero (`DefaultGraph.GraphMetricGap`).
- The boost of an axis leaf needs the cached tool position. A root-level leaf gets it exactly when its node does not sort
  before `tcp_position` (`AxisBoost.BoostReachesIff`); the default graph's own `tcp_orientation`, made an axis target,
  never does, and its root metric differs for it (`AxisBoost.OrientedRun`, `AxisBoost.MissingBoostIff`,
  `AxisBoost.MissingBoostMatters`).
- `softplus` has a shortcut above 20 that the gradient does not know (`BackpropExact.GradientRightIff` for one example,
  `BackpropExact.BatchRightIff` for a batch, `BackpropExact.ShortcutCounterexample`).
- The held "safe" state is stored after the guard and is not checked again. It passes every floor check that let the tick
  through exactly when the guard had nothing to shorten (`HeldState.HeldPassesIff`); on the arm itself it can be below the
  floor (`HeldState.HeldMayViolate`).
- One command can be applied after a deactivation, exactly when that comes between the tick's flag check and its command
  (`FlagHistory.LateCommandIff`, `FlagTraces.LateCommandHappens`); there is never a second (`FlagGate.GateSafe`).
- Switching the flag off in mid-tick skips the floor check of the prediction, exactly when it is off at the prediction
  step (`FlagHistory.FloorSkippedIff`); a pose below the floor can be commanded that way (`FloorWitness.CommandBelowFloor`).
- A quick off and on of the flag keeps the old virtual state, exactly when the loop stores it after the callback has
  forgotten it and makes no standby pass before the next tick (`FlagHistory.OldVirtualInUseIff`,
  `FlagTraces.OldVirtualHappens`).
- The trigger flag is cleared before it is read, so the "previous" value is always false
  (`FlagGate.PreviousTriggerAlwaysFalse`).
- The accounting of servo responses holds unless a stopping client passes the gate with a response outstanding
  (`ServoProtocol.AccountedIff`, `ServoProtocol.StoppingLosesOne`).
- A range sample without a hit still contributes its own shortened limit to the published range
  (`RaySensor.ReadingIsHitIff`), so an empty scene does not read as the maximum range.

## Model

| member | source | states |
|---|---|---|
| TopologicalOrder.BuildTopologicalOrder | src/pinocchio_direct_solver.cpp:28-96 | It fails exactly on a duplicate enabled name, else exactly on a parent that is neither root nor enabled, else exactly when some non-empty enabled set has a parent inside itself for every member; otherwise it returns the least-ready order |
| TopologicalOrder.CollectEnabled | src/pinocchio_direct_solver.cpp:30-40 | The name index exists exactly when enabled names are distinct, and indexes exactly the enabled nodes |
| TopologicalOrder.CountEdges | src/pinocchio_direct_solver.cpp:48-61 | The counting pass succeeds exactly when all parents are present; in-degrees count parent entries with duplicates, and the edge lists hold each edge as often as it is listed |
| TopologicalOrder.ReleaseChildren | src/pinocchio_direct_solver.cpp:78-89 | Subtracting the edges of the node just taken leaves each in-degree equal to its parent entries not yet taken, and the ready list equal to the untaken nodes of in-degree zero |
| TopologicalOrder.DrainReady | src/pinocchio_direct_solver.cpp:74-90 | The loop takes nodes greedily, least name first, and what it leaves over is a cycle |
| TopologicalOrder.OrderIsPermutation | src/pinocchio_direct_solver.cpp:92-95 | A least-ready order lists every enabled node exactly once |
| TopologicalOrder.ParentsFirst | src/pinocchio_direct_solver.cpp:82-88 | Every parent other than the root comes before its child |
| TopologicalOrder.OrderUnique | src/pinocchio_direct_solver.cpp:63-90 | The order is determined by the graph, hence independent of hash iteration order and of the order of the configuration list |
| TopologicalOrder.OrderExcludesCycle | src/pinocchio_direct_solver.cpp:92-94 | A graph that can be ordered has no cycle |
| RmpConfig.SortNames | src/pinocchio_direct_solver.cpp:70 | Sorting keeps the multiset of names and orders it |
| TaskMaps.RowMeaning | src/casadi_task_graph.cpp:81-226 | Each compiled row, evaluated on the stacked parents, is scale times the documented vector value of the map, for all map types, with scalar broadcasting |
| TaskMaps.InferredDimension | src/pinocchio_direct_solver.cpp:398-459 | The inferred dimension is the real number of rows if and only if the node is well formed: no affine map whose bias disagrees with its matrix, no broadcast led by a scalar |
| TaskMaps.LearningInferenceDiffers | src/rmp_learning_interface.cpp:12-19 | The two copies of the dimension inference disagree on exactly the control-point and collision maps (33 points against 20) |
| TaskExpr.ExprSmooth | src/casadi_task_graph.cpp:56-72 | Along every smooth curve, an expression of the task-map language has exactly the first and second derivative that its gradient and directional second derivative predict |
| ChainRule.MapExact | src/pinocchio_direct_solver.cpp:791-834 | The chain rule of the interpreter: if the parents have true velocity and acceleration, so has the mapped node, with velocity J qd and second derivative J qdd + curvature |
| ChainRule.StackExact | src/casadi_task_graph.cpp:19-27 | Stacking exact parents is exact |
| ChainRule.ExactUnique | src/pinocchio_direct_solver.cpp:791-834 | A map has only one exact geometry, so exactness fixes position, Jacobian, velocity and curvature |
| NodeEvaluator.CallCompiled | src/casadi_task_graph.cpp:41-78 | The compiled function accumulates the velocity block by block and returns value, velocity, local curvature and one Jacobian block per parent |
| NodeEvaluator.EvaluateCasadiNode | src/pinocchio_direct_solver.cpp:791-834 | Adding each parent's chained Jacobian and curvature block by block gives the geometry of the stacked map, or the dimension error |
| NodeEvaluator.EvaluateJointLimits | src/pinocchio_direct_solver.cpp:505-529 | The two rows per joint written in the loop are the joint-limit geometry |
| NodeEvaluator.EvaluateCollision | src/pinocchio_direct_solver.cpp:592-672 | The double loop pushes one row per point and obstacle, in that order |
| NodeEvaluator.EvaluateAxis | src/pinocchio_direct_solver.cpp:549-568 | The column loop of the orientation axis gives the axis geometry |
| NodeEvaluator.FlattenPoints | src/pinocchio_direct_solver.cpp:570-590 | The loops that flatten the sensor points put their positions, Jacobians, velocities and curvatures one behind another |
| NodeEvaluator.EvaluateNativeNode | src/pinocchio_direct_solver.cpp:494-789 | The dispatch on native map types: every branch computed where it stands or by its loops, with every error |
| NodeEvaluator.EvaluateNodeState | src/pinocchio_direct_solver.cpp:471-492 | A node is evaluated from the cached geometries of its parents, native or compiled, with every error |
| CollisionExact.EvalCollision | src/pinocchio_direct_solver.cpp:633-660 | The clearance formula is an expression of the map language at every point, penetrating or not |
| CollisionExact.PenetratingVelocity | src/pinocchio_direct_solver.cpp:650-663 | A penetrating row keeps its Jacobian but has velocity zero; it satisfies velocity = J qd if and only if the point moves neither towards nor away from the obstacle centre |
| CollisionExact.PenetratingFails | src/pinocchio_direct_solver.cpp:650-663 | Five centimetres from an obstacle of ten and moving away along the first joint, the row has a velocity other than J qd |
| CollisionExact.CollisionRowExact | src/pinocchio_direct_solver.cpp:640-672 | Away from the two kinks, a collision row is exact if and only if the point is clear of the obstacle or the Jacobian row it keeps is zero |
| CollisionExact.CollisionRowsExact | src/pinocchio_direct_solver.cpp:592-672 | With no penetrating row, the whole collision node is exact for any number of obstacles |
| GraphExact.AxisExact | src/pinocchio_direct_solver.cpp:549-568 | The cross-product formulas of the orientation axis are exact for a rigid-body link |
| GraphExact.JointLimitExact | src/pinocchio_direct_solver.cpp:505-529 | The joint-limit node writes unit rows whatever its parent is; it is exact if and only if the parent is root-like |
| GraphExact.JointLimitFails | src/pinocchio_direct_solver.cpp:505-529 | Over an affine node that doubles the joint positions the joint-limit node is wrong at every q and qd |
| GraphExact.NodeExact | src/pinocchio_direct_solver.cpp:471-492 | One step of the interpreter keeps every cached geometry exact |
| GraphExact.GraphIsExact | src/pinocchio_direct_solver.cpp:253-271 | For every list of nodes, every q, qd and qdd, given a context with the true kinematics and a run that is regular (no map at a point where it is not differentiable, no penetrating row, no joint limits over another node than a root-like one): each evaluated node has velocity J qd and true second derivative J qdd + curvature |
| GraphExact.PolynomialRun | src/casadi_task_graph.cpp:81-226 | Graphs of polynomial maps meet the regularity condition of the previous row at every state, so for them only the true kinematics remain as a hypothesis |
| PolynomialGraph.PolynomialGraphExact | src/pinocchio_direct_solver.cpp:201-267 | A built graph of well-formed polynomial maps and copies (none reading a node that replaced the root) evaluates at every state, and every cached geometry is exact, whatever the kinematics reports |
| GraphBuild.Build | src/pinocchio_direct_solver.cpp:201-224 | The constructor orders, infers and compiles; it fails with an ordering error exactly when the graph has no order |
| GraphBuild.NoMissingParent | src/pinocchio_direct_solver.cpp:471-492 | Evaluation in the built order never misses a parent |
| GraphSizes.MismatchIff | src/pinocchio_direct_solver.cpp:791-834 | For every list of compiled nodes, a run ends in a dimension mismatch if and only if it reaches a compiled map whose parents have other row counts than it was compiled for |
| GraphSizes.BuiltSolver | src/pinocchio_direct_solver.cpp:201-224 | For everything the constructor accepts and every number of obstacles: no parent is missing, and a run ends in a dimension mismatch if and only if it reaches a compiled map with a parent whose row count is not its inferred dimension; the row counts are known before the run |
| GraphSizes.CollisionDimension | src/pinocchio_direct_solver.cpp:414-416 | The inferred dimension of a collision node is its row count if and only if there is exactly one obstacle |
| GraphSizes.DimensionsAgree | src/pinocchio_direct_solver.cpp:207-213 | For every built graph, every number of obstacles and every run that goes through: the row count of a node is its inferred dimension if and only if the node is not odd (a collision node unless there is one obstacle, a map that is not well formed, a copy of an odd node, or a node named "root" with other than six rows) |
| GraphSizes.UnreadCollisions | src/pinocchio_direct_solver.cpp:207-224 | With well-formed maps, collision rows (and a node named "root") that no compiled map reads are harmless for any number of obstacles: no mismatch, and every other name has its inferred dimension |
| SizeWitness.JoinedFails | src/pinocchio_direct_solver.cpp:791-834 | A concat over a collision node: in every run of that accepted solver the compiled map is called with the wrong size if and only if there is not exactly one obstacle |
| SizeWitness.ReplacedRootFails | src/pinocchio_direct_solver.cpp:207-212 | An accepted configuration with a node named "root": its dimension stays six while its state is overwritten, and every run ends in a dimension mismatch |
| RmpLeaves.LeafTermsPsd | src/pinocchio_direct_solver.cpp:909-1351 | With non-negative gains and positive scales every metric that any leaf adds is symmetric positive semidefinite, external features included |
| RmpLeaves.GramPsd | src/pinocchio_direct_solver.cpp:872-907 | The external metric S S^T is symmetric positive semidefinite for every S |
| RmpLeaves.TargetMetricPsd | src/pinocchio_direct_solver.cpp:1129-1179 | The blended, boosted target metric is symmetric positive semidefinite |
| DefiniteSystem.UniqueSolution | src/pinocchio_direct_solver.cpp:157-176 | A definite system has at most one solution |
| DefiniteSystem.OffsetDefinite | src/pinocchio_direct_solver.cpp:165 | Adding a positive offset makes a semidefinite metric definite |
| DefiniteSystem.EliminateSolves | src/pinocchio_direct_solver.cpp:167-168 | Symmetric elimination solves every definite system |
| DirectSolver.RootSystem.AccumulateScalarLeaf | src/pinocchio_direct_solver.cpp:836-852 | Adds J^T m J and the canonical or natural force of one scalar row |
| DirectSolver.RootSystem.AccumulateVectorLeaf | src/pinocchio_direct_solver.cpp:854-870 | Adds J^T M J and J^T M (a - c), or J^T (M a - M c) |
| DirectSolver.RootSystem.AccumulateRows | src/pinocchio_direct_solver.cpp:1053-1127 | The loop over scalar rows adds the rows the policy does not skip |
| DirectSolver.RootSystem.AccumulateCspaceTarget | src/pinocchio_direct_solver.cpp:1020-1051 | The joint-space attractor, robust beyond its threshold, adds its one term |
| DirectSolver.RootSystem.AccumulateTarget | src/pinocchio_direct_solver.cpp:1129-1179 | The target leaf adds its blended and boosted term |
| DirectSolver.RootSystem.AccumulateAxisTarget | src/pinocchio_direct_solver.cpp:1181-1226 | The axis leaf adds its term, boosted when the distance is known |
| DirectSolver.RootSystem.AccumulateDamping | src/pinocchio_direct_solver.cpp:1328-1351 | The damping leaf adds its term |
| DirectSolver.RootSystem.AccumulateExternal | src/pinocchio_direct_solver.cpp:872-907 | The external leaf adds the metric S S^T of its regularised square root |
| DirectSolver.RootSystem.AccumulateLeaf | src/pinocchio_direct_solver.cpp:909-1018 | Adds exactly the terms of the leaf type; or reports the failure of that leaf and leaves metric and force as they were |
| DirectSolver.Solve | src/pinocchio_direct_solver.cpp:226-278 | One pass evaluates, caches and accumulates the two leaves of each node and resolves: the result, or the first error, of the specification |
| DirectSolver.RunEvaluates | src/pinocchio_direct_solver.cpp:253-271 | The leaves read exactly the geometries of the graph evaluation |
| DirectSolver.RootMetricPsd | src/pinocchio_direct_solver.cpp:836-870 | Pulling semidefinite metrics back through any Jacobians keeps the root metric semidefinite |
| DirectSolver.RootEnergy | src/pinocchio_direct_solver.cpp:836-870 | The quadratic form of the root metric is the sum of the leaf energies (J v).M(J v) |
| DirectSolver.NaturalRootForce | src/pinocchio_direct_solver.cpp:836-870 | Natural and canonical accumulation give the same force for every list of leaves |
| DirectSolver.SolvedMetricPsd | src/pinocchio_direct_solver.cpp:226-278 | For any graph, state and inputs the solved root metric is symmetric positive semidefinite |
| DirectSolver.LegalModesAgree | src/pinocchio_direct_solver.cpp:235-239 | All legal pairs of solve method and RMP type give the same result; direct with natural is refused |
| DirectSolver.ResolvedOnce | src/pinocchio_direct_solver.cpp:157-197 | A semidefinite root metric and a positive offset give a scaled system with exactly one solution, the one elimination finds |
| DirectSolver.ResolvedBound | src/pinocchio_direct_solver.cpp:157-197 | That solution satisfies offset * norm(qdd) <= norm(force) |
| DirectSolver.SolvedAcceleration | src/pinocchio_direct_solver.cpp:273-277 | The returned acceleration solves its own scaled root system and obeys the bound |
| AxisBoost.DistanceKnownIff | src/pinocchio_direct_solver.cpp:945-962 | At a node of the built order the distance to the goal is known if and only if the position target is enabled, its goal is given, and tcp_position is among the nodes evaluated so far, as a 3-vector |
| AxisBoost.ToolSeenIff | src/pinocchio_direct_solver.cpp:70-90 | A root-level tcp_position has been evaluated by the time of another root-level node if and only if that node does not come before it in name order |
| AxisBoost.BoostReachesIff | src/pinocchio_direct_solver.cpp:945-975 | With target and goal given, the term of a root-level axis leaf carries the boost for the tool distance if and only if its node does not come before tcp_position in name order |
| AxisBoost.OrientedOrder | include/rb10_rmpflow_rviz/rmp_eigen_solver.hpp:215-229 | The default graph with an axis target on tcp_orientation has one evaluation order, the axis before the tool |
| AxisBoost.OrientedRun | src/pinocchio_direct_solver.cpp:945-975 | Every run of that graph accumulates the axis leaf without the boost |
| AxisBoost.MissingBoostIff | src/pinocchio_direct_solver.cpp:1181-1226 | Its root metric is the boosted one if and only if the boost leaves the scalar as it is or the axis moves with no joint |
| AxisBoost.BoostChangesIff | src/pinocchio_direct_solver.cpp:1204-1215 | The boost changes the scalar if and only if the scalar is not zero and the boost factor is not one |
| AxisBoost.MissingBoostMatters | src/pinocchio_direct_solver.cpp:945-975 | A scene and configuration in which the two root metrics differ |
| EigenSolver.SolveScene | include/rb10_rmpflow_rviz/rmp_eigen_solver.hpp:277-308 | The hand-written solver resolves exactly the listed terms |
| GraphRefinement.FlatRoot | src/pinocchio_direct_solver.cpp:836-870 | Dropping curvatures leaves the metric and adds the sum of J^T M c to the force |
| GraphRefinement.RootPermuted | include/rb10_rmpflow_rviz/rmp_eigen_solver.hpp:287-292 | The order in which leaves are accumulated does not change the root system: equal multisets of terms give equal metrics and forces |
| GraphRefinement.CollisionRowsAgree | include/rb10_rmpflow_rviz/rmp_eigen_solver.hpp:495-555 | Row for row, clear or penetrating, the graph's collision rows are the hand-written rows with the row velocity the interpreter reports |
| DefaultGraph.DefaultOrder | include/rb10_rmpflow_rviz/rmp_eigen_solver.hpp:215-229 | The default graph is evaluated in one fixed order and no other |
| DefaultGraph.DefaultConstructed | src/pinocchio_direct_solver.cpp:201-224 | The constructor, given the default nodes in that order, infers their dimensions and compiles them |
| DefaultGraph.BuildDefault | src/pinocchio_direct_solver.cpp:201-224 | Building the solver from the default configuration yields the compiled nodes that the next rows run |
| DefaultGraph.DefaultRun | include/rb10_rmpflow_rviz/rmp_eigen_solver.hpp:215-229 | A run over the default graph accumulates exactly the expected blocks of terms |
| DefaultGraph.GraphRefinesEigen | include/rb10_rmpflow_rviz/rmp_eigen_solver.hpp:277-308 | For every scene without a penetrating row whose point moves towards or away from its obstacle: one run of the interpreter over the default graph and the hand-written loops give the same root metric, and the hand-written force is the interpreter's plus the sum of J^T M curvature over its leaves |
| DefaultGraph.GraphMetricGap | include/rb10_rmpflow_rviz/rmp_eigen_solver.hpp:287-292 | For every scene, penetrating or not, the two root metrics differ by exactly the metrics of the gap terms, which vanish for clear rows: they agree if and only if those add up to zero |
| Kinematics.FrameActs | include/rb10_rmpflow_rviz/rb10_model.hpp:132-142 | The accumulated product of transforms carries points and vectors as the segments do one by one |
| Kinematics.FrameIsProper | include/rb10_rmpflow_rviz/rb10_model.hpp:200-283 | Every accumulated rotation keeps all inner and cross products |
| Kinematics.WithinReach | include/rb10_rmpflow_rviz/rb10_model.hpp:200-283 | The end of a chain is never further from the base than its offsets are long |
| Kinematics.ChainRate | include/rb10_rmpflow_rviz/rb10_model.hpp:144-156 | The recursive point velocity is the true derivative of the carried point in the joint angle |
| Kinematics.InsideJoint | include/rb10_rmpflow_rviz/rb10_model.hpp:144-156 | That derivative is axis x (point - origin) in world coordinates |
| ArmModel.ForwardContext | include/rb10_rmpflow_rviz/rb10_model.hpp:200-304 | Frames, joint origins and axes, link Jacobians, sensor points and their forward differences are those of the chain of segments |
| ArmModel.FillJacobian | include/rb10_rmpflow_rviz/rb10_model.hpp:144-156 | One cross product per active joint, zero columns for the rest |
| ArmModel.FillPoints | include/rb10_rmpflow_rviz/rb10_model.hpp:289-301 | The sensor points are computed from the stored parent frames, and their Jacobians by forward differences of the rebuilt position |
| ArmModel.LinkFrameFromQ | include/rb10_rmpflow_rviz/rb10_model.hpp:158-191 | The rebuilt frame equals the context's frame for the four supported parents, and exactly the other parents are refused |
| ArmModel.SensorPositionFromQ | include/rb10_rmpflow_rviz/rb10_model.hpp:193-198 | The rebuilt sensor position is the context's sensor point, and configured sensors are never refused |
| ArmModel.SensorsAgree | include/rb10_rmpflow_rviz/rb10_model.hpp:289-294 | Each stored sensor point is position + rotation * offset of its parent link and equals the rebuilt one |
| ArmModel.NumericalJacobian | include/rb10_rmpflow_rviz/rb10_model.hpp:321-334 | One perturbed evaluation per joint gives the columns of differences over the step |
| ArmModel.DifferenceError | include/rb10_rmpflow_rviz/rb10_model.hpp:321-334 | Each column of differences is off the true derivative of the sensor point by at most a multiple of the step, for all steps small enough |
| ArmModel.IdleColumns | include/rb10_rmpflow_rviz/rb10_model.hpp:321-334 | The joints that do not carry the sensor have zero columns, exactly |
| ArmModel.RotationsOrthonormal | include/rb10_rmpflow_rviz/rb10_model.hpp:200-283 | Every link rotation is proper, with orthonormal right-handed columns |
| ArmModel.ToolWithinReach | include/rb10_rmpflow_rviz/rb10_model.hpp:262-280 | tcp and tcp_rmp coincide and lie within the sum of the arm's offset lengths of the base, tcp_gripper within that sum plus its own offset |
| ArmModel.LinkWithinReach | include/rb10_rmpflow_rviz/rb10_model.hpp:200-287 | Every link lies within the sum of the offset lengths that lead to it |
| ArmModel.JacobianExact | include/rb10_rmpflow_rviz/rb10_model.hpp:200-287 | Column j of every link Jacobian is the derivative of the link position in joint j, for all links and joints, although only the joints before the link are counted |
| ControlLoop.Configured | src/rmpflow_controller_node.cpp:1108-1123 | The clamped parameters satisfy the configuration invariant, in particular guard step <= guard velocity * dt |
| ControlLoop.Controller.EstimateVelocity | src/rmpflow_controller_node.cpp:2403-2422 | The estimator state and its low-passed finite difference |
| ControlLoop.Controller.ApplyGuard | src/rmpflow_controller_node.cpp:2541-2569 | The loop clamps position steps around the measurement and velocities in absolute terms, and reports whether any joint was over its bound by more than the tolerance |
| ControlLoop.Controller.Control | src/rmpflow_controller_node.cpp:2678-2700 | Blending of measured and virtual state, with the velocity dropped when configured |
| ControlLoop.Controller.RunActive | src/rmpflow_controller_node.cpp:2671-2776 | The body past the gates: hold, solve, integrate, check, guard, store |
| ControlLoop.Controller.Run | src/rmpflow_controller_node.cpp:2583-2785 | A full pass with its three early exits changes the stored states exactly as the tick function says |
| ControlLoop.GuardedBetween | src/rmpflow_controller_node.cpp:2541-2569 | The guarded joint lies between measurement and command, moves by at most the step, and reaches the command when it is that close |
| ControlLoop.ActiveTickBounds | src/rmpflow_controller_node.cpp:2671-2776 | One active tick keeps command and held state within the joint limits and within one step of the measurement |
| ControlLoop.CommandsBounded | src/rmpflow_controller_node.cpp:2583-2785 | Over every run, measurements within the limits give commands within the limits, each at most max_velocity * dt per joint from its measurement, held and guarded ones included |
| SimulationLoop.SimulationBackend.ApplyCommand | src/rmpflow_controller_node.cpp:363-369 | A command becomes the state read next |
| SimulationLoop.TickOnce | src/rmpflow_controller_node.cpp:349-374 | Controller and simulation backend together take one step of the closed loop |
| SimulationLoop.SimulationBounded | src/rmpflow_controller_node.cpp:349-374 | In simulation the initial pose within limits is enough for every later pose, and n ticks move a joint at most n * max_velocity * dt |
| SimulationLoop.Recovery | src/rmpflow_controller_node.cpp:2726-2768 | Over a stretch of triggered ticks the held state never changes and each joint distance shrinks by the guard step until zero |
| SimulationLoop.RecoveredAtRest | src/rmpflow_controller_node.cpp:2726-2768 | After as many ticks as cover the largest distance the arm rests at the held state with zero velocity |
| SimulationLoop.TicksNeeded | src/rmpflow_controller_node.cpp:2541-2548 | n ticks cover a distance exactly when n is at least distance / step |
| HeldState.GuardedUnchangedIff | src/rmpflow_controller_node.cpp:2541-2569 | The guard leaves the predicted pose as it is if and only if it is within the guard step of the measurement in every joint |
| HeldState.HeldPassesIff | src/rmpflow_controller_node.cpp:2750-2768 | For an open tick with measurement and prediction given, the stored held state passes every floor check that lets the tick through if and only if the prediction is within the guard step of the measurement in every joint |
| HeldState.FloorCheckIs | src/rmpflow_controller_node.cpp:2521-2539 | With the other floors out of reach of the arm, the floor check of a pose is the height of link 6 |
| HeldState.Link6Height | include/rb10_rmpflow_rviz/rb10_model.hpp:200-283 | The height of link 6 with shoulder and elbow bent, from the offsets of the arm |
| HeldState.HeldMayViolate | src/rmpflow_controller_node.cpp:2750-2768 | On the arm's own frames and within its joint limits: measurement and prediction are above the floor, the tick goes through, and the state it then holds is below the floor |
| FlagGate.GateSafe | src/rmpflow_controller_node.cpp:2608-2654 | Under every interleaving with the gate enabled, a command comes only after an active flag and a goal, and two commands after a deactivation are separated by a reactivation |
| FlagHistory.LateCommandIff | src/rmpflow_controller_node.cpp:1328-1343 | Over every run with the gate enabled, a command about to be applied has passed the flag check, and is late if and only if a deactivation came after that check with no reactivation since |
| FlagTraces.LateCommandHappens | src/rmpflow_controller_node.cpp:1328-1343 | From the start, for every configuration and environment whose measurement and first prediction are above the floor: a run in which a command is applied after the deactivation |
| FlagGate.StandbyStays | src/rmpflow_controller_node.cpp:2608-2630 | Once the loop has idled through standby nothing is applied or stored until the flag returns |
| FlagHistory.VirtualIs | src/rmpflow_controller_node.cpp:2678-2695 | Over every run the virtual state is what the last step that writes it left |
| FlagHistory.OldVirtualInUseIff | src/rmpflow_controller_node.cpp:1337-1342 | At the first blending after the flag went off and on there is a virtual state if and only if a command was kept after the callback had forgotten, with no standby pass in between; it is then that command, of a tick that passed its flag check before the deactivation |
| FlagTraces.OldVirtualHappens | src/rmpflow_controller_node.cpp:1337-1342 | From the start, for the same configurations and environments: a run that blends the command from before the deactivation |
| FlagHistory.FloorSkippedIff | src/rmpflow_controller_node.cpp:2521-2525 | Over every run a low prediction is let through if and only if the flag was off when it was made, and the measured pose was above the floor or the flag was off when that was checked; without a trigger the command is the guarded prediction |
| FlagTraces.LowCommandHappens | src/rmpflow_controller_node.cpp:2521-2525 | From the start, for every configuration and environment whose measurement is above the floor and whose first prediction is below it: a run in which that prediction is applied |
| FloorWitness.CommandBelowFloor | src/rmpflow_controller_node.cpp:2521-2525 | On the arm's own frames, from the start and with the measured pose above the floor: a run whose applied command is itself below the floor |
| FlagGate.PreviousTriggerAlwaysFalse | src/rmpflow_controller_node.cpp:2711-2729 | The trigger flag is cleared before it is read, so the value read is always false |
| FlagGate.InterleavedCommandsBounded | src/rmpflow_controller_node.cpp:1328-1343 | Joint limits and step bounds of every command survive any interleaving with the callbacks |
| FlagGate.TickAlone | src/rmpflow_controller_node.cpp:2571-2785 | Thirteen undisturbed steps are one sequential tick: same stored states, same command |
| FloorSafety.LinkIndexFromName | src/rmpflow_controller_node.cpp:1914-1922 | Finds the link of that name or fails exactly when there is none |
| FloorSafety.BoxMinimum | src/rmpflow_controller_node.cpp:1959-1972 | The three nested loops compute the minimum over the eight corners |
| FloorSafety.CornersSuffice | src/rmpflow_controller_node.cpp:1959-1972 | That minimum is the exact minimum over the whole rotated box |
| FloorSafety.BallBottom | src/rmpflow_controller_node.cpp:1948-1950 | Centre height minus radius is the exact minimum over the ball |
| FloorSafety.BodyMinimum | src/rmpflow_controller_node.cpp:1944-1973 | The lowest height of a guard body, or an error exactly for an unknown link name |
| FloorSafety.ComputeMetrics | src/rmpflow_controller_node.cpp:1991-2011 | The four minima over links, joints, sensor spheres and guard bodies |
| FloorSafety.ViolatesMinZSafety | src/rmpflow_controller_node.cpp:2521-2539 | When enabled and active, a negative answer means nothing is below its floor; for non-negative radii a positive answer means something is |
| VelocityFilter.WindowLength | src/rmpflow_controller_node.cpp:110-136 | The window is the rounded rate ratio, at least one, whatever the tolerance; the tolerance decides only the alignment flag |
| VelocityFilter.SynchronizedVelocityFilter.Reset | src/rmpflow_controller_node.cpp:138-152 | Restart at a sample |
| VelocityFilter.SynchronizedVelocityFilter.Update | src/rmpflow_controller_node.cpp:154-214 | One sample changes the filter exactly as the specification says, and the sample counter stays below the window length |
| VelocityFilter.SynchronizedVelocityFilter.CloseWindow | src/rmpflow_controller_node.cpp:177-208 | A full window smooths or tracks and empties the window |
| VelocityFilter.WindowCount | src/rmpflow_controller_node.cpp:172-208 | After k valid samples since the restart the counter is k modulo the window length, and output starts with the first full window |
| VelocityFilter.ConstantVelocityExact | src/rmpflow_controller_node.cpp:154-214 | At constant velocity, for any valid gaps and in both modes, the output is zero before the first full window and exactly that velocity from it on |
| VelocityFilter.MovingAverageHull | src/rmpflow_controller_node.cpp:195-202 | In moving-average mode every output lies, joint by joint, in the hull of the raw velocities since the restart |
| ServoProtocol.HandedInOrder | src/rmpflow_controller_node.cpp:685-744 | Under every interleaving the vectors handed to the sender are queued vectors at strictly increasing positions: none duplicated, invented or reordered |
| ServoProtocol.OneOutstanding | src/rb10_socket_client.cpp:161-210 | While the client runs, issued commands equal acknowledgements plus timeouts plus failures plus the pending bit, so no two await a response together |
| ServoProtocol.StoppingLosesOne | src/rb10_socket_client.cpp:168-180 | Once the client is stopping, the gate opens with a response outstanding and that command is lost: a reachable run |
| ServoProtocol.AccountedIff | src/rb10_socket_client.cpp:161-210 | Over every run that accounting is right if and only if no stopping client passed the gate with a response outstanding |
| ServoProtocol.AtMostTwoSends | src/rmpflow_controller_node.cpp:766-773 | After the mailbox was cleared for a stop and while it lasts, at most two commands are sent; one if none was past the safety check, none if the servo thread was also idle |
| ServoProtocol.TwoSendsHappen | src/rmpflow_controller_node.cpp:661-684 | The bound of two is reached |
| ServoProtocol.ClearingIsBlocked | src/rmpflow_controller_node.cpp:765-768 | The mailbox is cleared only while the stop is active |
| FrameReader.DataSocket.Recv | src/rb10_socket_client.cpp:451-471 | A short read takes a prefix of the stream, no more than has arrived; the connection ends only when nothing is left to take |
| FrameReader.DataSocket.RecvByte | src/rb10_socket_client.cpp:473-489 | One byte or nothing |
| FrameReader.DataSocket.RecvExact | src/rb10_socket_client.cpp:451-471 | The whole length out of any short reads and retries, or less than that length and failure |
| FrameReader.DataSocket.ReadNext | src/rb10_socket_client.cpp:352-414 | One pass takes a byte that starts nothing, an impossible header, or a whole packet, and delivers exactly the payload that the bytes taken complete |
| FrameReader.DataSocket.ReadDataLoop | src/rb10_socket_client.cpp:352-414 | However the stream is split and whenever the connection ends, the delivered payloads are those of the bytes taken, and a running client takes every byte that arrives before the end |
| FrameReader.ParseEncoded | src/rb10_socket_client.cpp:352-414 | Any frames of valid payload length, separated by any bytes but the start byte, deliver exactly the state payloads in order, even when payloads contain the start byte |
| FrameReader.ParseMonotone | src/rb10_socket_client.cpp:352-414 | What has been delivered stays delivered when more bytes arrive |
| FrameReader.BadHeader | src/rb10_socket_client.cpp:381-388 | A header with an impossible length costs its four bytes and nothing else |
| FrameReader.DeliveredInOrder | src/rb10_socket_client.cpp:352-414 | Any part of an encoded stream delivers a prefix of the state payloads, the whole stream all of them |
| FrameReader.AllDelivered | src/rb10_socket_client.cpp:352-414 | When as many bytes arrive before the end as the stream has, in pieces of any sizes and with any retries, what the reader took delivers all state payloads |
| Network.UnflattenFlatten | src/rmp_learning_stack.cpp:72-105 | Setting the parameters just read changes nothing, for every shape |
| Network.FlattenUnflatten | src/rmp_learning_stack.cpp:72-105 | Reading the parameters just set returns them |
| Network.MlpResidualPolicy.Parameters | src/rmp_learning_stack.cpp:72-86 | The four column-major blocks copied one behind another |
| Network.MlpResidualPolicy.SetParameters | src/rmp_learning_stack.cpp:88-105 | Replaces every block, or refuses a wrong length and changes nothing |
| Backprop.SupervisedBatchStats | src/rmp_learning_stack.cpp:190-262 | The loops compute the mean loss and the backpropagated gradient in flat layout |
| BackpropExact.PullBackAdjoint | src/rmp_learning_stack.cpp:231-239 | Backpropagation is the adjoint of forward differentiation for every network, input, output gradient and direction |
| BackpropExact.SoftplusRate | src/rmp_learning_stack.cpp:264-275 | The slope of softplus: the sigmoid below its shortcut, one above |
| BackpropExact.BatchRate | src/rmp_learning_stack.cpp:190-262 | With the true slot slopes the directional derivative of the reported loss is the inner product with the gradient, scalings included |
| BackpropExact.GradientExact | src/rmp_learning_stack.cpp:190-262 | The reported gradient gives the directional derivative of the reported loss for every network, batch and direction, provided diagonal outputs above 20 meet their targets and none sits on the jump |
| BackpropExact.FlatGradientExact | src/rmp_learning_stack.cpp:190-262 | The same for flat parameter vectors, as the optimizer moves |
| BackpropExact.GradientRightIff | src/rmp_learning_stack.cpp:264-275 | For one example off the jump the reported gradient is right in all directions if and only if every diagonal output above 20 meets its target |
| BackpropExact.BatchRightIff | src/rmp_learning_stack.cpp:190-262 | For every batch off the jump the reported gradient is right in all directions if and only if it equals the gradient computed with the true slopes |
| BackpropExact.ShortcutCounterexample | src/rmp_learning_stack.cpp:264-275 | A concrete network whose reported gradient is not the derivative |
| Trainer.Step | src/rmp_learning_stack.cpp:277-290 | One optimizer step: weight decay, clipping, and the new parameters |
| Trainer.ClipBound | src/rmp_learning_stack.cpp:283-288 | Clipping only shortens; the update is no longer than the limit, or the floor below which the program does not clip |
| Trainer.StepDescends | src/rmp_learning_stack.cpp:277-290 | Unless the gradient vanishes, every small enough step without weight decay strictly lowers the loss of its batch |
| Trainer.TrainEpoch | src/rmp_learning_stack.cpp:292-318 | An epoch steps batch by batch and returns the mean of the losses measured before each step, with its two early exits |
| Trainer.EpochBatches | src/rmp_learning_stack.cpp:305-316 | The number of batches is the sample count divided by the batch size, rounded up |
| Trainer.BatchesCover | src/rmp_learning_stack.cpp:307-311 | The batches put end to end are the samples |
| FeatureLayout.BuildSpecs | src/rmp_learning_interface.cpp:148-193 | Given the inferred dimensions: fails exactly on two external nodes with one key and two dimensions; otherwise keys are sorted and distinct and cover every enabled external node once |
| SpecBuild.InferNodeDim | src/rmp_learning_interface.cpp:84-146 | The learning interface's dimension of a node from those of its parents, with every failing lookup |
| SpecBuild.BuildExternalFeatureSpecs | src/rmp_learning_interface.cpp:148-193 | From the configuration alone: the ordering errors exactly, then a failed inference exactly, then inconsistent dimensions exactly; otherwise one spec per key, covering every enabled external node |
| SpecBuild.SameDimensions | src/rmp_learning_interface.cpp:84-146 | On every graph of distinct names that the solver accepts, both programs infer the same dimensions if and only if no node, one named "root" aside, counts points |
| SpecBuild.OffBranch | src/rmp_learning_interface.cpp:84-146 | On every graph the solver accepts, both programs agree on every name that neither counts points nor is built on one that does |
| SpecBuild.InferenceFails | src/rmp_learning_interface.cpp:84-146 | Where the learning interface fails on a graph the solver accepts, an affine node reads that branch |
| SpecBuild.SpecDimension | src/rmp_learning_interface.cpp:148-193 | The feature spec of an external node off that branch has the dimension the solver gives the node |
| FeatureLayout.CoveringKeysDistinct | src/rmp_learning_interface.cpp:148-193 | The specs have distinct keys, which the round trip below needs |
| FeatureLayout.Decode | src/rmp_learning_stack.cpp:141-158 | The offset loop fills acceleration and diagonal metric of each spec |
| FeatureLayout.FlattenTargets | src/rmp_learning_stack.cpp:160-188 | The offset loop writes both blocks of each spec, zeros for absent targets, and fails on wrong sizes |
| FeatureLayout.FlattenDecode | src/rmp_learning_stack.cpp:141-188 | Flattening a decoded output is the identity on acceleration slots and softplus plus the floor on diagonal slots |
| FeatureLayout.SelfTargetsLossless | src/rmp_learning_stack.cpp:190-262 | An output supervised by its own decoded features has zero loss |
| RaySensor.IntersectionExact | src/tof_ray_visualizer.cpp:291-318 | An intersection is reported if and only if the centre is at least min_range ahead and the ray meets the surface within range; the distance is the first such point |
| RaySensor.NearestHitDistance | src/tof_ray_visualizer.cpp:272-289 | The least of the ray limit and all intersections |
| RaySensor.SensorRaysAreUnit | src/tof_ray_visualizer.cpp:212-214 | A rotated sensor frame sends out unit rays, as the intersection needs |
| RaySensor.RepresentativeRange | src/tof_ray_visualizer.cpp:228-242 | The least of the maximum range, all sample limits and all hits |
| RaySensor.PublishedRange | src/tof_ray_visualizer.cpp:320-333 | That value clamped to the sensor range |
| RaySensor.ReadingIsHitIff | src/tof_ray_visualizer.cpp:228-242 | The representative range is the least of the maximum range and the hits, for all scenes, if and only if no sample ray is shorter than the maximum range |
| RaySensor.EmptyScene | src/tof_ray_visualizer.cpp:272-289 | With nothing in view the shortest ray is reported |
| RaySensor.BuildSamples | src/tof_ray_visualizer.cpp:140-169 | The sample grid, row by row |
| RaySensor.GridIsCutShort | src/tof_ray_visualizer.cpp:140-169 | A grid with corners and an edge ratio below one has rays shorter than the maximum range |

## Left out

- Floating point: rounding, overflow, NaN and infinite values, and the fallbacks that test for them
  (`completeOrthogonalDecomposition`, zeroing a non-finite acceleration).
- The `ldlt` factorisation: the resolved acceleration is the solution by symmetric elimination, proved to be the only
  one when the offset is positive and the metric semidefinite; for other systems the program's answer is not modelled.
- Pinocchio and URDF parsing: what the solver reads about frames enters as a context; `GraphExact.ContextExact` and
  `GraphExact.Rotates` state what true kinematics give. The Jacobians of `rb10_model.hpp` are proved instead of assumed.
- The sensor-point Jacobians of `rb10_model.hpp` are modelled as the forward differences they are
  (`ArmModel.NumericalJacobian`). They are within a multiple of the step of the derivative for all steps small enough
  (`ArmModel.DifferenceError`); how small is enough, and whether the program's 1e-5 is, is not stated.
- CasADi internals: a compiled map is a list of expressions with symbolic gradients. Not modelled: negative slice starts
  that it counts from the end.
- GraphSizes.MismatchIff: every call of a compiled map with another size than the declared one is a mismatch here. CasADi
  itself rejects it only from two rows on: it takes an empty argument for zeros and repeats a single row, and the run then
  breaks at the next product, of the map's Jacobian with the parent's shorter one.
- Divisions by zero of the leaf formulas: `RmpLeaves.Over` and `Elementary.Reciprocal` are total; the theorems that need
  a denominator require it positive.
- Facts about `exp`, `sqrt`, `sin`, `cos`, `tanh` and `log1p` are the predicates `Elementary.Standard`,
  `Kinematics.Circular` and `BackpropExact.StandardActivations`; the functions themselves are parameters. The two floor
  witnesses also use that cosine is even and sine odd, and an angle whose cosine is below one (`HeldState.Mirrored`,
  `HeldState.Tilts`).
- Body obstacles in `collision_distance`: the interaction test always returns false, so that code is never reached.
- A network with no outputs: the batch statistics would divide by zero; the learning members require an output.
- `encode_observation` and the environment's reset and step: wrappers around the solver and the policy.
- The learning interface's copy of the ordering is the same code as the solver's and is modelled once.
- Real sockets, thread priorities, memory locking, sleeping and wall-clock time: short reads, timeouts, connection
  losses and interleavings are nondeterministic events. `ServoProtocol` lets a queued command be sent also when the
  connection was just lost, which only allows more runs.
- Parsing inside `parse_state_payload`: the reader is proved up to the payloads it hands over.
- ROS publishers, subscriptions, parameters, markers, TF and logging; the start-up goal and the start-up homing motion.
- Inside the loop model the floor check is an arbitrary function of the pose and the solver an arbitrary partial
  function; the floor check and the solver are modelled on their own, and every instance is covered.
- Interleavings of two callbacks: they run on one executor thread.
- The bridge nodes, the joint-state adapter, the Python tools, launch and configuration files.
