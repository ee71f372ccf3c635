/** `build_workflow`: the nine-node graph of the document question-answering agent, the
    transition function it compiles to, and runs of it under a bound on node executions. */
module Workflow {
  import opened Wrappers
  import opened GraphState
  import Retrieval
  import Grading
  import Extraction
  import GithubAnalysis
  import Routing
  import EmailNode
  import Answer

  datatype Node =
    | Retrieve | GradeDocuments | ExtractContact | AnalyzeGithub | Debug
    | ExtractCgpa | CheckCgpa | SendEmail | Generate

  /** Where an edge leads: another node or `END`. */
  datatype Target = To(node: Node) | End

  /** A compiled graph: declared nodes, entry point, unconditional edges, and conditional
      edges given as a map from the `route` value to the target. */
  datatype Graph = Graph(
    nodes: set<Node>,
    entry: Node,
    edges: map<Node, Target>,
    branches: map<Node, map<string, Target>>)

  predicate Declared(nodes: set<Node>, t: Target) {
    t == End || t.node in nodes
  }

  /** The graph under construction (`StateGraph(GraphState)`). */
  class StateGraph {
    var nodes: set<Node>
    var entry: Option<Node>
    var edges: map<Node, Target>
    var branches: map<Node, map<string, Target>>

    constructor ()
      ensures nodes == {} && entry == None && edges == map[] && branches == map[]
    {
      nodes, entry, edges, branches := {}, None, map[], map[];
    }

    /** `add_node(name, fn)`; a name declared twice is rejected (`ok` is false). */
    method AddNode(n: Node) returns (ok: bool)
      modifies this
      ensures ok == (n !in old(nodes))
      ensures nodes == old(nodes) + {n}
      ensures entry == old(entry) && edges == old(edges) && branches == old(branches)
    {
      ok := n !in nodes;
      nodes := nodes + {n};
    }

    /** `set_entry_point(name)`. */
    method SetEntryPoint(n: Node)
      modifies this
      ensures entry == Some(n)
      ensures nodes == old(nodes) && edges == old(edges) && branches == old(branches)
    {
      entry := Some(n);
    }

    /** `add_edge(a, b)`. */
    method AddEdge(a: Node, b: Target)
      modifies this
      ensures edges == old(edges)[a := b]
      ensures nodes == old(nodes) && entry == old(entry) && branches == old(branches)
    {
      edges := edges[a := b];
    }

    /** `add_conditional_edges(a, lambda state: state["route"], path_map)`. */
    method AddConditionalEdges(a: Node, pathMap: map<string, Target>)
      modifies this
      ensures branches == old(branches)[a := pathMap]
      ensures nodes == old(nodes) && entry == old(entry) && edges == old(edges)
    {
      branches := branches[a := pathMap];
    }

    /** `compile()`: succeeds when the entry point is set and every edge joins declared
        nodes (or `END`). */
    function Compile(): (g: Option<Graph>)
      reads this
      ensures g.Some? <==> entry.Some? && WellFormed(Graph(nodes, entry.value, edges, branches))
      ensures g.Some? ==> WellFormed(g.value) && g.value.nodes == nodes && Some(g.value.entry) == entry
                          && g.value.edges == edges && g.value.branches == branches
    {
      if entry.Some? && WellFormed(Graph(nodes, entry.value, edges, branches))
      then Some(Graph(nodes, entry.value, edges, branches))
      else None
    }
  }

  /** The checks `compile()` makes: the entry point is declared and every edge joins
      declared nodes (or `END`). */
  predicate WellFormed(g: Graph) {
    && g.entry in g.nodes
    && g.edges.Keys <= g.nodes
    && g.branches.Keys <= g.nodes
    && (forall a :: a in g.edges ==> Declared(g.nodes, g.edges[a]))
    && (forall a, k :: a in g.branches && k in g.branches[a] ==> Declared(g.nodes, g.branches[a][k]))
  }

  const AllNodes: set<Node> :=
    {Retrieve, GradeDocuments, ExtractContact, AnalyzeGithub, Debug, ExtractCgpa, CheckCgpa, SendEmail, Generate}

  /** The graph `build_workflow` compiles, written out as a table. */
  function Workflow(): Graph {
    Graph(
      AllNodes,
      Retrieve,
      map[Retrieve := To(GradeDocuments)]
        [ExtractContact := To(AnalyzeGithub)]
        [AnalyzeGithub := To(Debug)]
        [Debug := To(ExtractCgpa)]
        [ExtractCgpa := To(CheckCgpa)]
        [SendEmail := To(Generate)]
        [Generate := End],
      map[GradeDocuments := map["generate" := To(ExtractContact), "retrieve" := To(Retrieve)]]
        [CheckCgpa := map["send_email" := To(SendEmail), "generate" := To(Generate)]])
  }

  /** `compile()` accepts the table. */
  lemma WorkflowWellFormed()
    ensures WellFormed(Workflow())
  {
  }

  /** The `add_node` calls of `build_workflow`: every name is new. */
  method AddWorkflowNodes(w: StateGraph) returns (allNew: bool)
    requires w.nodes == {}
    modifies w
    ensures allNew && w.nodes == AllNodes
    ensures w.entry == old(w.entry) && w.edges == old(w.edges) && w.branches == old(w.branches)
  {
    var ok1 := w.AddNode(Retrieve);
    var ok2 := w.AddNode(GradeDocuments);
    var ok3 := w.AddNode(ExtractContact);
    var ok4 := w.AddNode(AnalyzeGithub);
    var ok5 := w.AddNode(Debug);
    var ok6 := w.AddNode(ExtractCgpa);
    var ok7 := w.AddNode(CheckCgpa);
    var ok8 := w.AddNode(SendEmail);
    var ok9 := w.AddNode(Generate);
    allNew := ok1 && ok2 && ok3 && ok4 && ok5 && ok6 && ok7 && ok8 && ok9;
  }

  /** The `add_edge` and `add_conditional_edges` calls of `build_workflow`. */
  method AddWorkflowEdges(w: StateGraph)
    requires w.edges == map[] && w.branches == map[]
    modifies w
    ensures w.edges == Workflow().edges && w.branches == Workflow().branches
    ensures w.nodes == old(w.nodes) && w.entry == old(w.entry)
  {
    w.AddEdge(Retrieve, To(GradeDocuments));
    w.AddConditionalEdges(GradeDocuments, map["generate" := To(ExtractContact), "retrieve" := To(Retrieve)]);

    w.AddEdge(ExtractContact, To(AnalyzeGithub));
    w.AddEdge(AnalyzeGithub, To(Debug));
    w.AddEdge(Debug, To(ExtractCgpa));
    w.AddEdge(ExtractCgpa, To(CheckCgpa));
    w.AddConditionalEdges(CheckCgpa, map["send_email" := To(SendEmail), "generate" := To(Generate)]);
    w.AddEdge(SendEmail, To(Generate));
    w.AddEdge(Generate, End);
  }

  /** `build_workflow`: declares the nodes, the entry point and the edges, then compiles;
      the result is the table above. */
  method BuildWorkflow() returns (g: Option<Graph>, allNew: bool)
    ensures allNew
    ensures g == Some(Workflow())
  {
    var w := new StateGraph();
    allNew := AddWorkflowNodes(w);
    w.SetEntryPoint(Retrieve);
    AddWorkflowEdges(w);
    WorkflowWellFormed();
    g := w.Compile();
  }

  /** The successor of `n` given the state `n` returned: a conditional edge looks up
      `state["route"]` in its path map, and a missing or unmapped route has no successor
      (the run fails). */
  function Next(g: Graph, n: Node, s: State): Option<Target> {
    if n in g.branches then
      if s.route.Some? && s.route.value in g.branches[n] then Some(g.branches[n][s.route.value]) else None
    else if n in g.edges then Some(g.edges[n])
    else None
  }

  /** What each node does. `debug` (`print_state`) only prints, so it is the identity. */
  function Exec(n: Node, s: State, sv: Services): Step {
    match n
    case Retrieve => Retrieval.RetrieveNode(s, sv)
    case GradeDocuments => Grading.GradeNode(s, sv)
    case ExtractContact => Extraction.ExtractContactNode(s, sv)
    case AnalyzeGithub => GithubAnalysis.AnalyzeGithubNode(s, sv)
    case Debug => Step(s, [])
    case ExtractCgpa => Extraction.ExtractCgpaNode(s, sv)
    case CheckCgpa => Step(Routing.CheckCgpaNode(s), [])
    case SendEmail => EmailNode.SendEmailNode(s)
    case Generate => Answer.GenerateNode(s, sv)
  }

  /** The node functions registered with `add_node`, as the compiled graph calls them. */
  function Actions(sv: Services): (Node, State) -> Step {
    (n: Node, s: State) => Exec(n, s, sv)
  }

  /** A node execution and the state it was given. */
  datatype Visit = Visit(node: Node, input: State)

  datatype Outcome =
    | Finished(final: State)
    | OutOfFuel(pending: Node, state: State)
    | NoRoute(after: Node, state: State)

  datatype Run = Run(outcome: Outcome, visits: seq<Visit>)

  /** A node execution followed by the rest of a run. */
  function Prepend(v: Visit, rest: Run): Run {
    Run(rest.outcome, [v] + rest.visits)
  }

  /** The external calls the node executions `vs` make, in order. */
  function CallsOf(act: (Node, State) -> Step, vs: seq<Visit>): seq<Call> {
    if vs == [] then [] else CallsOf(act, vs[..|vs| - 1]) + act(vs[|vs| - 1].node, vs[|vs| - 1].input).calls
  }

  /** The compiled graph's transition function. */
  function NextOf(g: Graph): (Node, State) -> Option<Target> {
    (n: Node, x: State) => Next(g, n, x)
  }

  /** Running a graph with transitions `nx` and node actions `act` from node `n`, with at
      most `fuel` node executions. */
  function RunFrom(nx: (Node, State) -> Option<Target>, act: (Node, State) -> Step, n: Node, s: State, fuel: nat): Run
    decreases fuel
  {
    if fuel == 0 then Run(OutOfFuel(n, s), [])
    else
      var st := act(n, s);
      match nx(n, st.state)
      case None => Run(NoRoute(n, st.state), [Visit(n, s)])
      case Some(End) => Run(Finished(st.state), [Visit(n, s)])
      case Some(To(m)) => Prepend(Visit(n, s), RunFrom(nx, act, m, st.state, fuel - 1))
  }

  /** A run preceded by the node executions `done`. */
  function Continued(done: seq<Visit>, rest: Run): Run {
    Run(rest.outcome, done + rest.visits)
  }

  /** One more node execution, after `done`. */
  lemma ContinuedStep(nx: (Node, State) -> Option<Target>, act: (Node, State) -> Step, n: Node, s: State, fuel: nat, done: seq<Visit>)
    requires fuel > 0
    ensures var st := act(n, s);
            var whole := Continued(done, RunFrom(nx, act, n, s, fuel));
            match nx(n, st.state)
            case None => whole == Run(NoRoute(n, st.state), done + [Visit(n, s)])
            case Some(End) => whole == Run(Finished(st.state), done + [Visit(n, s)])
            case Some(To(m)) => whole == Continued(done + [Visit(n, s)], RunFrom(nx, act, m, st.state, fuel - 1))
  {
    var st := act(n, s);
    if nx(n, st.state).Some? && nx(n, st.state).value.To? {
      var rest := RunFrom(nx, act, nx(n, st.state).value.node, st.state, fuel - 1);
      assert done + ([Visit(n, s)] + rest.visits) == (done + [Visit(n, s)]) + rest.visits;
    }
  }

  lemma CallsSnoc(act: (Node, State) -> Step, vs: seq<Visit>, v: Visit)
    ensures CallsOf(act, vs + [v]) == CallsOf(act, vs) + act(v.node, v.input).calls
  {
    assert (vs + [v])[..|vs|] == vs;
  }

  /** `app.invoke(inputs)`: executes nodes from the entry point, following edges, until
      `END`, a failed route lookup, or `fuel` executions; `calls` are the external calls
      made on the way. */
  method Invoke(g: Graph, act: (Node, State) -> Step, s0: State, fuel: nat) returns (r: Run, calls: seq<Call>)
    ensures r == RunFrom(NextOf(g), act, g.entry, s0, fuel)
    ensures calls == CallsOf(act, r.visits)
  {
    var n, s, budget := g.entry, s0, fuel;
    var visits: seq<Visit> := [];
    calls := [];
    while true
      invariant calls == CallsOf(act, visits)
      invariant RunFrom(NextOf(g), act, g.entry, s0, fuel) == Continued(visits, RunFrom(NextOf(g), act, n, s, budget))
      decreases budget
    {
      if budget == 0 {
        return Run(OutOfFuel(n, s), visits), calls;
      }
      var st := act(n, s);
      var next := Next(g, n, st.state);
      assert NextOf(g)(n, st.state) == next;
      ContinuedStep(NextOf(g), act, n, s, budget, visits);
      CallsSnoc(act, visits, Visit(n, s));
      visits := visits + [Visit(n, s)];
      calls := calls + st.calls;
      match next
      case None =>
        return Run(NoRoute(n, st.state), visits), calls;
      case Some(End) =>
        return Run(Finished(st.state), visits), calls;
      case Some(To(m)) =>
        n, s, budget := m, st.state, budget - 1;
    }
  }

  /** Builds the workflow and runs it on `s0`. */
  method RunWorkflow(s0: State, sv: Services, fuel: nat) returns (r: Run, calls: seq<Call>)
    ensures r == RunFrom(NextOf(Workflow()), Actions(sv), Retrieve, s0, fuel)
    ensures calls == CallsOf(Actions(sv), r.visits)
  {
    var g, _ := BuildWorkflow();
    r, calls := Invoke(g.value, Actions(sv), s0, fuel);
  }

  // ------------------------------------------------------------------ graph shape

  /** Position of each target along the main path. */
  function Rank(t: Target): nat {
    match t
    case End => 9
    case To(n) =>
      match n
      case Retrieve => 0
      case GradeDocuments => 1
      case ExtractContact => 2
      case AnalyzeGithub => 3
      case Debug => 4
      case ExtractCgpa => 5
      case CheckCgpa => 6
      case SendEmail => 7
      case Generate => 8
  }

  /** The workflow's transitions as a table: the successor of each node given the route
      it wrote. */
  function Route(n: Node, route: Option<string>): Option<Target> {
    match n
    case Retrieve => Some(To(GradeDocuments))
    case GradeDocuments =>
      if route == Some("generate") then Some(To(ExtractContact))
      else if route == Some("retrieve") then Some(To(Retrieve))
      else None
    case ExtractContact => Some(To(AnalyzeGithub))
    case AnalyzeGithub => Some(To(Debug))
    case Debug => Some(To(ExtractCgpa))
    case ExtractCgpa => Some(To(CheckCgpa))
    case CheckCgpa =>
      if route == Some("send_email") then Some(To(SendEmail))
      else if route == Some("generate") then Some(To(Generate))
      else None
    case SendEmail => Some(To(Generate))
    case Generate => Some(End)
  }

  /** The compiled graph moves exactly as the table says. */
  lemma CompiledRoutes(n: Node, x: State)
    ensures Next(Workflow(), n, x) == Route(n, x.route)
  {
    var g := Workflow();
    match n
    case GradeDocuments =>
      assert n in g.branches && g.branches[n] == map["generate" := To(ExtractContact), "retrieve" := To(Retrieve)];
    case CheckCgpa =>
      assert n in g.branches && g.branches[n] == map["send_email" := To(SendEmail), "generate" := To(Generate)];
    case _ =>
      assert n !in g.branches;
  }

  /** `nx` moves as the workflow table says. */
  ghost predicate Follows(nx: (Node, State) -> Option<Target>) {
    forall n, x :: nx(n, x) == Route(n, x.route)
  }

  lemma WorkflowFollows()
    ensures Follows(NextOf(Workflow()))
  {
    forall n, x ensures NextOf(Workflow())(n, x) == Route(n, x.route) {
      CompiledRoutes(n, x);
    }
  }

  /** Every transition moves forward along the main path except one, grading back to
      retrieval; `END` is reached only from `generate`. */
  lemma TransitionsMoveForward(n: Node, route: Option<string>, t: Target)
    requires Route(n, route) == Some(t)
    ensures Rank(t) <= Rank(To(n)) ==> n == GradeDocuments && t == To(Retrieve)
    ensures t == End ==> n == Generate
  {
  }

  // ------------------------------------------------------------------ node behaviour

  /** The passages retrieval yields for a state's question (none for an empty question). */
  function Retrieved(s: State, sv: Services): seq<string> {
    if Question(s) == "" then [] else sv.retriever(Question(s))
  }

  /** The relevant passages the first grading finds. */
  function FirstRelevant(s: State, sv: Services): seq<string> {
    Grading.Relevant(Question(s), Retrieved(s, sv), sv)
  }

  /** The two conditional nodes write a route their path map knows. */
  ghost predicate RoutesKnown(act: (Node, State) -> Step) {
    && (forall s {:trigger act(GradeDocuments, s)} :: act(GradeDocuments, s).state.route == Some("retrieve") || act(GradeDocuments, s).state.route == Some("generate"))
    && (forall s {:trigger act(CheckCgpa, s)} :: act(CheckCgpa, s).state.route == Some("send_email") || act(CheckCgpa, s).state.route == Some("generate"))
  }

  /** The CGPA check writes "send_email" exactly above the threshold. */
  ghost predicate CgpaRoutes(act: (Node, State) -> Step) {
    forall s {:trigger act(CheckCgpa, s)} :: act(CheckCgpa, s).state.route == Some("send_email") <==> s.ugCgpa.Some? && s.ugCgpa.value > Routing.Threshold
  }

  /** Retrieval keeps the question and loads the passages retrieved for it; grading keeps
      the question and writes "retrieve" exactly when no passage is relevant. */
  ghost predicate LoopRoutes(act: (Node, State) -> Step, sv: Services) {
    && (forall s {:trigger act(Retrieve, s)} :: Question(act(Retrieve, s).state) == Question(s) && Documents(act(Retrieve, s).state) == Retrieved(s, sv))
    && (forall s {:trigger act(GradeDocuments, s)} :: Question(act(GradeDocuments, s).state) == Question(s))
    && (forall s {:trigger act(GradeDocuments, s)} :: act(GradeDocuments, s).state.route == Some("retrieve") <==> Grading.Relevant(Question(s), Documents(s), sv) == [])
  }

  /** Grading routes to "generate" only with passages kept. */
  ghost predicate GenerateHasDocuments(act: (Node, State) -> Step) {
    forall s {:trigger act(GradeDocuments, s)} :: act(GradeDocuments, s).state.route == Some("generate") ==> Documents(act(GradeDocuments, s).state) != []
  }

  /** The workflow's node functions behave as runs depend on. */
  lemma ActionsBehave(sv: Services)
    ensures RoutesKnown(Actions(sv)) && CgpaRoutes(Actions(sv))
    ensures LoopRoutes(Actions(sv), sv) && GenerateHasDocuments(Actions(sv))
  {
    var act := Actions(sv);
    forall s ensures Question(act(Retrieve, s).state) == Question(s) && Documents(act(Retrieve, s).state) == Retrieved(s, sv) {
      assert act(Retrieve, s) == Retrieval.RetrieveNode(s, sv);
    }
    forall s ensures Question(act(GradeDocuments, s).state) == Question(s)
      && (act(GradeDocuments, s).state.route == Some("retrieve") || act(GradeDocuments, s).state.route == Some("generate"))
      && (act(GradeDocuments, s).state.route == Some("retrieve") <==> Grading.Relevant(Question(s), Documents(s), sv) == [])
      && (act(GradeDocuments, s).state.route == Some("generate") ==> Documents(act(GradeDocuments, s).state) != [])
    {
      assert act(GradeDocuments, s) == Grading.GradeNode(s, sv);
    }
    forall s ensures (act(CheckCgpa, s).state.route == Some("send_email") || act(CheckCgpa, s).state.route == Some("generate"))
      && (act(CheckCgpa, s).state.route == Some("send_email") <==> s.ugCgpa.Some? && s.ugCgpa.value > Routing.Threshold)
    {
      assert act(CheckCgpa, s).state == Routing.CheckCgpaNode(s);
    }
  }

  /** After any node the route lookup succeeds. */
  lemma AlwaysRoutes(act: (Node, State) -> Step, n: Node, s: State)
    requires RoutesKnown(act)
    ensures Route(n, act(n, s).state.route).Some?
  {
  }

  // ------------------------------------------------------------------ runs

  /** A run never fails on routing, and a run that finishes has executed `generate` last. */
  lemma {:induction false} RunsEndInGenerate(nx: (Node, State) -> Option<Target>, act: (Node, State) -> Step, n: Node, s: State, fuel: nat)
    requires Follows(nx) && RoutesKnown(act)
    ensures !RunFrom(nx, act, n, s, fuel).outcome.NoRoute?
    ensures RunFrom(nx, act, n, s, fuel).outcome.Finished? ==>
              var v := RunFrom(nx, act, n, s, fuel).visits; |v| > 0 && v[|v| - 1].node == Generate
    decreases fuel
  {
    if fuel > 0 {
      var st := act(n, s);
      AlwaysRoutes(act, n, s);
      var t := Route(n, st.state.route).value;
      TransitionsMoveForward(n, st.state.route, t);
      if t.To? {
        RunsEndInGenerate(nx, act, t.node, st.state, fuel - 1);
      }
    }
  }

  /** A run through an unconditional edge `n -> m`. */
  lemma EdgeStep(nx: (Node, State) -> Option<Target>, act: (Node, State) -> Step, n: Node, m: Node, s: State, fuel: nat)
    requires Follows(nx)
    requires fuel > 0 && n != GradeDocuments && n != CheckCgpa && Route(n, None) == Some(To(m))
    ensures RunFrom(nx, act, n, s, fuel) == Prepend(Visit(n, s), RunFrom(nx, act, m, act(n, s).state, fuel - 1))
  {
  }

  /** From `check_cgpa`, `END` follows after one or two more node executions: `generate`,
      preceded by `send_email` exactly when the CGPA is above the threshold. */
  lemma CheckCgpaFinishes(nx: (Node, State) -> Option<Target>, act: (Node, State) -> Step, s: State, fuel: nat)
    requires Follows(nx) && RoutesKnown(act) && CgpaRoutes(act)
    requires fuel >= 3
    ensures var r := RunFrom(nx, act, CheckCgpa, s, fuel);
            var above := s.ugCgpa.Some? && s.ugCgpa.value > Routing.Threshold;
            && r.outcome.Finished?
            && |r.visits| == (if above then 3 else 2)
            && r.visits[0].node == CheckCgpa
            && r.visits[1].node == (if above then SendEmail else Generate)
            && r.visits[|r.visits| - 1].node == Generate
  {
    var s1 := act(CheckCgpa, s).state;
    if s.ugCgpa.Some? && s.ugCgpa.value > Routing.Threshold {
      assert Route(CheckCgpa, s1.route) == Some(To(SendEmail));
      EdgeStep(nx, act, SendEmail, Generate, s1, fuel - 1);
    } else {
      assert Route(CheckCgpa, s1.route) == Some(To(Generate));
    }
  }

  /** Past grading every transition moves forward, so a run from any later node finishes
      within the remaining ranks. */
  lemma {:induction false} ForwardFinishes(nx: (Node, State) -> Option<Target>, act: (Node, State) -> Step, n: Node, s: State, fuel: nat)
    requires Follows(nx) && RoutesKnown(act)
    requires Rank(To(n)) >= 2 && fuel >= 9 - Rank(To(n))
    ensures RunFrom(nx, act, n, s, fuel).outcome.Finished?
    ensures 0 < |RunFrom(nx, act, n, s, fuel).visits| <= 9 - Rank(To(n))
    decreases 9 - Rank(To(n))
  {
    var st := act(n, s);
    AlwaysRoutes(act, n, s);
    var t := Route(n, st.state.route).value;
    TransitionsMoveForward(n, st.state.route, t);
    if t.To? {
      ForwardFinishes(nx, act, t.node, st.state, fuel - 1);
    }
  }

  /** When the first grading finds a relevant passage, the run goes on to
      `extract_contact` and finishes within nine node executions. */
  lemma RelevantRunFinishes(nx: (Node, State) -> Option<Target>, act: (Node, State) -> Step, sv: Services, s0: State, fuel: nat)
    requires Follows(nx) && RoutesKnown(act) && LoopRoutes(act, sv)
    requires FirstRelevant(s0, sv) != []
    requires fuel >= 9
    ensures var r := RunFrom(nx, act, Retrieve, s0, fuel);
            && r.outcome.Finished?
            && 3 <= |r.visits| <= 9
            && r.visits[0].node == Retrieve && r.visits[1].node == GradeDocuments
            && r.visits[2].node == ExtractContact
  {
    var s1 := act(Retrieve, s0).state;
    var s2 := act(GradeDocuments, s1).state;
    assert s2.route == Some("generate");
    ForwardFinishes(nx, act, ExtractContact, s2, fuel - 2);
    EdgeStep(nx, act, Retrieve, GradeDocuments, s0, fuel);
  }

  /** A run that has only alternated between retrieval and grading and is still going. */
  predicate StaysInLoop(r: Run) {
    && r.outcome.OutOfFuel?
    && forall i :: 0 <= i < |r.visits| ==> r.visits[i].node == Retrieve || r.visits[i].node == GradeDocuments
  }

  /** With no relevant passage in the first grading, the graph alternates between
      retrieval and grading until the bound runs out: the same question retrieves the same
      passages, which grade the same way. */
  lemma {:induction false} IrrelevantRunLoops(nx: (Node, State) -> Option<Target>, act: (Node, State) -> Step, sv: Services, s: State, fuel: nat)
    requires Follows(nx) && LoopRoutes(act, sv)
    requires FirstRelevant(s, sv) == []
    ensures StaysInLoop(RunFrom(nx, act, Retrieve, s, fuel))
    decreases fuel, 1
  {
    if fuel > 0 {
      EdgeStep(nx, act, Retrieve, GradeDocuments, s, fuel);
      GradingLoops(nx, act, sv, act(Retrieve, s).state, fuel - 1);
    }
  }

  /** The grading half of the loop above. */
  lemma {:induction false} GradingLoops(nx: (Node, State) -> Option<Target>, act: (Node, State) -> Step, sv: Services, s: State, fuel: nat)
    requires Follows(nx) && LoopRoutes(act, sv)
    requires Documents(s) == Retrieved(s, sv) && FirstRelevant(s, sv) == []
    ensures StaysInLoop(RunFrom(nx, act, GradeDocuments, s, fuel))
    decreases fuel, 0
  {
    if fuel > 0 {
      var s1 := act(GradeDocuments, s).state;
      assert s1.route == Some("retrieve");
      assert nx(GradeDocuments, s1) == Some(To(Retrieve));
      IrrelevantRunLoops(nx, act, sv, s1, fuel - 1);
    }
  }

  /** A run finishes for some bound exactly when the first grading keeps a passage. */
  lemma TerminationCharacterised(nx: (Node, State) -> Option<Target>, act: (Node, State) -> Step, sv: Services, s0: State)
    requires Follows(nx) && RoutesKnown(act) && LoopRoutes(act, sv)
    ensures (exists fuel: nat :: RunFrom(nx, act, Retrieve, s0, fuel).outcome.Finished?) <==> FirstRelevant(s0, sv) != []
  {
    if FirstRelevant(s0, sv) != [] {
      RelevantRunFinishes(nx, act, sv, s0, 9);
    } else {
      forall fuel: nat ensures !RunFrom(nx, act, Retrieve, s0, fuel).outcome.Finished? {
        IrrelevantRunLoops(nx, act, sv, s0, fuel);
      }
    }
  }

  /** The built workflow finishes on some bound exactly when the first grading keeps a
      passage; in particular an empty question never finishes. */
  lemma WorkflowTermination(s0: State, sv: Services)
    ensures (exists fuel: nat :: RunFrom(NextOf(Workflow()), Actions(sv), Retrieve, s0, fuel).outcome.Finished?) <==> FirstRelevant(s0, sv) != []
    ensures Question(s0) == "" ==> forall fuel: nat :: RunFrom(NextOf(Workflow()), Actions(sv), Retrieve, s0, fuel).outcome.OutOfFuel?
  {
    ActionsBehave(sv);
    WorkflowFollows();
    TerminationCharacterised(NextOf(Workflow()), Actions(sv), sv, s0);
    if Question(s0) == "" {
      forall fuel: nat ensures RunFrom(NextOf(Workflow()), Actions(sv), Retrieve, s0, fuel).outcome.OutOfFuel? {
        IrrelevantRunLoops(NextOf(Workflow()), Actions(sv), sv, s0, fuel);
      }
    }
  }

  /** `extract_contact` is entered only on route "generate", so it always sees a non-empty
      list of passages. */
  lemma {:induction false} ExtractContactSeesDocuments(nx: (Node, State) -> Option<Target>, act: (Node, State) -> Step, n: Node, s: State, fuel: nat)
    requires Follows(nx) && RoutesKnown(act) && GenerateHasDocuments(act)
    requires n == ExtractContact ==> Documents(s) != []
    ensures var v := RunFrom(nx, act, n, s, fuel).visits;
            forall i :: 0 <= i < |v| && v[i].node == ExtractContact ==> Documents(v[i].input) != []
    decreases fuel
  {
    if fuel > 0 {
      var st := act(n, s);
      AlwaysRoutes(act, n, s);
      var t := Route(n, st.state.route).value;
      if t.To? {
        if t.node == ExtractContact {
          assert n == GradeDocuments && st.state.route == Some("generate");
        }
        ExtractContactSeesDocuments(nx, act, t.node, st.state, fuel - 1);
        assert var w := RunFrom(nx, act, t.node, st.state, fuel - 1).visits;
            forall i :: 0 <= i < |w| && w[i].node == ExtractContact ==> Documents(w[i].input) != [];
        var rest := RunFrom(nx, act, t.node, st.state, fuel - 1);
        assert nx(n, st.state) == Some(t);
        var v := RunFrom(nx, act, n, s, fuel).visits;
        assert v == [Visit(n, s)] + rest.visits;
        forall i | 0 <= i < |v| && v[i].node == ExtractContact ensures Documents(v[i].input) != [] {
          if i == 0 {
            assert v[i] == Visit(n, s);
          } else {
            assert v[i] == rest.visits[i - 1];
          }
        }
      }
    }
  }

  /** On the built workflow with its node functions: no run fails on routing, a finished
      run ends with `generate`, and `extract_contact` always sees passages. */
  lemma WorkflowRuns(s0: State, sv: Services, fuel: nat)
    ensures var r := RunFrom(NextOf(Workflow()), Actions(sv), Retrieve, s0, fuel);
            && !r.outcome.NoRoute?
            && (r.outcome.Finished? ==> |r.visits| > 0 && r.visits[|r.visits| - 1].node == Generate)
            && (forall i :: 0 <= i < |r.visits| && r.visits[i].node == ExtractContact ==> Documents(r.visits[i].input) != [])
  {
    ActionsBehave(sv);
    WorkflowFollows();
    RunsEndInGenerate(NextOf(Workflow()), Actions(sv), Retrieve, s0, fuel);
    ExtractContactSeesDocuments(NextOf(Workflow()), Actions(sv), Retrieve, s0, fuel);
  }

  /** On the built workflow, the step after `check_cgpa` is `send_email` exactly when the
      CGPA is above the threshold, and the run then finishes. */
  lemma WorkflowAlertsAboveThreshold(s: State, sv: Services, fuel: nat)
    requires fuel >= 3
    ensures var c := RunFrom(NextOf(Workflow()), Actions(sv), CheckCgpa, s, fuel);
            && c.outcome.Finished? && |c.visits| >= 2
            && (c.visits[1].node == SendEmail <==> s.ugCgpa.Some? && s.ugCgpa.value > Routing.Threshold)
  {
    ActionsBehave(sv);
    WorkflowFollows();
    CheckCgpaFinishes(NextOf(Workflow()), Actions(sv), s, fuel);
  }
}
