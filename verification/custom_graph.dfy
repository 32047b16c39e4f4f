/** The custom topology (core/orchestration/presets.py): the validator a graph passes when it is
    saved, and the interpreter that walks it. */
module CustomGraph {
  import opened Common

  /** The `type` of a node; `Other` is any string the documentation does not list. */
  datatype NodeType = Agent | Router | End | Other(name: string)

  /** `id` and `agentId` are empty when the graph does not give them. */
  datatype Node = Node(id: string, kind: NodeType, agentId: string)

  datatype Edge = Edge(from: string, to: string)

  datatype Graph = Graph(nodes: seq<Node>, edges: seq<Edge>, start: string, maxHops: Option<int>)

  const MAX_HOPS_DEFAULT := 20
  const MAX_HOPS_LIMIT := 60

  function Hops(graph: Graph): int {
    if graph.maxHops.Some? then graph.maxHops.value else MAX_HOPS_DEFAULT
  }

  // ---- Validation ---------------------------------------------------------------------

  datatype ConfigError =
    | MissingKey(key: string)
    | NodeWithoutId(position: nat)
    | DuplicateId(id: string)
    | NodeWithoutAgent(id: string)
    | UnknownStart(id: string)
    | EdgeFromUnknown(id: string)
    | EdgeToUnknown(id: string)
    | HopsOutOfRange(hops: int)
    | UnknownNode(id: string)
    | UnknownAgent(id: string)
    | RouterWithoutEdges(id: string)

  function NodeIds(nodes: seq<Node>): set<string> {
    set n | n in nodes :: n.id
  }

  predicate NeedsAgent(node: Node) {
    node.kind.Agent? || node.kind.Router?
  }

  ghost predicate NodesOk(nodes: seq<Node>) {
    && (forall i :: 0 <= i < |nodes| ==> nodes[i].id != "" && (NeedsAgent(nodes[i]) ==> nodes[i].agentId != ""))
    && (forall i, j :: 0 <= i < j < |nodes| ==> nodes[i].id != nodes[j].id)
  }

  ghost predicate EdgesOk(edges: seq<Edge>, ids: set<string>) {
    forall i :: 0 <= i < |edges| ==> edges[i].from in ids && (edges[i].to in ids || edges[i].to == "end")
  }

  /** What `validate_custom` accepts. */
  ghost predicate WellFormed(graph: Graph) {
    && graph.nodes != [] && graph.start != ""
    && NodesOk(graph.nodes)
    && graph.start in NodeIds(graph.nodes)
    && EdgesOk(graph.edges, NodeIds(graph.nodes))
    && 1 <= Hops(graph) <= MAX_HOPS_LIMIT
  }

  function AgentIds(nodes: seq<Node>): seq<string> {
    if nodes == [] then []
    else
      var last := nodes[|nodes| - 1];
      AgentIds(nodes[..|nodes| - 1]) + (if NeedsAgent(last) then [last.agentId] else [])
  }

  /** The complaint is about something that is in the graph. */
  ghost predicate Justified(graph: Graph, error: ConfigError) {
    match error
    case MissingKey(key) => (key == "nodes" && graph.nodes == []) || (key == "start" && graph.start == "")
    case UnknownStart(id) => id == graph.start && id !in NodeIds(graph.nodes)
    case EdgeFromUnknown(id) => id !in NodeIds(graph.nodes) && exists e :: e in graph.edges && e.from == id
    case EdgeToUnknown(id) => id !in NodeIds(graph.nodes) && id != "end" && exists e :: e in graph.edges && e.to == id
    case HopsOutOfRange(h) => h == Hops(graph) && !(1 <= h <= MAX_HOPS_LIMIT)
    case _ => NodeComplaint(graph.nodes, error)
  }

  ghost predicate NodeComplaint(nodes: seq<Node>, error: ConfigError) {
    match error
    case NodeWithoutId(p) => p < |nodes| && nodes[p].id == ""
    case DuplicateId(id) => exists i, j :: 0 <= i < j < |nodes| && nodes[i].id == nodes[j].id == id
    case NodeWithoutAgent(id) => exists n :: n in nodes && n.id == id && NeedsAgent(n) && n.agentId == ""
    case _ => false
  }

  lemma OneMoreNode(nodes: seq<Node>, k: nat)
    requires k < |nodes|
    ensures NodeIds(nodes[..k + 1]) == NodeIds(nodes[..k]) + {nodes[k].id}
    ensures AgentIds(nodes[..k + 1]) == AgentIds(nodes[..k]) + (if NeedsAgent(nodes[k]) then [nodes[k].agentId] else [])
    ensures nodes[k].id in NodeIds(nodes[..k]) ==> NodeComplaint(nodes, DuplicateId(nodes[k].id))
  {
    assert nodes[..k + 1] == nodes[..k] + [nodes[k]];
    if nodes[k].id in NodeIds(nodes[..k]) {
      var i :| 0 <= i < k && nodes[..k][i].id == nodes[k].id;
      assert nodes[i].id == nodes[k].id == nodes[k].id;
    }
  }

  /** The loop over the nodes. */
  method CheckNodes(nodes: seq<Node>) returns (r: Result<(set<string>, seq<string>), ConfigError>)
    ensures r.Ok? <==> NodesOk(nodes)
    ensures r.Ok? ==> r.value == (NodeIds(nodes), AgentIds(nodes))
    ensures r.Err? ==> NodeComplaint(nodes, r.error)
  {
    var nodeIds: set<string> := {};
    var agentIds: seq<string> := [];
    for position := 0 to |nodes|
      invariant NodesOk(nodes[..position])
      invariant nodeIds == NodeIds(nodes[..position]) && agentIds == AgentIds(nodes[..position])
    {
      var node := nodes[position];
      OneMoreNode(nodes, position);
      if node.id == "" {
        return Err(NodeWithoutId(position));
      }
      if node.id in nodeIds {
        return Err(DuplicateId(node.id));
      }
      nodeIds := nodeIds + {node.id};
      if NeedsAgent(node) {
        if node.agentId == "" {
          return Err(NodeWithoutAgent(node.id));
        }
        agentIds := agentIds + [node.agentId];
      }
      NodesOkStep(nodes, position);
    }
    assert nodes[..|nodes|] == nodes;
    return Ok((nodeIds, agentIds));
  }

  lemma NodesOkStep(nodes: seq<Node>, k: nat)
    requires k < |nodes| && NodesOk(nodes[..k]) && nodes[k].id !in NodeIds(nodes[..k])
    requires nodes[k].id != "" && (NeedsAgent(nodes[k]) ==> nodes[k].agentId != "")
    ensures NodesOk(nodes[..k + 1])
  {
    forall i | 0 <= i < k
      ensures nodes[i].id != nodes[k].id
    {
      assert nodes[..k][i] in nodes[..k];
    }
  }

  /** `validate_custom`: accepts exactly the well-formed graphs and names every agent that a
      node refers to. */
  method ValidateCustom(graph: Graph) returns (r: Result<seq<string>, ConfigError>)
    ensures r.Ok? <==> WellFormed(graph)
    ensures r.Ok? ==> r.value == AgentIds(graph.nodes)
    ensures r.Ok? ==> forall a :: a in r.value <==>
                        exists n :: n in graph.nodes && (n.kind.Agent? || n.kind.Router?) && n.agentId == a
    ensures r.Err? ==> Justified(graph, r.error)
  {
    if graph.nodes == [] {
      return Err(MissingKey("nodes"));
    }
    if graph.start == "" {
      return Err(MissingKey("start"));
    }
    var checked := CheckNodes(graph.nodes);
    if checked.Err? {
      return Err(checked.error);
    }
    var (nodeIds, agentIds) := checked.value;
    if graph.start !in nodeIds {
      return Err(UnknownStart(graph.start));
    }
    for k := 0 to |graph.edges|
      invariant EdgesOk(graph.edges[..k], nodeIds)
    {
      var edge := graph.edges[k];
      if edge.from !in nodeIds {
        return Err(EdgeFromUnknown(edge.from));
      }
      if edge.to !in nodeIds && edge.to != "end" {
        return Err(EdgeToUnknown(edge.to));
      }
    }
    if !(1 <= Hops(graph) <= MAX_HOPS_LIMIT) {
      return Err(HopsOutOfRange(Hops(graph)));
    }
    AllAgentsNamed(graph.nodes);
    return Ok(agentIds);
  }

  lemma {:induction false} AllAgentsNamed(nodes: seq<Node>)
    ensures forall a :: a in AgentIds(nodes) <==> exists n :: n in nodes && NeedsAgent(n) && n.agentId == a
  {
    if nodes != [] {
      var front, last := nodes[..|nodes| - 1], nodes[|nodes| - 1];
      AllAgentsNamed(front);
      assert nodes == front + [last];
      forall a
        ensures a in AgentIds(nodes) <==> exists n :: n in nodes && NeedsAgent(n) && n.agentId == a
      {
        if n :| n in nodes && NeedsAgent(n) && n.agentId == a && n != last {
          assert n in front;
        }
      }
    }
  }

  // ---- Interpretation -----------------------------------------------------------------

  /** The dictionary built from the nodes: of two with one id the later is kept. */
  function Lookup(nodes: seq<Node>, id: string): (r: Option<Node>)
    ensures r.Some? ==> r.value in nodes && r.value.id == id
    ensures r.None? <==> id !in NodeIds(nodes)
    ensures r.Some? ==> exists i :: 0 <= i < |nodes| && nodes[i] == r.value && forall j :: i < j < |nodes| ==> nodes[j].id != id
  {
    if nodes == [] then None
    else if nodes[|nodes| - 1].id == id then Some(nodes[|nodes| - 1])
    else
      assert nodes == nodes[..|nodes| - 1] + [nodes[|nodes| - 1]];
      Lookup(nodes[..|nodes| - 1], id)
  }

  /** The ends of the edges that leave `id`, in declared order. */
  function Targets(edges: seq<Edge>, id: string): (r: seq<string>)
    ensures forall to :: to in r <==> Edge(id, to) in edges
  {
    if edges == [] then []
    else
      var last := edges[|edges| - 1];
      assert edges == edges[..|edges| - 1] + [last];
      Targets(edges[..|edges| - 1], id) + (if last.from == id then [last.to] else [])
  }

  /** What a turn of the engine comes to: the agent's output, and for a router the option it
      names, or an exception that ends the run. */
  datatype Reply = Said(output: string, next: string) | Raised

  datatype Outcome =
    | Finished(path: seq<string>, exhausted: bool, finalOutput: string)
    | Failed(error: ConfigError, path: seq<string>)
    | Aborted(path: seq<string>)

  /** An unlisted option falls back to the first edge. */
  function Choice(targets: seq<string>, next: string): string
    requires targets != []
  {
    if next in targets || next == "end" then next else targets[0]
  }

  /** The rest of a run that stands at `current` after `hop` hops. */
  function Interpret(graph: Graph, agents: set<string>, replies: nat -> Reply, current: string, hop: nat,
                     path: seq<string>, last: string): Outcome
    decreases Hops(graph) - hop
  {
    if hop >= Hops(graph) then Finished(path, true, last)
    else if current == "end" then Finished(path, false, last)
    else
      var found := Lookup(graph.nodes, current);
      if found.None? then Failed(UnknownNode(current), path)
      else
        var node, path', targets := found.value, path + [current], Targets(graph.edges, current);
        if node.kind.End? then Finished(path', false, last)
        else if node.agentId !in agents then Failed(UnknownAgent(node.agentId), path')
        else if node.kind.Router? && targets == [] then Failed(RouterWithoutEdges(current), path')
        else if replies(hop).Raised? then Aborted(path')
        else if node.kind.Router? then
          Interpret(graph, agents, replies, Choice(targets, replies(hop).next), hop + 1, path', replies(hop).output)
        else if targets == [] then Finished(path', false, replies(hop).output)
        else Interpret(graph, agents, replies, targets[0], hop + 1, path', replies(hop).output)
  }

  function Run(graph: Graph, agents: set<string>, replies: nat -> Reply, userInput: string): Outcome {
    if graph.nodes == [] then Failed(MissingKey("nodes"), [])
    else if graph.start == "" then Failed(MissingKey("start"), [])
    else if !(1 <= Hops(graph) <= MAX_HOPS_LIMIT) then Failed(HopsOutOfRange(Hops(graph)), [])
    else Interpret(graph, agents, replies, graph.start, 0, [], userInput)
  }

  /** `run_custom`: `last` is what `last_output` would read off the board. */
  method RunCustom(graph: Graph, agents: set<string>, replies: nat -> Reply, userInput: string) returns (r: Outcome)
    ensures r == Run(graph, agents, replies, userInput)
  {
    if graph.nodes == [] {
      return Failed(MissingKey("nodes"), []);
    }
    if graph.start == "" {
      return Failed(MissingKey("start"), []);
    }
    if !(1 <= Hops(graph) <= MAX_HOPS_LIMIT) {
      return Failed(HopsOutOfRange(Hops(graph)), []);
    }
    var current, last, path: seq<string> := graph.start, userInput, [];
    for hop := 0 to Hops(graph)
      invariant Interpret(graph, agents, replies, current, hop, path, last) == Run(graph, agents, replies, userInput)
    {
      if current == "end" {
        return Finished(path, false, last);
      }
      var found := Lookup(graph.nodes, current);
      if found.None? {
        return Failed(UnknownNode(current), path);
      }
      var node := found.value;
      path := path + [current];
      if node.kind.End? {
        return Finished(path, false, last);
      }
      if node.agentId !in agents {
        return Failed(UnknownAgent(node.agentId), path);
      }
      var targets := Targets(graph.edges, current);
      if node.kind.Router? {
        if targets == [] {
          return Failed(RouterWithoutEdges(current), path);
        }
        match replies(hop) {
          case Raised => return Aborted(path);
          case Said(output, next) =>
            last := output;
            current := if next in targets || next == "end" then next else targets[0];
        }
      } else {
        match replies(hop) {
          case Raised => return Aborted(path);
          case Said(output, _) => last := output;
        }
        if targets == [] {
          return Finished(path, false, last);
        }
        current := targets[0];
      }
    }
    return Finished(path, true, last);
  }

  // ---- What a run records -------------------------------------------------------------

  /** From the start along declared edges. */
  ghost predicate DeclaredWalk(graph: Graph, path: seq<string>) {
    && (path != [] ==> path[0] == graph.start)
    && (forall i :: 0 <= i < |path| ==> path[i] in NodeIds(graph.nodes))
    && (forall i :: 0 < i < |path| ==> Edge(path[i - 1], path[i]) in graph.edges)
  }

  /** A visit to the node does not end the run by itself. */
  ghost predicate Continues(graph: Graph, id: string) {
    var found := Lookup(graph.nodes, id);
    found.Some? && !found.value.kind.End? && (found.value.kind.Router? || Targets(graph.edges, id) != [])
  }

  ghost predicate AtNext(graph: Graph, path: seq<string>, current: string) {
    if path == [] then current == graph.start
    else current == "end" || Edge(path[|path| - 1], current) in graph.edges
  }

  lemma OneMoreHop(graph: Graph, path: seq<string>, current: string)
    requires DeclaredWalk(graph, path) && AtNext(graph, path, current) && current != "end"
    requires Lookup(graph.nodes, current).Some?
    ensures DeclaredWalk(graph, path + [current]) && (path + [current])[|path|] == current
    ensures var kind := Lookup(graph.nodes, current).value.kind;
            Continues(graph, current) <==> !kind.End? && (kind.Router? || Targets(graph.edges, current) != [])
  {}

  lemma {:induction false} InterpretRecords(graph: Graph, agents: set<string>, replies: nat -> Reply, current: string,
                                            hop: nat, path: seq<string>, last: string)
    requires DeclaredWalk(graph, path) && AtNext(graph, path, current)
    requires |path| == hop <= Hops(graph) && (path != [] ==> Continues(graph, path[|path| - 1]))
    ensures WellRecorded(graph, Interpret(graph, agents, replies, current, hop, path, last))
    decreases Hops(graph) - hop
  {
    if hop < Hops(graph) && current != "end" && Lookup(graph.nodes, current).Some? {
      var node, path', targets := Lookup(graph.nodes, current).value, path + [current], Targets(graph.edges, current);
      OneMoreHop(graph, path, current);
      if !node.kind.End? && node.agentId in agents && !replies(hop).Raised? && targets != [] {
        var next := if node.kind.Router? then Choice(targets, replies(hop).next) else targets[0];
        InterpretRecords(graph, agents, replies, next, hop + 1, path', replies(hop).output);
      } else {
        assert Interpret(graph, agents, replies, current, hop, path, last).path == path';
      }
    }
  }

  ghost predicate WellRecorded(graph: Graph, r: Outcome) {
    && DeclaredWalk(graph, r.path) && |r.path| <= Hops(graph)
    && (r.Finished? && Hops(graph) > 0 ==>
          (r.exhausted <==> |r.path| == Hops(graph) && Continues(graph, r.path[|r.path| - 1])))
  }

  /** Whatever the agents answer, the recorded path is a walk along declared edges of at most
      `max_hops` nodes, and the run is noted as exhausted exactly when all hops were spent and
      the last node visited did not stop it. */
  lemma RunRecords(graph: Graph, agents: set<string>, replies: nat -> Reply, userInput: string)
    ensures var r := Run(graph, agents, replies, userInput);
            && DeclaredWalk(graph, r.path)
            && (!r.Failed? ==> 1 <= Hops(graph) && |r.path| <= Hops(graph))
            && (r.Finished? ==>
                  (r.exhausted <==> |r.path| == Hops(graph) && Continues(graph, r.path[|r.path| - 1])))
  {
    if graph.nodes != [] && graph.start != "" && 1 <= Hops(graph) <= MAX_HOPS_LIMIT {
      InterpretRecords(graph, agents, replies, graph.start, 0, [], userInput);
    }
  }

  // ---- What a run says ----------------------------------------------------------------

  /** The first declared edge that leaves `id` leads to `next`. */
  ghost predicate FirstEdge(graph: Graph, id: string, next: string) {
    exists e :: 0 <= e < |graph.edges| && graph.edges[e] == Edge(id, next) && forall d :: 0 <= d < e ==> graph.edges[d].from != id
  }

  ghost predicate IsEnd(graph: Graph, id: string) {
    var found := Lookup(graph.nodes, id);
    found.Some? && found.value.kind.End?
  }

  ghost predicate IsRouter(graph: Graph, id: string) {
    var found := Lookup(graph.nodes, id);
    found.Some? && found.value.kind.Router?
  }

  /** After this reply at node `id` the run goes on with `next`: what the router names, when it names
      "end" or the end of one of its edges, and the first edge otherwise. */
  ghost predicate Steps(graph: Graph, id: string, reply: Reply, next: string) {
    && reply.Said? && !IsEnd(graph, id)
    && if IsRouter(graph, id) && (reply.next == "end" || Edge(id, reply.next) in graph.edges) then next == reply.next
       else FirstEdge(graph, id, next)
  }

  /** The run comes to `next` after the nodes of `path`. */
  ghost predicate ComesTo(graph: Graph, replies: nat -> Reply, path: seq<string>, next: string) {
    if path == [] then next == graph.start else Steps(graph, path[|path| - 1], replies(|path| - 1), next)
  }

  ghost predicate Stepwise(graph: Graph, replies: nat -> Reply, path: seq<string>) {
    forall i :: 0 <= i < |path| ==> ComesTo(graph, replies, path[..i], path[i])
  }

  /** The agent's turns in a finished run: one at every node but the end. */
  ghost function TurnsOn(graph: Graph, path: seq<string>): nat {
    if path != [] && IsEnd(graph, path[|path| - 1]) then |path| - 1 else |path|
  }

  /** What stands in the end: the output of the last of `n` turns, or what the user said. */
  ghost predicate FinallySaid(replies: nat -> Reply, n: nat, userInput: string, output: string) {
    if n == 0 then output == userInput else replies(n - 1).Said? && output == replies(n - 1).output
  }

  /** Why a run that did not use up its hops stopped. */
  ghost predicate Stopped(graph: Graph, replies: nat -> Reply, path: seq<string>) {
    || ComesTo(graph, replies, path, "end")
    || (path != [] && IsEnd(graph, path[|path| - 1]))
    || (path != [] && !IsRouter(graph, path[|path| - 1]) && forall e :: e in graph.edges ==> e.from != path[|path| - 1])
  }

  /** The error is about the node the run came to. */
  ghost predicate Meets(graph: Graph, agents: set<string>, replies: nat -> Reply, path: seq<string>, error: ConfigError) {
    match error
    case UnknownNode(id) => ComesTo(graph, replies, path, id) && forall n :: n in graph.nodes ==> n.id != id
    case UnknownAgent(a) =>
      path != [] && a !in agents && exists n :: n in graph.nodes && n.id == path[|path| - 1] && n.agentId == a
    case RouterWithoutEdges(id) =>
      path != [] && id == path[|path| - 1] && IsRouter(graph, id) && forall e :: e in graph.edges ==> e.from != id
    case _ => false
  }

  ghost predicate Tells(graph: Graph, agents: set<string>, replies: nat -> Reply, userInput: string, r: Outcome) {
    && Stepwise(graph, replies, r.path)
    && match r
       case Finished(path, exhausted, output) =>
         && FinallySaid(replies, TurnsOn(graph, path), userInput, output)
         && (!exhausted ==> Stopped(graph, replies, path))
       case Aborted(path) => path != [] && replies(|path| - 1).Raised?
       case Failed(error, path) => Meets(graph, agents, replies, path, error)
  }

  lemma {:induction false} TargetsInOrder(edges: seq<Edge>, id: string)
    ensures Targets(edges, id) == [] <==> forall e :: e in edges ==> e.from != id
    ensures Targets(edges, id) != [] ==>
              exists e :: 0 <= e < |edges| && edges[e] == Edge(id, Targets(edges, id)[0]) &&
                          forall d :: 0 <= d < e ==> edges[d].from != id
  {
    if edges != [] {
      var n := |edges| - 1;
      TargetsInOrder(edges[..n], id);
      assert edges == edges[..n] + [edges[n]];
      if Targets(edges[..n], id) != [] {
        var e :| 0 <= e < n && edges[..n][e] == Edge(id, Targets(edges[..n], id)[0]) &&
                 forall d :: 0 <= d < e ==> edges[..n][d].from != id;
        assert edges[e] == edges[..n][e] && forall d :: 0 <= d < e ==> edges[d] == edges[..n][d];
      } else if edges[n].from == id {
        assert edges[n] == Edge(id, Targets(edges, id)[0]);
        assert forall d :: 0 <= d < n ==> edges[d] in edges[..n];
      }
    }
  }

  lemma StepTaken(graph: Graph, replies: nat -> Reply, path: seq<string>, current: string, next: string)
    requires Lookup(graph.nodes, current).Some? && !Lookup(graph.nodes, current).value.kind.End?
    requires Targets(graph.edges, current) != [] && replies(|path|).Said?
    requires var targets := Targets(graph.edges, current);
             next == if Lookup(graph.nodes, current).value.kind.Router? then Choice(targets, replies(|path|).next) else targets[0]
    ensures ComesTo(graph, replies, path + [current], next)
  {
    TargetsInOrder(graph.edges, current);
    assert (path + [current])[|path|] == current;
  }

  lemma OneMoreStep(graph: Graph, replies: nat -> Reply, path: seq<string>, current: string)
    requires Stepwise(graph, replies, path) && ComesTo(graph, replies, path, current)
    ensures Stepwise(graph, replies, path + [current])
  {
    var longer := path + [current];
    forall i | 0 <= i < |longer|
      ensures ComesTo(graph, replies, longer[..i], longer[i])
    {
      assert longer[..i] == path[..i];
      assert path[..|path|] == path;
    }
  }

  /** A node that finishes the run. */
  lemma LastNode(graph: Graph, agents: set<string>, replies: nat -> Reply, userInput: string, node: Node, hop: nat,
                 path: seq<string>, last: string)
    requires Stepwise(graph, replies, path + [node.id]) && Lookup(graph.nodes, node.id) == Some(node)
    requires |path| == hop && FinallySaid(replies, hop, userInput, last)
    ensures node.kind.End? ==> Tells(graph, agents, replies, userInput, Finished(path + [node.id], false, last))
    ensures Targets(graph.edges, node.id) == [] && !node.kind.End? && !node.kind.Router? && replies(hop).Said? ==>
              Tells(graph, agents, replies, userInput, Finished(path + [node.id], false, replies(hop).output))
  {
    TargetsInOrder(graph.edges, node.id);
    assert (path + [node.id])[|path|] == node.id;
  }

  /** A node at which the run fails. */
  lemma BrokenNode(graph: Graph, agents: set<string>, replies: nat -> Reply, userInput: string, node: Node, path: seq<string>)
    requires Stepwise(graph, replies, path + [node.id]) && Lookup(graph.nodes, node.id) == Some(node)
    ensures node.agentId !in agents ==>
              Tells(graph, agents, replies, userInput, Failed(UnknownAgent(node.agentId), path + [node.id]))
    ensures node.kind.Router? && Targets(graph.edges, node.id) == [] ==>
              Tells(graph, agents, replies, userInput, Failed(RouterWithoutEdges(node.id), path + [node.id]))
    ensures replies(|path|).Raised? ==> Tells(graph, agents, replies, userInput, Aborted(path + [node.id]))
  {
    TargetsInOrder(graph.edges, node.id);
    assert (path + [node.id])[|path|] == node.id;
  }

  /** Where a run stands that comes to `current`. */
  ghost predicate Standing(graph: Graph, replies: nat -> Reply, userInput: string, current: string, hop: nat,
                           path: seq<string>, last: string)
  {
    && Stepwise(graph, replies, path) && ComesTo(graph, replies, path, current)
    && |path| == hop && FinallySaid(replies, hop, userInput, last)
    && (path != [] ==> !IsEnd(graph, path[|path| - 1]))
  }

  /** The run ends without another node. */
  lemma NoNode(graph: Graph, agents: set<string>, replies: nat -> Reply, userInput: string, current: string, hop: nat,
               path: seq<string>, last: string)
    requires Standing(graph, replies, userInput, current, hop, path, last)
    ensures Tells(graph, agents, replies, userInput, Finished(path, true, last))
    ensures current == "end" ==> Tells(graph, agents, replies, userInput, Finished(path, false, last))
    ensures Lookup(graph.nodes, current).None? ==> Tells(graph, agents, replies, userInput, Failed(UnknownNode(current), path))
  {}

  lemma NextNode(graph: Graph, replies: nat -> Reply, userInput: string, node: Node, next: string, hop: nat,
                 path: seq<string>, last: string)
    requires Standing(graph, replies, userInput, node.id, hop, path, last)
    requires Lookup(graph.nodes, node.id) == Some(node) && !node.kind.End? && replies(hop).Said?
    requires var targets := Targets(graph.edges, node.id);
             targets != [] && next == if node.kind.Router? then Choice(targets, replies(hop).next) else targets[0]
    ensures Standing(graph, replies, userInput, next, hop + 1, path + [node.id], replies(hop).output)
  {
    OneMoreStep(graph, replies, path, node.id);
    StepTaken(graph, replies, path, node.id, next);
    assert (path + [node.id])[|path|] == node.id;
  }

  lemma {:induction false} InterpretTells(graph: Graph, agents: set<string>, replies: nat -> Reply, userInput: string,
                                          current: string, hop: nat, path: seq<string>, last: string)
    requires Standing(graph, replies, userInput, current, hop, path, last) && hop <= Hops(graph)
    ensures Tells(graph, agents, replies, userInput, Interpret(graph, agents, replies, current, hop, path, last))
    decreases Hops(graph) - hop
  {
    NoNode(graph, agents, replies, userInput, current, hop, path, last);
    if hop < Hops(graph) && current != "end" && Lookup(graph.nodes, current).Some? {
      var node, targets := Lookup(graph.nodes, current).value, Targets(graph.edges, current);
      if !node.kind.End? && node.agentId in agents && !replies(hop).Raised? && targets != [] {
        var next := if node.kind.Router? then Choice(targets, replies(hop).next) else targets[0];
        NextNode(graph, replies, userInput, node, next, hop, path, last);
        InterpretTells(graph, agents, replies, userInput, next, hop + 1, path + [current], replies(hop).output);
      } else {
        OneMoreStep(graph, replies, path, current);
        LastNode(graph, agents, replies, userInput, node, hop, path, last);
        BrokenNode(graph, agents, replies, userInput, node, path);
      }
    }
  }

  /** Every run: from each node it goes where the reply says, or along the first edge; its final
      output is that of the last agent it ran, or what the user said when it ran none; and it ends
      for a reason. */
  lemma RunTells(graph: Graph, agents: set<string>, replies: nat -> Reply, userInput: string)
    ensures var r := Run(graph, agents, replies, userInput);
            if graph.nodes == [] then r == Failed(MissingKey("nodes"), [])
            else if graph.start == "" then r == Failed(MissingKey("start"), [])
            else if Hops(graph) < 1 || Hops(graph) > 60 then r == Failed(HopsOutOfRange(Hops(graph)), [])
            else Tells(graph, agents, replies, userInput, r)
  {
    if graph.nodes != [] && graph.start != "" && 1 <= Hops(graph) <= MAX_HOPS_LIMIT {
      InterpretTells(graph, agents, replies, userInput, graph.start, 0, [], userInput);
    }
  }

  /** So the note does not mean that work was left: a router that answers "end" on the last
      hop is noted as exhausted too. */
  lemma EndOnTheLastHopIsNoted(id: string, agent: string, replies: nat -> Reply, output: string, userInput: string)
    requires id != "" && id != "end" && replies(0) == Said(output, "end")
    ensures var graph := Graph([Node(id, Router, agent)], [Edge(id, "end")], id, Some(1));
            Run(graph, {agent}, replies, userInput) == Finished([id], true, output)
  {
    var graph := Graph([Node(id, Router, agent)], [Edge(id, "end")], id, Some(1));
    assert Lookup(graph.nodes, id) == Some(graph.nodes[0]);
    assert Edge(id, "end") in graph.edges;
    assert Choice(Targets(graph.edges, id), "end") == "end" && [] + [id] == [id];
    assert Interpret(graph, {agent}, replies, "end", 1, [id], output) == Finished([id], true, output);
    assert Interpret(graph, {agent}, replies, id, 0, [], userInput) ==
           Interpret(graph, {agent}, replies, "end", 1, [id], output);
  }

  // ---- When a run can meet a configuration error --------------------------------------

  /** Some reply takes a run from one node to the other. */
  ghost predicate Follows(graph: Graph, id: string, next: string) {
    var targets, found := Targets(graph.edges, id), Lookup(graph.nodes, id);
    && id != "end" && found.Some? && !found.value.kind.End? && targets != []
    && if found.value.kind.Router? then next in targets || next == "end" else next == targets[0]
  }

  ghost predicate Route(graph: Graph, p: seq<string>) {
    p != [] && p[0] == graph.start && forall i :: 0 <= i < |p| - 1 ==> Follows(graph, p[i], p[i + 1])
  }

  /** Visiting the node raises a configuration error. */
  ghost predicate Broken(graph: Graph, agents: set<string>, id: string) {
    var found := Lookup(graph.nodes, id);
    id != "end" &&
    (found.None? ||
     (!found.value.kind.End? &&
      (found.value.agentId !in agents || (found.value.kind.Router? && Targets(graph.edges, id) == []))))
  }

  /** A broken node stands within `max_hops` of the start. */
  ghost predicate BrokenInReach(graph: Graph, agents: set<string>) {
    exists p :: Route(graph, p) && |p| <= Hops(graph) && Broken(graph, agents, p[|p| - 1])
  }

  lemma {:induction false} FailureIsInReach(graph: Graph, agents: set<string>, replies: nat -> Reply, current: string,
                                            hop: nat, path: seq<string>, last: string, p: seq<string>)
    requires Route(graph, p) && |p| == hop + 1 && p[hop] == current
    requires Interpret(graph, agents, replies, current, hop, path, last).Failed?
    ensures BrokenInReach(graph, agents)
    decreases Hops(graph) - hop
  {
    if !Broken(graph, agents, current) {
      var node, path', targets := Lookup(graph.nodes, current).value, path + [current], Targets(graph.edges, current);
      var next := if node.kind.Router? then Choice(targets, replies(hop).next) else targets[0];
      FailureIsInReach(graph, agents, replies, next, hop + 1, path', replies(hop).output, p + [next]);
    }
  }

  lemma {:induction false} RouteIsTaken(graph: Graph, agents: set<string>, p: seq<string>, hop: nat, path: seq<string>,
                                        last: string, replies: nat -> Reply)
    requires Route(graph, p) && |p| <= Hops(graph) && Broken(graph, agents, p[|p| - 1]) && hop < |p|
    requires forall i: nat :: i < |p| - 1 ==> replies(i) == Said("", p[i + 1])
    ensures Interpret(graph, agents, replies, p[hop], hop, path, last).Failed?
    decreases |p| - hop
  {
    if !Broken(graph, agents, p[hop]) {
      assert Follows(graph, p[hop], p[hop + 1]);
      RouteIsTaken(graph, agents, p, hop + 1, path + [p[hop]], "", replies);
    }
  }

  /** For a graph that passed validation: some replies lead to a configuration error exactly
      when a broken node can be reached within the hop budget. */
  lemma FailsIffBrokenInReach(graph: Graph, agents: set<string>, userInput: string)
    requires WellFormed(graph)
    ensures (exists replies: nat -> Reply :: Run(graph, agents, replies, userInput).Failed?) <==>
            BrokenInReach(graph, agents)
  {
    if replies: nat -> Reply :| Run(graph, agents, replies, userInput).Failed? {
      FailureIsInReach(graph, agents, replies, graph.start, 0, [], userInput, [graph.start]);
    }
    if p :| Route(graph, p) && |p| <= Hops(graph) && Broken(graph, agents, p[|p| - 1]) {
      var replies := (i: nat) => Said("", if i < |p| - 1 then p[i + 1] else "");
      RouteIsTaken(graph, agents, p, 0, [], userInput, replies);
      assert Run(graph, agents, replies, userInput).Failed?;
    }
  }

  lemma {:induction false} RouteStaysInside(graph: Graph, p: seq<string>)
    requires WellFormed(graph) && Route(graph, p)
    ensures p[|p| - 1] in NodeIds(graph.nodes) || p[|p| - 1] == "end"
  {
    if |p| > 1 {
      var from, to := p[|p| - 2], p[|p| - 1];
      assert Follows(graph, p[|p| - 2], p[|p| - 2 + 1]);
      if to != "end" {
        assert to in Targets(graph.edges, from);
        var i :| 0 <= i < |graph.edges| && graph.edges[i] == Edge(from, to);
      }
    }
  }

  /** A validated graph does not go wrong: with every agent known, only the documented node
      types, and an edge out of every router, no replies lead to a configuration error. */
  lemma ValidatedGraphRuns(graph: Graph, agents: set<string>, replies: nat -> Reply, userInput: string)
    requires WellFormed(graph)
    requires forall n :: n in graph.nodes ==> !n.kind.Other?
    requires forall a :: a in AgentIds(graph.nodes) ==> a in agents
    requires forall n :: n in graph.nodes && n.kind.Router? ==> Targets(graph.edges, n.id) != []
    ensures !Run(graph, agents, replies, userInput).Failed?
  {
    if Run(graph, agents, replies, userInput).Failed? {
      FailsIffBrokenInReach(graph, agents, userInput);
      var p :| Route(graph, p) && |p| <= Hops(graph) && Broken(graph, agents, p[|p| - 1]);
      RouteStaysInside(graph, p);
      AgentIsListed(graph.nodes, Lookup(graph.nodes, p[|p| - 1]).value);
      assert false;
    }
  }

  lemma {:induction false} AgentIsListed(nodes: seq<Node>, n: Node)
    requires n in nodes
    ensures NeedsAgent(n) ==> n.agentId in AgentIds(nodes)
  {
    if nodes[|nodes| - 1] != n {
      AgentIsListed(nodes[..|nodes| - 1], n);
    }
  }
}
