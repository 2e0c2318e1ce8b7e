/** packages/sqlite/src/hrana-validation.ts, `validateStructure`, and
  * apps/runtime/src/guest-sqlite-worker.c, `node_budget`
  *
  * The agent and the guest each bound the JSON they take: one with a stack of its own, the other by
  * recursion.
  */
module JsonBudget {
  import opened Prelude

  const MAX_STRUCTURE_DEPTH := 32
  const MAX_STRUCTURE_NODES := 16_384

  const SQLITE_JSON_MAX_DEPTH := 32
  const SQLITE_JSON_MAX_NODES := 16_384

  datatype Json =
    | Scalar(text: string)
    | Array(items: seq<Json>)
    | Object(names: seq<string>, values: seq<Json>)

  function Children(json: Json): seq<Json> {
    match json
    case Scalar(_) => []
    case Array(items) => items
    case Object(_, values) => values
  }

  // ----- The size of a tree

  function Nodes(json: Json): (n: nat)
    ensures n > 0
    decreases json
  {
    match json
    case Scalar(_) => 1
    case Array(items) => 1 + NodesOf(items)
    case Object(_, values) => 1 + NodesOf(values)
  }

  function NodesOf(items: seq<Json>): (n: nat)
    ensures n >= |items|
    decreases items
  {
    if items == [] then 0 else NodesOf(items[..|items| - 1]) + Nodes(items[|items| - 1])
  }

  /** No node lies deeper than this many levels below the root. */
  predicate Within(json: Json, levels: int)
    decreases json
  {
    levels >= 0
    && match json
       case Scalar(_) => true
       case Array(items) => forall i | 0 <= i < |items| :: Within(items[i], levels - 1)
       case Object(_, values) => forall i | 0 <= i < |values| :: Within(values[i], levels - 1)
  }

  predicate Fits(json: Json, maxNodes: int) {
    Nodes(json) <= maxNodes && Within(json, MAX_STRUCTURE_DEPTH)
  }

  lemma NodesByChildren(json: Json)
    ensures Nodes(json) == 1 + NodesOf(Children(json))
  {
    assert NodesOf([]) == 0;
  }

  lemma WithinByChildren(json: Json, levels: int)
    ensures Within(json, levels) <==>
      levels >= 0 && forall i | 0 <= i < |Children(json)| :: Within(Children(json)[i], levels - 1)
  {
    match json
    case Scalar(_) =>
    case Array(items) => assert Children(json) == items;
    case Object(_, values) => assert Children(json) == values;
  }

  // ----- The stack

  datatype Item = Item(value: Json, depth: nat)

  function PendingNodes(pending: seq<Item>): (n: nat)
    ensures n >= |pending|
  {
    if pending == [] then 0 else PendingNodes(pending[..|pending| - 1]) + Nodes(pending[|pending| - 1].value)
  }

  predicate PendingWithin(pending: seq<Item>) {
    forall i | 0 <= i < |pending| :: Within(pending[i].value, MAX_STRUCTURE_DEPTH - pending[i].depth)
  }

  lemma NodesOfGrows(items: seq<Json>, n: nat)
    requires n < |items|
    ensures NodesOf(items[..n + 1]) == NodesOf(items[..n]) + Nodes(items[n])
    ensures NodesOf(items[..n + 1]) <= NodesOf(items)
  {
    assert items[..n + 1][..n] == items[..n];
    NodesOfPrefix(items, n + 1);
  }

  lemma {:induction false} NodesOfPrefix(items: seq<Json>, n: nat)
    requires n <= |items|
    ensures NodesOf(items[..n]) <= NodesOf(items)
    decreases |items|
  {
    if n < |items| {
      NodesOfPrefix(items[..|items| - 1], n);
      assert items[..|items| - 1][..n] == items[..n];
    } else {
      assert items[..n] == items;
    }
  }

  lemma PendingNodesWith(pending: seq<Item>, item: Item)
    ensures PendingNodes(pending + [item]) == PendingNodes(pending) + Nodes(item.value)
  {
    assert (pending + [item])[..|pending|] == pending;
  }

  /** Taking the topmost item off leaves its node, its children and the rest. */
  lemma Popped(pending: seq<Item>)
    requires pending != []
    ensures var item, rest := pending[|pending| - 1], pending[..|pending| - 1];
            && PendingNodes(pending) == PendingNodes(rest) + 1 + NodesOf(Children(item.value))
            && (PendingWithin(pending) <==> PendingWithin(rest) && Within(item.value, MAX_STRUCTURE_DEPTH - item.depth))
            && (Within(item.value, MAX_STRUCTURE_DEPTH - item.depth) <==>
                  item.depth <= MAX_STRUCTURE_DEPTH
                  && forall i | 0 <= i < |Children(item.value)| ::
                       Within(Children(item.value)[i], MAX_STRUCTURE_DEPTH - item.depth - 1))
  {
    var item := pending[|pending| - 1];
    NodesByChildren(item.value);
    WithinByChildren(item.value, MAX_STRUCTURE_DEPTH - item.depth);
  }

  /** `validateStructure`: it accepts exactly the trees that fit, and its stack never holds more than the
    * nodes still allowed. */
  method ValidateStructure(body: Json, maxNodes: int) returns (valid: bool, ghost highest: nat)
    ensures valid <==> Fits(body, maxNodes)
    ensures highest <= 1 || highest <= maxNodes
  {
    var pending := [Item(body, 0)];
    highest := 1;
    var nodes := 0;
    PendingNodesWith([], Item(body, 0));
    assert [] + [Item(body, 0)] == [Item(body, 0)];
    while |pending| > 0
      invariant nodes + PendingNodes(pending) == Nodes(body)
      invariant Within(body, MAX_STRUCTURE_DEPTH) <==> PendingWithin(pending)
      invariant nodes > 0 ==> nodes + |pending| <= maxNodes
      invariant nodes == 0 ==> |pending| == 1
      invariant |pending| <= highest && (highest <= 1 || highest <= maxNodes)
      decreases PendingNodes(pending)
    {
      Popped(pending);
      var item := pending[|pending| - 1];
      pending := pending[..|pending| - 1];
      nodes := nodes + 1;
      if nodes > maxNodes || item.depth > MAX_STRUCTURE_DEPTH {
        return false, highest;
      }
      var accepted;
      accepted, pending, highest := PushAll(pending, Children(item.value), item.depth, nodes, maxNodes, highest);
      if !accepted {
        return false, highest;
      }
    }
    valid := true;
  }

  /** The inner loop: the children of a node go onto the stack as long as there is room for them. */
  method PushAll(below: seq<Item>, children: seq<Json>, depth: nat, nodes: nat, maxNodes: int, ghost before: nat)
    returns (accepted: bool, pending: seq<Item>, ghost highest: nat)
    requires |below| <= before && nodes + |below| <= maxNodes && nodes > 0
    requires before <= 1 || before <= maxNodes
    ensures accepted ==>
      && PendingNodes(pending) == PendingNodes(below) + NodesOf(children)
      && nodes + |pending| <= maxNodes && |pending| <= highest
      && (PendingWithin(pending) <==>
            PendingWithin(below) && forall i | 0 <= i < |children| :: Within(children[i], MAX_STRUCTURE_DEPTH - depth - 1))
    ensures !accepted ==> nodes + PendingNodes(below) + NodesOf(children) > maxNodes
    ensures highest <= 1 || highest <= maxNodes
  {
    pending := below;
    highest := before;
    for index := 0 to |children|
      invariant Pushed(below, children[..index], depth, pending)
      invariant PendingNodes(pending) == PendingNodes(below) + NodesOf(children[..index])
      invariant nodes + |pending| <= maxNodes && |pending| <= highest && (highest <= 1 || highest <= maxNodes)
    {
      NodesOfGrows(children, index);
      if |pending| + nodes >= maxNodes {
        return false, pending, highest;
      }
      PushedNext(below, children, depth, pending, index);
      pending := pending + [Item(children[index], depth + 1)];
      if |pending| > highest {
        highest := |pending|;
      }
    }
    assert children[..|children|] == children;
    PushedWithin(below, children, depth, pending);
    accepted := true;
  }

  ghost predicate Pushed(below: seq<Item>, children: seq<Json>, depth: nat, pending: seq<Item>) {
    && |pending| == |below| + |children| && pending[..|below|] == below
    && forall i | 0 <= i < |children| :: pending[|below| + i] == Item(children[i], depth + 1)
  }

  lemma PushedNext(below: seq<Item>, children: seq<Json>, depth: nat, pending: seq<Item>, index: nat)
    requires index < |children| && Pushed(below, children[..index], depth, pending)
    ensures Pushed(below, children[..index + 1], depth, pending + [Item(children[index], depth + 1)])
    ensures PendingNodes(pending + [Item(children[index], depth + 1)]) == PendingNodes(pending) + Nodes(children[index])
  {
    PendingNodesWith(pending, Item(children[index], depth + 1));
  }

  lemma PushedWithin(below: seq<Item>, children: seq<Json>, depth: nat, pending: seq<Item>)
    requires Pushed(below, children, depth, pending)
    ensures PendingWithin(pending) <==>
      PendingWithin(below) && forall i | 0 <= i < |children| :: Within(children[i], MAX_STRUCTURE_DEPTH - depth - 1)
  {
    if PendingWithin(pending) {
      forall i | 0 <= i < |below|
        ensures Within(below[i].value, MAX_STRUCTURE_DEPTH - below[i].depth)
      {
        assert pending[i] == below[i];
      }
      forall i | 0 <= i < |children|
        ensures Within(children[i], MAX_STRUCTURE_DEPTH - depth - 1)
      {
        assert pending[|below| + i] == Item(children[i], depth + 1);
      }
    }
    if PendingWithin(below) && forall i | 0 <= i < |children| :: Within(children[i], MAX_STRUCTURE_DEPTH - depth - 1) {
      forall i | 0 <= i < |pending|
        ensures Within(pending[i].value, MAX_STRUCTURE_DEPTH - pending[i].depth)
      {
        if i < |below| {
          assert pending[i] == below[i];
        } else {
          assert pending[|below| + (i - |below|)] == Item(children[i - |below|], depth + 1);
        }
      }
    }
  }

  // ----- The recursion

  /** `node_budget`: it accepts exactly the trees that fit in what remains, and takes their nodes off it. */
  method NodeBudget(json: Json, remaining: nat, depth: nat) returns (ok: bool, left: nat)
    ensures ok <==> Nodes(json) <= remaining && Within(json, SQLITE_JSON_MAX_DEPTH - depth)
    ensures ok ==> left == remaining - Nodes(json)
    decreases json
  {
    NodesByChildren(json);
    WithinByChildren(json, SQLITE_JSON_MAX_DEPTH - depth);
    left := remaining;
    if remaining == 0 || depth > SQLITE_JSON_MAX_DEPTH {
      return false, left;
    }
    left := left - 1;
    var children := Children(json);
    for index := 0 to |children|
      invariant left == remaining - 1 - NodesOf(children[..index])
      invariant forall i | 0 <= i < index :: Within(children[i], SQLITE_JSON_MAX_DEPTH - depth - 1)
    {
      NodesOfGrows(children, index);
      var fits;
      fits, left := NodeBudget(children[index], left, depth + 1);
      if !fits {
        return false, left;
      }
    }
    assert children[..|children|] == children;
    ok := true;
  }

  // ----- A request at both ends

  /** What the agent lets through as a request is what the guest takes from it: trees of at most 16,384 nodes
    * and 32 levels below the root. */
  method BothBudgets(body: Json) returns (agent: bool, guest: bool)
    ensures agent <==> guest
    ensures agent <==> Nodes(body) <= 16_384 && Within(body, 32)
  {
    ghost var highest;
    agent, highest := ValidateStructure(body, MAX_STRUCTURE_NODES);
    var left;
    guest, left := NodeBudget(body, SQLITE_JSON_MAX_NODES, 0);
  }
}
