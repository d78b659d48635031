/** The structural limits of a JSON-RPC message, checked with a worklist instead of recursion. */
module JsonLimits {
  const MAX_DEPTH: nat := 32
  const MAX_NODES: nat := 65536

  /** Keys and texts are not looked at. */
  datatype Json = Scalar | Float(finite: bool) | Array(items: seq<Json>) | Object(values: seq<Json>)

  datatype Option<T> = None | Some(value: T)

  /* ------------------------------------------------------------------ what is limited */

  function Children(j: Json): seq<Json> {
    match j
    case Array(items) => items
    case Object(values) => values
    case _ => []
  }

  function Nodes(j: Json): (n: nat)
    ensures n > 0
    decreases j
  {
    match j
    case Array(items) => 1 + NodesIn(items)
    case Object(values) => 1 + NodesIn(values)
    case _ => 1
  }

  function NodesIn(s: seq<Json>): nat
    decreases s
  {
    if s == [] then 0 else NodesIn(s[..|s| - 1]) + Nodes(s[|s| - 1])
  }

  /** The value at the end of a path of child positions. */
  function At(j: Json, path: seq<nat>): Option<Json> {
    if path == [] then Some(j)
    else if path[0] < |Children(j)| then At(Children(j)[path[0]], path[1..])
    else None
  }

  predicate IsPath(j: Json, path: seq<nat>) { At(j, path).Some? }

  /** Every value lies at most that deep, and every number is finite. */
  ghost predicate Tame(j: Json, depth: int) {
    forall path | IsPath(j, path) :: |path| <= depth && At(j, path).value != Float(false)
  }

  /* ------------------------------------------------------------------ one level */

  lemma TameChild(j: Json, depth: int, i: nat)
    requires Tame(j, depth) && i < |Children(j)|
    ensures Tame(Children(j)[i], depth - 1)
  {
    forall path | IsPath(Children(j)[i], path)
      ensures |path| <= depth - 1 && At(Children(j)[i], path).value != Float(false)
    {
      assert ([i] + path)[1..] == path;
      assert IsPath(j, [i] + path);
    }
  }

  lemma TameNode(j: Json, depth: int)
    ensures Tame(j, depth) <==>
      depth >= 0 && j != Float(false) && forall i | 0 <= i < |Children(j)| :: Tame(Children(j)[i], depth - 1)
  {
    if Tame(j, depth) {
      assert IsPath(j, []);
      forall i | 0 <= i < |Children(j)| ensures Tame(Children(j)[i], depth - 1) {
        TameChild(j, depth, i);
      }
    } else {
      var path :| IsPath(j, path) && !(|path| <= depth && At(j, path).value != Float(false));
      if path != [] {
        assert IsPath(Children(j)[path[0]], path[1..]);
      }
    }
  }

  /* ------------------------------------------------------------------ the worklist */

  type Work = seq<(Json, nat)>

  function Total(work: Work): nat {
    if work == [] then 0 else Total(work[..|work| - 1]) + Nodes(work[|work| - 1].0)
  }

  ghost predicate Fits(j: Json, depth: nat) { Tame(j, MAX_DEPTH - depth) }

  ghost predicate AllTame(work: Work) { forall k | 0 <= k < |work| :: Fits(work[k].0, work[k].1) }

  function Deeper(s: seq<Json>, depth: nat): Work { seq(|s|, i requires 0 <= i < |s| => (s[i], depth)) }

  lemma {:induction false} TotalDeeper(work: Work, s: seq<Json>, depth: nat)
    ensures Total(work + Deeper(s, depth)) == Total(work) + NodesIn(s)
  {
    var all := work + Deeper(s, depth);
    if s == [] {
      assert all == work;
    } else {
      assert all[..|all| - 1] == work + Deeper(s[..|s| - 1], depth);
      TotalDeeper(work, s[..|s| - 1], depth);
    }
  }

  lemma FitsNode(j: Json, depth: nat)
    ensures Fits(j, depth) <==> depth <= MAX_DEPTH && j != Float(false) && AllTame(Deeper(Children(j), depth + 1))
  {
    TameNode(j, MAX_DEPTH - depth);
    var more := Deeper(Children(j), depth + 1);
    if AllTame(more) {
      forall i | 0 <= i < |Children(j)| ensures Tame(Children(j)[i], MAX_DEPTH - depth - 1) {
        assert Fits(more[i].0, more[i].1);
      }
    }
  }

  lemma AllTameAppend(a: Work, b: Work)
    ensures AllTame(a + b) <==> AllTame(a) && AllTame(b)
  {
    if AllTame(a + b) {
      forall k | 0 <= k < |b| ensures Fits(b[k].0, b[k].1) {
        assert (a + b)[|a| + k] == b[k];
      }
      forall k | 0 <= k < |a| ensures Fits(a[k].0, a[k].1) {
        assert (a + b)[k] == a[k];
      }
    }
  }

  /** Taking the last entry and adding its children counts one value and keeps what is demanded of the rest. */
  lemma TakeOne(rest: Work, item: Json, depth: nat)
    ensures var before, after := rest + [(item, depth)], rest + Deeper(Children(item), depth + 1);
      Total(after) + 1 == Total(before) &&
      (AllTame(before) <==> depth <= MAX_DEPTH && item != Float(false) && AllTame(after))
  {
    TotalDeeper(rest, Children(item), depth + 1);
    assert (rest + [(item, depth)])[..|rest|] == rest;
    AllTameAppend(rest, [(item, depth)]);
    AllTameAppend(rest, Deeper(Children(item), depth + 1));
    FitsNode(item, depth);
  }

  /** Accepted are exactly the values of at most 65536 nodes, 32 levels, and finite numbers, in whatever
      order the worklist visits them. */
  method ValidateStructure(value: Json) returns (ok: bool)
    ensures ok <==> Nodes(value) <= MAX_NODES && Tame(value, MAX_DEPTH)
  {
    var nodes: Work := [(value, 0)];
    var count := 0;
    assert Total(nodes) == Nodes(value) && nodes[0] == (value, 0);
    assert AllTame(nodes) <==> Tame(value, MAX_DEPTH);
    while nodes != []
      invariant count + Total(nodes) == Nodes(value)
      invariant AllTame(nodes) <==> Tame(value, MAX_DEPTH)
      invariant count <= MAX_NODES
      decreases Total(nodes)
    {
      var (item, depth) := nodes[|nodes| - 1];
      assert nodes == nodes[..|nodes| - 1] + [(item, depth)];
      nodes := nodes[..|nodes| - 1];
      TakeOne(nodes, item, depth);
      count := count + 1;
      if depth > MAX_DEPTH || count > MAX_NODES {
        return false;
      }
      if item == Float(false) {
        return false;
      }
      nodes := nodes + Deeper(Children(item), depth + 1);
    }
    return true;
  }
}
