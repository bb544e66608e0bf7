/** JSON values, and the bounded walk over them (scripts/smoke_wheel_catalog.py,
    `_validate_json_limits`). */
module JsonLimits {

  const MAX_JSON_NODES: nat := 100_000
  const MAX_JSON_DEPTH: nat := 128

  /** A Python string: code points, among which lone surrogates may be. */
  type Point = p: nat | p < 0x11_0000
  type Text = seq<Point>

  datatype Key = Name(text: Text) | ForeignKey

  datatype Member = Member(key: Key, value: Value)

  /** What the walk may meet: `Foreign` is any other type, such as a float or a tuple.  The members
      of an object are in insertion order. */
  datatype Value =
    | Null
    | Bool(flag: bool)
    | Int(number: int)
    | String(text: Text)
    | Foreign
    | List(items: seq<Value>)
    | Object(members: seq<Member>)

  function Children(v: Value): seq<Value> {
    match v
    case List(items) => items
    case Object(members) => seq(|members|, i requires 0 <= i < |members| => members[i].value)
    case _ => []
  }

  lemma ChildIsSmaller(v: Value, i: nat)
    requires i < |Children(v)|
    ensures Children(v)[i] < v
  {
    match v
    case List(items) => assert items[i] in items;
    case Object(members) => assert members[i] in members;
    case _ =>
  }

  /** `current is None or type(current) in {bool, int, str}`, with string keys only. */
  predicate NodeOk(v: Value) {
    match v
    case Foreign => false
    case Object(members) => forall i | 0 <= i < |members| :: members[i].key.Name?
    case _ => true
  }

  // ---- What the limits mean, by recursion over the value ----

  function Nodes(v: Value): nat
    decreases v, 1, 0
  {
    1 + NodesFrom(v, 0)
  }

  function NodesFrom(v: Value, i: nat): nat
    requires i <= |Children(v)|
    decreases v, 0, |Children(v)| - i
  {
    if i == |Children(v)| then 0
    else
      ChildIsSmaller(v, i);
      Nodes(Children(v)[i]) + NodesFrom(v, i + 1)
  }

  /** No node lies deeper than `depth` below this one. */
  predicate Within(v: Value, depth: int)
    decreases v
  {
    depth >= 0 && forall i | 0 <= i < |Children(v)| :: ChildIsSmaller(v, i); Within(Children(v)[i], depth - 1)
  }

  /** Every node has an allowed type. */
  predicate Clean(v: Value)
    decreases v
  {
    NodeOk(v) && forall i | 0 <= i < |Children(v)| :: ChildIsSmaller(v, i); Clean(Children(v)[i])
  }

  predicate WithinLimits(v: Value) { Nodes(v) <= MAX_JSON_NODES && Within(v, MAX_JSON_DEPTH) && Clean(v) }

  // ---- The walk with an explicit stack ----

  datatype Frame = Frame(value: Value, depth: nat)

  function Weight(stack: seq<Frame>): nat {
    if stack == [] then 0 else Weight(stack[..|stack| - 1]) + Nodes(stack[|stack| - 1].value)
  }

  predicate FrameOk(f: Frame) { Within(f.value, MAX_JSON_DEPTH - f.depth) && Clean(f.value) }

  ghost predicate StackOk(stack: seq<Frame>) { forall i | 0 <= i < |stack| :: FrameOk(stack[i]) }

  function Pushed(v: Value, depth: nat, i: nat): seq<Frame>
    requires i <= |Children(v)|
    decreases |Children(v)| - i
  {
    if i == |Children(v)| then [] else [Frame(Children(v)[i], depth + 1)] + Pushed(v, depth, i + 1)
  }

  lemma {:induction false} WeightSplits(a: seq<Frame>, b: seq<Frame>)
    ensures Weight(a + b) == Weight(a) + Weight(b)
  {
    if b == [] {
      assert a + b == a;
    } else {
      WeightSplits(a, b[..|b| - 1]);
      assert (a + b)[..|a + b| - 1] == a + b[..|b| - 1];
    }
  }

  lemma {:induction false} WeightOfPushed(v: Value, depth: nat, i: nat)
    requires i <= |Children(v)|
    ensures Weight(Pushed(v, depth, i)) == NodesFrom(v, i)
    ensures |Pushed(v, depth, i)| == |Children(v)| - i
    ensures forall j | 0 <= j < |Children(v)| - i :: Pushed(v, depth, i)[j] == Frame(Children(v)[i + j], depth + 1)
    decreases |Children(v)| - i
  {
    hide Nodes, Children;
    if i < |Children(v)| {
      WeightOfPushed(v, depth, i + 1);
      var first := [Frame(Children(v)[i], depth + 1)];
      WeightSplits(first, Pushed(v, depth, i + 1));
      assert first[..0] == [];
      assert Weight(first) == Nodes(Children(v)[i]);
    }
  }

  lemma FrameOpens(f: Frame)
    ensures FrameOk(f) <==> f.depth <= MAX_JSON_DEPTH && NodeOk(f.value) && StackOk(Pushed(f.value, f.depth, 0))
  {
    hide Pushed, NodeOk, NodesFrom, Nodes;
    var pushed := Pushed(f.value, f.depth, 0);
    WeightOfPushed(f.value, f.depth, 0);
    if FrameOk(f) {
      forall i | 0 <= i < |pushed| ensures FrameOk(pushed[i]) {
        assert pushed[i].value == Children(f.value)[i];
      }
    }
    if f.depth <= MAX_JSON_DEPTH && NodeOk(f.value) && StackOk(pushed) {
      forall i | 0 <= i < |Children(f.value)|
        ensures Within(Children(f.value)[i], MAX_JSON_DEPTH - f.depth - 1) && Clean(Children(f.value)[i])
      {
        assert FrameOk(pushed[i]);
      }
    }
  }

  lemma StackOkSplits(a: seq<Frame>, b: seq<Frame>)
    ensures StackOk(a + b) <==> StackOk(a) && StackOk(b)
  {
    hide FrameOk;
    if StackOk(a + b) {
      forall i | 0 <= i < |a| ensures FrameOk(a[i]) { assert FrameOk((a + b)[i]); }
      forall i | 0 <= i < |b| ensures FrameOk(b[i]) { assert FrameOk((a + b)[|a| + i]); }
    }
  }

  /** `_validate_json_limits`: children are pushed in order and popped from the back; `nodes` and
      the weight of the stack always add up to the size of the value. */
  method ValidateJsonLimits(value: Value) returns (ok: bool)
    ensures ok <==> WithinLimits(value)
    ensures ok <==> Nodes(value) <= 100_000 && Within(value, 128) && Clean(value)
  {
    hide Nodes, Within, Clean, NodeOk, FrameOk, Pushed;
    var nodes := 0;
    var stack := [Frame(value, 0)];
    SingleFrame(value);
    while stack != []
      invariant nodes + Weight(stack) == Nodes(value) && nodes <= MAX_JSON_NODES
      invariant Within(value, MAX_JSON_DEPTH) && Clean(value) <==> StackOk(stack)
      decreases Weight(stack)
    {
      var top := stack[|stack| - 1];
      var rest := stack[..|stack| - 1];
      StackOkSplits(rest, [top]);
      assert stack == rest + [top];
      assert StackOk([top]) <==> FrameOk([top][0]);
      FrameOpens(top);
      NodesOpen(top.value);
      nodes := nodes + 1;
      if nodes > MAX_JSON_NODES { return false; }
      if top.depth > MAX_JSON_DEPTH { return false; }
      if !NodeOk(top.value) { return false; }
      WeightSplits(rest, Pushed(top.value, top.depth, 0));
      WeightOfPushed(top.value, top.depth, 0);
      StackOkSplits(rest, Pushed(top.value, top.depth, 0));
      stack := rest + Pushed(top.value, top.depth, 0);
    }
    ok := true;
  }

  lemma NodesOpen(v: Value)
    ensures Nodes(v) == 1 + NodesFrom(v, 0)
  {
  }

  lemma SingleFrame(value: Value)
    ensures Weight([Frame(value, 0)]) == Nodes(value)
    ensures StackOk([Frame(value, 0)]) <==> Within(value, MAX_JSON_DEPTH) && Clean(value)
  {
    var stack := [Frame(value, 0)];
    assert stack[..0] == [];
    assert StackOk(stack) <==> FrameOk(stack[0]);
  }
}
