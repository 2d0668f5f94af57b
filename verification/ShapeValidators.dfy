/** The two explicit-stack validators that bound the shape of an untrusted value before it is parsed further.

    Values are nodes of a heap, so that shared and even cyclic values, which YAML aliases can build, are values like
    any other.  The specification unfolds a value into its tree of positions; the loops never build that tree. */
module ShapeValidators {
  import Utf8

  type Ref = nat

  datatype Node =
    | Text(text: string)
    | Scalar
    | Dict(keys: seq<Ref>, values: seq<Ref>)
    | List(items: seq<Ref>)

  type Heap = map<Ref, Node>

  function At(h: Heap, r: Ref): Node {
    if r in h then h[r] else Scalar
  }

  /** The limits of the configuration files and of the agent's responses. */
  datatype Policy = Yaml | Response

  function MaxNodes(p: Policy): nat { if p.Yaml? then 10_000 else 2000 }
  function MaxDepth(p: Policy): nat { if p.Yaml? then 20 else 10 }
  const MAX_YAML_STRING_BYTES := 1_048_576
  const MAX_STRING_LENGTH := 20_000
  const MAX_WIDTH := 200
  const MAX_KEY_LENGTH := 200

  // ---------------------------------------------------------------- specification

  /** The positions below a node: the YAML walk visits keys too, the response walk only values. */
  function Children(p: Policy, n: Node): seq<Ref> {
    match n
    case Dict(keys, values) => if p.Yaml? then keys + values else values
    case List(items) => items
    case _ => []
  }

  predicate KeyFits(h: Heap, k: Ref) {
    At(h, k).Text? ==> |At(h, k).text| <= MAX_KEY_LENGTH
  }

  /** The limits on one node by itself. */
  predicate NodeFits(p: Policy, h: Heap, n: Node) {
    p.Yaml? ||
    match n
    case Text(s) => |s| <= MAX_STRING_LENGTH
    case Scalar => true
    case Dict(keys, values) => |keys| <= MAX_WIDTH && forall k :: k in keys ==> KeyFits(h, k)
    case List(items) => |items| <= MAX_WIDTH
  }

  /** No position below r is too deep, and every node there is within the limits. */
  predicate Fits(p: Policy, h: Heap, r: Ref, depth: nat)
    decreases MaxDepth(p) + 1 - depth, r
  {
    && depth <= MaxDepth(p)
    && NodeFits(p, h, At(h, r))
    && forall i :: 0 <= i < |Children(p, At(h, r))| ==> Fits(p, h, Children(p, At(h, r))[i], depth + 1)
  }

  /** What is added up over the positions of a value. */
  datatype Measure = Positions | TextBytes

  function Own(p: Policy, m: Measure, n: Node): nat {
    match m
    case Positions => 1
    case TextBytes => if p.Yaml? && n.Text? then Utf8.Length(n.text) else 0
  }

  function Total(ns: seq<nat>): nat {
    if ns == [] then 0 else Total(ns[..|ns| - 1]) + ns[|ns| - 1]
  }

  /** The measure of the tree of positions below r.  A position that is too deep is counted but not opened. */
  function Size(p: Policy, m: Measure, h: Heap, r: Ref, depth: nat): nat
    decreases MaxDepth(p) + 1 - depth, 1, r
  {
    if depth > MaxDepth(p) then Own(p, m, At(h, r))
    else Own(p, m, At(h, r)) + Total(Sizes(p, m, h, Children(p, At(h, r)), depth + 1))
  }

  function Sizes(p: Policy, m: Measure, h: Heap, rs: seq<Ref>, depth: nat): seq<nat>
    decreases MaxDepth(p) + 1 - depth, 2, |rs|
  {
    seq(|rs|, i requires 0 <= i < |rs| => Size(p, m, h, rs[i], depth))
  }

  /** What a value amounts to. */
  datatype Shape = Shape(nodes: nat, bytes: nat, fits: bool)

  function ShapeOf(p: Policy, h: Heap, r: Ref): Shape {
    Shape(Size(p, Positions, h, r, 0), Size(p, TextBytes, h, r, 0), Fits(p, h, r, 0))
  }

  predicate Within(p: Policy, shape: Shape) {
    shape.fits && shape.nodes <= MaxNodes(p) && shape.bytes <= MAX_YAML_STRING_BYTES
  }

  predicate Acceptable(p: Policy, h: Heap, r: Ref) {
    Within(p, ShapeOf(p, h, r))
  }

  // ---------------------------------------------------------------- the same, by paths

  /** The node at the end of a path of child positions, when there is one. */
  predicate Leads(p: Policy, h: Heap, r: Ref, path: seq<nat>, to: Ref)
    decreases |path|
  {
    if path == [] then r == to
    else
      var cs := Children(p, At(h, r));
      path[0] < |cs| && Leads(p, h, cs[path[0]], path[1..], to)
  }

  lemma {:induction false} LeadsOn(p: Policy, h: Heap, r: Ref, path: seq<nat>, mid: Ref, more: seq<nat>, to: Ref)
    requires Leads(p, h, r, path, mid) && Leads(p, h, mid, more, to)
    ensures Leads(p, h, r, path + more, to)
    decreases |path|
  {
    if path == [] {
      assert path + more == more;
    } else {
      LeadsOn(p, h, Children(p, At(h, r))[path[0]], path[1..], mid, more, to);
      assert (path + more)[1..] == path[1..] + more;
    }
  }

  /** A value that fits has no path longer than the depth limit, and every node a path leads to is within the
      limits on single nodes. */
  lemma {:induction false} FitsEveryPath(p: Policy, h: Heap, r: Ref, depth: nat, path: seq<nat>, to: Ref)
    requires Fits(p, h, r, depth) && Leads(p, h, r, path, to)
    ensures depth + |path| <= MaxDepth(p) && NodeFits(p, h, At(h, to))
    decreases |path|
  {
    if path != [] {
      FitsEveryPath(p, h, Children(p, At(h, r))[path[0]], depth + 1, path[1..], to);
    }
  }

  /** And conversely: a value that does not fit has an offending path. */
  lemma {:induction false} MisfitHasPath(p: Policy, h: Heap, r: Ref, depth: nat) returns (path: seq<nat>, to: Ref)
    requires !Fits(p, h, r, depth)
    ensures Leads(p, h, r, path, to)
    ensures depth + |path| > MaxDepth(p) || !NodeFits(p, h, At(h, to))
    decreases MaxDepth(p) + 1 - depth
  {
    path, to := [], r;
    if depth <= MaxDepth(p) && NodeFits(p, h, At(h, r)) {
      var cs := Children(p, At(h, r));
      var i :| 0 <= i < |cs| && !Fits(p, h, cs[i], depth + 1);
      var rest, end := MisfitHasPath(p, h, cs[i], depth + 1);
      path, to := [i] + rest, end;
      assert path[1..] == rest;
    }
  }

  /** A value that contains itself is never accepted. */
  lemma {:induction false} CyclesAreRejected(p: Policy, h: Heap, r: Ref, path: seq<nat>, mid: Ref, loop: seq<nat>)
    requires Leads(p, h, r, path, mid) && loop != [] && Leads(p, h, mid, loop, mid)
    ensures !Acceptable(p, h, r)
  {
    if Acceptable(p, h, r) {
      var long := Around(p, h, mid, loop, MaxDepth(p) + 1);
      LeadsOn(p, h, r, path, mid, long, mid);
      FitsEveryPath(p, h, r, 0, path + long, mid);
    }
  }

  lemma {:induction false} Around(p: Policy, h: Heap, mid: Ref, loop: seq<nat>, n: nat) returns (long: seq<nat>)
    requires loop != [] && Leads(p, h, mid, loop, mid)
    ensures |long| >= n && Leads(p, h, mid, long, mid)
  {
    long := [];
    if n > 0 {
      var shorter := Around(p, h, mid, loop, n - 1);
      LeadsOn(p, h, mid, loop, mid, shorter, mid);
      long := loop + shorter;
    }
  }

  // ---------------------------------------------------------------- the loops

  /** A position still to visit. */
  datatype Item = Item(value: Ref, depth: nat)

  function Pending(p: Policy, m: Measure, h: Heap, stack: seq<Item>): seq<nat> {
    seq(|stack|, i requires 0 <= i < |stack| => Size(p, m, h, stack[i].value, stack[i].depth))
  }

  function PushAll(stack: seq<Item>, rs: seq<Ref>, depth: nat): seq<Item> {
    stack + Items(rs, depth)
  }

  lemma {:induction false} PushBoth(stack: seq<Item>, keys: seq<Ref>, values: seq<Ref>, depth: nat)
    ensures PushAll(PushAll(stack, keys, depth), values, depth) == PushAll(stack, keys + values, depth)
    ensures PushAll(stack, [], depth) == stack
  {
  }

  function Items(rs: seq<Ref>, depth: nat): (items: seq<Item>)
    ensures |items| == |rs|
    ensures forall i :: 0 <= i < |rs| ==> items[i] == Item(rs[i], depth)
  {
    seq(|rs|, i requires 0 <= i < |rs| => Item(rs[i], depth))
  }

  /** Whatever the order, pushing positions adds their measure. */
  lemma {:induction false} TotalAppend(a: seq<nat>, b: seq<nat>)
    ensures Total(a + b) == Total(a) + Total(b)
  {
    if b == [] {
      assert a + b == a;
    } else {
      TotalAppend(a, b[..|b| - 1]);
      assert (a + b)[..|a + b| - 1] == a + b[..|b| - 1];
    }
  }

  /** What a walk has counted and what its stack still holds make up the whole. */
  ghost predicate Counted(p: Policy, m: Measure, h: Heap, whole: nat, n: nat, stack: seq<Item>) {
    n + Total(Pending(p, m, h, stack)) == whole
  }

  ghost predicate AllFit(p: Policy, h: Heap, stack: seq<Item>) {
    forall i :: 0 <= i < |stack| ==> Fits(p, h, stack[i].value, stack[i].depth)
  }

  /** A walk that has rejected nothing so far has only its stack left to judge. */
  ghost predicate Sound(p: Policy, h: Heap, shape: Shape, pops: nat, bytes: nat, stack: seq<Item>) {
    && Counted(p, Positions, h, shape.nodes, pops, stack)
    && Counted(p, TextBytes, h, shape.bytes, bytes, stack)
    && (shape.fits <==> AllFit(p, h, stack))
  }

  lemma {:induction false} Begun(p: Policy, h: Heap, value: Ref)
    ensures Sound(p, h, ShapeOf(p, h, value), 0, 0, [Item(value, 0)])
  {
    SizesOfOne(p, Positions, h, value, 0);
    SizesOfOne(p, TextBytes, h, value, 0);
    assert Pending(p, Positions, h, [Item(value, 0)]) == Sizes(p, Positions, h, [value], 0);
    assert Pending(p, TextBytes, h, [Item(value, 0)]) == Sizes(p, TextBytes, h, [value], 0);
  }

  lemma {:induction false} Finished(p: Policy, h: Heap, shape: Shape, pops: nat, bytes: nat)
    requires Sound(p, h, shape, pops, bytes, []) && pops <= MaxNodes(p) && bytes <= MAX_YAML_STRING_BYTES
    ensures Within(p, shape)
  {
  }

  lemma {:induction false} SizesOfOne(p: Policy, m: Measure, h: Heap, r: Ref, depth: nat)
    ensures Total(Sizes(p, m, h, [r], depth)) == Size(p, m, h, r, depth)
  {
    TotalAppend([], [Size(p, m, h, r, depth)]);
    assert Sizes(p, m, h, [r], depth) == [] + [Size(p, m, h, r, depth)];
  }

  lemma {:induction false} PendingConcat(p: Policy, m: Measure, h: Heap, rest: seq<Item>, rs: seq<Ref>, depth: nat)
    ensures Pending(p, m, h, rest + Items(rs, depth)) == Pending(p, m, h, rest) + Sizes(p, m, h, rs, depth)
  {
    var stack := rest + Items(rs, depth);
    assert forall i :: 0 <= i < |rest| ==> stack[i] == rest[i];
    assert forall i :: 0 <= i < |rs| ==> stack[|rest| + i] == Item(rs[i], depth);
  }

  lemma {:induction false} PendingPush(p: Policy, m: Measure, h: Heap, rest: seq<Item>, rs: seq<Ref>, depth: nat)
    ensures Total(Pending(p, m, h, rest + Items(rs, depth)))
         == Total(Pending(p, m, h, rest)) + Total(Sizes(p, m, h, rs, depth))
  {
    PendingConcat(p, m, h, rest, rs, depth);
    TotalAppend(Pending(p, m, h, rest), Sizes(p, m, h, rs, depth));
  }

  lemma {:induction false} PendingPop(p: Policy, m: Measure, h: Heap, rest: seq<Item>, item: Item)
    ensures Total(Pending(p, m, h, rest + [item]))
         == Total(Pending(p, m, h, rest)) + Size(p, m, h, item.value, item.depth)
  {
    PendingPush(p, m, h, rest, [item.value], item.depth);
    assert Items([item.value], item.depth) == [item];
    SizesOfOne(p, m, h, item.value, item.depth);
  }

  /** What a mapping counts for: keys and values in the YAML walk, values alone in the response walk. */
  lemma {:induction false} MappingsCount(m: Measure, h: Heap, r: Ref, depth: nat)
    requires At(h, r).Dict?
    ensures depth <= 20 ==>
              Size(Yaml, m, h, r, depth) ==
              One(m) + Total(Sizes(Yaml, m, h, At(h, r).keys, depth + 1))
              + Total(Sizes(Yaml, m, h, At(h, r).values, depth + 1))
    ensures depth <= 10 ==>
              Size(Response, m, h, r, depth) == One(m) + Total(Sizes(Response, m, h, At(h, r).values, depth + 1))
  {
    var node := At(h, r);
    var keys, values := Sizes(Yaml, m, h, node.keys, depth + 1), Sizes(Yaml, m, h, node.values, depth + 1);
    assert Sizes(Yaml, m, h, node.keys + node.values, depth + 1) == keys + values;
    TotalAppend(keys, values);
  }

  function One(m: Measure): nat { if m.Positions? then 1 else 0 }

  lemma {:induction false} Opened(p: Policy, m: Measure, h: Heap, r: Ref, depth: nat)
    ensures Size(p, m, h, r, depth) >= Own(p, m, At(h, r))
    ensures depth > MaxDepth(p) ||
            Size(p, m, h, r, depth) == Own(p, m, At(h, r)) + Total(Sizes(p, m, h, Children(p, At(h, r)), depth + 1))
  {
  }

  lemma {:induction false} PoppedCount(p: Policy, m: Measure, h: Heap, whole: nat, n: nat, rest: seq<Item>, item: Item)
    requires Counted(p, m, h, whole, n, rest + [item])
    ensures n + Own(p, m, At(h, item.value)) <= whole
    ensures item.depth <= MaxDepth(p) ==>
              Counted(p, m, h, whole, n + Own(p, m, At(h, item.value)),
                      rest + Items(Children(p, At(h, item.value)), item.depth + 1))
  {
    PendingPop(p, m, h, rest, item);
    Opened(p, m, h, item.value, item.depth);
    PendingPush(p, m, h, rest, Children(p, At(h, item.value)), item.depth + 1);
  }

  lemma {:induction false} AllFitAppend(p: Policy, h: Heap, a: seq<Item>, b: seq<Item>)
    ensures AllFit(p, h, a + b) <==> AllFit(p, h, a) && AllFit(p, h, b)
  {
    assert forall i :: 0 <= i < |a| ==> (a + b)[i] == a[i];
    assert forall i :: 0 <= i < |b| ==> (a + b)[|a| + i] == b[i];
  }

  lemma {:induction false} OneFits(p: Policy, h: Heap, item: Item)
    ensures AllFit(p, h, [item]) <==> Fits(p, h, item.value, item.depth)
    ensures Fits(p, h, item.value, item.depth) <==>
            && item.depth <= MaxDepth(p) && NodeFits(p, h, At(h, item.value))
            && AllFit(p, h, Items(Children(p, At(h, item.value)), item.depth + 1))
  {
    assert [item][0] == item;
    var cs := Children(p, At(h, item.value));
    var below := Items(cs, item.depth + 1);
    assert forall i :: 0 <= i < |cs| ==> below[i] == Item(cs[i], item.depth + 1);
  }

  /** One turn of either walk: each check rejects rightly, and opening the node keeps the walk sound. */
  lemma {:induction false} Popped(p: Policy, h: Heap, shape: Shape, pops: nat, bytes: nat, rest: seq<Item>, item: Item)
    requires Sound(p, h, shape, pops, bytes, rest + [item])
    ensures var n := At(h, item.value); var b := bytes + Own(p, TextBytes, n);
            && (pops + 1 > MaxNodes(p) ==> shape.nodes > MaxNodes(p))
            && (item.depth > MaxDepth(p) ==> !shape.fits)
            && (!NodeFits(p, h, n) ==> !shape.fits)
            && (b > MAX_YAML_STRING_BYTES ==> shape.bytes > MAX_YAML_STRING_BYTES)
            && (item.depth <= MaxDepth(p) && NodeFits(p, h, n) ==>
                  Sound(p, h, shape, pops + 1, b, PushAll(rest, Children(p, n), item.depth + 1)))
  {
    PoppedCount(p, Positions, h, shape.nodes, pops, rest, item);
    PoppedCount(p, TextBytes, h, shape.bytes, bytes, rest, item);
    AllFitAppend(p, h, rest, [item]);
    AllFitAppend(p, h, rest, Items(Children(p, At(h, item.value)), item.depth + 1));
    OneFits(p, h, item);
  }

  datatype Verdict = Accepted | TooManyValues | TooDeep | TooMuchText | TextTooLong | TooWide | KeyTooLong

  /** A rejection names a limit that the value does exceed. */
  predicate Justified(p: Policy, verdict: Verdict, shape: Shape) {
    match verdict
    case Accepted => Within(p, shape)
    case TooManyValues => shape.nodes > MaxNodes(p)
    case TooMuchText => shape.bytes > MAX_YAML_STRING_BYTES
    case _ => !shape.fits
  }

  /** The YAML walk: accepts exactly the acceptable values, within one pop more than the node limit, on shared and
      cyclic values as well. */
  method ValidateYamlShape(h: Heap, value: Ref) returns (verdict: Verdict, pops: nat)
    ensures verdict.Accepted? <==> Acceptable(Yaml, h, value)
    ensures Justified(Yaml, verdict, ShapeOf(Yaml, h, value))
    ensures pops <= MaxNodes(Yaml) + 1
  {
    var stack := [Item(value, 0)];
    var bytes: nat := 0;
    pops := 0;
    ghost var shape := ShapeOf(Yaml, h, value);
    Begun(Yaml, h, value);
    while stack != []
      invariant pops <= MaxNodes(Yaml) && bytes <= MAX_YAML_STRING_BYTES
      invariant Sound(Yaml, h, shape, pops, bytes, stack)
      decreases MaxNodes(Yaml) - pops
    {
      var item, rest := stack[|stack| - 1], stack[..|stack| - 1];
      assert stack == rest + [item];
      Popped(Yaml, h, shape, pops, bytes, rest, item);
      pops := pops + 1;
      if pops > MaxNodes(Yaml) {
        return TooManyValues, pops;
      }
      if item.depth > MaxDepth(Yaml) {
        return TooDeep, pops;
      }
      var node := At(h, item.value);
      if node.Text? {
        bytes := bytes + Utf8.Length(node.text);
        if bytes > MAX_YAML_STRING_BYTES {
          return TooMuchText, pops;
        }
      }
      stack := OpenYaml(node, rest, item.depth + 1);
    }
    Finished(Yaml, h, shape, pops, bytes);
    return Accepted, pops;
  }

  /** Pushes what is below a node: a mapping's keys, then its values, or a list's items. */
  method OpenYaml(node: Node, rest: seq<Item>, depth: nat) returns (stack: seq<Item>)
    ensures stack == PushAll(rest, Children(Yaml, node), depth)
  {
    stack := rest;
    match node
    case Dict(keys, values) =>
      stack := PushAll(stack, keys, depth);
      stack := PushAll(stack, values, depth);
      PushBoth(rest, keys, values, depth);
    case List(items) => stack := PushAll(stack, items, depth);
    case _ => PushBoth(rest, [], [], depth);
  }

  /** A mapping has as many values as keys. */
  predicate Paired(n: Node) {
    n.Dict? ==> |n.keys| == |n.values|
  }

  /** The response walk. */
  method ValidateResponseShape(h: Heap, value: Ref) returns (verdict: Verdict, pops: nat)
    requires forall r :: Paired(At(h, r))
    ensures verdict.Accepted? <==> Acceptable(Response, h, value)
    ensures Justified(Response, verdict, ShapeOf(Response, h, value))
    ensures pops <= MaxNodes(Response) + 1
  {
    var stack := [Item(value, 0)];
    pops := 0;
    ghost var shape := ShapeOf(Response, h, value);
    Begun(Response, h, value);
    while stack != []
      invariant pops <= MaxNodes(Response)
      invariant Sound(Response, h, shape, pops, 0, stack)
      decreases MaxNodes(Response) - pops
    {
      var item, rest := stack[|stack| - 1], stack[..|stack| - 1];
      assert stack == rest + [item];
      Popped(Response, h, shape, pops, 0, rest, item);
      pops := pops + 1;
      if pops > MaxNodes(Response) {
        return TooManyValues, pops;
      }
      if item.depth > MaxDepth(Response) {
        return TooDeep, pops;
      }
      stack, verdict := OpenResponse(h, At(h, item.value), rest, item.depth + 1);
      if !verdict.Accepted? {
        return;
      }
    }
    Finished(Response, h, shape, pops, 0);
    return Accepted, pops;
  }

  /** Checks one node against its own limits and pushes what is below it. */
  method OpenResponse(h: Heap, node: Node, rest: seq<Item>, depth: nat) returns (stack: seq<Item>, verdict: Verdict)
    requires Paired(node)
    ensures verdict.Accepted? <==> NodeFits(Response, h, node)
    ensures verdict.TextTooLong? <==> node.Text? && |node.text| > MAX_STRING_LENGTH
    ensures verdict.TooWide? <==>
              (node.Dict? && |node.keys| > MAX_WIDTH) || (node.List? && |node.items| > MAX_WIDTH)
    ensures verdict.Accepted? || verdict.TextTooLong? || verdict.TooWide? || verdict.KeyTooLong?
    ensures verdict.Accepted? ==> stack == PushAll(rest, Children(Response, node), depth)
  {
    stack := rest;
    match node
    case Text(s) =>
      PushBoth(rest, [], [], depth);
      return stack, if |s| > MAX_STRING_LENGTH then TextTooLong else Accepted;
    case Scalar =>
      PushBoth(rest, [], [], depth);
      return stack, Accepted;
    case Dict(keys, values) =>
      if |keys| > MAX_WIDTH {
        return stack, TooWide;
      }
      var fine;
      stack, fine := PushValues(h, stack, keys, values, depth);
      return stack, if fine then Accepted else KeyTooLong;
    case List(items) =>
      if |items| > MAX_WIDTH {
        return stack, TooWide;
      }
      return PushAll(stack, items, depth), Accepted;
  }

  /** The loop over a mapping's items: checks each key and pushes each value, up to the first bad key. */
  method PushValues(h: Heap, before: seq<Item>, keys: seq<Ref>, values: seq<Ref>, depth: nat)
    returns (stack: seq<Item>, fine: bool)
    requires |keys| == |values|
    ensures fine <==> forall k :: k in keys ==> KeyFits(h, k)
    ensures fine ==> stack == PushAll(before, values, depth)
  {
    stack := before;
    for i := 0 to |keys|
      invariant forall k :: k in keys[..i] ==> KeyFits(h, k)
      invariant stack == before + Items(values[..i], depth)
    {
      var key := keys[i];
      if At(h, key).Text? && |At(h, key).text| > MAX_KEY_LENGTH {
        assert key in keys && !KeyFits(h, key);
        return stack, false;
      }
      assert values[..i + 1] == values[..i] + [values[i]];
      assert Items(values[..i + 1], depth) == Items(values[..i], depth) + [Item(values[i], depth)];
      stack := stack + [Item(values[i], depth)];
    }
    assert keys[..|keys|] == keys && values[..|keys|] == values;
    return stack, true;
  }
}
