/** Budgets on a decoded JSON payload, checked with an explicit stack. */
module JsonBudget {

  import opened Common

  /** A payload; numbers, booleans and null are all the same to the check. */
  datatype Payload =
    | Scalar
    | Text(text: string)
    | Object(members: seq<Member>)
    | Array(items: seq<Payload>)

  datatype Member = Member(key: string, value: Payload)

  function Width(p: Payload): nat {
    match p
    case Object(members) => |members|
    case Array(items) => |items|
    case _ => 0
  }

  // ---------- the budgets, by recursion on the payload ----------

  function Child(p: Payload, i: nat): Payload
    requires i < Width(p)
    ensures Child(p, i) < p
  {
    if p.Object? then
      assert p.members[i] < p;
      p.members[i].value
    else p.items[i]
  }

  /** Values and object keys. */
  function Nodes(p: Payload): (n: nat)
    ensures n > 0
    decreases p, Width(p) + 1
  {
    1 + NodesUpTo(p, Width(p))
  }

  function NodesUpTo(p: Payload, i: nat): nat
    requires i <= Width(p)
    decreases p, i
  {
    if i == 0 then 0
    else NodesUpTo(p, i - 1) + (if p.Object? then 1 else 0) + Nodes(Child(p, i - 1))
  }

  /** How far below the payload its deepest node is. */
  function Depth(p: Payload): nat
    decreases p, Width(p) + 1
  {
    DepthUpTo(p, Width(p))
  }

  function DepthUpTo(p: Payload, i: nat): (d: nat)
    requires i <= Width(p)
    decreases p, i
  {
    if i == 0 then 0 else Max(DepthUpTo(p, i - 1), 1 + Depth(Child(p, i - 1)))
  }

  /** No string in it, key or value, is longer. */
  predicate StringsFit(p: Payload, maxLength: int) {
    match p
    case Scalar => true
    case Text(s) => |s| <= maxLength
    case Object(members) => forall i :: 0 <= i < |members| ==> |members[i].key| <= maxLength && StringsFit(members[i].value, maxLength)
    case Array(items) => forall i :: 0 <= i < |items| ==> StringsFit(items[i], maxLength)
  }

  predicate Fits(p: Payload, maxDepth: int, maxNodes: int, maxLength: int) {
    Nodes(p) <= maxNodes && Depth(p) <= maxDepth && StringsFit(p, maxLength)
  }

  // ---------- the budgets, by the places of a payload ----------

  /** From a container to one of its keys or one of its values. */
  datatype Turn = ToKey(index: nat) | ToValue(index: nat)

  type Way = seq<Turn>

  predicate LeadsToNode(p: Payload, way: Way)
    decreases |way|
  {
    way != [] ==>
      && way[0].index < Width(p)
      && if way[0].ToKey? then p.Object? && |way| == 1 else LeadsToNode(Child(p, way[0].index), way[1..])
  }

  /** The text at the end of a way: a key or a string. */
  function TextAt(p: Payload, way: Way): Option<string>
    requires LeadsToNode(p, way)
    decreases |way|
  {
    if way == [] then (if p.Text? then Some(p.text) else None)
    else if way[0].ToKey? then Some(p.members[way[0].index].key)
    else TextAt(Child(p, way[0].index), way[1..])
  }

  /** The depth is the length of the longest way. */
  lemma {:induction false} DepthIsLongestWay(p: Payload, way: Way)
    requires LeadsToNode(p, way)
    ensures |way| <= Depth(p)
    decreases |way|
  {
    if way != [] {
      DepthIsDeepestChild(p, Width(p), Depth(p));
      assert 1 + Depth(Child(p, way[0].index)) <= Depth(p);
      if way[0].ToValue? {
        DepthIsLongestWay(Child(p, way[0].index), way[1..]);
      }
    }
  }

  lemma {:induction false} LongestWay(p: Payload) returns (way: Way)
    ensures LeadsToNode(p, way) && |way| == Depth(p)
    decreases p, Width(p) + 1
  {
    way := LongestWayUpTo(p, Width(p));
  }

  lemma {:induction false} LongestWayUpTo(p: Payload, i: nat) returns (way: Way)
    requires i <= Width(p)
    ensures LeadsToNode(p, way) && |way| == DepthUpTo(p, i)
    decreases p, i
  {
    if i == 0 {
      way := [];
    } else {
      way := LongestWayUpTo(p, i - 1);
      if DepthUpTo(p, i - 1) < 1 + Depth(Child(p, i - 1)) {
        var rest := LongestWay(Child(p, i - 1));
        way := [ToValue(i - 1)] + rest;
        assert way[1..] == rest;
      }
    }
  }

  /** The strings fit when every text at the end of a way does. */
  lemma {:induction false} StringsFitByWays(p: Payload, maxLength: int)
    ensures StringsFit(p, maxLength) <==> TextsFit(p, maxLength)
    decreases p
  {
    if StringsFit(p, maxLength) {
      forall way | LeadsToNode(p, way) && TextAt(p, way).Some? ensures |TextAt(p, way).value| <= maxLength {
        FittingText(p, way, maxLength);
      }
    } else {
      var way := TooLong(p, maxLength);
    }
  }

  lemma {:induction false} FittingText(p: Payload, way: Way, maxLength: int)
    requires StringsFit(p, maxLength) && LeadsToNode(p, way) && TextAt(p, way).Some?
    ensures |TextAt(p, way).value| <= maxLength
    decreases |way|
  {
    if way != [] && way[0].ToValue? {
      FittingText(Child(p, way[0].index), way[1..], maxLength);
    }
  }

  lemma {:induction false} TooLong(p: Payload, maxLength: int) returns (way: Way)
    requires !StringsFit(p, maxLength)
    ensures LeadsToNode(p, way) && TextAt(p, way).Some? && |TextAt(p, way).value| > maxLength
    decreases p
  {
    way := [];
    if p.Object? {
      var i :| 0 <= i < |p.members| && !(|p.members[i].key| <= maxLength && StringsFit(p.members[i].value, maxLength));
      if |p.members[i].key| > maxLength {
        way := [ToKey(i)];
      } else {
        assert p.members[i] < p;
        var rest := TooLong(p.members[i].value, maxLength);
        way := [ToValue(i)] + rest;
        assert way[1..] == rest;
      }
    } else if p.Array? {
      var i :| 0 <= i < |p.items| && !StringsFit(p.items[i], maxLength);
      var rest := TooLong(p.items[i], maxLength);
      way := [ToValue(i)] + rest;
      assert way[1..] == rest;
    }
  }

  function Ways(p: Payload): set<Way>
    decreases p, Width(p) + 1
  {
    {[]} + WaysUpTo(p, Width(p))
  }

  function Behind(turn: Turn, ways: set<Way>): set<Way> { set way | way in ways :: [turn] + way }

  function WaysUpTo(p: Payload, i: nat): set<Way>
    requires i <= Width(p)
    decreases p, i
  {
    if i == 0 then {}
    else WaysUpTo(p, i - 1) + (if p.Object? then {[ToKey(i - 1)]} else {}) + Behind(ToValue(i - 1), Ways(Child(p, i - 1)))
  }

  lemma {:induction false} BehindSize(turn: Turn, ways: set<Way>)
    ensures |Behind(turn, ways)| == |ways|
    decreases |ways|
  {
    if ways == {} {
      assert Behind(turn, ways) == {};
    } else {
      var way :| way in ways;
      BehindSize(turn, ways - {way});
      assert Behind(turn, ways) == Behind(turn, ways - {way}) + {[turn] + way};
      assert [turn] + way !in Behind(turn, ways - {way}) by {
        forall other | other in ways - {way} ensures [turn] + other != [turn] + way {
          assert ([turn] + other)[1..] == other && ([turn] + way)[1..] == way;
        }
      }
    }
  }

  /** Every node is counted once. */
  lemma {:induction false} NodesAreWays(p: Payload)
    ensures |Ways(p)| == Nodes(p)
    ensures forall way :: way in Ways(p) <==> LeadsToNode(p, way)
    decreases p, Width(p) + 1
  {
    NodesAreWaysUpTo(p, Width(p));
    assert [] !in WaysUpTo(p, Width(p));
  }

  predicate TurnsBefore(p: Payload, i: nat, way: Way) { LeadsToNode(p, way) && way != [] && way[0].index < i }

  lemma {:induction false} NodesAreWaysUpTo(p: Payload, i: nat)
    requires i <= Width(p)
    ensures |WaysUpTo(p, i)| == NodesUpTo(p, i)
    ensures forall way :: way in WaysUpTo(p, i) <==> TurnsBefore(p, i, way)
    decreases p, i
  {
    if i > 0 {
      NodesAreWaysUpTo(p, i - 1);
      NodesAreWays(Child(p, i - 1));
      var before, keys, values := WaysUpTo(p, i - 1), if p.Object? then {[ToKey(i - 1)]} else {}, Behind(ToValue(i - 1), Ways(Child(p, i - 1)));
      BehindSize(ToValue(i - 1), Ways(Child(p, i - 1)));
      OneTurnMore(p, i - 1, values);
      assert before !! keys && before !! values && keys !! values;
      forall way ensures way in WaysUpTo(p, i) <==> TurnsBefore(p, i, way) {
        assert TurnsBefore(p, i, way) <==> TurnsBefore(p, i - 1, way) || way in keys || way in values;
      }
    }
  }

  /** The three budgets, on the places of the payload. */
  ghost predicate WaysFit(p: Payload, maxDepth: int, maxNodes: int, maxLength: int) {
    |Ways(p)| <= maxNodes && WaysReach(p, maxDepth) && TextsFit(p, maxLength)
  }

  ghost predicate WaysReach(p: Payload, maxDepth: int) { forall way :: LeadsToNode(p, way) ==> |way| <= maxDepth }

  ghost predicate TextsFit(p: Payload, maxLength: int) {
    forall way :: LeadsToNode(p, way) && TextAt(p, way).Some? ==> |TextAt(p, way).value| <= maxLength
  }

  lemma FitsByWays(p: Payload, maxDepth: int, maxNodes: int, maxLength: int)
    ensures Fits(p, maxDepth, maxNodes, maxLength) <==> WaysFit(p, maxDepth, maxNodes, maxLength)
  {
    NodesAreWays(p);
    DepthByWays(p, maxDepth);
    StringsFitByWays(p, maxLength);
  }

  lemma DepthByWays(p: Payload, maxDepth: int)
    ensures Depth(p) <= maxDepth <==> WaysReach(p, maxDepth)
  {
    if Depth(p) <= maxDepth {
      forall way | LeadsToNode(p, way) ensures |way| <= maxDepth { DepthIsLongestWay(p, way); }
    } else {
      var longest := LongestWay(p);
    }
  }

  lemma OneTurnMore(p: Payload, i: nat, values: set<Way>)
    requires i < Width(p) && values == Behind(ToValue(i), Ways(Child(p, i)))
    requires forall way :: way in Ways(Child(p, i)) <==> LeadsToNode(Child(p, i), way)
    ensures forall way :: way in values <==> LeadsToNode(p, way) && way != [] && way[0] == ToValue(i)
    ensures forall way :: LeadsToNode(p, way) && way != [] && way[0] == ToKey(i) <==> p.Object? && way == [ToKey(i)]
  {
    forall way ensures way in values <==> LeadsToNode(p, way) && way != [] && way[0] == ToValue(i) {
      if way in values {
        var rest :| rest in Ways(Child(p, i)) && way == [ToValue(i)] + rest;
        assert way[1..] == rest;
      }
      if LeadsToNode(p, way) && way != [] && way[0] == ToValue(i) {
        assert way == [ToValue(i)] + way[1..];
      }
    }
  }

  // ---------- the stack ----------

  datatype Frame = Frame(value: Payload, depth: nat)

  /** All the nodes still to be visited. */
  function Pending(stack: seq<Frame>): nat {
    if stack == [] then 0 else Pending(stack[..|stack| - 1]) + Nodes(stack[|stack| - 1].value)
  }

  predicate FrameFits(f: Frame, maxDepth: int, maxLength: int) {
    f.depth + Depth(f.value) <= maxDepth && StringsFit(f.value, maxLength)
  }

  predicate AllFit(stack: seq<Frame>, maxDepth: int, maxLength: int) {
    forall i :: 0 <= i < |stack| ==> FrameFits(stack[i], maxDepth, maxLength)
  }

  function KeyFrames(p: Payload, depth: nat): seq<Frame> {
    if p.Object? then seq(|p.members|, i requires 0 <= i < |p.members| => Frame(Text(p.members[i].key), depth)) else []
  }

  function ChildFrames(p: Payload, depth: nat): seq<Frame> {
    seq(Width(p), i requires 0 <= i < Width(p) => Frame(Child(p, i), depth))
  }

  lemma {:induction false} PendingOfConcat(a: seq<Frame>, b: seq<Frame>)
    ensures Pending(a + b) == Pending(a) + Pending(b)
  {
    if b == [] {
      assert a + b == a;
    } else {
      PendingOfConcat(a, b[..|b| - 1]);
      assert (a + b)[..|a + b| - 1] == a + b[..|b| - 1];
    }
  }

  lemma {:induction false} PendingOfKeys(frames: seq<Frame>)
    requires forall i :: 0 <= i < |frames| ==> frames[i].value.Text?
    ensures Pending(frames) == |frames|
  {
    if frames != [] {
      assert Width(frames[|frames| - 1].value) == 0;
      assert Nodes(frames[|frames| - 1].value) == 1;
      PendingOfKeys(frames[..|frames| - 1]);
    }
  }

  lemma {:induction false} PendingOfChildren(p: Payload, depth: nat, i: nat)
    requires i <= Width(p)
    ensures Pending(ChildFrames(p, depth)[..i]) + (if p.Object? then i else 0) == NodesUpTo(p, i)
  {
    if i > 0 {
      var frames := ChildFrames(p, depth);
      PendingOfChildren(p, depth, i - 1);
      assert frames[..i][..i - 1] == frames[..i - 1];
    }
  }

  /** What is pushed for a popped node stands for exactly the rest of its nodes. */
  lemma PushedNodes(p: Payload, depth: nat)
    ensures Pending(KeyFrames(p, depth) + ChildFrames(p, depth)) == Nodes(p) - 1
  {
    PendingOfConcat(KeyFrames(p, depth), ChildFrames(p, depth));
    PendingOfKeys(KeyFrames(p, depth));
    PendingOfChildren(p, depth, Width(p));
    assert ChildFrames(p, depth)[..Width(p)] == ChildFrames(p, depth);
  }

  lemma {:induction false} DepthIsDeepestChild(p: Payload, i: nat, m: int)
    requires i <= Width(p)
    ensures DepthUpTo(p, i) <= m <==> 0 <= m && forall j :: 0 <= j < i ==> 1 + Depth(Child(p, j)) <= m
  {
    if i > 0 {
      DepthIsDeepestChild(p, i - 1, m);
    }
  }

  /** A node fits exactly when it does by itself and everything pushed for it fits. */
  lemma PushedFit(f: Frame, maxDepth: int, maxLength: int)
    ensures FrameFits(f, maxDepth, maxLength) <==>
      && f.depth <= maxDepth && (f.value.Text? ==> |f.value.text| <= maxLength)
      && AllFit(KeyFrames(f.value, f.depth + 1), maxDepth, maxLength)
      && AllFit(ChildFrames(f.value, f.depth + 1), maxDepth, maxLength)
  {
    var p, d := f.value, f.depth + 1;
    var keys, children := KeyFrames(p, d), ChildFrames(p, d);
    DepthIsDeepestChild(p, Width(p), maxDepth - f.depth);
    if FrameFits(f, maxDepth, maxLength) {
      forall i | 0 <= i < |keys| ensures FrameFits(keys[i], maxDepth, maxLength) {
        assert 1 + Depth(Child(p, i)) <= maxDepth - f.depth;
      }
      forall i | 0 <= i < |children| ensures FrameFits(children[i], maxDepth, maxLength) {
        assert StringsFit(Child(p, i), maxLength);
      }
    }
    if AllFit(keys, maxDepth, maxLength) && AllFit(children, maxDepth, maxLength) {
      forall i | 0 <= i < Width(p) ensures 1 + Depth(Child(p, i)) <= maxDepth - f.depth && StringsFit(Child(p, i), maxLength) {
        assert FrameFits(children[i], maxDepth, maxLength);
      }
      if p.Object? {
        forall i | 0 <= i < |p.members| ensures |p.members[i].key| <= maxLength && StringsFit(p.members[i].value, maxLength) {
          assert FrameFits(keys[i], maxDepth, maxLength);
          assert StringsFit(Child(p, i), maxLength);
        }
      } else if p.Array? {
        forall i | 0 <= i < |p.items| ensures StringsFit(p.items[i], maxLength) {
          assert StringsFit(Child(p, i), maxLength);
        }
      }
    }
  }

  lemma AllFitOfConcat(a: seq<Frame>, b: seq<Frame>, maxDepth: int, maxLength: int)
    ensures AllFit(a + b, maxDepth, maxLength) <==> AllFit(a, maxDepth, maxLength) && AllFit(b, maxDepth, maxLength)
  {
    if AllFit(a + b, maxDepth, maxLength) {
      assert forall i :: 0 <= i < |a| ==> (a + b)[i] == a[i];
      assert forall i :: 0 <= i < |b| ==> (a + b)[|a| + i] == b[i];
    }
  }

  lemma {:induction false} WideUpTo(p: Payload, i: nat)
    requires i <= Width(p)
    ensures NodesUpTo(p, i) >= i
  {
    if i > 0 {
      WideUpTo(p, i - 1);
    }
  }

  /** `q` is the payload or somewhere inside it. */
  predicate Within(q: Payload, p: Payload)
    decreases p
  {
    q == p || exists i :: 0 <= i < Width(p) && Within(q, Child(p, i))
  }

  lemma {:induction false} ChildHasFewerNodes(p: Payload, i: nat, n: nat)
    requires i < n <= Width(p)
    ensures Nodes(Child(p, i)) <= NodesUpTo(p, n)
  {
    if i < n - 1 {
      ChildHasFewerNodes(p, i, n - 1);
    }
  }

  lemma {:induction false} PartHasFewerNodes(q: Payload, p: Payload)
    requires Within(q, p)
    ensures Nodes(q) <= Nodes(p)
    decreases p
  {
    if q != p {
      var i :| 0 <= i < Width(p) && Within(q, Child(p, i));
      PartHasFewerNodes(q, Child(p, i));
      ChildHasFewerNodes(p, i, Width(p));
    }
  }

  /** A container wider than the budget of nodes, anywhere, is over that budget anyway:
      the two checks on widths never change the verdict. */
  lemma WidthChecksAreRedundant(payload: Payload, container: Payload, maxDepth: int, maxNodes: int, maxLength: int)
    requires Within(container, payload) && Width(container) > maxNodes
    ensures !Fits(payload, maxDepth, maxNodes, maxLength)
  {
    PartHasFewerNodes(container, payload);
    WideUpTo(container, Width(container));
  }

  /** What the budgets still ask of the work to do. */
  predicate StillFits(stack: seq<Frame>, visited: nat, maxDepth: int, maxNodes: int, maxLength: int) {
    visited + Pending(stack) <= maxNodes && AllFit(stack, maxDepth, maxLength)
  }

  /** One turn of the loop asks the same of what is left. */
  lemma OneTurn(stack: seq<Frame>, visited: nat, maxDepth: int, maxNodes: int, maxLength: int)
    requires stack != []
    ensures
      var rest, f := stack[..|stack| - 1], stack[|stack| - 1];
      var next := rest + KeyFrames(f.value, f.depth + 1) + ChildFrames(f.value, f.depth + 1);
      && Pending(next) + 1 == Pending(stack)
      && (StillFits(stack, visited, maxDepth, maxNodes, maxLength) <==>
            && f.depth <= maxDepth && (f.value.Text? ==> |f.value.text| <= maxLength)
            && StillFits(next, visited + 1, maxDepth, maxNodes, maxLength))
      && Pending(stack) > Width(f.value)
  {
    var rest, f := stack[..|stack| - 1], stack[|stack| - 1];
    var keys, children := KeyFrames(f.value, f.depth + 1), ChildFrames(f.value, f.depth + 1);
    assert rest + keys + children == rest + (keys + children);
    PendingOfConcat(rest, keys + children);
    PushedNodes(f.value, f.depth + 1);
    PushedFit(f, maxDepth, maxLength);
    AllFitOfConcat(rest, keys + children, maxDepth, maxLength);
    AllFitOfConcat(keys, children, maxDepth, maxLength);
    AllFitOfConcat(rest, [f], maxDepth, maxLength);
    assert stack == rest + [f];
    assert AllFit([f], maxDepth, maxLength) <==> FrameFits([f][0], maxDepth, maxLength);
    WideUpTo(f.value, Width(f.value));
  }

  lemma OnlyThePayload(payload: Payload, maxDepth: int, maxNodes: int, maxLength: int)
    ensures Pending([Frame(payload, 0)]) == Nodes(payload)
    ensures StillFits([Frame(payload, 0)], 0, maxDepth, maxNodes, maxLength) <==> Fits(payload, maxDepth, maxNodes, maxLength)
  {
    var stack := [Frame(payload, 0)];
    assert stack[..0] == [];
    assert AllFit(stack, maxDepth, maxLength) <==> FrameFits(stack[0], maxDepth, maxLength);
  }

  /** `_validate_json_shape`: accepted exactly within the budgets, after at most one pop
      more than the budget of nodes. */
  method Validate(payload: Payload, maxDepth: int, maxNodes: int, maxLength: int) returns (ok: bool, pops: nat)
    ensures ok <==> Fits(payload, maxDepth, maxNodes, maxLength)
    ensures ok <==> WaysFit(payload, maxDepth, maxNodes, maxLength)
    ensures pops <= Max(maxNodes, 0) + 1
    ensures ok ==> pops == Nodes(payload)
  {
    var stack := [Frame(payload, 0)];
    pops := 0;
    FitsByWays(payload, maxDepth, maxNodes, maxLength);
    OnlyThePayload(payload, maxDepth, maxNodes, maxLength);
    while stack != []
      invariant StillFits(stack, pops, maxDepth, maxNodes, maxLength) <==> Fits(payload, maxDepth, maxNodes, maxLength)
      invariant pops + Pending(stack) == Nodes(payload) && pops <= Max(maxNodes, 0)
      decreases Pending(stack)
    {
      OneTurn(stack, pops, maxDepth, maxNodes, maxLength);
      var f := stack[|stack| - 1];
      stack := stack[..|stack| - 1];
      pops := pops + 1;
      if pops > maxNodes || f.depth > maxDepth {
        return false, pops;
      }
      if f.value.Text? && |f.value.text| > maxLength {
        return false, pops;
      }
      if f.value.Object? || f.value.Array? {
        if Width(f.value) > maxNodes {
          return false, pops;
        }
      }
      stack := stack + KeyFrames(f.value, f.depth + 1) + ChildFrames(f.value, f.depth + 1);
    }
    ok := true;
  }
}
