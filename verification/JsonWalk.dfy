/** The two bound checks on parsed values, node count and nesting depth: with an
    explicit stack, whatever order it is popped and members are pushed in, and by
    recursion with a running counter. */
module JsonWalk {
  import opened Json
  import Text

  // ----- The recursive definition ---------------------------------------------------

  /** All values in `j`, itself included. */
  ghost function Nodes(j: Json): (n: nat)
    ensures n >= 1
    decreases j, 1
  {
    match j
    case Arr(items) => 1 + ItemNodes(j, |items|)
    case Obj(fields) => 1 + MemberNodes(j, fields.Keys)
    case _ => 1
  }

  ghost function ItemNodes(j: Json, n: nat): nat
    requires j.Arr? && n <= |j.items|
    decreases j, 0, n
  {
    if n == 0 then 0 else ItemNodes(j, n - 1) + Nodes(j.items[n - 1])
  }

  ghost function MemberNodes(j: Json, keys: set<string>): nat
    requires j.Obj? && keys <= j.fields.Keys
    decreases j, 0, |keys|
  {
    if keys == {} then 0
    else
      var key := Text.Least(keys);
      Nodes(j.fields[key]) + MemberNodes(j, keys - {key})
  }

  /** No value in `j` lies deeper than `maximum`, with `j` itself at `depth`. */
  ghost predicate Within(j: Json, depth: nat, maximum: nat) {
    && depth <= maximum
    && (j.Arr? ==> forall i :: 0 <= i < |j.items| ==> Within(j.items[i], depth + 1, maximum))
    && (j.Obj? ==> forall k :: k in j.fields ==> Within(j.fields[k], depth + 1, maximum))
  }

  /** The member sum does not depend on the order in which keys are taken. */
  lemma {:induction false} TakeMember(j: Json, keys: set<string>, key: string)
    requires j.Obj? && keys <= j.fields.Keys && key in keys
    ensures MemberNodes(j, keys) == Nodes(j.fields[key]) + MemberNodes(j, keys - {key})
    decreases |keys|
  {
    var least := Text.Least(keys);
    if key == least {
    } else {
      TakeMember(j, keys - {least}, key);
      var rest := keys - {key};
      assert Text.Least(rest) == least by { Text.LeastUnique(rest, least, Text.Least(rest)); }
      assert rest - {least} == (keys - {least}) - {key};
    }
  }

  // ----- The walk ---------------------------------------------------------------------

  ghost function StackNodes(stack: seq<(Json, nat)>): nat {
    if stack == [] then 0 else StackNodes(stack[..|stack| - 1]) + Nodes(stack[|stack| - 1].0)
  }

  lemma PushOne(stack: seq<(Json, nat)>, entry: (Json, nat))
    ensures StackNodes(stack + [entry]) == StackNodes(stack) + Nodes(entry.0)
  {
    assert (stack + [entry])[..|stack|] == stack;
  }

  lemma {:induction false} PopAny(stack: seq<(Json, nat)>, at: nat)
    requires at < |stack|
    ensures StackNodes(stack[..at] + stack[at + 1..]) == StackNodes(stack) - Nodes(stack[at].0)
    ensures StackNodes(stack) >= Nodes(stack[at].0)
    decreases |stack|
  {
    var front, top := stack[..|stack| - 1], stack[|stack| - 1];
    if at == |stack| - 1 {
      assert stack[..at] + stack[at + 1..] == front;
    } else {
      PopAny(front, at);
      var popped := front[..at] + front[at + 1..];
      assert stack[..at] + stack[at + 1..] == popped + [top];
      PushOne(popped, top);
    }
  }

  ghost predicate AllWithin(stack: seq<(Json, nat)>, maximum: nat) {
    forall i :: 0 <= i < |stack| ==> Within(stack[i].0, stack[i].1, maximum)
  }

  method PushItems(stack: seq<(Json, nat)>, value: Json, depth: nat, ghost maximum: nat)
    returns (pushed: seq<(Json, nat)>)
    requires value.Arr?
    ensures StackNodes(pushed) == StackNodes(stack) + Nodes(value) - 1
    ensures depth <= maximum
            ==> (AllWithin(pushed, maximum) <==> AllWithin(stack, maximum) && Within(value, depth, maximum))
  {
    pushed := stack;
    var i := 0;
    while i < |value.items|
      invariant 0 <= i <= |value.items|
      invariant StackNodes(pushed) == StackNodes(stack) + ItemNodes(value, i)
      invariant AllWithin(pushed, maximum) <==>
        AllWithin(stack, maximum) && forall k :: 0 <= k < i ==> Within(value.items[k], depth + 1, maximum)
    {
      PushOne(pushed, (value.items[i], depth + 1));
      ghost var was := pushed;
      pushed := pushed + [(value.items[i], depth + 1)];
      WithinSnoc(was, (value.items[i], depth + 1), maximum);
      i := i + 1;
    }
  }

  lemma WithinSnoc(stack: seq<(Json, nat)>, entry: (Json, nat), maximum: nat)
    ensures AllWithin(stack + [entry], maximum) <==> AllWithin(stack, maximum) && Within(entry.0, entry.1, maximum)
  {
    var more := stack + [entry];
    assert forall i :: 0 <= i < |stack| ==> more[i] == stack[i];
    assert more[|stack|] == entry;
  }

  method PushMembers(stack: seq<(Json, nat)>, value: Json, depth: nat, ghost maximum: nat)
    returns (pushed: seq<(Json, nat)>)
    requires value.Obj?
    ensures StackNodes(pushed) == StackNodes(stack) + Nodes(value) - 1
    ensures depth <= maximum
            ==> (AllWithin(pushed, maximum) <==> AllWithin(stack, maximum) && Within(value, depth, maximum))
  {
    pushed := stack;
    var rest := value.fields.Keys;
    while rest != {}
      invariant rest <= value.fields.Keys
      invariant StackNodes(pushed) + MemberNodes(value, rest) == StackNodes(stack) + Nodes(value) - 1
      invariant AllWithin(pushed, maximum) <==>
        AllWithin(stack, maximum)
        && forall k :: k in value.fields && k !in rest ==> Within(value.fields[k], depth + 1, maximum)
      decreases |rest|
    {
      var key :| key in rest;
      TakeMember(value, rest, key);
      PushOne(pushed, (value.fields[key], depth + 1));
      WithinSnoc(pushed, (value.fields[key], depth + 1), maximum);
      pushed := pushed + [(value.fields[key], depth + 1)];
      rest := rest - {key};
    }
  }

  /** Accepts exactly the values with at most `maxNodes` nodes and depth at most
      `maxDepth`; `order` picks any stack position to pop next. */
  method WithinBounds(value: Json, maxDepth: nat, maxNodes: nat, order: nat -> nat) returns (accepted: bool)
    ensures accepted <==> Nodes(value) <= maxNodes && Within(value, 0, maxDepth)
  {
    var nodes := 0;
    var stack := [(value, 0)];
    assert stack[..0] == [];
    while stack != []
      invariant nodes + StackNodes(stack) == Nodes(value)
      invariant nodes <= maxNodes
      invariant Within(value, 0, maxDepth) <==> AllWithin(stack, maxDepth)
      decreases StackNodes(stack)
    {
      var at := order(nodes) % |stack|;
      var (current, depth) := stack[at];
      PopAny(stack, at);
      PopWithin(stack, at, maxDepth);
      stack := stack[..at] + stack[at + 1..];
      nodes := nodes + 1;
      if depth > maxDepth || nodes > maxNodes { return false; }
      if current.Obj? {
        stack := PushMembers(stack, current, depth, maxDepth);
      } else if current.Arr? {
        stack := PushItems(stack, current, depth, maxDepth);
      }
    }
    accepted := true;
  }

  lemma PopWithin(stack: seq<(Json, nat)>, at: nat, maximum: nat)
    requires at < |stack|
    ensures AllWithin(stack, maximum) <==>
              AllWithin(stack[..at] + stack[at + 1..], maximum) && Within(stack[at].0, stack[at].1, maximum)
  {
    var popped := stack[..at] + stack[at + 1..];
    assert forall i :: 0 <= i < at ==> popped[i] == stack[i];
    assert forall i :: at < i < |stack| ==> popped[i - 1] == stack[i];
  }

  // ----- The recursive walk -------------------------------------------------------------

  lemma {:induction false} ItemNodesRise(j: Json, i: nat, n: nat)
    requires j.Arr? && i <= n <= |j.items|
    ensures ItemNodes(j, i) <= ItemNodes(j, n)
    decreases n
  {
    if i == n {
    } else {
      ItemNodesRise(j, i, n - 1);
    }
  }

  /** The same bounds checked by recursion with one running counter, as the
      Hermesfile validator does: a fault is reported and the walk goes on, so the
      counter is exact only while nothing was reported. */
  method ValidateGraph(value: Json, depth: nat, counter: nat, maxDepth: nat, maxNodes: nat)
    returns (count: nat, clean: bool)
    ensures clean <==> counter + Nodes(value) <= maxNodes && Within(value, depth, maxDepth)
    ensures clean ==> count == counter + Nodes(value)
    decreases value, 1
  {
    count, clean := counter + 1, counter < maxNodes && depth <= maxDepth;
    if !clean { return; }
    if value.Obj? {
      count, clean := ValidateMembers(value, depth, count, maxDepth, maxNodes);
    } else if value.Arr? {
      count, clean := ValidateItems(value, depth, count, maxDepth, maxNodes);
    }
  }

  method ValidateMembers(value: Json, depth: nat, counter: nat, maxDepth: nat, maxNodes: nat)
    returns (count: nat, clean: bool)
    requires value.Obj? && counter <= maxNodes
    ensures clean <==> && counter + MemberNodes(value, value.fields.Keys) <= maxNodes
                       && forall k :: k in value.fields ==> Within(value.fields[k], depth + 1, maxDepth)
    ensures clean ==> count == counter + MemberNodes(value, value.fields.Keys)
    decreases value, 0
  {
    count, clean := counter, true;
    var rest := value.fields.Keys;
    while rest != {}
      invariant rest <= value.fields.Keys
      invariant clean ==>
        && count <= maxNodes
        && count + MemberNodes(value, rest) == counter + MemberNodes(value, value.fields.Keys)
        && forall k :: k in value.fields && k !in rest ==> Within(value.fields[k], depth + 1, maxDepth)
      invariant !clean ==>
        || counter + MemberNodes(value, value.fields.Keys) > maxNodes
        || exists k :: k in value.fields && !Within(value.fields[k], depth + 1, maxDepth)
      decreases |rest|
    {
      var key :| key in rest;
      TakeMember(value, rest, key);
      var inner;
      count, inner := ValidateGraph(value.fields[key], depth + 1, count, maxDepth, maxNodes);
      clean := clean && inner;
      rest := rest - {key};
    }
  }

  method ValidateItems(value: Json, depth: nat, counter: nat, maxDepth: nat, maxNodes: nat)
    returns (count: nat, clean: bool)
    requires value.Arr? && counter <= maxNodes
    ensures clean <==> && counter + ItemNodes(value, |value.items|) <= maxNodes
                       && forall i :: 0 <= i < |value.items| ==> Within(value.items[i], depth + 1, maxDepth)
    ensures clean ==> count == counter + ItemNodes(value, |value.items|)
    decreases value, 0
  {
    count, clean := counter, true;
    var i := 0;
    while i < |value.items|
      invariant 0 <= i <= |value.items|
      invariant clean ==>
        && count == counter + ItemNodes(value, i) && count <= maxNodes
        && forall k :: 0 <= k < i ==> Within(value.items[k], depth + 1, maxDepth)
      invariant !clean ==>
        || counter + ItemNodes(value, |value.items|) > maxNodes
        || exists k :: 0 <= k < |value.items| && !Within(value.items[k], depth + 1, maxDepth)
    {
      ItemNodesRise(value, i + 1, |value.items|);
      var inner;
      count, inner := ValidateGraph(value.items[i], depth + 1, count, maxDepth, maxNodes);
      clean := clean && inner;
      i := i + 1;
    }
  }
}
