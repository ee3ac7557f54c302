/** The bounded traversal of uploaded JSON documents (backend/app/utils/json_safety.py:33-67). */
module JsonSafety {
  import opened Wrappers
  import opened Json
  import opened JsonLeaves

  datatype Limits = Limits(depth: nat, arrayLength: nat, scalarLength: nat, totalValues: nat)

  datatype Violation = TooDeep | ArrayTooLarge | StringTooLarge | TooManyValues

  /** No node is too deep, no array and no string too long. */
  predicate Fits(j: Json, depth: nat, l: Limits) {
    && depth <= l.depth
    && (j.Arr? ==> |j.items| <= l.arrayLength)
    && (j.Str? ==> |j.s| <= l.scalarLength)
    && forall i | 0 <= i < Width(j) :: Fits(ValueAt(j, i), depth + 1, l)
  }

  /** All members and elements of the document. */
  function Total(j: Json): nat
    decreases j, 1
  {
    Width(j) + TotalBelow(j, Width(j))
  }

  function TotalBelow(j: Json, n: nat): nat
    requires n <= Width(j)
    decreases j, 0, n
  {
    if n == 0 then 0 else TotalBelow(j, n - 1) + Total(ValueAt(j, n - 1))
  }

  predicate Bounded(j: Json, l: Limits) {
    Fits(j, 0, l) && Total(j) <= l.totalValues
  }

  // --- the stack ---

  /** A node and its depth. */
  datatype Entry = Entry(node: Json, depth: nat)

  function TotalOf(stack: seq<Entry>): nat {
    if stack == [] then 0 else TotalOf(stack[..|stack| - 1]) + Total(stack[|stack| - 1].node)
  }

  predicate AllFit(stack: seq<Entry>, l: Limits) {
    forall i | 0 <= i < |stack| :: Fits(stack[i].node, stack[i].depth, l)
  }

  /** What the loop counts down: all nodes still reachable from the stack. */
  function NodesOf(stack: seq<Entry>): nat {
    if stack == [] then 0 else NodesOf(stack[..|stack| - 1]) + Size(stack[|stack| - 1].node)
  }

  function Children(j: Json, depth: nat, n: nat): (r: seq<Entry>)
    requires n <= Width(j)
    ensures |r| == n && forall i | 0 <= i < n :: r[i] == Entry(ValueAt(j, i), depth + 1)
  {
    seq(n, i requires 0 <= i < n => Entry(ValueAt(j, i), depth + 1))
  }

  lemma {:induction false} ChildrenTotal(stack: seq<Entry>, j: Json, depth: nat, n: nat)
    requires n <= Width(j)
    ensures TotalOf(stack + Children(j, depth, n)) == TotalOf(stack) + TotalBelow(j, n)
    ensures NodesOf(stack + Children(j, depth, n)) == NodesOf(stack) + SizeBelow(j, n)
  {
    var all := stack + Children(j, depth, n);
    if n == 0 {
      assert all == stack;
    } else {
      ChildrenTotal(stack, j, depth, n - 1);
      assert all[..|all| - 1] == stack + Children(j, depth, n - 1);
    }
  }

  /** The node itself is within the limits. */
  function Check(j: Json, depth: nat, l: Limits): Option<Violation> {
    if depth > l.depth then Some(TooDeep)
    else if j.Arr? && |j.items| > l.arrayLength then Some(ArrayTooLarge)
    else if j.Str? && |j.s| > l.scalarLength then Some(StringTooLarge)
    else None
  }

  lemma FitsByChildren(j: Json, depth: nat, l: Limits, rest: seq<Entry>)
    ensures AllFit(rest + [Entry(j, depth)], l) <==>
              Check(j, depth, l).None? && AllFit(rest + Children(j, depth, Width(j)), l)
  {
    var before, after := rest + [Entry(j, depth)], rest + Children(j, depth, Width(j));
    if AllFit(before, l) {
      assert before[|rest|] == Entry(j, depth);
      assert forall i | 0 <= i < |rest| :: before[i] == rest[i];
    }
    if Check(j, depth, l).None? && AllFit(after, l) {
      forall i | 0 <= i < Width(j)
        ensures Fits(ValueAt(j, i), depth + 1, l)
      {
        assert after[|rest| + i] == Entry(ValueAt(j, i), depth + 1);
      }
      assert forall i | 0 <= i < |rest| :: after[i] == rest[i];
    }
  }

  /** What has been counted and what the stack holds make up the document. */
  predicate Accounts(node: Json, l: Limits, total: nat, stack: seq<Entry>) {
    total + TotalOf(stack) == Total(node) && (AllFit(stack, l) <==> Fits(node, 0, l))
  }

  lemma AccountsAtStart(node: Json, l: Limits)
    ensures Accounts(node, l, 0, [Entry(node, 0)])
  {
    assert [Entry(node, 0)][..0] == [];
    assert TotalOf([]) == 0;
    assert [Entry(node, 0)][0] == Entry(node, 0);
  }

  lemma NextEntry(node: Json, l: Limits, total: nat, rest: seq<Entry>, j: Json, depth: nat)
    requires Accounts(node, l, total, rest + [Entry(j, depth)])
    ensures Check(j, depth, l).Some? ==> !Fits(node, 0, l)
    ensures
      var stack := rest + Children(j, depth, Width(j));
      && NodesOf(stack) < NodesOf(rest + [Entry(j, depth)])
      && (Check(j, depth, l).None? ==> Accounts(node, l, total + Width(j), stack))
  {
    FitsByChildren(j, depth, l, rest);
    ChildrenTotal(rest, j, depth, Width(j));
    assert (rest + [Entry(j, depth)])[..|rest|] == rest;
  }

  /** The explicit-stack loop reports nothing exactly on documents within all limits. */
  method CheckJsonComplexity(node: Json, l: Limits) returns (violation: Option<Violation>)
    ensures violation.None? <==> Bounded(node, l)
  {
    var total: nat := 0;
    var stack: seq<Entry> := [Entry(node, 0)];
    AccountsAtStart(node, l);
    while stack != []
      invariant Accounts(node, l, total, stack) && total <= l.totalValues
      decreases NodesOf(stack)
    {
      var rest := stack[..|stack| - 1];
      var Entry(current, depth) := stack[|stack| - 1];
      assert stack == rest + [Entry(current, depth)];
      NextEntry(node, l, total, rest, current, depth);
      violation := Check(current, depth, l);
      if violation.Some? {
        return;
      }
      total := total + Width(current);
      stack := rest + Children(current, depth, Width(current));
      if total > l.totalValues {
        return Some(TooManyValues);
      }
    }
    violation := None;
  }
}
