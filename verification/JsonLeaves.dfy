/** Leaves of a JSON tree and their canonical paths: the printer (backend/app/services/
    value_indexer.py), and the parser and setter that read such paths back
    (backend/app/services/jmx_builder.py:843-877). */
module JsonLeaves {
  import opened Wrappers
  import opened Text
  import opened Json
  import opened JsonPath

  // --- printing positions ---

  function SegText(s: Seg): string {
    match s
    case Member(key) => if IsIdent(key) then "." + key else "['" + key + "']"
    case Elem(i) => "[" + Decimal(i) + "]"
  }

  function Tail(path: seq<Seg>): string {
    if path == [] then "" else SegText(path[0]) + Tail(path[1..])
  }

  function PathText(path: seq<Seg>): string {
    "$" + Tail(path)
  }

  /** Keys are printed without escaping; these are the keys for which that is harmless. */
  predicate SafeKey(key: string) {
    forall i | 0 <= i < |key| :: 32 <= key[i] as int < 127 && key[i] != '\'' && key[i] != '\\'
  }

  predicate SafeSeg(s: Seg) {
    s.Member? ==> SafeKey(s.key)
  }

  predicate SafePath(path: seq<Seg>) {
    forall i | 0 <= i < |path| :: SafeSeg(path[i])
  }

  predicate SafeTree(j: Json) {
    match j
    case Arr(items) => forall i | 0 <= i < |items| :: SafeTree(items[i])
    case Obj(fields) => forall i | 0 <= i < |fields| :: SafeKey(fields[i].key) && SafeTree(fields[i].value)
    case _ => true
  }

  lemma {:induction false} TailSplits(p: seq<Seg>, q: seq<Seg>)
    ensures Tail(p + q) == Tail(p) + Tail(q)
    decreases |p|
  {
    if p == [] {
      assert p + q == q;
    } else {
      assert (p + q)[1..] == p[1..] + q;
      TailSplits(p[1..], q);
    }
  }

  lemma TailOfOne(s: Seg)
    ensures Tail([s]) == SegText(s)
  {
    assert [s][1..] == [];
  }

  // --- reading one printed position ---

  /** What the evaluator scans at a printed position. */
  function StepOf(s: Seg): Step {
    match s
    case Member(key) => if IsIdent(key) then Name(key) else Quoted("'" + key + "'")
    case Elem(i) => Index(i)
  }

  /** Expressions continue with a step, or end. */
  predicate AtBoundary(rest: string) {
    rest == "" || rest[0] == '.' || rest[0] == '['
  }

  lemma {:induction false} SafeKeyUnescapes(key: string)
    requires SafeKey(key)
    ensures Unescape(key) == Some(key)
  {
    if key != "" {
      assert SafeKey(key[1..]);
      SafeKeyUnescapes(key[1..]);
      assert key == [key[0]] + key[1..];
    }
  }

  lemma {:induction false} SafeKeyIsScanned(key: string, rest: string)
    requires SafeKey(key)
    ensures QuotedLength(key + "'" + rest, '\'') == Some(|key|)
  {
    var s := key + "'" + rest;
    if key == "" {
      assert s[0] == '\'';
    } else {
      assert s[0] == key[0];
      assert s[1..] == key[1..] + "'" + rest;
      assert SafeKey(key[1..]);
      SafeKeyIsScanned(key[1..], rest);
    }
  }

  lemma QuotedKeyIsMatched(key: string, rest: string)
    requires SafeKey(key)
    ensures MatchString("'" + key + "'" + rest) == Some(("'" + key + "'", rest))
  {
    var s := "'" + key + "'" + rest;
    assert s[1..] == key + "'" + rest;
    SafeKeyIsScanned(key, rest);
    assert s[..|key| + 2] == "'" + key + "'";
    assert s[|key| + 2..] == rest;
  }

  lemma IdentIsMatched(key: string, rest: string)
    requires IsIdent(key) && AtBoundary(rest)
    ensures MatchStep("." + key + rest) == Some((Name(key), rest))
  {
    var s := "." + key + rest;
    assert s[1] == key[0];
    assert s[1..] == key + rest;
    SpanIs(key, rest, IsWord);
    assert (key + rest)[..|key|] == key && (key + rest)[|key|..] == rest;
  }

  lemma QuotedIsMatched(key: string, rest: string)
    requires SafeKey(key)
    ensures MatchStep("['" + key + "']" + rest) == Some((Quoted("'" + key + "'"), rest))
    ensures LiteralText("'" + key + "'") == Some(key)
  {
    var s := "['" + key + "']" + rest;
    assert s[1..] == "'" + key + "'" + ("]" + rest);
    QuotedKeyIsMatched(key, "]" + rest);
    assert ("]" + rest)[1..] == rest;
    assert ("'" + key + "'")[1..|"'" + key + "'"| - 1] == key;
    SafeKeyUnescapes(key);
  }

  lemma DigitsEndAtBracket(i: nat, rest: string)
    ensures
      var digits := Decimal(i);
      var s := digits + "]" + rest;
      Span(s, IsDigit) == |digits| && s[..|digits|] == digits && s[|digits|] == ']' && s[|digits| + 1..] == rest
  {
    var digits := Decimal(i);
    Associates(digits, "]", rest);
    SpanIs(digits, "]" + rest, IsDigit);
  }

  lemma IndexIsMatched(i: nat, rest: string)
    ensures MatchStep("[" + Decimal(i) + "]" + rest) == Some((Index(i), rest))
  {
    var s := "[" + Decimal(i) + "]" + rest;
    var digits := Decimal(i);
    DigitsEndAtBracket(i, rest);
    assert s[1..] == digits + "]" + rest;
    assert s[|digits| + 2..] == s[1..][|digits| + 1..] && s[1 + |digits|] == s[1..][|digits|];
    assert s[1] == digits[0];
    ParseDecimal(i);
    assert MatchString(s[1..]).None?;
  }

  lemma NotAFilter(s: string)
    requires |s| < 2 || s[0] != '[' || s[1] != '?'
    ensures MatchFilter(s).None?
  {
    if |s| >= 3 {
      assert s[..3][0] == s[0] && s[..3][1] == s[1];
      assert !StartsWith(s, "[?(");
    }
    assert Expect(s, "[?(").None?;
  }

  /** A printed position is scanned back as itself, and never as a filter. */
  lemma SegIsMatched(s: Seg, rest: string)
    requires SafeSeg(s) && AtBoundary(rest)
    ensures MatchFilter(SegText(s) + rest).None?
    ensures MatchStep(SegText(s) + rest) == Some((StepOf(s), rest))
    ensures StepOf(s).Quoted? ==> LiteralText(StepOf(s).text) == Some(s.key)
  {
    var text := SegText(s) + rest;
    assert text[0] != '[' || text[1] != '?' by {
      if s.Elem? {
        assert text[1] == Decimal(s.index)[0];
      }
    }
    NotAFilter(text);
    match s
    case Member(key) =>
      if IsIdent(key) {
        IdentIsMatched(key, rest);
        assert text == "." + key + rest;
      } else {
        QuotedIsMatched(key, rest);
        assert text == "['" + key + "']" + rest;
      }
    case Elem(i) =>
      IndexIsMatched(i, rest);
      assert text == "[" + Decimal(i) + "]" + rest;
  }

  lemma StepFollowsSeg(j: Json, s: Seg)
    requires SafeSeg(s)
    ensures StepAll([j], StepOf(s)) == if Child(j, s).Some? then [Child(j, s).value] else []
  {
    SegIsMatched(s, "");
    assert [j][..0] == [];
    assert StepAll([j], StepOf(s)) == [] + StepInto(j, StepOf(s));
  }

  lemma {:induction false} NothingStaysNothing(s: string)
    ensures Values([], s) == []
    decreases |s|
  {
    if s != "" {
      TurnOfNothing(s);
      if Turn([], s).Some? {
        NothingStaysNothing(Turn([], s).value.1);
      }
    }
  }

  lemma TurnOfNothing(s: string)
    requires s != ""
    ensures Turn([], s).Some? ==> Turn([], s).value.0 == []
  {
  }

  lemma TailIsAtBoundary(path: seq<Seg>, rest: string)
    requires AtBoundary(rest)
    ensures AtBoundary(Tail(path) + rest)
  {
    if path == [] {
      assert Tail(path) + rest == rest;
    } else {
      assert (Tail(path) + rest)[0] == SegText(path[0])[0];
    }
  }

  lemma TurnFollowsSeg(j: Json, s: Seg, rest: string)
    requires SafeSeg(s) && AtBoundary(rest)
    ensures SegText(s) + rest != ""
    ensures Turn([j], SegText(s) + rest) == Some((if Child(j, s).Some? then [Child(j, s).value] else [], rest))
  {
    SegIsMatched(s, rest);
    StepFollowsSeg(j, s);
  }

  /** Evaluating a printed position from one node reads that position of the node. */
  lemma {:induction false} ValuesFollowPath(j: Json, path: seq<Seg>, rest: string)
    requires SafePath(path) && AtBoundary(rest)
    ensures Values([j], Tail(path) + rest) == if Get(j, path).Some? then Values([Get(j, path).value], rest) else []
    decreases |path|
  {
    if path == [] {
      assert Tail(path) + rest == rest;
    } else {
      var after := Tail(path[1..]) + rest;
      Associates(SegText(path[0]), Tail(path[1..]), rest);
      TailIsAtBoundary(path[1..], rest);
      TurnFollowsSeg(j, path[0], after);
      if Child(j, path[0]).Some? {
        ValuesFollowPath(Child(j, path[0]).value, path[1..], rest);
      } else {
        NothingStaysNothing(after);
      }
    }
  }

  /** Section 2.3 of RFC 9535, on the paths the application prints: the expression selects exactly
      the node at the position, or nothing when there is none. */
  lemma PathValuesReadThePosition(j: Json, path: seq<Seg>)
    requires SafePath(path)
    ensures PathValues(j, PathText(path)) == if Get(j, path).Some? then [Get(j, path).value] else []
  {
    assert PathText(path)[1..] == Tail(path) + "";
    ValuesFollowPath(j, path, "");
  }

  lemma StepsDiffer(s: Seg, t: Seg)
    requires SafeSeg(s) && SafeSeg(t) && StepOf(s) == StepOf(t)
    ensures s == t
  {
    SegIsMatched(s, "");
    SegIsMatched(t, "");
  }

  /** Different safe positions print differently. */
  lemma {:induction false} TailIsInjective(p: seq<Seg>, q: seq<Seg>)
    requires SafePath(p) && SafePath(q) && Tail(p) == Tail(q)
    ensures p == q
    decreases |p|
  {
    if p != [] && q != [] {
      TailIsAtBoundary(p[1..], "");
      TailIsAtBoundary(q[1..], "");
      assert Tail(p[1..]) + "" == Tail(p[1..]) && Tail(q[1..]) + "" == Tail(q[1..]);
      SegIsMatched(p[0], Tail(p[1..]));
      SegIsMatched(q[0], Tail(q[1..]));
      StepsDiffer(p[0], q[0]);
      TailIsInjective(p[1..], q[1..]);
      assert p == [p[0]] + p[1..] && q == [q[0]] + q[1..];
    }
  }

  // --- the leaves of a tree, in the order the indexer lists them ---

  datatype Leaf = Leaf(path: seq<Seg>, value: Json)

  /** Children are taken from a stack, so the last child comes first. */
  function Leaves(path: seq<Seg>, j: Json): seq<Leaf>
    decreases j, 1
  {
    if j.IsScalar() then [Leaf(path, j)] else LeavesBelow(path, j, Width(j))
  }

  function Width(j: Json): nat {
    if j.Arr? then |j.items| else if j.Obj? then |j.fields| else 0
  }

  function SegAt(j: Json, i: nat): Seg
    requires i < Width(j)
  {
    if j.Arr? then Elem(i) else Member(j.fields[i].key)
  }

  function ValueAt(j: Json, i: nat): Json
    requires i < Width(j)
  {
    if j.Arr? then j.items[i] else j.fields[i].value
  }

  function LeavesBelow(path: seq<Seg>, j: Json, n: nat): seq<Leaf>
    requires n <= Width(j)
    decreases j, 0, n
  {
    if n == 0 then []
    else Leaves(path + [SegAt(j, n - 1)], ValueAt(j, n - 1)) + LeavesBelow(path, j, n - 1)
  }

  lemma ChildAt(j: Json, i: nat)
    requires WellFormed(j) && i < Width(j)
    ensures Child(j, SegAt(j, i)) == Some(ValueAt(j, i))
    ensures WellFormed(ValueAt(j, i))
  {
    if j.Obj? {
      IndexOfDistinctKey(j.fields, i);
    }
  }

  /** Every listed leaf is a scalar of the tree at its position. */
  lemma {:induction false} LeavesAreThere(path: seq<Seg>, j: Json, i: nat)
    requires WellFormed(j) && i < |Leaves(path, j)|
    ensures
      var leaf := Leaves(path, j)[i];
      && leaf.value.IsScalar() && path <= leaf.path
      && Get(j, leaf.path[|path|..]) == Some(leaf.value)
    decreases j, 1
  {
    if !j.IsScalar() {
      LeavesBelowAreThere(path, j, Width(j), i);
    }
  }

  lemma GetBelowChild(j: Json, s: Seg, below: seq<Seg>)
    ensures Get(j, [s] + below) == if Child(j, s).Some? then Get(Child(j, s).value, below) else None
  {
    assert ([s] + below)[1..] == below;
  }

  lemma {:induction false} LeavesBelowAreThere(path: seq<Seg>, j: Json, n: nat, i: nat)
    requires WellFormed(j) && n <= Width(j) && i < |LeavesBelow(path, j, n)|
    ensures
      var leaf := LeavesBelow(path, j, n)[i];
      && leaf.value.IsScalar() && path < leaf.path
      && Get(j, leaf.path[|path|..]) == Some(leaf.value)
      && (exists k :: 0 <= k < n && leaf.path[|path|] == SegAt(j, k))
    decreases j, 0, n
  {
    var first := Leaves(path + [SegAt(j, n - 1)], ValueAt(j, n - 1));
    var leaf := LeavesBelow(path, j, n)[i];
    ChildAt(j, n - 1);
    if i < |first| {
      LeavesAreThere(path + [SegAt(j, n - 1)], ValueAt(j, n - 1), i);
      assert leaf == first[i];
      var below := leaf.path[|path| + 1..];
      assert leaf.path[|path|..] == [SegAt(j, n - 1)] + below;
      GetBelowChild(j, SegAt(j, n - 1), below);
    } else {
      LeavesBelowAreThere(path, j, n - 1, i - |first|);
    }
  }

  /** Which child a segment names. */
  lemma ChildIndex(j: Json, s: Seg) returns (k: nat)
    requires WellFormed(j) && Child(j, s).Some?
    ensures k < Width(j) && SegAt(j, k) == s && ValueAt(j, k) == Child(j, s).value
    ensures forall i | 0 <= i < Width(j) && i != k :: SegAt(j, i) != s
  {
    k := if s.Elem? then s.index else IndexOfKey(j.fields, s.key).value;
  }

  /** Every scalar of the tree is listed. */
  lemma {:induction false} LeavesAreComplete(path: seq<Seg>, j: Json, q: seq<Seg>) returns (i: nat)
    requires WellFormed(j) && Get(j, q).Some? && Get(j, q).value.IsScalar()
    ensures i < |Leaves(path, j)| && Leaves(path, j)[i] == Leaf(path + q, Get(j, q).value)
    decreases j
  {
    if q == [] {
      i := 0;
      assert path + q == path;
    } else {
      var k := ChildIndex(j, q[0]);
      ChildIsWellFormed(j, q[0]);
      var inner := LeavesAreComplete(path + [q[0]], ValueAt(j, k), q[1..]);
      assert path + [q[0]] + q[1..] == path + q;
      var offset := LeavesBelowContain(path, j, Width(j), k);
      i := offset + inner;
    }
  }

  predicate PartOf(part: seq<Leaf>, all: seq<Leaf>, offset: nat) {
    offset + |part| <= |all| && forall i | 0 <= i < |part| :: part[i] == all[offset + i]
  }

  lemma PartShifts(part: seq<Leaf>, front: seq<Leaf>, all: seq<Leaf>, offset: nat)
    requires PartOf(part, all, offset)
    ensures PartOf(part, front + all, |front| + offset)
  {
  }

  lemma {:induction false} LeavesBelowContain(path: seq<Seg>, j: Json, n: nat, k: nat) returns (offset: nat)
    requires k < n <= Width(j)
    ensures PartOf(Leaves(path + [SegAt(j, k)], ValueAt(j, k)), LeavesBelow(path, j, n), offset)
    decreases n
  {
    var first := Leaves(path + [SegAt(j, n - 1)], ValueAt(j, n - 1));
    if k == n - 1 {
      offset := 0;
    } else {
      var o := LeavesBelowContain(path, j, n - 1, k);
      offset := |first| + o;
      PartShifts(Leaves(path + [SegAt(j, k)], ValueAt(j, k)), first, LeavesBelow(path, j, n - 1), o);
    }
  }

  predicate DistinctPaths(leaves: seq<Leaf>) {
    forall a, b | 0 <= a < b < |leaves| :: leaves[a].path != leaves[b].path
  }

  /** No position is listed twice. */
  lemma {:induction false} LeavesAreDistinct(path: seq<Seg>, j: Json)
    requires WellFormed(j)
    ensures DistinctPaths(Leaves(path, j))
    decreases j, 1
  {
    if !j.IsScalar() {
      LeavesBelowAreDistinct(path, j, Width(j));
    }
  }

  lemma {:induction false} LeavesBelowAreDistinct(path: seq<Seg>, j: Json, n: nat)
    requires WellFormed(j) && n <= Width(j)
    ensures DistinctPaths(LeavesBelow(path, j, n))
    decreases j, 0, n
  {
    if n > 0 {
      var child := path + [SegAt(j, n - 1)];
      var first := Leaves(child, ValueAt(j, n - 1));
      var rest := LeavesBelow(path, j, n - 1);
      ChildAt(j, n - 1);
      LeavesAreDistinct(child, ValueAt(j, n - 1));
      LeavesBelowAreDistinct(path, j, n - 1);
      forall a, b | 0 <= a < |first| && 0 <= b < |rest|
        ensures first[a].path != rest[b].path
      {
        LeavesAreThere(child, ValueAt(j, n - 1), a);
        LeavesBelowAreThere(path, j, n - 1, b);
        assert first[a].path[|path|] == SegAt(j, n - 1);
      }
    }
  }

  lemma {:induction false} SafeTreeHasSafePaths(j: Json, path: seq<Seg>)
    requires SafeTree(j) && Get(j, path).Some?
    ensures SafePath(path)
    decreases |path|
  {
    if path != [] {
      SafeTreeHasSafePaths(Child(j, path[0]).value, path[1..]);
      assert path == [path[0]] + path[1..];
    }
  }

  // --- flatten_json ---

  function Printed(leaves: seq<Leaf>): seq<(string, Json)> {
    if leaves == [] then []
    else Printed(leaves[..|leaves| - 1]) + [(PathText(leaves[|leaves| - 1].path), leaves[|leaves| - 1].value)]
  }

  lemma {:induction false} PrintedAt(leaves: seq<Leaf>, i: nat)
    requires i < |leaves|
    ensures |Printed(leaves)| == |leaves|
    ensures Printed(leaves)[i] == (PathText(leaves[i].path), leaves[i].value)
  {
    PrintedLength(leaves);
    if i < |leaves| - 1 {
      PrintedAt(leaves[..|leaves| - 1], i);
    } else {
      PrintedLength(leaves[..|leaves| - 1]);
    }
  }

  lemma {:induction false} PrintedLength(leaves: seq<Leaf>)
    ensures |Printed(leaves)| == |leaves|
  {
    if leaves != [] {
      PrintedLength(leaves[..|leaves| - 1]);
    }
  }

  /** The leaves still to come from a stack whose top is its last entry. */
  function Pending(stack: seq<Leaf>): seq<Leaf> {
    if stack == [] then []
    else Leaves(stack[|stack| - 1].path, stack[|stack| - 1].value) + Pending(stack[..|stack| - 1])
  }

  function Pushed(path: seq<Seg>, j: Json, n: nat): seq<Leaf>
    requires n <= Width(j)
  {
    if n == 0 then [] else Pushed(path, j, n - 1) + [Leaf(path + [SegAt(j, n - 1)], ValueAt(j, n - 1))]
  }

  lemma {:induction false} PushedIsPending(stack: seq<Leaf>, path: seq<Seg>, j: Json, n: nat)
    requires n <= Width(j)
    ensures Pending(stack + Pushed(path, j, n)) == LeavesBelow(path, j, n) + Pending(stack)
    decreases n
  {
    if n == 0 {
      assert stack + Pushed(path, j, n) == stack;
    } else {
      PushedIsPending(stack, path, j, n - 1);
      PendingExtends(stack + Pushed(path, j, n - 1), Leaf(path + [SegAt(j, n - 1)], ValueAt(j, n - 1)));
      Associates(stack, Pushed(path, j, n - 1), [Leaf(path + [SegAt(j, n - 1)], ValueAt(j, n - 1))]);
      Associates(Leaves(path + [SegAt(j, n - 1)], ValueAt(j, n - 1)), LeavesBelow(path, j, n - 1), Pending(stack));
    }
  }

  lemma PendingExtends(stack: seq<Leaf>, leaf: Leaf)
    ensures Pending(stack + [leaf]) == Leaves(leaf.path, leaf.value) + Pending(stack)
  {
    assert (stack + [leaf])[..|stack|] == stack;
  }

  /** The tree nodes a stack still holds; what the loop counts down. */
  function Size(j: Json): nat
    decreases j, 1
  {
    1 + SizeBelow(j, Width(j))
  }

  function SizeBelow(j: Json, n: nat): nat
    requires n <= Width(j)
    decreases j, 0, n
  {
    if n == 0 then 0 else SizeBelow(j, n - 1) + Size(ValueAt(j, n - 1))
  }

  function StackSize(stack: seq<Leaf>): nat {
    if stack == [] then 0 else StackSize(stack[..|stack| - 1]) + Size(stack[|stack| - 1].value)
  }

  lemma SizeExtends(stack: seq<Leaf>, top: Leaf)
    ensures StackSize(stack + [top]) == StackSize(stack) + Size(top.value)
  {
    assert (stack + [top])[..|stack|] == stack;
  }

  lemma {:induction false} PushedSize(stack: seq<Leaf>, path: seq<Seg>, j: Json, n: nat)
    requires n <= Width(j)
    ensures StackSize(stack + Pushed(path, j, n)) == StackSize(stack) + SizeBelow(j, n)
    decreases n
  {
    if n == 0 {
      assert stack + Pushed(path, j, n) == stack;
    } else {
      PushedSize(stack, path, j, n - 1);
      var top := Leaf(path + [SegAt(j, n - 1)], ValueAt(j, n - 1));
      Associates(stack, Pushed(path, j, n - 1), [top]);
      SizeExtends(stack + Pushed(path, j, n - 1), top);
    }
  }

  lemma PathTextExtends(path: seq<Seg>, s: Seg)
    ensures PathText(path + [s]) == PathText(path) + SegText(s)
  {
    TailSplits(path, [s]);
    TailOfOne(s);
    Associates("$", Tail(path), SegText(s));
  }

  /** The leaves listed so far and those the stack still stands for are all the leaves. */
  predicate Accounts(obj: Json, done: seq<Leaf>, positions: seq<Leaf>) {
    done + Pending(positions) == Leaves([], obj)
  }

  lemma AccountsAtStart(obj: Json)
    ensures Accounts(obj, [], [Leaf([], obj)])
    ensures PathText([]) == "$"
  {
    PendingExtends([], Leaf([], obj));
    assert [] + [Leaf([], obj)] == [Leaf([], obj)];
  }

  lemma AccountsAtEnd(obj: Json, done: seq<Leaf>)
    requires Accounts(obj, done, [])
    ensures done == Leaves([], obj)
  {
  }

  /** Popping a scalar: it is done. */
  lemma PopScalar(obj: Json, done: seq<Leaf>, rest: seq<Leaf>, top: Leaf)
    requires Accounts(obj, done, rest + [top]) && top.value.IsScalar()
    ensures Accounts(obj, done + [top], rest)
    ensures StackSize(rest) < StackSize(rest + [top])
  {
    PendingExtends(rest, top);
    Associates(done, [top], Pending(rest));
    assert (rest + [top])[..|rest|] == rest;
  }

  /** Popping a container: its children take its place. */
  lemma PopContainer(obj: Json, done: seq<Leaf>, rest: seq<Leaf>, top: Leaf)
    requires Accounts(obj, done, rest + [top]) && !top.value.IsScalar()
    ensures
      var positions := rest + Pushed(top.path, top.value, Width(top.value));
      Accounts(obj, done, positions) && StackSize(positions) < StackSize(rest + [top])
  {
    PendingExtends(rest, top);
    PushedIsPending(rest, top.path, top.value, Width(top.value));
    PushedSize(rest, top.path, top.value, Width(top.value));
    assert (rest + [top])[..|rest|] == rest;
  }

  /** A stack of printed entries and the positions behind them. */
  predicate Prints(stack: seq<(string, Json)>, positions: seq<Leaf>) {
    && |stack| == |positions|
    && forall i | 0 <= i < |stack| :: stack[i] == (PathText(positions[i].path), positions[i].value)
  }

  /** The explicit-stack loop lists exactly the leaves of the tree, each under its printed path. */
  method FlattenJson(obj: Json) returns (out: seq<(string, Json)>)
    ensures out == Printed(Leaves([], obj))
  {
    out := [];
    var stack: seq<(string, Json)> := [("$", obj)];
    ghost var positions := [Leaf([], obj)];
    ghost var done: seq<Leaf> := [];
    AccountsAtStart(obj);
    while stack != []
      invariant Prints(stack, positions)
      invariant out == Printed(done)
      invariant Accounts(obj, done, positions)
      decreases StackSize(positions)
    {
      var (path, node) := stack[|stack| - 1];
      ghost var top := positions[|positions| - 1];
      ghost var rest := positions[..|positions| - 1];
      assert positions == rest + [top];
      stack := stack[..|stack| - 1];
      if node.IsScalar() {
        PopScalar(obj, done, rest, top);
        PrintedExtends(done, top);
        done := done + [top];
        out := out + [(path, node)];
        positions := rest;
      } else {
        PopContainer(obj, done, rest, top);
        stack := PushChildren(stack, path, node, rest, top.path);
        positions := rest + Pushed(top.path, node, Width(node));
      }
    }
    assert positions == [];
    AccountsAtEnd(obj, done);
  }

  lemma PrintedExtends(leaves: seq<Leaf>, leaf: Leaf)
    ensures Printed(leaves + [leaf]) == Printed(leaves) + [(PathText(leaf.path), leaf.value)]
  {
    assert (leaves + [leaf])[..|leaves|] == leaves;
  }

  /** The loop that pushes a container's children in order. */
  method PushChildren(stack: seq<(string, Json)>, path: string, node: Json,
                      ghost positions: seq<Leaf>, ghost at: seq<Seg>)
    returns (pushed: seq<(string, Json)>)
    requires Prints(stack, positions) && path == PathText(at)
    ensures Prints(pushed, positions + Pushed(at, node, Width(node)))
  {
    pushed := stack;
    assert positions + Pushed(at, node, 0) == positions;
    for i := 0 to Width(node)
      invariant Prints(pushed, positions + Pushed(at, node, i))
    {
      PathTextExtends(at, SegAt(node, i));
      ghost var before := positions + Pushed(at, node, i);
      assert positions + Pushed(at, node, i + 1) == before + [Leaf(at + [SegAt(node, i)], ValueAt(node, i))];
      pushed := pushed + [(path + SegText(SegAt(node, i)), ValueAt(node, i))];
    }
  }

  /** Each scalar leaf once, under pairwise distinct paths, and every path selects exactly its leaf. */
  lemma FlattenedLeavesAreExact(obj: Json)
    requires WellFormed(obj) && SafeTree(obj)
    ensures
      var out := Printed(Leaves([], obj));
      && (forall a, b | 0 <= a < b < |out| :: out[a].0 != out[b].0)
      && (forall i | 0 <= i < |out| :: out[i].1.IsScalar() && PathValues(obj, out[i].0) == [out[i].1])
      && (forall q | Get(obj, q).Some? && Get(obj, q).value.IsScalar() :: (PathText(q), Get(obj, q).value) in out)
  {
    var leaves := Leaves([], obj);
    var out := Printed(leaves);
    PrintedLength(leaves);
    forall i | 0 <= i < |out|
      ensures out[i] == (PathText(leaves[i].path), leaves[i].value) && SafePath(leaves[i].path)
      ensures out[i].1.IsScalar() && PathValues(obj, out[i].0) == [out[i].1]
    {
      PrintedAt(leaves, i);
      LeavesAreThere([], obj, i);
      SafeTreeHasSafePaths(obj, leaves[i].path);
      PathValuesReadThePosition(obj, leaves[i].path);
    }
    LeavesAreDistinct([], obj);
    forall a, b | 0 <= a < b < |out|
      ensures out[a].0 != out[b].0
    {
      if out[a].0 == out[b].0 {
        assert out[a].0[1..] == Tail(leaves[a].path) && out[b].0[1..] == Tail(leaves[b].path);
        TailIsInjective(leaves[a].path, leaves[b].path);
      }
    }
    forall q | Get(obj, q).Some? && Get(obj, q).value.IsScalar()
      ensures (PathText(q), Get(obj, q).value) in out
    {
      var i := LeavesAreComplete([], obj, q);
      PrintedAt(leaves, i);
      assert [] + q == q;
    }
  }
}
