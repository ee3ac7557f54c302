/** What a rewritten array index selects in the second run, when its anchor had to be unique there too
    (backend/app/services/jmx_builder.py:765-836). */
module ArrayComparisons {
  import opened Wrappers
  import opened Text
  import opened Json
  import opened JsonPath
  import opened JsonLeaves
  import opened ArraySelectors
  import opened ArraySelectorTheorems

  /** Where a position of plain segments exists, splitting its text finds it. */
  lemma {:induction false} PlainWalkReads(j: Json, q: seq<Seg>)
    requires Plain(q) && Get(j, q).Some?
    ensures Walk(j, Pieces(Tail(q))) == Get(j, q)
    decreases |q|
  {
    if q != [] {
      var s, rest := q[0], Tail(q[1..]);
      TailIsAtBoundary(q[1..], "");
      assert Tail(q[1..]) + "" == rest;
      assert q == [q[0]] + q[1..] && PlainSeg(s) && Plain(q[1..]);
      PlainWalkReads(Child(j, s).value, q[1..]);
      if s.Member? {
        PiecesOfMember(s.key, rest);
      } else {
        PiecesOfElem(s.index, rest);
      }
      WalkTakes(j, s, Pieces(rest));
    }
  }

  lemma PiecesOfPath(q: seq<Seg>)
    ensures Pieces(PathText(q)) == ["$"] + Pieces(Tail(q))
  {
    TailIsAtBoundary(q, "");
    assert Tail(q) + "" == Tail(q);
    PieceOf("$", Tail(q));
  }

  lemma PlainNavigateReads(j: Json, q: seq<Seg>)
    requires Plain(q) && Get(j, q).Some?
    ensures Navigate(j, PathText(q)) == Get(j, q)
  {
    PiecesOfPath(q);
    PlainWalkReads(j, q);
    assert (["$"] + Pieces(Tail(q)))[1..] == Pieces(Tail(q));
  }

  predicate NoBoolMatch(rows: seq<Json>, key: string, v: Json) {
    forall i | 0 <= i < |rows| :: RowMatches(rows[i], key, v) ==> !BoolRow(rows[i], key)
  }

  lemma {:induction false} OnlyOneMatches(rows: seq<Json>, i: nat, k: nat, key: string, v: Json)
    requires i < |rows| && k < |rows| && RowMatches(rows[i], key, v) && RowMatches(rows[k], key, v)
    requires CountRows(rows, key, v) == 1
    ensures i == k
    decreases |rows|
  {
    var front := rows[..|rows| - 1];
    if i < |rows| - 1 {
      CountOfMatching(front, i, key, v);
    }
    if k < |rows| - 1 {
      CountOfMatching(front, k, key, v);
    }
    if i < |rows| - 1 && k < |rows| - 1 {
      OnlyOneMatches(front, i, k, key, v);
    }
  }

  /** What the filter and the member select from rows of which exactly one matches. */
  lemma SelectedFromRows(rows: seq<Json>, key: string, v: Json, t: string, k: nat)
    requires IsIdent(key) && IsIdent(t) && IsAnchorValue(v)
    requires k < |rows| && RowMatches(rows[k], key, v) && CountRows(rows, key, v) == 1
    ensures StepAll(Kept(rows, "." + key, v), Name(t))
         == if NoBoolMatch(rows, key, v) && Lookup(rows[k], t).Some? then [Lookup(rows[k], t).value] else []
  {
    KeptTheOne(rows, k, key, v);
    StepIntoOne(rows[k], t);
    assert StepAll([], Name(t)) == [];
    forall i | 0 <= i < |rows| && RowMatches(rows[i], key, v)
      ensures i == k
    {
      OnlyOneMatches(rows, i, k, key, v);
    }
  }

  /** When a comparison is required: the chooser finds exactly one row `k` with the anchor's value in the
      array that the prefix leads it to. The rewritten expression selects in the comparison exactly
      the member of that row if the prefix leads the evaluator there too, the anchor's literal reads
      back, the row is not matched by a Boolean and the row has the member; otherwise it selects
      nothing. */
  lemma RewritingInTheComparison(body: Json, p: seq<Seg>, o: Options) returns (rows: seq<Json>, k: nat)
    requires WellFormed(body) && SafeTree(body) && PythonFloats(body) && Get(body, p).Some?
    requires AnchorFor(PathText(p), body, o).Some? && o.requireComparison
    ensures |p| >= 2 && p[|p| - 1].Member?
    ensures Navigate(o.comparisonBody, PathText(p[..|p| - 2])) == Some(Arr(rows))
    ensures
      var anchor := AnchorFor(PathText(p), body, o).value.1;
      && k < |rows| && RowMatches(rows[k], anchor.key, anchor.value)
      && (forall i | 0 <= i < |rows| && RowMatches(rows[i], anchor.key, anchor.value) :: i == k)
    ensures
      var anchor, target := AnchorFor(PathText(p), body, o).value.1, Lookup(rows[k], p[|p| - 1].key);
      PathValues(o.comparisonBody, RobustPath(PathText(p), body, o))
      == if && Get(o.comparisonBody, p[..|p| - 2]) == Some(Arr(rows)) && ReadsBack(anchor.value)
            && NoBoolMatch(rows, anchor.key, anchor.value) && target.Some?
         then [target.value] else []
  {
    var q, i, t := FoundAnchor(body, p, o);
    var anchor, c := AnchorFor(PathText(p), body, o).value.1, o.comparisonBody;
    assert p[|p| - 1] == Member(t);
    rows, k := ComparedRows(body, p, o, q, i, t, anchor);
    ComparedValues(c, q, anchor, t, rows, k);
  }

  lemma ComparedRows(body: Json, p: seq<Seg>, o: Options, q: seq<Seg>, i: nat, t: string, anchor: Field)
    returns (rows: seq<Json>, k: nat)
    requires Rewrites(body, p, o, q, i, t, anchor) && o.requireComparison
    ensures Navigate(o.comparisonBody, PathText(q)) == Some(Arr(rows)) && CountRows(rows, anchor.key, anchor.value) == 1
    ensures k < |rows| && RowMatches(rows[k], anchor.key, anchor.value)
    ensures forall x | 0 <= x < |rows| && RowMatches(rows[x], anchor.key, anchor.value) :: x == k
  {
    rows := Navigate(o.comparisonBody, PathText(q)).value.items;
    k := SomeRowMatches(rows, anchor.key, anchor.value);
    forall x | 0 <= x < |rows| && RowMatches(rows[x], anchor.key, anchor.value)
      ensures x == k
    {
      OnlyOneMatches(rows, x, k, anchor.key, anchor.value);
    }
  }

  lemma ComparedValues(c: Json, q: seq<Seg>, anchor: Field, t: string, rows: seq<Json>, k: nat)
    requires SafePath(q) && Plain(q) && IsIdent(anchor.key) && IsIdent(t) && IsAnchorValue(anchor.value)
    requires Navigate(c, PathText(q)) == Some(Arr(rows)) && CountRows(rows, anchor.key, anchor.value) == 1
    requires k < |rows| && RowMatches(rows[k], anchor.key, anchor.value)
    ensures
      PathValues(c, NewExpression(q, anchor, t))
      == if && Get(c, q) == Some(Arr(rows)) && ReadsBack(anchor.value)
            && NoBoolMatch(rows, anchor.key, anchor.value) && Lookup(rows[k], t).Some?
         then [Lookup(rows[k], t).value] else []
  {
    FilterExpressionValues(c, q, anchor, t);
    if Get(c, q).Some? {
      PlainNavigateReads(c, q);
      SelectedFromRows(rows, anchor.key, anchor.value, t, k);
    } else {
      assert Kept([], "." + anchor.key, anchor.value) == [] && StepAll([], Name(t)) == [];
    }
  }

  // --- one input for each cause ---

  const INDEXED := [Elem(0), Member("x")]

  /** A body of one row, and a comparison that is an array in which the anchor is unique. */
  lemma RootAnchor(key: string, v: Json, comparison: Json) returns (body: Json, o: Options)
    requires IsIdent(key) && key != "x" && v.IsScalar() && PythonFloats(v)
    requires Anchorable(Field(key, v), "x", Choice({}, false, None, true))
    requires comparison.Arr? && CountRows(comparison.items, key, v) == 1 && PyEq(v, v)
    ensures body == OneRow(key, v, "x", Int(5)) && o == Options({}, false, comparison, true)
    ensures WellFormed(body) && SafeTree(body) && PythonFloats(body) && Get(body, INDEXED) == Some(Int(5))
    ensures AnchorFor(PathText(INDEXED), body, o) == Some((ArrayLeaf("$", 0, "x"), Field(key, v)))
    ensures Navigate(comparison, PathText([])) == Some(comparison)
  {
    body, o := OneRow(key, v, "x", Int(5)), Options({}, false, comparison, true);
    SafeOneRow(key, v, "x", Int(5));
    NavigateRoot(comparison);
    CountOfOne(body.items[0], key, v);
    OnlyAnchor(key, v, "x", Int(5), o);
    assert PathText([]) == "$";
  }

  /** A Boolean in the comparison counts as the number it equals in Python, so the anchor is accepted;
      but the filter finds no row there. */
  lemma BoolInTheComparison() returns (body: Json, p: seq<Seg>, o: Options)
    ensures o.requireComparison && AnchorFor(PathText(p), body, o).Some?
    ensures PathValues(o.comparisonBody, PathText(p)) == [Int(5)]
    ensures PathValues(o.comparisonBody, RobustPath(PathText(p), body, o)) == []
  {
    var comparison := OneRow("id", Bool(true), "x", Int(5));
    CountOfOne(comparison.items[0], "id", Int(1));
    p := INDEXED;
    body, o := RootAnchor("id", Int(1), comparison);
    SafeOneRow("id", Bool(true), "x", Int(5));
    var rows, k := RewritingInTheComparison(body, p, o);
    assert p[..|p| - 2] == [] && BoolRow(rows[k], "id");
  }

  /** A NUL in the anchor, with the same array in both runs. */
  lemma NulInTheComparison() returns (body: Json, p: seq<Seg>, o: Options)
    ensures o.requireComparison && AnchorFor(PathText(p), body, o).Some? && o.comparisonBody == body
    ensures PathValues(o.comparisonBody, PathText(p)) == [Int(5)]
    ensures PathValues(o.comparisonBody, RobustPath(PathText(p), body, o)) == []
  {
    var v := Str([NUL]);
    var comparison := OneRow("k", v, "x", Int(5));
    CountOfOne(comparison.items[0], "k", v);
    p := INDEXED;
    body, o := RootAnchor("k", v, comparison);
    SafeOneRow("k", v, "x", Int(5));
    assert !ReadableChar([NUL][0]);
    var rows, k := RewritingInTheComparison(body, p, o);
  }

  /** An infinite number in the anchor, with the same array in both runs. */
  lemma InfinityInTheComparison() returns (body: Json, p: seq<Seg>, o: Options)
    ensures o.requireComparison && AnchorFor(PathText(p), body, o).Some? && o.comparisonBody == body
    ensures PathValues(o.comparisonBody, PathText(p)) == [Int(5)]
    ensures PathValues(o.comparisonBody, RobustPath(PathText(p), body, o)) == []
  {
    var v := Float("inf");
    var comparison := OneRow("k", v, "x", Int(5));
    CountOfOne(comparison.items[0], "k", v);
    p := INDEXED;
    body, o := RootAnchor("k", v, comparison);
    SafeOneRow("k", v, "x", Int(5));
    NotFiniteIsNoNumber("inf", "");
    var rows, k := RewritingInTheComparison(body, p, o);
  }

  /** The matching row of the comparison lacks the member. */
  lemma MemberMissingInTheComparison() returns (body: Json, p: seq<Seg>, o: Options)
    ensures o.requireComparison && AnchorFor(PathText(p), body, o).Some?
    ensures PathValues(o.comparisonBody, RobustPath(PathText(p), body, o)) == []
  {
    var row := Obj([Field("id", Int(1))]);
    CountOfOne(row, "id", Int(1));
    p := INDEXED;
    body, o := RootAnchor("id", Int(1), Arr([row]));
    var rows, k := RewritingInTheComparison(body, p, o);
    assert p[..|p| - 2] == [] && Lookup(row, "x") == None;
  }

  /** The prefix of the path is an index, and the comparison is an object with the digits as a key: the
      chooser goes through the object, the evaluator does not. */
  lemma ObjectInTheComparison() returns (body: Json, p: seq<Seg>, o: Options)
    ensures o.requireComparison && AnchorFor(PathText(p), body, o).Some?
    ensures p == [Elem(0)] + INDEXED && Navigate(o.comparisonBody, PathText([Elem(0)])) == Get(body, [Elem(0)])
    ensures PathValues(o.comparisonBody, RobustPath(PathText(p), body, o)) == []
  {
    var list := OneRow("id", Int(1), "x", Int(5));
    var comparison := Obj([Field(Decimal(0), list)]);
    body, p, o := Arr([list]), [Elem(0)] + INDEXED, Options({}, false, comparison, true);
    SafeOneRow("id", Int(1), "x", Int(5));
    SafeList(list);
    NestedAnchor(list, comparison, o);
    NoElementOfObject(comparison.fields);
    assert p[..|p| - 2] == [Elem(0)];
    NothingWithoutThePrefix(body, p, o);
  }

  lemma NoElementOfObject(fields: seq<Field>)
    ensures Get(Obj(fields), [Elem(0)]) == None
  {
  }

  /** Where the evaluator does not find the prefix, nothing is selected. */
  lemma NothingWithoutThePrefix(body: Json, p: seq<Seg>, o: Options)
    requires WellFormed(body) && SafeTree(body) && PythonFloats(body) && Get(body, p).Some?
    requires AnchorFor(PathText(p), body, o).Some? && o.requireComparison
    requires |p| >= 2 && Get(o.comparisonBody, p[..|p| - 2]).None?
    ensures PathValues(o.comparisonBody, RobustPath(PathText(p), body, o)) == []
  {
    var rows, k := RewritingInTheComparison(body, p, o);
  }

  lemma AnchorInNode(expr: string, body: Json, o: Options, leaf: ArrayLeaf, node: Json, anchor: Field)
    requires MatchArrayLeaf(expr) == Some(leaf) && Navigate(body, leaf.prefix) == Some(node)
    requires node.Arr? && leaf.index < |node.items| && node.items[leaf.index].Obj?
    requires ChooseAnchor(node.items, node.items[leaf.index], leaf.target, ChoiceFor(o, leaf.prefix)) == Some(anchor)
    ensures AnchorFor(expr, body, o) == Some((leaf, anchor))
  {
  }

  lemma NestedAnchor(list: Json, comparison: Json, o: Options)
    requires list == OneRow("id", Int(1), "x", Int(5)) && comparison == Obj([Field(Decimal(0), list)])
    requires o == Options({}, false, comparison, true)
    ensures AnchorFor(PathText([Elem(0)] + INDEXED), Arr([list]), o).Some?
    ensures Get(Arr([list]), [Elem(0)] + INDEXED).Some?
    ensures Navigate(comparison, PathText([Elem(0)])) == Some(list) == Get(Arr([list]), [Elem(0)])
  {
    var body, q := Arr([list]), [Elem(0)];
    SafeOneRow("id", Int(1), "x", Int(5));
    GetSplits(body, q, INDEXED);
    assert q[1..] == [] && Get(body, q) == Some(list);
    KeyIsWalked(comparison, list);
    PlainNavigateReads(body, q);
    NestedChoice(list, ChoiceFor(o, PathText(q)));
    assert q + INDEXED == q + [Elem(0), Member("x")];
    PathTextOfArrayLeaf(q, 0, "x");
    SplitArrayLeaf(PathText(q), 0, "x");
    AnchorInNode(PathText(q + INDEXED), body, o, ArrayLeaf(PathText(q), 0, "x"), list, Field("id", Int(1)));
  }

  lemma NestedChoice(list: Json, c: Choice)
    requires list == OneRow("id", Int(1), "x", Int(5)) && c == Choice({}, false, Some(list), true)
    ensures ChooseAnchor(list.items, list.items[0], "x", c) == Some(Field("id", Int(1)))
  {
    CountOfOne(list.items[0], "id", Int(1));
    ChosenOfTwo(list.items, list.items[0], Field("id", Int(1)), Field("x", Int(5)), c);
  }

  lemma KeyIsWalked(comparison: Json, list: Json)
    requires comparison == Obj([Field(Decimal(0), list)])
    ensures Navigate(comparison, PathText([Elem(0)])) == Some(list)
  {
    var q, digit := [Elem(0)], Decimal(0);
    PiecesOfPath(q);
    PiecesOfElem(0, "");
    TailOfOne(Elem(0));
    assert "[" + digit + "]" + "" == "[" + digit + "]";
    assert Pieces(PathText(q)) == ["$", digit];
    assert digit != "$" by {
      ParseDecimal(0);
      assert IsDigit(digit[0]);
    }
    var none: seq<string> := [];
    assert ["$", digit][1..] == [digit] && [digit][1..] == none;
    assert Lookup(comparison, digit) == Some(list);
    assert Walk(list, none) == Some(list);
    assert Walk(comparison, [digit]) == Walk(list, none);
  }
}
