/** Assigning a value at a printed path (`_parse_path` and `_set_json_path` in
    backend/app/services/jmx_builder.py). The tree is a value here: assignment gives a new tree. */
module JsonSetter {
  import opened Wrappers
  import opened Text
  import opened Json
  import opened JsonPath
  import opened JsonLeaves

  /** One token at the front of `s`: `.name`, `['key']` or `[index]`. */
  function MatchToken(s: string): (r: Option<(Seg, string)>)
    ensures r.Some? ==> |r.value.1| < |s|
  {
    if |s| >= 2 && s[0] == '.' && IsLead(s[1]) then
      var n := Span(s[1..], IsWord);
      Some((Member(s[1..][..n]), s[1..][n..]))
    else if |s| >= 2 && s[0] == '[' && s[1] == '\'' then
      var n := Span(s[2..], NotQuote);
      if StartsWith(s[2..][n..], "']") then Some((Member(s[2..][..n]), s[2..][n..][2..])) else None
    else if |s| >= 2 && s[0] == '[' then
      var n := Span(s[1..], IsDigit);
      if n > 0 && 1 + n < |s| && s[1 + n] == ']' then Some((Elem(ParseNat(s[1..][..n])), s[n + 2..])) else None
    else None
  }

  /** All tokens in order; characters that start none are skipped. */
  function ParsePath(s: string): seq<Seg>
    decreases |s|
  {
    if s == "" then []
    else
      var token := MatchToken(s);
      if token.None? then ParsePath(s[1..]) else [token.value.0] + ParsePath(token.value.1)
  }

  lemma IdentToken(key: string, rest: string)
    requires IsIdent(key) && AtBoundary(rest)
    ensures MatchToken("." + key + rest) == Some((Member(key), rest))
  {
    var s := "." + key + rest;
    assert s[1..] == key + rest && s[1] == key[0];
    SpanIs(key, rest, IsWord);
    assert (key + rest)[..|key|] == key && (key + rest)[|key|..] == rest;
  }

  lemma QuotedToken(key: string, rest: string)
    requires SafeKey(key)
    ensures MatchToken("['" + key + "']" + rest) == Some((Member(key), rest))
  {
    var s := "['" + key + "']" + rest;
    var after := "']" + rest;
    assert s[2..] == key + after;
    SpanIs(key, after, NotQuote);
    assert (key + after)[..|key|] == key && (key + after)[|key|..] == after;
    StartsWithOwn("']", rest);
  }

  lemma IndexToken(i: nat, rest: string)
    ensures MatchToken("[" + Decimal(i) + "]" + rest) == Some((Elem(i), rest))
  {
    var s := "[" + Decimal(i) + "]" + rest;
    var digits := Decimal(i);
    DigitsEndAtBracket(i, rest);
    assert s[1..] == digits + "]" + rest;
    assert s[|digits| + 2..] == s[1..][|digits| + 1..] && s[1 + |digits|] == s[1..][|digits|];
    assert s[1] == digits[0];
    ParseDecimal(i);
  }

  lemma TokenOfSeg(s: Seg, rest: string)
    requires SafeSeg(s) && AtBoundary(rest)
    ensures MatchToken(SegText(s) + rest) == Some((s, rest))
  {
    match s
    case Member(key) =>
      if IsIdent(key) {
        IdentToken(key, rest);
      } else {
        QuotedToken(key, rest);
      }
    case Elem(i) => IndexToken(i, rest);
  }

  lemma {:induction false} TokensOfTail(path: seq<Seg>)
    requires SafePath(path)
    ensures ParsePath(Tail(path)) == path
    decreases |path|
  {
    if path != [] {
      TailIsAtBoundary(path[1..], "");
      assert Tail(path[1..]) + "" == Tail(path[1..]);
      TokenOfSeg(path[0], Tail(path[1..]));
      TokensOfTail(path[1..]);
      assert path == [path[0]] + path[1..];
    }
  }

  /** Parsing what was printed gives the position back. */
  lemma ParsePrintedPath(path: seq<Seg>)
    requires SafePath(path)
    ensures ParsePath(PathText(path)) == path
  {
    assert PathText(path)[1..] == Tail(path);
    assert MatchToken(PathText(path)).None?;
    TokensOfTail(path);
  }

  /** The tree after an assignment, and whether there was anything to assign to. The root itself
      is never assigned. */
  function AssignedAt(obj: Json, tokens: seq<Seg>, value: Json): (Json, bool) {
    if tokens != [] && Get(obj, tokens).Some? then (Put(obj, tokens, value), true) else (obj, false)
  }

  function Assigned(obj: Json, path: string, value: Json): (Json, bool) {
    AssignedAt(obj, ParsePath(path), value)
  }

  /** The descent over all tokens but the last, then the assignment at the last one. */
  method SetJsonPath(obj: Json, path: string, value: Json) returns (result: Json, done: bool)
    ensures (result, done) == Assigned(obj, path, value)
  {
    var tokens := ParsePath(path);
    if tokens == [] {
      return obj, false;
    }
    var cur := obj;
    var i := 0;
    while i < |tokens| - 1
      invariant 0 <= i <= |tokens| - 1
      invariant Get(obj, tokens) == Get(cur, tokens[i..])
    {
      assert tokens[i..][1..] == tokens[i + 1..];
      var next := Child(cur, tokens[i]);
      if next.None? {
        return obj, false;
      }
      cur := next.value;
      i := i + 1;
    }
    assert tokens[i..] == [tokens[i]] && tokens[i..][1..] == [];
    if Child(cur, tokens[i]).None? {
      return obj, false;
    }
    return Put(obj, tokens, value), true;
  }

  /** Assigning at a printed position and reading the same path gives the value; every path that
      neither contains it nor lies inside it reads as before. */
  lemma AssignThenRead(obj: Json, path: seq<Seg>, other: seq<Seg>, v: Json)
    requires WellFormed(obj) && SafePath(path) && SafePath(other)
    requires path != [] && Get(obj, path).Some?
    ensures
      var (obj', done) := Assigned(obj, PathText(path), v);
      && done
      && PathValues(obj', PathText(path)) == [v]
      && (Apart(path, other) ==> PathValues(obj', PathText(other)) == PathValues(obj, PathText(other)))
  {
    ParsePrintedPath(path);
    GetAfterPut(obj, path, v);
    PathValuesReadThePosition(Put(obj, path, v), path);
    PathValuesReadThePosition(Put(obj, path, v), other);
    PathValuesReadThePosition(obj, other);
    if Apart(path, other) {
      GetApartFromPut(obj, path, other, v);
    }
  }

  /** Assignment fails exactly where reading finds nothing, and then changes nothing. */
  lemma AssignFailsWhereNothingIs(obj: Json, path: seq<Seg>, v: Json)
    requires SafePath(path) && path != []
    ensures Assigned(obj, PathText(path), v).1 <==> PathValues(obj, PathText(path)) != []
    ensures PathValues(obj, PathText(path)) == [] ==> Assigned(obj, PathText(path), v).0 == obj
  {
    ParsePrintedPath(path);
    PathValuesReadThePosition(obj, path);
  }

  /** The setter changes no leaf but its own: two different leaves never contain one another. */
  lemma AssignKeepsOtherLeaves(obj: Json, p: seq<Seg>, q: seq<Seg>, v: Json)
    requires WellFormed(obj) && SafeTree(obj) && p != q && p != []
    requires Get(obj, p).Some? && Get(obj, p).value.IsScalar() && Get(obj, q).Some? && Get(obj, q).value.IsScalar()
    ensures PathValues(Assigned(obj, PathText(p), v).0, PathText(q)) == [Get(obj, q).value]
  {
    SafeTreeHasSafePaths(obj, p);
    SafeTreeHasSafePaths(obj, q);
    LeavesAreApart(obj, p, q);
    AssignThenRead(obj, p, q, v);
    PathValuesReadThePosition(obj, q);
  }

  lemma LeavesAreApart(obj: Json, p: seq<Seg>, q: seq<Seg>)
    requires p != q
    requires Get(obj, p).Some? && Get(obj, p).value.IsScalar() && Get(obj, q).Some? && Get(obj, q).value.IsScalar()
    ensures Apart(p, q)
  {
    if p <= q {
      NothingBelowScalar(obj, p, q);
    }
    if q <= p {
      NothingBelowScalar(obj, q, p);
    }
  }

  lemma NothingBelowScalar(obj: Json, p: seq<Seg>, q: seq<Seg>)
    requires p <= q && Get(obj, p).Some? && Get(obj, p).value.IsScalar() && Get(obj, q).Some?
    ensures p == q
  {
    assert p + q[|p|..] == q;
    GetSplits(obj, p, q[|p|..]);
  }
}
