/** The rewriting of array indexes into filters keeps the meaning of the expression. */
module ArraySelectorTheorems {
  import opened Wrappers
  import opened Text
  import opened Json
  import opened JsonPath
  import opened JsonLeaves
  import opened ArraySelectors

  // --- the split is exact on printed paths ---

  lemma {:induction false} LastBracketIs(a: string, b: string)
    requires '[' !in b
    ensures LastBracket(a + "[" + b) == Some(|a|)
    decreases |b|
  {
    var s := a + "[" + b;
    if b == "" {
      assert s[|s| - 1] == '[';
    } else {
      assert s[|s| - 1] == b[|b| - 1];
      assert s[..|s| - 1] == a + "[" + b[..|b| - 1];
      LastBracketIs(a, b[..|b| - 1]);
    }
  }

  lemma NoBracketIn(digits: string, t: string)
    requires Digits(digits) && Words(t)
    ensures '[' !in digits + ("]." + t)
  {
    var s := digits + ("]." + t);
    forall k | 0 <= k < |s|
      ensures s[k] != '['
    {
      if k < |digits| {
        assert IsDigit(digits[k]);
      } else if k >= |digits| + 2 {
        assert s[k] == t[k - |digits| - 2] && IsWord(t[k - |digits| - 2]);
      }
    }
  }

  /** The pieces after the last bracket are found. */
  lemma InnerSplits(digits: string, t: string)
    requires Digits(digits)
    ensures
      var inner := digits + ("]." + t);
      && Span(inner, IsDigit) == |digits| && inner[..|digits|] == digits
      && StartsWith(inner[|digits|..], "].") && inner[|digits|..][2..] == t
  {
    var inner := digits + ("]." + t);
    SpanIs(digits, "]." + t, IsDigit);
    StartsWithOwn(digits, "]." + t);
    StartsWithOwn("].", t);
    assert inner[..|digits|] == digits;
  }

  lemma SplitArrayLeaf(prefix: string, i: nat, t: string)
    requires IsIdent(t)
    ensures MatchArrayLeaf(prefix + "[" + (Decimal(i) + ("]." + t))) == Some(ArrayLeaf(prefix, i, t))
  {
    var inner := Decimal(i) + ("]." + t);
    NoBracketIn(Decimal(i), t);
    LastBracketIs(prefix, inner);
    InnerSplits(Decimal(i), t);
    ParseDecimal(i);
    BracketSplits(prefix, inner);
  }

  lemma BracketSplits(prefix: string, inner: string)
    ensures (prefix + "[" + inner)[..|prefix|] == prefix && (prefix + "[" + inner)[|prefix| + 1..] == inner
  {
  }

  lemma Regroup(a: string, digits: string, t: string)
    ensures a + ("[" + digits + "]") + ("." + t) == a + "[" + (digits + ("]." + t))
  {
  }

  lemma PathTextOfArrayLeaf(q: seq<Seg>, i: nat, t: string)
    requires IsIdent(t)
    ensures PathText(q + [Elem(i), Member(t)]) == PathText(q) + "[" + (Decimal(i) + ("]." + t))
  {
    var p := q + [Elem(i)];
    assert q + [Elem(i), Member(t)] == p + [Member(t)];
    PathTextExtends(p, Member(t));
    PathTextExtends(q, Elem(i));
    Regroup(PathText(q), Decimal(i), t);
  }

  /** Where an array index is followed by a plain member. */
  predicate IsArrayLeaf(p: seq<Seg>) {
    |p| >= 2 && p[|p| - 2].Elem? && p[|p| - 1].Member? && IsIdent(p[|p| - 1].key)
  }

  function Last(s: string): char
    requires s != ""
  {
    s[|s| - 1]
  }

  /** A bracketed index and a word after a dot, written out. */
  function Spelled(prefix: string, digits: string, t: string): string {
    prefix + "[" + digits + "]" + ("." + t)
  }

  predicate Spells(s: string, prefix: string, digits: string, t: string) {
    s == Spelled(prefix, digits, t) && digits != "" && Digits(digits) && IsIdent(t)
  }

  lemma SpellsFromParts(s: string, b: nat, n: nat)
    requires b < |s| && s[b] == '[' && n <= |s[b + 1..]|
    requires StartsWith(s[b + 1..][n..], "].")
    ensures s == Spelled(s[..b], s[b + 1..][..n], s[b + 1..][n..][2..])
  {
    var rest := s[b + 1..][n..];
    assert rest == "]." + rest[2..];
  }

  /** How a matched expression is put together. */
  lemma MatchIsASplit(s: string) returns (prefix: string, digits: string, t: string)
    requires MatchArrayLeaf(s).Some?
    ensures Spells(s, prefix, digits, t)
  {
    var b := LastBracket(s).value;
    var n := Span(s[b + 1..], IsDigit);
    prefix, digits, t := s[..b], s[b + 1..][..n], s[b + 1..][n..][2..];
    SpellsFromParts(s, b, n);
  }

  lemma PathTextEnd(p: seq<Seg>)
    requires p != []
    ensures PathText(p) == PathText(p[..|p| - 1]) + SegText(p[|p| - 1])
  {
    PathTextExtends(p[..|p| - 1], p[|p| - 1]);
    assert p == p[..|p| - 1] + [p[|p| - 1]];
  }

  /** Two texts ending in a dot and a word agree on both sides of the dot. */
  lemma SameAfterTheDot(a: string, s: string, b: string, t: string)
    requires a + ("." + s) == b + ("." + t) && Words(s) && Words(t)
    ensures a == b && s == t
  {
    Associates(a, ".", s);
    Associates(b, ".", t);
    TailSpanIs(a + ".", s, IsWord);
    TailSpanIs(b + ".", t, IsWord);
    assert (a + ("." + s))[..|a|] == a && (b + ("." + t))[..|b|] == b;
    assert (a + ("." + s))[|a| + 1..] == s && (b + ("." + t))[|b| + 1..] == t;
  }

  // What the text of a position ends with, by its last segment.

  lemma EndOfMember(p: seq<Seg>)
    requires p != [] && p[|p| - 1].Member?
    ensures
      var key, text := p[|p| - 1].key, PathText(p);
      if IsIdent(key) then text == PathText(p[..|p| - 1]) + ("." + key) && IsWord(Last(text))
      else |text| >= 2 && Last(text) == ']' && text[|text| - 2] == '\''
  {
    PathTextEnd(p);
    var key := p[|p| - 1].key;
    if IsIdent(key) {
      assert IsWord(Last(key));
    }
  }

  lemma EndOfElem(p: seq<Seg>)
    requires p == [] || p[|p| - 1].Elem?
    ensures Last(PathText(p)) == if p == [] then '$' else ']'
  {
    if p != [] {
      PathTextEnd(p);
    }
  }

  lemma EndOfSpelled(prefix: string, digits: string, t: string)
    requires digits != "" && Digits(digits) && IsIdent(t)
    ensures IsWord(Last(Spelled(prefix, digits, t)))
    ensures
      var front := prefix + "[" + digits + "]";
      |front| >= 2 && Last(front) == ']' && IsDigit(front[|front| - 2])
  {
    assert IsWord(Last(t));
    assert IsDigit(Last(digits));
  }

  /** Among printed positions, only the index-then-member ones are ever rewritten. */
  lemma OnlyArrayLeavesMatch(p: seq<Seg>)
    requires MatchArrayLeaf(PathText(p)).Some?
    ensures IsArrayLeaf(p)
  {
    var prefix, digits, t := MatchIsASplit(PathText(p));
    EndOfSpelled(prefix, digits, t);
    LastIsIdent(p);
    EndOfMember(p);
    SameAfterTheDot(PathText(p[..|p| - 1]), p[|p| - 1].key, prefix + "[" + digits + "]", t);
    LastIsElem(p[..|p| - 1]);
  }

  lemma LastIsIdent(p: seq<Seg>)
    requires IsWord(Last(PathText(p)))
    ensures p != [] && p[|p| - 1].Member? && IsIdent(p[|p| - 1].key)
  {
    if p != [] && p[|p| - 1].Member? {
      EndOfMember(p);
    } else {
      EndOfElem(p);
    }
  }

  lemma LastIsElem(p: seq<Seg>)
    requires var text := PathText(p); |text| >= 2 && Last(text) == ']' && IsDigit(text[|text| - 2])
    ensures p != [] && p[|p| - 1].Elem?
  {
    if p != [] && p[|p| - 1].Member? {
      EndOfMember(p);
    } else {
      EndOfElem(p);
    }
  }

  // --- resolving a printed prefix ---

  predicate Separated(rest: string) {
    rest == "" || IsSeparator(rest[0])
  }

  predicate Solid(a: string) {
    a != "" && forall i | 0 <= i < |a| :: NotSeparator(a[i])
  }

  lemma PieceOf(a: string, rest: string)
    requires Solid(a) && Separated(rest)
    ensures Pieces(a + rest) == [a] + Pieces(rest)
  {
    SpanIs(a, rest, NotSeparator);
    assert (a + rest)[0] == a[0];
    assert (a + rest)[..|a|] == a && (a + rest)[|a|..] == rest;
  }

  lemma SkipSeparator(c: char, rest: string)
    requires IsSeparator(c)
    ensures Pieces([c] + rest) == Pieces(rest)
  {
    assert ([c] + rest)[1..] == rest;
  }

  lemma PiecesOfMember(key: string, rest: string)
    requires IsIdent(key) && AtBoundary(rest)
    ensures Pieces("." + key + rest) == [key] + Pieces(rest)
  {
    Associates(".", key, rest);
    SkipSeparator('.', key + rest);
    assert Solid(key) by {
      assert Words(key);
    }
    PieceOf(key, rest);
  }

  lemma PiecesOfElem(i: nat, rest: string)
    ensures Pieces("[" + Decimal(i) + "]" + rest) == [Decimal(i)] + Pieces(rest)
  {
    var tail := "]" + rest;
    assert "[" + Decimal(i) + "]" + rest == "[" + (Decimal(i) + tail);
    SkipSeparator('[', Decimal(i) + tail);
    assert Solid(Decimal(i)) by {
      assert Digits(Decimal(i));
    }
    PieceOf(Decimal(i), tail);
    SkipSeparator(']', rest);
  }

  /** A quoted key starts a piece with its quote. */
  lemma PiecesOfQuoted(key: string, rest: string)
    ensures Pieces("['" + key + "']" + rest) != [] && Pieces("['" + key + "']" + rest)[0] != ""
    ensures Pieces("['" + key + "']" + rest)[0][0] == '\''
  {
    var tail := "'" + key + "']" + rest;
    assert "['" + key + "']" + rest == "[" + tail;
    SkipSeparator('[', tail);
    assert NotSeparator(tail[0]);
    assert Span(tail, NotSeparator) > 0;
  }

  predicate PlainSeg(s: Seg) {
    s.Member? ==> IsIdent(s.key)
  }

  predicate Plain(p: seq<Seg>) {
    forall i | 0 <= i < |p| :: PlainSeg(p[i])
  }

  lemma ChildIsSafe(j: Json, s: Seg)
    requires SafeTree(j) && Child(j, s).Some?
    ensures SafeTree(Child(j, s).value)
  {
  }

  lemma WalkTakes(j: Json, s: Seg, tokens: seq<string>)
    requires PlainSeg(s) && Child(j, s).Some?
    ensures Walk(j, [if s.Member? then s.key else Decimal(s.index)] + tokens) == Walk(Child(j, s).value, tokens)
  {
    var token := if s.Member? then s.key else Decimal(s.index);
    assert ([token] + tokens)[1..] == tokens;
    if s.Elem? {
      ParseDecimal(s.index);
      assert IsDecimal(token) && token != "$" by {
        assert IsDigit(token[0]);
      }
    } else {
      assert !IsDecimal(token) && token != "$" by {
        assert IsLead(token[0]);
      }
    }
  }

  lemma FoundKeysAreSafe(j: Json, key: string)
    ensures SafeTree(j) && Lookup(j, key).Some? ==> SafeKey(key)
  {
  }

  lemma WalkStopsAtQuoted(j: Json, tokens: seq<string>)
    requires SafeTree(j) && tokens != [] && tokens[0] != "" && tokens[0][0] == '\''
    ensures Walk(j, tokens) == None
  {
    assert !IsDecimal(tokens[0]) && tokens[0] != "$" by {
      assert !IsDigit(tokens[0][0]);
    }
    FoundKeysAreSafe(j, tokens[0]);
  }

  lemma {:induction false} WalkReads(j: Json, q: seq<Seg>)
    requires SafeTree(j) && SafePath(q) && Get(j, q).Some?
    ensures Walk(j, Pieces(Tail(q))) == if Plain(q) then Get(j, q) else None
    decreases |q|
  {
    if q != [] {
      var s := q[0];
      var rest := Tail(q[1..]);
      TailIsAtBoundary(q[1..], "");
      assert Tail(q[1..]) + "" == rest;
      assert q == [q[0]] + q[1..];
      ChildIsSafe(j, s);
      WalkReads(Child(j, s).value, q[1..]);
      assert Plain(q) <==> PlainSeg(s) && Plain(q[1..]);
      if PlainSeg(s) {
        if s.Member? {
          PiecesOfMember(s.key, rest);
        } else {
          PiecesOfElem(s.index, rest);
        }
        WalkTakes(j, s, Pieces(rest));
      } else {
        PiecesOfQuoted(s.key, rest);
        WalkStopsAtQuoted(j, Pieces(Tail(q)));
      }
    }
  }

  /** Splitting the printed prefix at dots and brackets finds the same node as reading it, unless
      a key needs quotes; then nothing is found, and the expression is left alone. */
  lemma NavigateReadsThePosition(j: Json, q: seq<Seg>)
    requires SafeTree(j) && SafePath(q) && Get(j, q).Some?
    ensures Navigate(j, PathText(q)) == if Plain(q) then Get(j, q) else None
  {
    WalkReads(j, q);
    TailIsAtBoundary(q, "");
    assert Tail(q) + "" == Tail(q);
    PieceOf("$", Tail(q));
    assert (["$"] + Pieces(Tail(q)))[1..] == Pieces(Tail(q));
  }

  // --- reading the filter back ---

  predicate ReadableChar(c: char) {
    c != '\n' && c != '\r' && c as int != 0
  }

  predicate ReadableText(s: string) {
    forall i | 0 <= i < |s| :: ReadableChar(s[i])
  }

  /** Escaping is undone by the literal reader, except that it refuses line ends and NUL. */
  lemma {:induction false} UnescapeEscaped(s: string)
    ensures Unescape(Escape(s)) == if ReadableText(s) then Some(s) else None
  {
    if s != "" {
      var rest := s[1..];
      UnescapeEscaped(rest);
      assert s == [s[0]] + rest;
      assert ReadableText(s) <==> ReadableChar(s[0]) && ReadableText(rest);
      var e := Escape(s);
      if s[0] == '\\' || s[0] == '\'' {
        assert e[0] == '\\' && e[1] == s[0] && e[2..] == Escape(rest);
      } else {
        assert e[0] == s[0] && e[1..] == Escape(rest);
      }
    }
  }

  lemma {:induction false} EscapedIsScanned(s: string, rest: string)
    requires '\n' !in s
    ensures QuotedLength(Escape(s) + ("'" + rest), '\'') == Some(|Escape(s)|)
  {
    var text := Escape(s) + ("'" + rest);
    if s == "" {
      assert text == "'" + rest;
    } else {
      EscapedIsScanned(s[1..], rest);
      assert s[0] in s;
      if s[0] == '\\' || s[0] == '\'' {
        assert text[0] == '\\' && text[1] == s[0];
        assert text[2..] == Escape(s[1..]) + ("'" + rest);
      } else {
        assert text[0] == s[0];
        assert text[1..] == Escape(s[1..]) + ("'" + rest);
      }
    }
  }

  lemma QuotedIsRead(s: string, rest: string)
    requires '\n' !in s
    ensures MatchString("'" + Escape(s) + "'" + rest) == Some(("'" + Escape(s) + "'", rest))
  {
    var text := "'" + Escape(s) + "'" + rest;
    EscapedIsScanned(s, rest);
    assert text[1..] == Escape(s) + ("'" + rest);
    assert text[..|Escape(s)| + 2] == "'" + Escape(s) + "'";
    assert text[|Escape(s)| + 2..] == rest;
  }

  lemma {:induction false} SpanStops(a: string, b: string, p: char -> bool)
    requires b == "" || !p(b[0])
    ensures Span(a + b, p) == Span(a, p)
  {
    if a == "" {
      assert a + b == b;
    } else {
      assert (a + b)[1..] == a[1..] + b;
      SpanStops(a[1..], b, p);
    }
  }

  /** Text that cannot continue a number. */
  predicate AfterNumber(rest: string) {
    rest != "" && rest[0] == ')'
  }

  lemma DropsFromSum(a: string, b: string, i: nat)
    requires i <= |a|
    ensures (a + b)[i..] == a[i..] + b
  {
  }

  lemma IntPartStops(a: string, rest: string)
    requires AfterNumber(rest)
    ensures IntPart(a + rest) == IntPart(a)
  {
    var sign := if a != "" && a[0] == '-' then 1 else 0;
    DropsFromSum(a, rest, sign);
    SpanStops(a[sign..], rest, IsDigit);
  }

  lemma FractionPartStops(a: string, rest: string)
    requires AfterNumber(rest)
    ensures FractionPart(a + rest) == FractionPart(a)
  {
    if a != "" {
      DropsFromSum(a, rest, 1);
      SpanStops(a[1..], rest, IsDigit);
    }
  }

  lemma ExponentPartStops(a: string, rest: string)
    requires AfterNumber(rest)
    ensures ExponentPart(a + rest) == ExponentPart(a)
  {
    if a != "" {
      var sign := if |a| > 1 && (a[1] == '+' || a[1] == '-') then 2 else 1;
      DropsFromSum(a, rest, sign);
      SpanStops(a[sign..], rest, IsDigit);
    }
  }

  /** The three parts of a number's text: where its integer part, fraction and exponent end. */
  predicate Parts(a: string, i: nat, f: nat, e: nat) {
    && i + f + e <= |a|
    && i == IntPart(a) && f == FractionPart(a[i..]) && e == ExponentPart(a[i + f..])
  }

  lemma PartsExist(a: string) returns (i: nat, f: nat, e: nat)
    ensures Parts(a, i, f, e)
  {
    i := IntPart(a);
    f := FractionPart(a[i..]);
    e := ExponentPart(a[i + f..]);
  }

  lemma LengthFromParts(a: string, i: nat, f: nat, e: nat)
    requires Parts(a, i, f, e)
    ensures NumberLength(a) == if i == 0 then 0 else i + f + e
  {
  }

  lemma PartsStop(a: string, rest: string, i: nat, f: nat, e: nat)
    requires AfterNumber(rest) && Parts(a, i, f, e)
    ensures Parts(a + rest, i, f, e)
  {
    IntPartStops(a, rest);
    DropsFromSum(a, rest, i);
    FractionPartStops(a[i..], rest);
    DropsFromSum(a, rest, i + f);
    ExponentPartStops(a[i + f..], rest);
  }

  lemma NumberStops(a: string, rest: string)
    requires AfterNumber(rest)
    ensures NumberLength(a + rest) == NumberLength(a)
  {
    var i, f, e := PartsExist(a);
    PartsStop(a, rest, i, f, e);
    LengthFromParts(a, i, f, e);
    LengthFromParts(a + rest, i, f, e);
  }

  lemma NumbersStart(text: string)
    requires ParseNumber(text).Some?
    ensures text != "" && (text[0] == '-' || IsDigit(text[0])) && NumberLength(text) == |text|
  {
  }

  lemma SpanAll(digits: string)
    requires Digits(digits)
    ensures Span(digits, IsDigit) == |digits|
  {
    SpanIs(digits, "", IsDigit);
    assert digits + "" == digits;
  }

  lemma PlainInteger(text: string, sign: nat, digits: string)
    requires sign <= |text| && text[sign..] == digits && digits != "" && Digits(digits)
    requires sign == if text[0] == '-' then 1 else 0
    requires |digits| > 1 ==> digits[0] != '0'
    ensures ParseNumber(text) == Some(Int(if sign == 1 then -(ParseNat(digits) as int) else ParseNat(digits)))
  {
    SpanAll(digits);
    assert text[|text|..] == "";
    LengthFromParts(text, |text|, 0, 0);
    assert text[sign..sign + |digits|] == digits;
  }

  lemma WholeNumber(n: int)
    ensures ParseNumber(IntText(n)) == Some(Int(n))
  {
    var digits := Decimal(if n < 0 then -n else n);
    ParseDecimal(if n < 0 then -n else n);
    assert IsDigit(digits[0]);
    PlainInteger(IntText(n), if n < 0 then 1 else 0, digits);
  }

  /** Values whose literal in the filter is read back as a value at all: any integer, a float
      written the way JSON writes numbers, a string without NUL (and without the line ends that
      no anchor has). */
  predicate ReadsBack(v: Json) {
    match v
    case Str(s) => ReadableText(s)
    case Float(text) => ParseNumber(text) == Some(v)
    case _ => v.Int?
  }

  /** A float as Python writes it: a JSON number, or not finite. */
  predicate IsPythonFloat(text: string) {
    ParseNumber(text) == Some(Float(text)) || NotFinite(text)
  }

  predicate NotFinite(text: string) {
    text == "inf" || text == "-inf" || text == "nan"
  }

  /** What the anchors of a body may be: strings, integers and floats. */
  predicate IsAnchorValue(v: Json) {
    match v
    case Str(s) => '\n' !in s
    case Float(text) => IsPythonFloat(text)
    case _ => v.Int?
  }

  /** A float that is written as no JSON number. */
  predicate NoLiteral(v: Json) {
    v.Float? && NotFinite(v.text)
  }

  lemma NotFiniteIsNoNumber(text: string, rest: string)
    requires NotFinite(text)
    ensures NumberLength(text + rest) == 0 && ParseNumber(text).None?
    ensures text + rest != "" && (text + rest)[0] in "i-n" && MatchValue(text + rest).None?
  {
    var s := text + rest;
    var sign := if s[0] == '-' then 1 else 0;
    assert !IsDigit(text[sign]) && s[sign..][0] == text[sign] && text[sign..][0] == text[sign];
    assert "true"[0] != s[0] && "false"[0] != s[0] && "null"[0] == 'n' && "null"[1] != 'a';
    if text == "nan" {
      assert s[1] == 'a';
    }
  }

  lemma StringReads(s: string)
    ensures Literal("'" + Escape(s) + "'") == if ReadableText(s) then Some(Str(s)) else None
  {
    UnescapeEscaped(s);
    var text := "'" + Escape(s) + "'";
    assert text[1..|text| - 1] == Escape(s);
  }

  lemma NumberReads(text: string)
    requires ParseNumber(text).Some?
    ensures text != "" && Literal(text) == ParseNumber(text)
  {
    NumbersStart(text);
    assert !IsDigit("true"[0]) && !IsDigit("false"[0]) && !IsDigit("null"[0]);
  }

  lemma NumberLiteral(v: Json)
    requires IsAnchorValue(v) && !v.Str? && !NoLiteral(v)
    ensures ParseNumber(LiteralFor(v)) == Some(v) && ReadsBack(v)
  {
    if v.Int? {
      WholeNumber(v.n);
    }
  }

  lemma LiteralReads(v: Json)
    requires IsAnchorValue(v) && !NoLiteral(v)
    ensures LiteralFor(v) != ""
    ensures Literal(LiteralFor(v)) == if ReadsBack(v) then Some(v) else None
  {
    if v.Str? {
      StringReads(v.s);
    } else {
      NumberLiteral(v);
      NumberReads(LiteralFor(v));
    }
  }

  lemma NumberIsMatched(text: string, rest: string)
    requires ParseNumber(text).Some? && AfterNumber(rest)
    ensures MatchValue(text + rest) == Some((text, rest))
  {
    NumbersStart(text);
    NumberStops(text, rest);
    StartsWithOwn(text, rest);
    assert (text + rest)[0] == text[0];
  }

  lemma LiteralIsMatched(v: Json, rest: string)
    requires IsAnchorValue(v) && AfterNumber(rest)
    ensures MatchValue(LiteralFor(v) + rest) == if NoLiteral(v) then None else Some((LiteralFor(v), rest))
    ensures SkipSpaces(LiteralFor(v) + rest) == LiteralFor(v) + rest
  {
    var text := LiteralFor(v);
    if NoLiteral(v) {
      NotFiniteIsNoNumber(text, rest);
    } else if v.Str? {
      QuotedIsRead(v.s, rest);
    } else {
      NumberLiteral(v);
      NumbersStart(text);
      NumberIsMatched(text, rest);
    }
    assert (text + rest)[0] == text[0];
    NoSpaceToSkip(text + rest);
  }

  lemma NoSpaceToSkip(s: string)
    requires s != "" && !IsSpace(s[0])
    ensures SkipSpaces(s) == s
  {
  }

  lemma ExpectOwn(p: string, rest: string)
    ensures Expect(p + rest, p) == Some(rest)
  {
    StartsWithOwn(p, rest);
  }

  lemma FilterTailReads(v: Json, after: string)
    requires IsAnchorValue(v)
    ensures FilterTail("==" + (LiteralFor(v) + (")]" + after)))
         == if NoLiteral(v) then None else Some((LiteralFor(v), after))
  {
    var close := ")]" + after;
    var value := LiteralFor(v) + close;
    NoSpaceToSkip("==" + value);
    ExpectOwn("==", value);
    LiteralIsMatched(v, close);
    NoSpaceToSkip(close);
    ExpectOwn(")]", after);
  }

  lemma FieldIsMatched(key: string, rest: string)
    requires IsIdent(key) && rest != "" && rest[0] == '='
    ensures MatchField("." + key + rest) == Some(("." + key, rest))
  {
    var s := "." + key + rest;
    assert s[1] == key[0];
    assert s[1..] == key + rest;
    SpanIs(key, rest, IsWord);
    assert s[..|key| + 1] == "." + key && s[|key| + 1..] == rest;
  }

  lemma FilterSpelled(key: string, v: Json, after: string)
    ensures FilterText(key, v) + after
         == "[?(" + ("@" + ("." + key + ("==" + (LiteralFor(v) + (")]" + after)))))
  {
  }

  lemma HeadIsMatched(rest: string)
    ensures FilterHead("[?(" + ("@" + rest)) == Some(rest)
  {
    ExpectOwn("[?(", "@" + rest);
    NoSpaceToSkip("@" + rest);
    ExpectOwn("@", rest);
  }

  lemma FilterFromParts(s: string, rest: string, field: string, tail: string)
    requires FilterHead(s) == Some(rest) && MatchField(rest) == Some((field, tail))
    ensures
      var parts := FilterTail(tail);
      MatchFilter(s) == if parts.None? then None else Some(Filter(field, parts.value.0, parts.value.1))
  {
  }

  /** A filter as it is printed scans back into its parts, unless its value is a float that is not finite:
      then it is no filter. */
  lemma FilterIsMatched(key: string, v: Json, after: string)
    requires IsIdent(key) && IsAnchorValue(v)
    ensures MatchFilter(FilterText(key, v) + after)
         == if NoLiteral(v) then None else Some(Filter("." + key, LiteralFor(v), after))
  {
    var tail := "==" + (LiteralFor(v) + (")]" + after));
    FilterSpelled(key, v, after);
    FieldIsMatched(key, tail);
    FilterTailReads(v, after);
    HeadIsMatched("." + key + tail);
    FilterFromParts(FilterText(key, v) + after, "." + key + tail, "." + key, tail);
  }

  // --- what the filter keeps ---

  lemma MemberOf(row: Json, key: string)
    requires IsIdent(key)
    ensures Values([row], "." + key) == if Lookup(row, key).Some? then [Lookup(row, key).value] else []
  {
    assert "." + key + "" == "." + key;
    TailOfOne(Member(key));
    assert SafeKey(key) by {
      assert Words(key);
    }
    ValuesFollowPath(row, [Member(key)], "");
    assert [Member(key)][1..] == [];
  }

  lemma KeepsIs(row: Json, key: string, v: Json)
    requires IsIdent(key)
    ensures Keeps(row, "." + key, v) <==> Lookup(row, key).Some? && SameScalar(Lookup(row, key).value, v)
  {
    MemberOf(row, key);
  }

  /** Whether a row matches by Python's equality but not by the evaluator's: a Boolean in the
      field of a numeric anchor. */
  predicate BoolRow(row: Json, key: string) {
    Lookup(row, key).Some? && Lookup(row, key).value.Bool?
  }

  lemma KeepsAgainstMatches(row: Json, key: string, v: Json)
    requires IsIdent(key) && IsAnchorValue(v)
    ensures Keeps(row, "." + key, v) <==> RowMatches(row, key, v) && !BoolRow(row, key)
  {
    KeepsIs(row, key, v);
  }

  lemma OneMoreRow(rows: seq<Json>, x: Json, kept: seq<Json>, keeps: bool, row: Json, wanted: bool)
    requires multiset(kept)[row] == (if wanted then multiset(rows)[row] else 0) && (x == row ==> keeps == wanted)
    ensures multiset(kept + (if keeps then [x] else []))[row] == if wanted then multiset(rows + [x])[row] else 0
  {
  }

  /** The filter keeps, of each row, as many as an array holds of it. */
  lemma {:induction false} KeptCounts(rows: seq<Json>, field: string, v: Json, row: Json)
    ensures multiset(Kept(rows, field, v))[row] == if Keeps(row, field, v) then multiset(rows)[row] else 0
    decreases |rows|
  {
    if rows != [] {
      var front, last := rows[..|rows| - 1], rows[|rows| - 1];
      KeptCounts(front, field, v, row);
      OneMoreRow(front, last, Kept(front, field, v), Keeps(last, field, v), row, Keeps(row, field, v));
      assert rows == front + [last];
    }
  }

  lemma KeptOfPermutation(rows: seq<Json>, other: seq<Json>, field: string, v: Json)
    requires multiset(rows) == multiset(other)
    ensures multiset(Kept(rows, field, v)) == multiset(Kept(other, field, v))
  {
    forall row: Json
      ensures multiset(Kept(rows, field, v))[row] == multiset(Kept(other, field, v))[row]
    {
      KeptCounts(rows, field, v, row);
      KeptCounts(other, field, v, row);
    }
  }

  lemma SameSingleton(a: seq<Json>, x: Json)
    requires multiset(a) == multiset([x])
    ensures a == [x]
  {
    assert |multiset(a)| == |a| && |multiset([x])| == 1;
    assert a[0] in multiset(a);
  }

  lemma {:induction false} KeptNothing(rows: seq<Json>, key: string, v: Json)
    requires IsIdent(key) && IsAnchorValue(v) && CountRows(rows, key, v) == 0
    ensures Kept(rows, "." + key, v) == []
    decreases |rows|
  {
    if rows != [] {
      KeepsAgainstMatches(rows[|rows| - 1], key, v);
      KeptNothing(rows[..|rows| - 1], key, v);
    }
  }

  lemma {:induction false} CountOfMatching(rows: seq<Json>, i: nat, key: string, v: Json)
    requires i < |rows| && RowMatches(rows[i], key, v)
    ensures CountRows(rows, key, v) >= 1
    decreases |rows|
  {
    if i < |rows| - 1 {
      CountOfMatching(rows[..|rows| - 1], i, key, v);
    }
  }

  /** Exactly one row matches: the filter keeps that row unless the match is of a Boolean. */
  lemma {:induction false} KeptTheOne(rows: seq<Json>, i: nat, key: string, v: Json)
    requires IsIdent(key) && IsAnchorValue(v)
    requires i < |rows| && RowMatches(rows[i], key, v) && CountRows(rows, key, v) == 1
    ensures Kept(rows, "." + key, v) == if BoolRow(rows[i], key) then [] else [rows[i]]
    decreases |rows|
  {
    var front := rows[..|rows| - 1];
    KeepsAgainstMatches(rows[|rows| - 1], key, v);
    if i == |rows| - 1 {
      KeptNothing(front, key, v);
    } else {
      CountOfMatching(front, i, key, v);
      KeptTheOne(front, i, key, v);
    }
  }

  lemma {:induction false} SomeRowMatches(rows: seq<Json>, key: string, v: Json) returns (i: nat)
    requires CountRows(rows, key, v) >= 1
    ensures i < |rows| && RowMatches(rows[i], key, v)
    decreases |rows|
  {
    if RowMatches(rows[|rows| - 1], key, v) {
      i := |rows| - 1;
    } else {
      i := SomeRowMatches(rows[..|rows| - 1], key, v);
    }
  }

  // --- the rewritten expression ---

  function RowsAt(body: Json, q: seq<Seg>): seq<Json> {
    if Get(body, q).Some? && Get(body, q).value.Arr? then Get(body, q).value.items else []
  }

  lemma FilterAllOfOne(node: Json, field: string, v: Json)
    ensures FilterAll([node], field, v) == if node.Arr? then Kept(node.items, field, v) else []
  {
    assert [node][..0] == [];
    assert FilterAll([], field, v) == [];
    assert FilterAll([node], field, v) == [] + (if node.Arr? then Kept(node.items, field, v) else []);
  }

  lemma NoStepAtFilter(s: string)
    requires |s| >= 2 && s[0] == '[' && s[1] == '?'
    ensures MatchStep(s).None?
  {
    assert s[1..][0] == '?';
  }

  /** A turn over a filter whose literal is read, or is not. */
  lemma TurnOverFilter(node: Json, key: string, v: Json, after: string)
    requires IsIdent(key) && IsAnchorValue(v)
    ensures FilterText(key, v) + after != ""
    ensures Turn([node], FilterText(key, v) + after)
         == if ReadsBack(v) then Some((if node.Arr? then Kept(node.items, "." + key, v) else [], after)) else None
  {
    FilterIsMatched(key, v, after);
    if NoLiteral(v) {
      NotFiniteIsNoNumber(v.text, "");
      NoStepAtFilter(FilterText(key, v) + after);
    } else {
      LiteralReads(v);
      FilterAllOfOne(node, "." + key, v);
    }
  }

  lemma MemberStep(nodes: seq<Json>, t: string)
    requires IsIdent(t)
    ensures Values(nodes, "." + t) == StepAll(nodes, Name(t))
  {
    assert "." + t + "" == "." + t;
    IdentIsMatched(t, "");
    assert ("." + t)[0] == '.';
    NotAFilter("." + t);
  }

  function NewExpression(q: seq<Seg>, anchor: Field, t: string): string {
    PathText(q) + FilterText(anchor.key, anchor.value) + "." + t
  }

  /** After the prefix: the filter, then the member. */
  lemma AfterPrefix(node: Json, key: string, v: Json, t: string)
    requires IsIdent(key) && IsIdent(t) && IsAnchorValue(v)
    ensures Values([node], FilterText(key, v) + ("." + t))
         == if ReadsBack(v) && node.Arr? then StepAll(Kept(node.items, "." + key, v), Name(t)) else []
  {
    TurnOverFilter(node, key, v, "." + t);
    NothingStaysNothing("." + t);
    if node.Arr? {
      MemberStep(Kept(node.items, "." + key, v), t);
    }
  }

  /** What `prefix[?(@.key==v)].t` selects: the member of every kept row. */
  lemma FilterExpressionValues(body: Json, q: seq<Seg>, anchor: Field, t: string)
    requires SafePath(q) && IsIdent(anchor.key) && IsIdent(t) && IsAnchorValue(anchor.value)
    ensures PathValues(body, NewExpression(q, anchor, t))
         == if ReadsBack(anchor.value)
            then StepAll(Kept(RowsAt(body, q), "." + anchor.key, anchor.value), Name(t)) else []
  {
    var filter := FilterText(anchor.key, anchor.value);
    NewExpressionStarts(q, filter, t);
    assert (filter + ("." + t))[0] == filter[0] == '[';
    ValuesFollowPath(body, q, filter + ("." + t));
    if Get(body, q).Some? {
      AfterPrefix(Get(body, q).value, anchor.key, anchor.value, t);
    }
    assert Kept([], "." + anchor.key, anchor.value) == [] && StepAll([], Name(t)) == [];
  }

  lemma NewExpressionStarts(q: seq<Seg>, filter: string, t: string)
    ensures
      var expr := PathText(q) + filter + "." + t;
      expr[0] == '$' && expr[1..] == Tail(q) + (filter + ("." + t))
  {
  }

  lemma StepIntoOne(row: Json, t: string)
    ensures StepAll([row], Name(t)) == Selected(row, t)
  {
    assert [row][..0] == [];
    assert StepAll([row], Name(t)) == [] + StepInto(row, Name(t));
  }

  /** Floats are as Python writes them; `json.loads` makes no others. */
  predicate PythonFloats(j: Json) {
    match j
    case Float(text) => IsPythonFloat(text)
    case Arr(items) => forall i | 0 <= i < |items| :: PythonFloats(items[i])
    case Obj(fields) => forall i | 0 <= i < |fields| :: PythonFloats(fields[i].value)
    case _ => true
  }

  lemma {:induction false} PlainBelow(j: Json, q: seq<Seg>)
    requires PythonFloats(j) && Get(j, q).Some?
    ensures PythonFloats(Get(j, q).value)
    decreases |q|
  {
    if q != [] {
      PlainBelow(Child(j, q[0]).value, q[1..]);
    }
  }

  /** What an anchor that was found says about the body. */
  predicate Anchored(body: Json, q: seq<Seg>, i: nat, t: string, anchor: Field) {
    && i < |RowsAt(body, q)|
    && IsIdent(t) && IsIdent(anchor.key) && IsAnchorValue(anchor.value)
    && Lookup(RowsAt(body, q)[i], anchor.key) == Some(anchor.value)
    && CountRows(RowsAt(body, q), anchor.key, anchor.value) == 1
  }

  lemma FieldIsFound(row: Json, f: Field)
    requires WellFormed(row) && row.Obj? && f in row.fields
    ensures Lookup(row, f.key) == Some(f.value)
  {
    var k :| 0 <= k < |row.fields| && row.fields[k] == f;
    IndexOfDistinctKey(row.fields, k);
  }

  lemma RowIsFound(body: Json, q: seq<Seg>, i: nat)
    requires WellFormed(body) && PythonFloats(body) && i < |RowsAt(body, q)|
    ensures Get(body, q + [Elem(i)]) == Some(RowsAt(body, q)[i])
    ensures WellFormed(RowsAt(body, q)[i]) && PythonFloats(RowsAt(body, q)[i])
  {
    GetSplits(body, q, [Elem(i)]);
    assert [Elem(i)][1..] == [];
    PlainBelow(body, q + [Elem(i)]);
    WellFormedBelow(body, q + [Elem(i)]);
  }

  lemma {:induction false} WellFormedBelow(j: Json, q: seq<Seg>)
    requires WellFormed(j) && Get(j, q).Some?
    ensures WellFormed(Get(j, q).value)
    decreases |q|
  {
    if q != [] {
      ChildIsWellFormed(j, q[0]);
      WellFormedBelow(Child(j, q[0]).value, q[1..]);
    }
  }

  lemma AnchorValueOf(row: Json, f: Field, t: string, c: Choice)
    requires PythonFloats(row) && row.Obj? && f in row.fields && Anchorable(f, t, c)
    ensures IsAnchorValue(f.value)
  {
  }

  /** The parts of a printed path that is rewritten. */
  lemma ArrayLeafOf(p: seq<Seg>) returns (q: seq<Seg>, i: nat, t: string)
    requires IsArrayLeaf(p)
    ensures q == p[..|p| - 2] && p == q + [Elem(i), Member(t)] && IsIdent(t)
    ensures MatchArrayLeaf(PathText(p)) == Some(ArrayLeaf(PathText(q), i, t))
  {
    q, i, t := p[..|p| - 2], p[|p| - 2].index, p[|p| - 1].key;
    assert p == q + [Elem(i), Member(t)];
    PathTextOfArrayLeaf(q, i, t);
    SplitArrayLeaf(PathText(q), i, t);
  }

  lemma AnchorIsAnchored(body: Json, q: seq<Seg>, i: nat, t: string, c: Choice)
    requires WellFormed(body) && PythonFloats(body) && IsIdent(t)
    requires i < |RowsAt(body, q)| && RowsAt(body, q)[i].Obj?
    ensures
      var anchor := ChooseAnchor(RowsAt(body, q), RowsAt(body, q)[i], t, c);
      anchor.Some? ==> Anchored(body, q, i, t, anchor.value)
  {
    var row := RowsAt(body, q)[i];
    var anchor := ChooseAnchor(RowsAt(body, q), row, t, c);
    if anchor.Some? {
      RowIsFound(body, q, i);
      FieldIsFound(row, anchor.value);
      AnchorValueOf(row, anchor.value, t, c);
    }
  }

  lemma GetTwo(node: Json, i: nat, t: string)
    ensures Get(node, [Elem(i), Member(t)])
         == if node.Arr? && i < |node.items| then Lookup(node.items[i], t) else None
  {
    assert [Elem(i), Member(t)][1..] == [Member(t)] && [Member(t)][1..] == [];
    if node.Arr? && i < |node.items| {
      assert Get(node.items[i], [Member(t)]) == Lookup(node.items[i], t);
    }
  }

  lemma PartsOfPosition(body: Json, q: seq<Seg>, i: nat, t: string)
    requires Get(body, q + [Elem(i), Member(t)]).Some?
    ensures Get(body, q).Some? && Get(body, q).value.Arr? && i < |RowsAt(body, q)|
    ensures Get(body, q + [Elem(i), Member(t)]) == Lookup(RowsAt(body, q)[i], t)
  {
    GetSplits(body, q, [Elem(i), Member(t)]);
    GetTwo(Get(body, q).value, i, t);
  }

  lemma SafeFront(p: seq<Seg>, n: nat)
    requires n <= |p| && SafePath(p)
    ensures SafePath(p[..n])
  {
  }

  /** A rewriting, and the anchor it goes through. */
  predicate Rewrites(body: Json, p: seq<Seg>, o: Options, q: seq<Seg>, i: nat, t: string, anchor: Field) {
    && |p| == |q| + 2 && q == p[..|q|] && SafePath(q)
    && Anchored(body, q, i, t, anchor)
    && Get(body, p) == Lookup(RowsAt(body, q)[i], t)
    && RobustPath(PathText(p), body, o) == NewExpression(q, anchor, t)
    && Unique(RowsAt(body, q), anchor.key, anchor.value, ChoiceFor(o, PathText(q)))
  }

  /** Any rewriting of a printed path that exists in the body goes through an anchor of that
      body. */
  lemma FoundAnchor(body: Json, p: seq<Seg>, o: Options) returns (q: seq<Seg>, i: nat, t: string)
    requires WellFormed(body) && SafeTree(body) && PythonFloats(body) && Get(body, p).Some?
    requires AnchorFor(PathText(p), body, o).Some?
    ensures |p| >= 2 && q == p[..|p| - 2] && p == q + [Elem(i), Member(t)] && Plain(q)
    ensures Rewrites(body, p, o, q, i, t, AnchorFor(PathText(p), body, o).value.1)
  {
    OnlyArrayLeavesMatch(p);
    q, i, t := ArrayLeafOf(p);
    PartsOfPosition(body, q, i, t);
    SafeTreeHasSafePaths(body, p);
    SafeFront(p, |q|);
    NavigateReadsThePosition(body, q);
    AnchorIsAnchored(body, q, i, t, ChoiceFor(o, PathText(q)));
    var anchor := AnchorFor(PathText(p), body, o).value.1;
    assert Plain(q) && Navigate(body, PathText(q)) == Get(body, q);
    assert Anchored(body, q, i, t, anchor);
    assert RobustPath(PathText(p), body, o) == NewExpression(q, anchor, t);
    assert Unique(RowsAt(body, q), anchor.key, anchor.value, ChoiceFor(o, PathText(q)));
    assert Get(body, p) == Lookup(RowsAt(body, q)[i], t);
    assert SafePath(q);
  }

  /** A value that some row matches is not NaN. */
  lemma EqualToItself(rows: seq<Json>, key: string, v: Json)
    requires CountRows(rows, key, v) >= 1
    ensures PyEq(v, v)
  {
    var i := SomeRowMatches(rows, key, v);
  }

  /** The one kept row is the row of the index, in any order of the rows. */
  lemma KeptIsTheRow(body: Json, q: seq<Seg>, i: nat, t: string, anchor: Field, rows: seq<Json>)
    requires Anchored(body, q, i, t, anchor) && multiset(rows) == multiset(RowsAt(body, q))
    ensures Kept(rows, "." + anchor.key, anchor.value) == [RowsAt(body, q)[i]]
  {
    EqualToItself(RowsAt(body, q), anchor.key, anchor.value);
    KeptTheOne(RowsAt(body, q), i, anchor.key, anchor.value);
    KeptOfPermutation(rows, RowsAt(body, q), "." + anchor.key, anchor.value);
    SameSingleton(Kept(rows, "." + anchor.key, anchor.value), RowsAt(body, q)[i]);
  }

  /** What the new expression selects in a body whose array holds the same rows. */
  lemma RewrittenValues(body: Json, p: seq<Seg>, o: Options, q: seq<Seg>, i: nat, t: string, anchor: Field,
                        other: Json)
    requires Rewrites(body, p, o, q, i, t, anchor) && Get(body, p).Some?
    requires multiset(RowsAt(other, q)) == multiset(RowsAt(body, q))
    ensures PathValues(other, RobustPath(PathText(p), body, o))
         == if ReadsBack(anchor.value) then [Get(body, p).value] else []
  {
    FilterExpressionValues(other, q, anchor, t);
    KeptIsTheRow(body, q, i, t, anchor, RowsAt(other, q));
    StepIntoOne(RowsAt(body, q)[i], t);
  }

  /** Rewriting keeps the meaning: in the body it was made for, the new expression selects exactly
      what the old one did, unless the chosen anchor is a string holding NUL, which the
      evaluator's literal reader refuses, or an infinite number, which is written as no JSON number;
      then it selects nothing. Texts are sequences of Unicode
      scalar values here; a lone surrogate, which JSON escapes can also spell, is refused likewise. */
  lemma RewritingKeepsMeaning(body: Json, p: seq<Seg>, o: Options)
    requires WellFormed(body) && SafeTree(body) && PythonFloats(body)
    requires Get(body, p).Some?
    ensures PathValues(body, PathText(p)) == [Get(body, p).value]
    ensures
      var found := AnchorFor(PathText(p), body, o);
      PathValues(body, RobustPath(PathText(p), body, o))
      == if found.Some? && !ReadsBack(found.value.1.value) then [] else PathValues(body, PathText(p))
  {
    SafeTreeHasSafePaths(body, p);
    PathValuesReadThePosition(body, p);
    if AnchorFor(PathText(p), body, o).Some? {
      var q, i, t := FoundAnchor(body, p, o);
      RewrittenValues(body, p, o, q, i, t, AnchorFor(PathText(p), body, o).value.1, body);
    }
  }

  lemma ReorderedValues(body: Json, p: seq<Seg>, o: Options, q: seq<Seg>, i: nat, t: string, anchor: Field,
                        rows: seq<Json>)
    requires WellFormed(body) && Get(body, q).Some? && Get(body, p).Some?
    requires Rewrites(body, p, o, q, i, t, anchor)
    requires multiset(rows) == multiset(RowsAt(body, q))
    ensures PathValues(Put(body, q, Arr(rows)), RobustPath(PathText(p), body, o))
         == if ReadsBack(anchor.value) then [Get(body, p).value] else []
  {
    GetAfterPut(body, q, Arr(rows));
    RewrittenValues(body, p, o, q, i, t, anchor, Put(body, q, Arr(rows)));
  }

  /** Reordering the array does not change what the new expression selects: the value of the old one, or
      nothing if the anchor's text is not read back. */
  lemma RewritingSurvivesReordering(body: Json, p: seq<Seg>, o: Options, rows: seq<Json>)
    requires WellFormed(body) && SafeTree(body) && PythonFloats(body) && Get(body, p).Some?
    requires AnchorFor(PathText(p), body, o).Some? && |p| >= 2
    requires multiset(rows) == multiset(RowsAt(body, p[..|p| - 2]))
    ensures PathValues(Put(body, p[..|p| - 2], Arr(rows)), RobustPath(PathText(p), body, o))
         == if ReadsBack(AnchorFor(PathText(p), body, o).value.1.value) then [Get(body, p).value] else []
  {
    var q, i, t := FoundAnchor(body, p, o);
    ReorderedValues(body, p, o, q, i, t, AnchorFor(PathText(p), body, o).value.1, rows);
  }

  // --- an input on which it falls short ---

  const NUL: char := 0 as char

  function OneRow(key: string, v: Json, t: string, w: Json): Json {
    Arr([Obj([Field(key, v), Field(t, w)])])
  }

  lemma NavigateRoot(body: Json)
    ensures Navigate(body, "$") == Some(body)
  {
    PieceOf("$", "");
    assert "$" + "" == "$" && ["$"][1..] == [];
    assert Pieces("$") == ["$"];
    WalkRoot(body);
  }

  lemma WalkRoot(body: Json)
    ensures Walk(body, ["$"]) == Some(body)
  {
    assert ["$"][0] == "$" && ["$"][1..] == [];
    assert Walk(body, []) == Some(body);
  }

  lemma AnchorFromParts(expr: string, body: Json, o: Options, leaf: ArrayLeaf, anchor: Field)
    requires MatchArrayLeaf(expr) == Some(leaf) && Navigate(body, leaf.prefix) == Some(body)
    requires body.Arr? && leaf.index < |body.items| && body.items[leaf.index].Obj?
    requires ChooseAnchor(body.items, body.items[leaf.index], leaf.target, ChoiceFor(o, leaf.prefix)) == Some(anchor)
    ensures AnchorFor(expr, body, o) == Some((leaf, anchor))
  {
  }

  lemma AnchorIsNotTarget(f: Field, t: string, c: Choice)
    requires Anchorable(f, t, c) && !c.allowTarget
    ensures f.key != t
  {
  }

  lemma ChosenOfTwo(rows: seq<Json>, row: Json, f: Field, g: Field, c: Choice)
    requires row.Obj? && row.fields == [f, g] && !c.allowTarget
    requires Anchorable(f, g.key, c) && Unique(rows, f.key, f.value, c)
    ensures ChooseAnchor(rows, row, g.key, c) == Some(f)
  {
    var r := ChooseAnchor(rows, row, g.key, c);
    assert row.fields[0] == f;
    if r.Some? {
      AnchorIsNotTarget(r.value, g.key, c);
    }
  }

  /** With one row of two fields, the field that is not the target is the anchor. */
  lemma OnlyAnchor(key: string, v: Json, t: string, w: Json, o: Options)
    requires IsIdent(key) && IsIdent(t) && key != t && !o.allowTarget
    requires Anchorable(Field(key, v), t, ChoiceFor(o, "$"))
    requires Unique(OneRow(key, v, t, w).items, key, v, ChoiceFor(o, "$"))
    ensures
      var p := [Elem(0), Member(t)];
      AnchorFor(PathText(p), OneRow(key, v, t, w), o) == Some((ArrayLeaf("$", 0, t), Field(key, v)))
  {
    var body := OneRow(key, v, t, w);
    assert [] + [Elem(0), Member(t)] == [Elem(0), Member(t)];
    assert PathText([]) == "$";
    PathTextOfArrayLeaf([], 0, t);
    SplitArrayLeaf("$", 0, t);
    NavigateRoot(body);
    ChosenOfTwo(body.items, body.items[0], Field(key, v), Field(t, w), ChoiceFor(o, "$"));
    AnchorFromParts(PathText([Elem(0), Member(t)]), body, o, ArrayLeaf("$", 0, t), Field(key, v));
  }

  lemma CountOfOne(row: Json, key: string, v: Json)
    requires RowMatches(row, key, v)
    ensures CountRows([row], key, v) == 1
  {
    assert [row][..0] == [];
  }

  /** A NUL in the anchor: the new expression selects nothing. */
  lemma NulAnchorLosesTheValue() returns (body: Json, p: seq<Seg>, o: Options)
    ensures PathValues(body, PathText(p)) == [Int(5)]
    ensures PathValues(body, RobustPath(PathText(p), body, o)) == []
  {
    var v := Str([NUL]);
    body, p, o := OneRow("k", v, "x", Int(5)), [Elem(0), Member("x")], Options({}, false, Null, false);
    CountOfOne(body.items[0], "k", v);
    OnlyAnchor("k", v, "x", Int(5), o);
    SafeOneRow("k", v, "x", Int(5));
    assert !ReadableChar([NUL][0]);
    RewritingKeepsMeaning(body, p, o);
  }

  lemma {:induction false} PowersMultiply(a: nat, b: nat)
    ensures PowerOfTen(a + b) == PowerOfTen(a) * PowerOfTen(b)
  {
    if a > 0 {
      PowersMultiply(a - 1, b);
    }
  }

  lemma ProductGrows(a: real, b: real, c: real, d: real)
    requires 0.0 < a <= c && 0.0 < b <= d
    ensures 0.0 < a * b <= c * d
  {
    assert a * b <= c * b <= c * d;
  }

  lemma BeyondFloats(c: nat, d: nat)
    requires PowerOfTen(c) >= TWO_TO_242 && PowerOfTen(d) >= 18014398509481983.0 * 4.0
    ensures PowerOfTen(d + ((c + c) + (c + c))) >= OVERFLOW
  {
    var a, b := TWO_TO_242, PowerOfTen(c);
    PowersMultiply(c, c);
    PowersMultiply(c + c, c + c);
    PowersMultiply(d, (c + c) + (c + c));
    ProductGrows(a, a, b, b);
    ProductGrows(a * a, a * a, b * b, b * b);
    ProductGrows(18014398509481983.0 * 4.0, (a * a) * (a * a), PowerOfTen(d), (b * b) * (b * b));
  }

  lemma PowersAre(a: nat, x: real, b: nat, y: real)
    requires PowerOfTen(a) == x && PowerOfTen(b) == y
    ensures PowerOfTen(a + b) == x * y
  {
    PowersMultiply(a, b);
  }

  lemma LargePowers()
    ensures PowerOfTen(73) >= TWO_TO_242 && PowerOfTen(17) >= 18014398509481983.0 * 4.0
  {
    var e8, e16 := 100000000.0, 10000000000000000.0;
    assert PowerOfTen(4) == 10000.0;
    PowersAre(4, 10000.0, 4, 10000.0);
    PowersAre(8, e8, 8, e8);
    PowersAre(1, 10.0, 16, e16);
    PowersAre(16, e16, 16, e16);
    PowersAre(32, e16 * e16, 32, e16 * e16);
    PowersAre(1, 10.0, 8, e8);
    PowersAre(9, 10.0 * e8, 64, (e16 * e16) * (e16 * e16));
  }

  lemma PartsOfOne(e: string)
    requires e != "" && Digits(e)
    ensures Parts("1" + ("e" + e), 1, 0, 1 + |e|) && ("1" + ("e" + e))[1..] == "e" + e
    ensures Span("1" + ("e" + e), IsDigit) == 1
  {
    var tail := "e" + e;
    var s := "1" + tail;
    assert s[1..] == tail && tail[1..] == e && tail[0..] == tail && s[0..] == s;
    SpanIs("1", tail, IsDigit);
    SpanAll(e);
    assert IsDigit(e[0]) && tail[1] == e[0];
  }

  /** The value of a one and an exponent. */
  lemma OneWithExponent(e: string)
    requires e != "" && Digits(e)
    ensures
      var s := "1" + ("e" + e);
      ParseNumber(s) == Some(Float(FloatText(s))) && NumberValue(s) == PowerOfTen(ParseNat(e))
  {
    var s := "1" + ("e" + e);
    PartsOfOne(e);
    LengthFromParts(s, 1, 0, 1 + |e|);
    OneScaled(e);
  }

  lemma OneScaled(e: string)
    requires e != "" && Digits(e)
    ensures NumberValue("1" + ("e" + e)) == PowerOfTen(ParseNat(e))
  {
    var tail := "e" + e;
    var s := "1" + tail;
    PartsOfOne(e);
    SpanAll(e);
    assert s[..1] == "1" && "1"[..0] == "" && s[0..] == s && s[1 + 0..] == tail;
    assert DigitsValue(s) == 1 && FractionValue(tail) == 0.0;
    assert e[..|e|] == e && tail[1..] == e && IsDigit(e[0]) && tail[1] == e[0];
    assert Scale(tail) == PowerOfTen(ParseNat(e));
  }

  lemma {:induction false} PowersGrow(a: nat, b: nat)
    requires a <= b
    ensures PowerOfTen(a) <= PowerOfTen(b)
    decreases b
  {
    if a < b {
      PowersGrow(a, b - 1);
    }
  }

  lemma LargeFrom(c: nat, d: nat, e: string)
    requires PowerOfTen(c) >= TWO_TO_242 && PowerOfTen(d) >= 18014398509481983.0 * 4.0
    requires e != "" && Digits(e) && ParseNat(e) >= d + ((c + c) + (c + c))
    ensures ParseNumber("1" + ("e" + e)) == Some(Float("inf"))
  {
    OneWithExponent(e);
    BeyondFloats(c, d);
    PowersGrow(d + ((c + c) + (c + c)), ParseNat(e));
  }

  /** Such numbers are read from JSON texts: 1e309 and all greater powers of ten. */
  lemma LargeNumbersAreInfinite(e: string)
    requires e != "" && Digits(e) && ParseNat(e) >= 309
    ensures ParseNumber("1" + ("e" + e)) == Some(Float("inf"))
  {
    LargePowers();
    LargeFrom(73, 17, e);
  }

  /** An infinite number in the anchor: the new expression is not in the language. */
  lemma InfiniteAnchorLosesTheValue() returns (body: Json, p: seq<Seg>, o: Options)
    ensures body == OneRow("k", Float("inf"), "x", Int(5))
    ensures PathValues(body, PathText(p)) == [Int(5)]
    ensures PathValues(body, RobustPath(PathText(p), body, o)) == []
  {
    var v := Float("inf");
    body, p, o := OneRow("k", v, "x", Int(5)), [Elem(0), Member("x")], Options({}, false, Null, false);
    CountOfOne(body.items[0], "k", v);
    OnlyAnchor("k", v, "x", Int(5), o);
    SafeOneRow("k", v, "x", Int(5));
    NotFiniteIsNoNumber("inf", "");
    RewritingKeepsMeaning(body, p, o);
  }

  lemma SafeOneRow(key: string, v: Json, t: string, w: Json)
    requires IsIdent(key) && IsIdent(t) && key != t && PythonFloats(v) && PythonFloats(w)
    requires v.IsScalar() && w.IsScalar()
    ensures
      var body := OneRow(key, v, t, w);
      && WellFormed(body) && SafeTree(body) && PythonFloats(body)
      && Get(body, [Elem(0), Member(t)]) == Some(w)
      && PathValues(body, PathText([Elem(0), Member(t)])) == [w]
  {
    var body, p := OneRow(key, v, t, w), [Elem(0), Member(t)];
    assert SafeKey(key) && SafeKey(t) by {
      assert Words(key) && Words(t);
    }
    SafeRow(body.items[0]);
    SafeList(body.items[0]);
    GetTwo(body, 0, t);
    SafeTreeHasSafePaths(body, p);
    PathValuesReadThePosition(body, p);
  }

  lemma SafeRow(row: Json)
    requires row.Obj? && |row.fields| == 2 && row.fields[0].key != row.fields[1].key
    requires forall f | f in row.fields :: SafeKey(f.key) && f.value.IsScalar() && PythonFloats(f.value)
    ensures WellFormed(row) && SafeTree(row) && PythonFloats(row)
    ensures Lookup(row, row.fields[1].key) == Some(row.fields[1].value)
  {
    IndexOfDistinctKey(row.fields, 1);
  }

  lemma SafeList(row: Json)
    requires WellFormed(row) && SafeTree(row) && PythonFloats(row)
    ensures WellFormed(Arr([row])) && SafeTree(Arr([row])) && PythonFloats(Arr([row]))
  {
  }
}
