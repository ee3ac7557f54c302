/** The path language: scanning and evaluating an expression
    (backend/app/services/jsonpath_support.py). It is the part of RFC 9535 with name and index
    selectors, wildcards and equality filters (sections 2.3.1, 2.3.2, 2.3.3 and 2.3.5). */
module JsonPath {
  import opened Wrappers
  import opened Text
  import opened Json

  // --- literals ---

  /** `ast.literal_eval` of a single-quoted text between its quotes: backslash escapes of the
      quotes and of the backslash; line ends and NUL are errors. */
  function Unescape(s: string): Option<string> {
    if s == "" then Some("")
    else if s[0] == '\\' then
      if |s| >= 2 && (s[1] == '\\' || s[1] == '\'' || s[1] == '\"') then
        var rest := Unescape(s[2..]);
        if rest.None? then None else Some([s[1]] + rest.value)
      else None
    else if s[0] == '\n' || s[0] == '\r' || s[0] as int == 0 then None
    else
      var rest := Unescape(s[1..]);
      if rest.None? then None else Some([s[0]] + rest.value)
  }

  /** `json.loads` of a double-quoted text between its quotes: no control characters. */
  function UnescapeJson(s: string): Option<string> {
    if s == "" then Some("")
    else if s[0] == '\\' then
      if |s| >= 2 && (s[1] == '\\' || s[1] == '/' || s[1] == '\"') then
        var rest := UnescapeJson(s[2..]);
        if rest.None? then None else Some([s[1]] + rest.value)
      else None
    else if (s[0] as int) < 32 then None
    else
      var rest := UnescapeJson(s[1..]);
      if rest.None? then None else Some([s[0]] + rest.value)
  }

  /** The text of a number at the front of `s`: sign, digits, optional fraction and exponent. */
  function IntPart(s: string): nat {
    var sign := if s != "" && s[0] == '-' then 1 else 0;
    var digits := Span(s[sign..], IsDigit);
    if digits == 0 then 0 else sign + digits
  }

  function FractionPart(s: string): nat {
    if s == "" || s[0] != '.' then 0
    else
      var digits := Span(s[1..], IsDigit);
      if digits == 0 then 0 else 1 + digits
  }

  function ExponentPart(s: string): nat {
    if s == "" || (s[0] != 'e' && s[0] != 'E') then 0
    else
      var sign := if |s| > 1 && (s[1] == '+' || s[1] == '-') then 2 else 1;
      var digits := Span(s[sign..], IsDigit);
      if digits == 0 then 0 else sign + digits
  }

  function NumberLength(s: string): (n: nat)
    ensures n <= |s|
  {
    var i := IntPart(s);
    if i == 0 then 0
    else
      var f := FractionPart(s[i..]);
      i + f + ExponentPart(s[i + f..])
  }

  /** `json.loads` of a number: no leading zeros; only plain integers are integers. */
  function ParseNumber(s: string): Option<Json> {
    var sign := if s != "" && s[0] == '-' then 1 else 0;
    var digits := Span(s[sign..], IsDigit);
    if digits == 0 || NumberLength(s) != |s| || (digits > 1 && s[sign] == '0') then None
    else if sign + digits == |s| then
      Some(Int(if sign == 1 then -(ParseNat(s[sign..sign + digits]) as int) else ParseNat(s[sign..sign + digits])))
    else Some(Float(FloatText(s)))
  }

  /** The text of the float that a JSON number is read as: too large a number is infinite. */
  function FloatText(s: string): string {
    var value := NumberValue(s);
    if value >= OVERFLOW then "inf" else if value <= -OVERFLOW then "-inf" else s
  }

  const TWO_TO_242: real := 7067388259113537318333190002971674063309935587502475832486424805170479104.0

  /** 2^1024 - 2^970, the least number that rounds to an infinite float. */
  const OVERFLOW: real := 18014398509481983.0 * 4.0 * (TWO_TO_242 * TWO_TO_242) * (TWO_TO_242 * TWO_TO_242)

  /** The exact decimal value of a number's text. */
  function NumberValue(s: string): real {
    var sign := if s != "" && s[0] == '-' then 1 else 0;
    var i := IntPart(s);
    var f := FractionPart(s[i..]);
    var magnitude := (DigitsValue(s[sign..]) as real + FractionValue(s[i..])) * Scale(s[i + f..]);
    if sign == 1 then -magnitude else magnitude
  }

  function DigitsValue(s: string): nat {
    ParseNat(s[..Span(s, IsDigit)])
  }

  function FractionValue(s: string): real {
    if FractionPart(s) == 0 then 0.0
    else DigitsValue(s[1..]) as real / PowerOfTen(Span(s[1..], IsDigit))
  }

  function Scale(s: string): real {
    if ExponentPart(s) == 0 then 1.0
    else if s[1] == '-' then 1.0 / PowerOfTen(DigitsValue(s[2..]))
    else if s[1] == '+' then PowerOfTen(DigitsValue(s[2..]))
    else PowerOfTen(DigitsValue(s[1..]))
  }

  function PowerOfTen(n: nat): (r: real)
    ensures r > 0.0
  {
    if n == 0 then 1.0 else 10.0 * PowerOfTen(n - 1)
  }

  // --- equality of values, as the evaluator and as Python's `==` see it ---

  predicate IsNumber(j: Json) {
    j.Int? || j.Float?
  }

  /** Floats are compared by the decimal value of their text, when they are finite. */
  datatype Number = Finite(value: real) | Infinite(negative: bool) | NotANumber

  function ValueOf(j: Json): Number
    requires IsNumber(j)
  {
    if j.Int? then Finite(j.n as real)
    else if j.text == "inf" || j.text == "-inf" then Infinite(j.text == "-inf")
    else if j.text == "nan" then NotANumber
    else Finite(NumberValue(j.text))
  }

  /** NaN is not equal to itself. */
  predicate SameNumber(a: Number, b: Number) {
    a == b && !a.NotANumber?
  }

  /** Same type, or both numbers; and equal. */
  predicate SameScalar(a: Json, b: Json) {
    if IsNumber(a) && IsNumber(b) then SameNumber(ValueOf(a), ValueOf(b))
    else a == b && a.IsScalar()
  }

  // --- scanning ---

  /** Runs to the closing quote `q`; a backslash takes the next character with it. Gives the
      length of the quoted content. */
  function QuotedLength(s: string, q: char): (n: Option<nat>)
    ensures n.Some? ==> n.value < |s| && s[n.value] == q
  {
    if s == "" then None
    else if s[0] == q then Some(0)
    else
      var step := if s[0] == '\\' then 2 else 1;
      if step > |s| || (step == 2 && s[1] == '\n') then None
      else
        var rest := QuotedLength(s[step..], q);
        if rest.None? then None else Some(rest.value + step)
  }

  /** A quoted string at the front of `s`: the text with its quotes, and what follows. */
  function MatchString(s: string): (r: Option<(string, string)>)
    ensures r.Some? ==> |r.value.0| >= 2 && s == r.value.0 + r.value.1 && Ends(s, r.value.1)
  {
    if s == "" || (s[0] != '\'' && s[0] != '\"') then None
    else
      var n := QuotedLength(s[1..], s[0]);
      if n.None? then None
      else
        assert s == s[..n.value + 2] + s[n.value + 2..];
        Some((s[..n.value + 2], s[n.value + 2..]))
  }

  function LiteralText(text: string): Option<string>
    requires |text| >= 2
  {
    var inner := text[1..|text| - 1];
    if text[0] == '\'' then Unescape(inner) else UnescapeJson(inner)
  }

  datatype Step = Name(key: string) | Quoted(text: string) | Index(index: nat) | Wildcard

  /** One member, index or wildcard step at the front of `s`. */
  function MatchStep(s: string): (r: Option<(Step, string)>)
    ensures r.Some? ==> |r.value.1| < |s| && Ends(s, r.value.1)
    ensures r.Some? && r.value.0.Quoted? ==> |r.value.0.text| >= 2
  {
    if |s| >= 2 && s[0] == '.' && IsLead(s[1]) then
      var n := Span(s[1..], IsWord);
      Some((Name(s[1..][..n]), s[1..][n..]))
    else if |s| >= 2 && s[0] == '[' then
      var quoted := MatchString(s[1..]);
      if quoted.Some? && quoted.value.1 != "" && quoted.value.1[0] == ']' then
        assert Ends(s[1..], quoted.value.1) && Ends(quoted.value.1, quoted.value.1[1..]);
        EndsTransitive(s[1..], quoted.value.1, quoted.value.1[1..]);
        EndsTransitive(s, s[1..], quoted.value.1[1..]);
        Some((Quoted(quoted.value.0), quoted.value.1[1..]))
      else
        var n := Span(s[1..], IsDigit);
        if n > 0 && 1 + n < |s| && s[1 + n] == ']' then Some((Index(ParseNat(s[1..][..n])), s[n + 2..]))
        else if |s| >= 3 && s[1] == '*' && s[2] == ']' then Some((Wildcard, s[3..]))
        else None
    else None
  }

  function SkipSpaces(s: string): (r: string)
    ensures Ends(s, r)
  {
    s[Span(s, IsSpace)..]
  }

  function Expect(s: string, p: string): (r: Option<string>)
    ensures r.Some? ==> s == p + r.value && Ends(s, r.value)
  {
    if StartsWith(s, p) then assert s == p + s[|p|..]; Some(s[|p|..]) else None
  }

  /** The field of a filter, as written after the `@`. */
  function MatchField(s: string): (r: Option<(string, string)>)
    ensures r.Some? ==> |r.value.0| >= 2 && s == r.value.0 + r.value.1 && Ends(s, r.value.1)
  {
    if |s| >= 2 && s[0] == '.' && IsLead(s[1]) then
      var n := Span(s[1..], IsWord);
      assert s == s[..n + 1] + s[n + 1..];
      Some((s[..n + 1], s[n + 1..]))
    else if s != "" && s[0] == '[' then
      var quoted := MatchString(s[1..]);
      if quoted.Some? && quoted.value.1 != "" && quoted.value.1[0] == ']' then
        var n := |quoted.value.0| + 2;
        assert s == s[..n] + s[n..];
        Some((s[..n], s[n..]))
      else None
    else None
  }

  /** The literal of a filter, as written, and what follows. */
  function MatchValue(s: string): (r: Option<(string, string)>)
    ensures r.Some? ==> |r.value.0| >= 1 && s == r.value.0 + r.value.1 && Ends(s, r.value.1)
  {
    var quoted := MatchString(s);
    if quoted.Some? then quoted
    else if NumberLength(s) > 0 then
      assert s == s[..NumberLength(s)] + s[NumberLength(s)..];
      Some((s[..NumberLength(s)], s[NumberLength(s)..]))
    else if Expect(s, "true").Some? then Some(("true", Expect(s, "true").value))
    else if Expect(s, "false").Some? then Some(("false", Expect(s, "false").value))
    else if Expect(s, "null").Some? then Some(("null", Expect(s, "null").value))
    else None
  }

  function Literal(text: string): Option<Json>
    requires text != ""
  {
    if text[0] == '\'' || text[0] == '\"' then
      if |text| >= 2 && LiteralText(text).Some? then Some(Str(LiteralText(text).value)) else None
    else if text == "true" then Some(Bool(true))
    else if text == "false" then Some(Bool(false))
    else if text == "null" then Some(Null)
    else ParseNumber(text)
  }

  datatype Filter = Filter(field: string, value: string, rest: string)

  /** The part of a filter before its field. */
  function FilterHead(s: string): (r: Option<string>)
    ensures r.Some? ==> |r.value| + 4 <= |s| && Ends(s, r.value)
  {
    var start := Expect(s, "[?(");
    if start.None? then None else
    var at := Expect(SkipSpaces(start.value), "@");
    if at.None? then None else
    EndsTransitive(start.value, SkipSpaces(start.value), at.value);
    EndsTransitive(s, start.value, at.value);
    at
  }

  /** An equality filter at the front of `s`. */
  function MatchFilter(s: string): (r: Option<Filter>)
    ensures r.Some? ==> |r.value.field| + |r.value.rest| + 5 < |s| && r.value.value != "" && Ends(s, r.value.rest)
  {
    var head := FilterHead(s);
    if head.None? then None else
    var field := MatchField(head.value);
    if field.None? then None else
    EndsTransitive(s, head.value, field.value.1);
    var tail := FilterTail(field.value.1);
    if tail.None? then None else
    EndsTransitive(s, field.value.1, tail.value.1);
    Some(Filter(field.value.0, tail.value.0, tail.value.1))
  }

  /** The part of a filter after its field. */
  function FilterTail(s: string): (r: Option<(string, string)>)
    ensures r.Some? ==> r.value.0 != "" && |r.value.1| + 4 < |s| && Ends(s, r.value.1)
  {
    var eq := Expect(SkipSpaces(s), "==");
    if eq.None? then None else
    EndsTransitive(s, SkipSpaces(s), eq.value);
    var value := MatchValue(SkipSpaces(eq.value));
    if value.None? then None else
    EndsTransitive(eq.value, SkipSpaces(eq.value), value.value.1);
    EndsTransitive(s, eq.value, value.value.1);
    var closed := Expect(SkipSpaces(value.value.1), ")]");
    if closed.None? then None else
    EndsTransitive(value.value.1, SkipSpaces(value.value.1), closed.value);
    EndsTransitive(s, value.value.1, closed.value);
    Some((value.value.0, closed.value))
  }

  // --- evaluation ---

  /** What one node contributes to a step. */
  function StepInto(node: Json, step: Step): seq<Json> {
    match step
    case Name(key) => Selected(node, key)
    case Quoted(text) =>
      if |text| < 2 || LiteralText(text).None? then [] else Selected(node, LiteralText(text).value)
    case Index(i) => if node.Arr? && i < |node.items| then [node.items[i]] else []
    case Wildcard => if node.Arr? then node.items else []
  }

  function Selected(node: Json, key: string): seq<Json> {
    if Lookup(node, key).Some? then [Lookup(node, key).value] else []
  }

  function StepAll(nodes: seq<Json>, step: Step): seq<Json> {
    if nodes == [] then [] else StepAll(nodes[..|nodes| - 1], step) + StepInto(nodes[|nodes| - 1], step)
  }

  /** One turn of the evaluator: the nodes after the filter or step at the front of `s`, and the
      rest of the expression; nothing when the front is not part of the language. */
  function Turn(nodes: seq<Json>, s: string): (r: Option<(seq<Json>, string)>)
    requires s != ""
    ensures r.Some? ==> |r.value.1| < |s| && Ends(s, r.value.1)
    decreases |s|, 6
  {
    var filter := MatchFilter(s);
    if filter.Some? then
      var expected := Literal(filter.value.value);
      if expected.None? then None
      else Some((FilterAll(nodes, filter.value.field, expected.value), filter.value.rest))
    else
      var step := MatchStep(s);
      if step.None? then None
      else if step.value.0.Quoted? && LiteralText(step.value.0.text).None? then None
      else Some((StepAll(nodes, step.value.0), step.value.1))
  }

  /** The nodes that the remaining expression `s` selects, starting from `nodes`. */
  function Values(nodes: seq<Json>, s: string): seq<Json>
    decreases |s|, 7
  {
    if s == "" then nodes
    else
      var turn := Turn(nodes, s);
      if turn.None? then [] else Values(turn.value.0, turn.value.1)
  }

  /** Whether a filter keeps a row: its field selects exactly one value, the expected one. */
  predicate Keeps(row: Json, field: string, expected: Json)
    decreases |field|, 8
  {
    var values := Values([row], field);
    |values| == 1 && SameScalar(values[0], expected)
  }

  function Kept(rows: seq<Json>, field: string, expected: Json): seq<Json>
    decreases |field|, 9, |rows|
  {
    if rows == [] then []
    else
      Kept(rows[..|rows| - 1], field, expected)
      + (if Keeps(rows[|rows| - 1], field, expected) then [rows[|rows| - 1]] else [])
  }

  function FilterAll(nodes: seq<Json>, field: string, expected: Json): seq<Json>
    decreases |field|, 10, |nodes|
  {
    if nodes == [] then []
    else
      FilterAll(nodes[..|nodes| - 1], field, expected)
      + (if nodes[|nodes| - 1].Arr? then Kept(nodes[|nodes| - 1].items, field, expected) else [])
  }

  /** What an expression selects in a body. */
  function PathValues(body: Json, expression: string): seq<Json> {
    if expression == "" || expression[0] != '$' then [] else Values([body], expression[1..])
  }

  /** The nodes reached and the part of the expression still to come. */
  predicate Reached(body: Json, expression: string, nodes: seq<Json>, rest: string) {
    Ends(expression, rest) && Values(nodes, rest) == PathValues(body, expression)
  }

  lemma ReachedAtStart(body: Json, expression: string)
    requires StartsWith(expression, "$")
    ensures Reached(body, expression, [body], expression[1..])
  {
    assert expression[..1][0] == expression[0];
  }

  lemma ReachedNext(body: Json, expression: string, nodes: seq<Json>, rest: string, turn: Option<(seq<Json>, string)>)
    requires Reached(body, expression, nodes, rest) && rest != "" && turn == Turn(nodes, rest)
    ensures
      if turn.None? then PathValues(body, expression) == []
      else |turn.value.1| < |rest| && Reached(body, expression, turn.value.0, turn.value.1)
  {
    if turn.Some? {
      EndsTransitive(expression, rest, turn.value.1);
    }
  }

  /** The evaluator's loop over the expression, one filter or step at a time. */
  method JsonpathValues(body: Json, expression: string) returns (nodes: seq<Json>)
    ensures nodes == PathValues(body, expression)
    decreases |expression|, 3
  {
    if !StartsWith(expression, "$") {
      return [];
    }
    nodes := [body];
    var offset := 1;
    ReachedAtStart(body, expression);
    while offset < |expression|
      invariant 1 <= offset <= |expression|
      invariant Reached(body, expression, nodes, expression[offset..])
    {
      var turn := TakeTurn(nodes, expression[offset..]);
      ReachedNext(body, expression, nodes, expression[offset..], turn);
      if turn.None? {
        return [];
      }
      nodes := turn.value.0;
      offset := |expression| - |turn.value.1|;
    }
  }

  /** One pass of the loop body. */
  method TakeTurn(nodes: seq<Json>, rest: string) returns (turn: Option<(seq<Json>, string)>)
    requires rest != ""
    ensures turn == Turn(nodes, rest)
    decreases |rest|, 2
  {
    var filter := MatchFilter(rest);
    if filter.Some? {
      var expected := Literal(filter.value.value);
      if expected.None? {
        return None;
      }
      var kept := FilterNodes(nodes, filter.value.field, expected.value);
      return Some((kept, filter.value.rest));
    }
    var step := MatchStep(rest);
    if step.None? || (step.value.0.Quoted? && LiteralText(step.value.0.text).None?) {
      return None;
    }
    var taken := StepNodes(nodes, step.value.0);
    return Some((taken, step.value.1));
  }

  /** The two nested loops of the filter branch: rows of every array node, tested one by one. */
  method FilterNodes(nodes: seq<Json>, field: string, expected: Json) returns (out: seq<Json>)
    ensures out == FilterAll(nodes, field, expected)
    decreases |field| + 1, 4
  {
    out := [];
    for i := 0 to |nodes|
      invariant out == FilterAll(nodes[..i], field, expected)
    {
      assert nodes[..i + 1][..i] == nodes[..i];
      if nodes[i].Arr? {
        var rows := nodes[i].items;
        ghost var before := out;
        for k := 0 to |rows|
          invariant out == before + Kept(rows[..k], field, expected)
        {
          assert rows[..k + 1][..k] == rows[..k];
          var values := JsonpathValues(rows[k], "$" + field);
          assert ("$" + field)[1..] == field;
          if |values| == 1 && SameScalar(values[0], expected) {
            out := out + [rows[k]];
          }
        }
        assert rows[..|rows|] == rows;
      }
    }
    assert nodes[..|nodes|] == nodes;
  }

  method StepNodes(nodes: seq<Json>, step: Step) returns (out: seq<Json>)
    ensures out == StepAll(nodes, step)
  {
    out := [];
    for i := 0 to |nodes|
      invariant out == StepAll(nodes[..i], step)
    {
      assert nodes[..i + 1][..i] == nodes[..i];
      out := out + StepInto(nodes[i], step);
    }
    assert nodes[..|nodes|] == nodes;
  }
}
