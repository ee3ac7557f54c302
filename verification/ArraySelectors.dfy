/** Turning a fixed array index into a filter on a sibling field
    (backend/app/services/jmx_builder.py:762-836). */
module ArraySelectors {
  import opened Wrappers
  import opened Text
  import opened Json
  import opened JsonPath

  // --- splitting off `[index].target` ---

  datatype ArrayLeaf = ArrayLeaf(prefix: string, index: nat, target: string)

  function LastBracket(s: string): (r: Option<nat>)
    ensures r.Some? ==> r.value < |s| && s[r.value] == '[' && '[' !in s[r.value + 1..]
    ensures r.None? ==> '[' !in s
  {
    if s == "" then None
    else if s[|s| - 1] == '[' then Some(|s| - 1)
    else
      var rest := LastBracket(s[..|s| - 1]);
      assert rest.Some? ==> s[rest.value + 1..] == s[..|s| - 1][rest.value + 1..] + [s[|s| - 1]];
      assert s == s[..|s| - 1] + [s[|s| - 1]];
      rest
  }

  /** The regular expression's greedy prefix ends at the last bracket, because neither an index
      nor an identifier contains one. */
  function MatchArrayLeaf(s: string): Option<ArrayLeaf> {
    var p := LastBracket(s);
    if p.None? then None
    else
      var inner := s[p.value + 1..];
      var n := Span(inner, IsDigit);
      if n > 0 && StartsWith(inner[n..], "].") && IsIdent(inner[n..][2..])
      then Some(ArrayLeaf(s[..p.value], ParseNat(inner[..n]), inner[n..][2..]))
      else None
  }

  // --- resolving the prefix ---

  predicate IsSeparator(c: char) {
    c == '.' || c == '[' || c == ']'
  }

  /** `re.split` on dots and brackets, without the empty pieces. */
  function Pieces(s: string): seq<string>
    decreases |s|
  {
    if s == "" then []
    else if IsSeparator(s[0]) then Pieces(s[1..])
    else
      var n := Span(s, NotSeparator);
      [s[..n]] + Pieces(s[n..])
  }

  predicate NotSeparator(c: char) {
    !IsSeparator(c)
  }

  function Walk(cur: Json, tokens: seq<string>): Option<Json> {
    if tokens == [] then Some(cur)
    else if tokens[0] == "$" then Walk(cur, tokens[1..])
    else if IsDecimal(tokens[0]) && cur.Arr? && ParseNat(tokens[0]) < |cur.items| then
      Walk(cur.items[ParseNat(tokens[0])], tokens[1..])
    else if Lookup(cur, tokens[0]).Some? then Walk(Lookup(cur, tokens[0]).value, tokens[1..])
    else None
  }

  function Navigate(body: Json, prefix: string): Option<Json> {
    Walk(body, Pieces(prefix))
  }

  // --- choosing the anchor ---

  /** Python's `==` against a string or a number: `True` equals 1 and `False` equals 0. */
  predicate PyEq(x: Json, v: Json) {
    if IsNumber(v) then
      || (IsNumber(x) && SameNumber(ValueOf(x), ValueOf(v)))
      || (x.Bool? && ValueOf(v) == Finite(if x.b then 1.0 else 0.0))
    else x == v
  }

  predicate RowMatches(row: Json, key: string, v: Json) {
    Lookup(row, key).Some? && PyEq(Lookup(row, key).value, v)
  }

  function CountRows(rows: seq<Json>, key: string, v: Json): nat {
    if rows == [] then 0
    else CountRows(rows[..|rows| - 1], key, v) + (if RowMatches(rows[|rows| - 1], key, v) then 1 else 0)
  }

  /** The arguments of the rewriting; the comparison is the same array in the second run. */
  datatype Options = Options(excluded: set<string>, allowTarget: bool, comparisonBody: Json, requireComparison: bool)

  datatype Choice = Choice(excluded: set<string>, allowTarget: bool, comparison: Option<Json>, requireComparison: bool)

  predicate Unique(rows: seq<Json>, key: string, v: Json, c: Choice) {
    && CountRows(rows, key, v) == 1
    && (c.requireComparison ==>
          c.comparison.Some? && c.comparison.value.Arr? && CountRows(c.comparison.value.items, key, v) == 1)
  }

  /** Fields an anchor may be: named scalars whose text is safe inside a filter. */
  predicate Anchorable(f: Field, target: string, c: Choice) {
    && (c.allowTarget || f.key != target)
    && f.key !in c.excluded
    && IsIdent(f.key)
    && (f.value.Str? || f.value.Int? || f.value.Float?)
    && (f.value.Str? ==>
          && f.value.s != "" && ';' !in f.value.s && !Occurs("${", f.value.s)
          && '\n' !in f.value.s && '\r' !in f.value.s)
  }

  function AnchorFields(fields: seq<Field>, target: string, c: Choice): (r: seq<Field>)
    ensures forall f :: f in r <==> f in fields && Anchorable(f, target, c)
  {
    if fields == [] then []
    else
      (if Anchorable(fields[0], target, c) then [fields[0]] else []) + AnchorFields(fields[1..], target, c)
  }

  predicate IdLike(key: string) {
    |key| >= 2 && Lower(key[|key| - 2]) == 'i' && Lower(key[|key| - 1]) == 'd'
  }

  function ScalarText(v: Json): string {
    match v
    case Str(s) => s
    case Int(n) => IntText(n)
    case Float(text) => text
    case _ => ""
  }

  /** Sort key: numbers first, then shorter texts. */
  predicate Before(a: Field, b: Field) {
    if IsNumber(a.value) != IsNumber(b.value) then IsNumber(a.value)
    else |ScalarText(a.value)| < |ScalarText(b.value)|
  }

  function InsertField(f: Field, fs: seq<Field>): (r: seq<Field>)
    ensures multiset(r) == multiset([f] + fs)
  {
    if fs == [] then [f]
    else if Before(fs[0], f) then
      assert fs == [fs[0]] + fs[1..];
      [fs[0]] + InsertField(f, fs[1..])
    else [f] + fs
  }

  /** Stable: taken from the back, each field goes before the first one it does not come after. */
  function SortFields(fs: seq<Field>): (r: seq<Field>)
    ensures multiset(r) == multiset(fs)
  {
    if fs == [] then []
    else
      assert fs == [fs[0]] + fs[1..];
      InsertField(fs[0], SortFields(fs[1..]))
  }

  function IdLikeFields(fs: seq<Field>): (r: seq<Field>)
    ensures forall f :: f in r <==> f in fs && IdLike(f.key)
  {
    if fs == [] then [] else (if IdLike(fs[0].key) then [fs[0]] else []) + IdLikeFields(fs[1..])
  }

  function FirstUnique(fs: seq<Field>, rows: seq<Json>, c: Choice): (r: Option<Field>)
    ensures r.Some? ==> r.value in fs && Unique(rows, r.value.key, r.value.value, c)
    ensures r.None? ==> forall f | f in fs :: !Unique(rows, f.key, f.value, c)
  {
    if fs == [] then None
    else if Unique(rows, fs[0].key, fs[0].value, c) then Some(fs[0])
    else FirstUnique(fs[1..], rows, c)
  }

  /** An id-like field if one is unique, else any unique field, else nothing. */
  function ChooseAnchor(rows: seq<Json>, obj: Json, target: string, c: Choice): (r: Option<Field>)
    requires obj.Obj?
    ensures r.Some? ==>
      r.value in obj.fields && Anchorable(r.value, target, c) && Unique(rows, r.value.key, r.value.value, c)
    ensures r.None? ==>
      forall f | f in obj.fields && Anchorable(f, target, c) :: !Unique(rows, f.key, f.value, c)
  {
    var fields := AnchorFields(obj.fields, target, c);
    var sorted := SortFields(IdLikeFields(fields));
    assert forall f :: f in sorted <==> f in multiset(sorted);
    assert forall f :: f in IdLikeFields(fields) <==> f in multiset(IdLikeFields(fields));
    FirstUnique(sorted + fields, rows, c)
  }

  // --- the new expression ---

  function Escape(s: string): string {
    if s == "" then ""
    else (if s[0] == '\\' || s[0] == '\'' then ['\\', s[0]] else [s[0]]) + Escape(s[1..])
  }

  function LiteralFor(v: Json): string {
    if v.Str? then "'" + Escape(v.s) + "'" else ScalarText(v)
  }

  function FilterText(key: string, v: Json): string {
    "[?(@." + key + "==" + LiteralFor(v) + ")]"
  }

  function ChoiceFor(o: Options, prefix: string): Choice {
    Choice(o.excluded, o.allowTarget,
           if o.requireComparison then Navigate(o.comparisonBody, prefix) else None, o.requireComparison)
  }

  /** The anchor found for an expression, with the split expression. */
  function AnchorFor(expr: string, body: Json, o: Options): Option<(ArrayLeaf, Field)> {
    var leaf := MatchArrayLeaf(expr);
    if leaf.None? then None else
    var arr := Navigate(body, leaf.value.prefix);
    if arr.None? || !arr.value.Arr? || leaf.value.index >= |arr.value.items| then None else
    var obj := arr.value.items[leaf.value.index];
    if !obj.Obj? then None else
    var anchor := ChooseAnchor(arr.value.items, obj, leaf.value.target, ChoiceFor(o, leaf.value.prefix));
    if anchor.None? then None else Some((leaf.value, anchor.value))
  }

  function RobustPath(expr: string, body: Json, o: Options): string {
    var found := AnchorFor(expr, body, o);
    if found.None? then expr
    else
      var (leaf, anchor) := found.value;
      leaf.prefix + FilterText(anchor.key, anchor.value) + "." + leaf.target
  }
}
