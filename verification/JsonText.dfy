/** Writing JSON the way `json.dumps(ensure_ascii=False)` does, with some positions overlaid by
    given text, and Python's `str.replace` on what was written. */
module JsonText {
  import opened Wrappers
  import opened Text
  import opened Json
  import opened JsonLeaves

  // --- the printer ---

  function HexDigit(d: nat): char
    requires d < 16
  {
    if d < 10 then DigitChar(d) else ('a' as int + d - 10) as char
  }

  predicate NeedsEscape(c: char) {
    c == '\"' || c == '\\' || (c as int) < 32
  }

  function EscapeChar(c: char): (s: string)
    ensures !NeedsEscape(c) ==> s == [c]
    ensures NeedsEscape(c) ==> |s| >= 2 && s[0] == '\\' && '@' !in s && '$' !in s
  {
    if c == '\"' then "\\\""
    else if c == '\\' then "\\\\"
    else if c == '\n' then "\\n"
    else if c == '\r' then "\\r"
    else if c == '\t' then "\\t"
    else if c as int == 8 then "\\b"
    else if c as int == 12 then "\\f"
    else if (c as int) < 32 then "\\u00" + [HexDigit(c as int / 16), HexDigit(c as int % 16)]
    else [c]
  }

  function EscapeAll(s: string): string {
    if s == "" then "" else EscapeChar(s[0]) + EscapeAll(s[1..])
  }

  function QuotedText(s: string): string {
    "\"" + EscapeAll(s) + "\""
  }

  /** The floats that are not finite are written as JavaScript names them. */
  function FloatJson(text: string): string {
    if text == "inf" then "Infinity" else if text == "-inf" then "-Infinity" else if text == "nan" then "NaN" else text
  }

  function ScalarJson(j: Json): string
    requires j.IsScalar()
  {
    match j
    case Null => "null"
    case Bool(b) => if b then "true" else "false"
    case Int(n) => IntText(n)
    case Float(text) => FloatJson(text)
    case Str(s) => QuotedText(s)
  }

  /** Texts shown at positions instead of what is there. */
  type Overlay = map<seq<Seg>, string>

  function Label(j: Json, i: nat): string
    requires i < Width(j)
  {
    (if i > 0 then ", " else "") + (if j.Obj? then QuotedText(j.fields[i].key) + ": " else "")
  }

  function Open(j: Json): string {
    if j.Arr? then "[" else "{"
  }

  function Close(j: Json): string {
    if j.Arr? then "]" else "}"
  }

  function PrintAt(j: Json, at: seq<Seg>, w: Overlay): string
    decreases j, 1
  {
    if at in w then w[at]
    else if j.IsScalar() then ScalarJson(j)
    else Open(j) + (PrintItems(j, Width(j), at, w) + Close(j))
  }

  function PrintItems(j: Json, n: nat, at: seq<Seg>, w: Overlay): string
    requires n <= Width(j)
    decreases j, 0, n
  {
    if n == 0 then ""
    else PrintItems(j, n - 1, at, w) + (Label(j, n - 1) + PrintAt(ValueAt(j, n - 1), at + [SegAt(j, n - 1)], w))
  }

  function Print(j: Json): string {
    PrintAt(j, [], map[])
  }

  // --- overlaying is assigning ---

  function Over(pos: seq<Seg>, text: string, w: Overlay): Overlay {
    if pos in w then w else w[pos := text]
  }

  /** Texts shown elsewhere do not matter. */
  lemma {:induction false} OverlayElsewhere(j: Json, at: seq<Seg>, pos: seq<Seg>, text: string, w: Overlay)
    requires !(at <= pos)
    ensures PrintAt(j, at, Over(pos, text, w)) == PrintAt(j, at, w)
    decreases j, 1
  {
    if !j.IsScalar() {
      ItemsElsewhere(j, Width(j), at, pos, text, w);
    }
  }

  lemma {:induction false} ItemsElsewhere(j: Json, n: nat, at: seq<Seg>, pos: seq<Seg>, text: string, w: Overlay)
    requires n <= Width(j) && !(at <= pos)
    ensures PrintItems(j, n, at, Over(pos, text, w)) == PrintItems(j, n, at, w)
    decreases j, 0, n
  {
    if n > 0 {
      ItemsElsewhere(j, n - 1, at, pos, text, w);
      var child := at + [SegAt(j, n - 1)];
      assert at == child[..|at|];
      assert child <= pos ==> at <= pos;
      OverlayElsewhere(ValueAt(j, n - 1), child, pos, text, w);
    }
  }

  /** Two containers that differ in one child only. */
  predicate DifferAt(j: Json, j': Json, k: nat, v: Json) {
    && Width(j') == Width(j) && j'.Arr? == j.Arr? && j'.Obj? == j.Obj? && k < Width(j)
    && (forall i | 0 <= i < Width(j) :: SegAt(j', i) == SegAt(j, i))
    && (forall i | 0 <= i < Width(j) :: ValueAt(j', i) == if i == k then v else ValueAt(j, i))
    && (forall i | 0 <= i < Width(j) :: Label(j', i) == Label(j, i))
  }

  lemma FieldsDifferAt(fields: seq<Field>, k: nat, v: Json)
    requires k < |fields|
    ensures DifferAt(Obj(fields), Obj(fields[k := Field(fields[k].key, v)]), k, v)
  {
  }

  lemma ItemsDifferAt(items: seq<Json>, k: nat, v: Json)
    requires k < |items|
    ensures DifferAt(Arr(items), Arr(items[k := v]), k, v)
  {
  }

  lemma SetChildAt(j: Json, s: Seg, k: nat, v: Json)
    requires WellFormed(j) && k < Width(j) && SegAt(j, k) == s
    ensures DifferAt(j, SetChild(j, s, v), k, v)
  {
    if j.Obj? {
      IndexOfDistinctKey(j.fields, k);
      FieldsDifferAt(j.fields, k, v);
    } else {
      ItemsDifferAt(j.items, k, v);
    }
  }

  lemma ItemElsewhere(j: Json, at: seq<Seg>, s: Seg, q: seq<Seg>, text: string, w: Overlay)
    requires q != [] && s != q[0]
    ensures PrintAt(j, at + [s], Over(at + q, text, w)) == PrintAt(j, at + [s], w)
  {
    assert (at + [s])[|at|] != (at + q)[|at|];
    OverlayElsewhere(j, at + [s], at + q, text, w);
  }

  lemma {:induction false} ItemsAfterPut(j: Json, j': Json, at: seq<Seg>, q: seq<Seg>, k: nat, v': Json,
                                         text: string, w: Overlay, n: nat)
    requires n <= Width(j) && q != [] && DifferAt(j, j', k, v')
    requires PrintAt(v', at + [q[0]], w) == PrintAt(ValueAt(j, k), at + [q[0]], Over(at + q, text, w))
    requires forall i | 0 <= i < Width(j) :: SegAt(j, i) == q[0] <==> i == k
    ensures PrintItems(j', n, at, w) == PrintItems(j, n, at, Over(at + q, text, w))
    decreases n
  {
    if n > 0 {
      ItemsAfterPut(j, j', at, q, k, v', text, w, n - 1);
      if n - 1 != k {
        ItemElsewhere(ValueAt(j, n - 1), at, SegAt(j, n - 1), q, text, w);
      }
    }
  }

  lemma PrintAfterSetChild(j: Json, at: seq<Seg>, q: seq<Seg>, v': Json, text: string, w: Overlay)
    requires WellFormed(j) && q != [] && Child(j, q[0]).Some?
    requires PrintAt(v', at + [q[0]], w) == PrintAt(Child(j, q[0]).value, at + [q[0]], Over(at + q, text, w))
    ensures PrintAt(SetChild(j, q[0], v'), at, w) == PrintAt(j, at, Over(at + q, text, w))
  {
    var k := ChildIndex(j, q[0]);
    SetChildAt(j, q[0], k, v');
    ItemsAfterPut(j, SetChild(j, q[0], v'), at, q, k, v', text, w, Width(j));
    assert at != at + q;
  }

  /** Printing a tree with a scalar put somewhere is printing the tree with that scalar's text shown
      there. */
  lemma {:induction false} PrintAfterPut(j: Json, at: seq<Seg>, q: seq<Seg>, v: Json, w: Overlay)
    requires WellFormed(j) && Get(j, q).Some? && v.IsScalar()
    ensures PrintAt(Put(j, q, v), at, w) == PrintAt(j, at, Over(at + q, ScalarJson(v), w))
    decreases |q|
  {
    if q == [] {
      assert at + q == at;
    } else {
      var c := Child(j, q[0]).value;
      ChildIsWellFormed(j, q[0]);
      PrintAfterPut(c, at + [q[0]], q[1..], v, w);
      assert at + [q[0]] + q[1..] == at + q;
      PrintAfterSetChild(j, at, q, Put(c, q[1..], v), ScalarJson(v), w);
    }
  }

  /** Showing at each overlaid position exactly what is there changes nothing. */
  lemma {:induction false} OverlayOfOwnText(j: Json, at: seq<Seg>, w: Overlay)
    requires WellFormed(j)
    requires forall p | at + p in w && Get(j, p).Some? :: w[at + p] == PrintAt(Get(j, p).value, at + p, map[])
    ensures PrintAt(j, at, w) == PrintAt(j, at, map[])
    decreases j, 1
  {
    if at in w {
      assert at + [] == at;
      assert Get(j, []) == Some(j);
    } else if !j.IsScalar() {
      ItemsOfOwnText(j, Width(j), at, w);
    }
  }

  lemma {:induction false} ItemsOfOwnText(j: Json, n: nat, at: seq<Seg>, w: Overlay)
    requires WellFormed(j) && n <= Width(j)
    requires forall p | at + p in w && Get(j, p).Some? :: w[at + p] == PrintAt(Get(j, p).value, at + p, map[])
    ensures PrintItems(j, n, at, w) == PrintItems(j, n, at, map[])
    decreases j, 0, n
  {
    if n > 0 {
      ItemsOfOwnText(j, n - 1, at, w);
      var s := SegAt(j, n - 1);
      ChildAt(j, n - 1);
      forall p | at + [s] + p in w && Get(ValueAt(j, n - 1), p).Some?
        ensures w[at + [s] + p] == PrintAt(Get(ValueAt(j, n - 1), p).value, at + [s] + p, map[])
      {
        assert at + [s] + p == at + ([s] + p);
        assert ([s] + p)[1..] == p;
        assert Get(j, [s] + p) == Get(ValueAt(j, n - 1), p);
      }
      OverlayOfOwnText(ValueAt(j, n - 1), at + [s], w);
    }
  }

  // --- str.replace ---

  /** Left to right, without overlaps. */
  function ReplaceAll(s: string, pat: string, new': string): string
    requires pat != ""
  {
    if s == "" then ""
    else if StartsWith(s, pat) then new' + ReplaceAll(s[|pat|..], pat, new')
    else [s[0]] + ReplaceAll(s[1..], pat, new')
  }

  /** No occurrence starts inside `a` when `rest` follows it. */
  predicate NoStart(a: string, rest: string, pat: string) {
    forall k | 0 <= k < |a| :: !StartsWith((a + rest)[k..], pat)
  }

  lemma {:induction false} ReplaceSkips(a: string, rest: string, pat: string, new': string)
    requires pat != "" && NoStart(a, rest, pat)
    ensures ReplaceAll(a + rest, pat, new') == a + ReplaceAll(rest, pat, new')
  {
    if a == "" {
      assert a + rest == rest;
    } else {
      assert (a + rest)[0..] == a + rest;
      assert (a + rest)[1..] == a[1..] + rest;
      assert NoStart(a[1..], rest, pat) by {
        assert forall k | 0 <= k < |a[1..]| :: (a[1..] + rest)[k..] == (a + rest)[k + 1..];
      }
      ReplaceSkips(a[1..], rest, pat, new');
    }
  }

  lemma ReplaceHits(rest: string, pat: string, new': string)
    requires pat != ""
    ensures ReplaceAll(pat + rest, pat, new') == new' + ReplaceAll(rest, pat, new')
  {
    StartsWithOwn(pat, rest);
  }

  // --- replacing in printed text ---

  /** One call `body.replace(pat, text)`. */
  datatype Change = Change(pat: string, text: string)

  /** Replacing turns `a` into `b` when `rest` follows. */
  predicate TurnsWith(c: Change, a: string, b: string, rest: string) {
    c.pat != "" && ReplaceAll(a + rest, c.pat, c.text) == b + ReplaceAll(rest, c.pat, c.text)
  }

  /** What follows a value in printed text. */
  predicate Closes(rest: string) {
    rest == "" || rest[0] == ',' || rest[0] == ']' || rest[0] == '}'
  }

  ghost predicate Turns(c: Change, a: string, b: string) {
    forall rest: string | Closes(rest) :: TurnsWith(c, a, b, rest)
  }

  ghost predicate AlwaysStays(c: Change, a: string) {
    forall rest: string :: TurnsWith(c, a, a, rest)
  }

  /** Nothing that a tree prints is touched: its scalars, its keys and its punctuation. */
  ghost predicate Passive(c: Change, j: Json)
    decreases j
  {
    if j.IsScalar() then Turns(c, ScalarJson(j), ScalarJson(j))
    else
      && AlwaysStays(c, Open(j)) && AlwaysStays(c, Close(j))
      && (forall i | 0 <= i < Width(j) :: AlwaysStays(c, Label(j, i)))
      && (forall i | 0 <= i < Width(j) :: Passive(c, ValueAt(j, i)))
  }

  /** Every overlaid text turns into its counterpart. */
  ghost predicate AllTurn(c: Change, w: Overlay, w': Overlay) {
    w.Keys == w'.Keys && forall p | p in w :: Turns(c, w[p], w'[p])
  }

  lemma TurnsTogether(c: Change, a: string, a': string, b: string, b': string, rest: string)
    requires TurnsWith(c, a, a', b + rest) && TurnsWith(c, b, b', rest)
    ensures TurnsWith(c, a + b, a' + b', rest)
  {
    Associates(a, b, rest);
    Associates(a', b', ReplaceAll(rest, c.pat, c.text));
  }

  lemma NothingTurns(c: Change, rest: string)
    requires c.pat != ""
    ensures TurnsWith(c, "", "", rest)
  {
    assert "" + rest == rest;
  }

  lemma LabelStarts(j: Json, i: nat, text: string)
    requires 0 < i < Width(j)
    ensures Closes(Label(j, i) + text)
  {
  }

  /** Replacing in the print of a passive tree is printing it with the overlaid texts replaced. */
  lemma {:induction false} PrintTurns(c: Change, j: Json, at: seq<Seg>, w: Overlay, w': Overlay, rest: string)
    requires c.pat != "" && Passive(c, j) && AllTurn(c, w, w') && Closes(rest)
    ensures TurnsWith(c, PrintAt(j, at, w), PrintAt(j, at, w'), rest)
    decreases j, 1
  {
    if at in w {
      assert Turns(c, w[at], w'[at]);
    } else if !j.IsScalar() {
      var items, items' := PrintItems(j, Width(j), at, w), PrintItems(j, Width(j), at, w');
      ItemsTurn(c, j, Width(j), at, w, w', Close(j) + rest);
      assert TurnsWith(c, Close(j), Close(j), rest);
      TurnsTogether(c, items, items', Close(j), Close(j), rest);
      assert TurnsWith(c, Open(j), Open(j), items + Close(j) + rest);
      TurnsTogether(c, Open(j), Open(j), items + Close(j), items' + Close(j), rest);
    }
  }

  lemma {:induction false} ItemsTurn(c: Change, j: Json, n: nat, at: seq<Seg>, w: Overlay, w': Overlay, rest: string)
    requires c.pat != "" && !j.IsScalar() && Passive(c, j) && AllTurn(c, w, w') && n <= Width(j) && Closes(rest)
    ensures TurnsWith(c, PrintItems(j, n, at, w), PrintItems(j, n, at, w'), rest)
    decreases j, 0, n
  {
    if n == 0 {
      NothingTurns(c, rest);
    } else {
      var child := at + [SegAt(j, n - 1)];
      var value, value' := PrintAt(ValueAt(j, n - 1), child, w), PrintAt(ValueAt(j, n - 1), child, w');
      var before := Label(j, n - 1);
      PrintTurns(c, ValueAt(j, n - 1), child, w, w', rest);
      assert AlwaysStays(c, before);
      assert TurnsWith(c, before, before, value + rest);
      TurnsTogether(c, before, before, value, value', rest);
      if n > 1 {
        Associates(before, value, rest);
        LabelStarts(j, n - 1, value + rest);
        ItemsTurn(c, j, n - 1, at, w, w', before + value + rest);
      } else {
        NothingTurns(c, before + value + rest);
      }
      var items, items' := PrintItems(j, n - 1, at, w), PrintItems(j, n - 1, at, w');
      TurnsTogether(c, items, items', before + value, before + value', rest);
    }
  }

  // --- printed text lacks what the keys and strings lack ---

  predicate Without(s: string, bad: string) {
    forall k | 0 <= k <= |s| :: !StartsWith(s[k..], bad)
  }

  /** Substrings that no punctuation or escape sequence of JSON contributes to. */
  predicate Foreign(bad: string) {
    bad != "" && (bad[0] == '@' || bad[0] == '$') && '\"' !in bad && '\\' !in bad
  }

  predicate TreeWithout(j: Json, bad: string) {
    match j
    case Str(s) => Without(s, bad)
    case Float(text) => bad != "" && bad[0] !in FloatJson(text)
    case Arr(items) => forall i | 0 <= i < |items| :: TreeWithout(items[i], bad)
    case Obj(fields) => forall i | 0 <= i < |fields| :: Without(fields[i].key, bad) && TreeWithout(fields[i].value, bad)
    case _ => true
  }

  lemma Mismatch(s: string, pat: string, x: nat)
    requires x < |pat| && (x < |s| ==> s[x] != pat[x])
    ensures !StartsWith(s, pat)
  {
  }

  lemma WithoutFirst(s: string, bad: string)
    requires bad != "" && bad[0] !in s
    ensures Without(s, bad)
  {
    forall k | 0 <= k <= |s|
      ensures !StartsWith(s[k..], bad)
    {
      assert k < |s| ==> s[k] in s;
      Mismatch(s[k..], bad, 0);
    }
  }

  /** Side by side, when a character at the joint is not in the substring. */
  lemma WithoutTogether(a: string, b: string, bad: string)
    requires Without(a, bad) && Without(b, bad) && bad != ""
    requires a == "" || b == "" || a[|a| - 1] !in bad || b[0] !in bad
    ensures Without(a + b, bad)
  {
    forall k | 0 <= k <= |a + b|
      ensures !StartsWith((a + b)[k..], bad)
    {
      if k >= |a| {
        assert (a + b)[k..] == b[k - |a|..];
      } else if k + |bad| <= |a| {
        assert (a + b)[k..][..|bad|] == a[k..][..|bad|];
      } else if b == "" {
        assert (a + b)[k..] == a[k..];
      } else if b[0] !in bad {
        Mismatch((a + b)[k..], bad, |a| - k);
      } else {
        Mismatch((a + b)[k..], bad, |a| - 1 - k);
      }
    }
  }

  lemma StartsLater(s: string, p: string)
    requires s != "" && p != ""
    ensures StartsWith(s, p) <==> s[0] == p[0] && StartsWith(s[1..], p[1..])
  {
    if s[0] == p[0] && StartsWith(s[1..], p[1..]) {
      assert s[..|p|] == [s[0]] + s[1..][..|p| - 1];
      assert p == [p[0]] + p[1..];
    }
    if StartsWith(s, p) {
      assert s[..|p|][0] == s[0];
      assert s[1..][..|p| - 1] == s[..|p|][1..];
    }
  }

  /** Escaping does not bring a beginning about. */
  lemma {:induction false} EscapedStart(s: string, p: string)
    requires '\\' !in p
    ensures StartsWith(EscapeAll(s), p) ==> StartsWith(s, p)
    decreases |p|
  {
    if p != "" && s != "" {
      var e := EscapeAll(s);
      assert e[0] == EscapeChar(s[0])[0] && p[0] in p;
      StartsLater(e, p);
      if !NeedsEscape(s[0]) {
        assert e == [s[0]] + EscapeAll(s[1..]) && e[1..] == EscapeAll(s[1..]);
        EscapedStart(s[1..], p[1..]);
        StartsLater(s, p);
      }
    }
  }

  lemma {:induction false} EscapedWithout(s: string, bad: string)
    requires Foreign(bad) && Without(s, bad)
    ensures Without(EscapeAll(s), bad)
  {
    if s != "" {
      assert Without(s[1..], bad) by {
        assert forall k | 0 <= k <= |s[1..]| :: s[1..][k..] == s[k + 1..];
      }
      EscapedWithout(s[1..], bad);
      var e, first := EscapeAll(s), EscapeChar(s[0]);
      forall k | 0 <= k <= |e|
        ensures !StartsWith(e[k..], bad)
      {
        if k >= |first| {
          assert e[k..] == EscapeAll(s[1..])[k - |first|..];
        } else if NeedsEscape(s[0]) {
          assert first[k] in first;
          Mismatch(e[k..], bad, 0);
        } else {
          assert e[0..] == e && s[0..] == s;
          EscapedStart(s, bad);
        }
      }
    }
  }

  lemma QuotedWithout(s: string, bad: string)
    requires Foreign(bad) && Without(s, bad)
    ensures Without(QuotedText(s), bad)
  {
    EscapedWithout(s, bad);
    WithoutFirst("\"", bad);
    WithoutTogether("\"", EscapeAll(s), bad);
    WithoutTogether("\"" + EscapeAll(s), "\"", bad);
  }

  lemma ScalarWithout(j: Json, bad: string)
    requires Foreign(bad) && TreeWithout(j, bad) && j.IsScalar()
    ensures Without(ScalarJson(j), bad) && ClearEnd(ScalarJson(j), bad)
  {
    if j.Str? {
      QuotedWithout(j.s, bad);
    } else {
      WithoutFirst(ScalarJson(j), bad);
    }
  }

  lemma LabelWithout(j: Json, i: nat, bad: string)
    requires Foreign(bad) && TreeWithout(j, bad) && i < Width(j)
    ensures Without(Label(j, i), bad) && (Label(j, i) == "" || Label(j, i)[|Label(j, i)| - 1] == ' ')
  {
    WithoutFirst(", ", bad);
    WithoutFirst("", bad);
    if j.Obj? {
      WithoutFirst(": ", bad);
      QuotedWithout(j.fields[i].key, bad);
      WithoutTogether(QuotedText(j.fields[i].key), ": ", bad);
      WithoutTogether(", ", QuotedText(j.fields[i].key) + ": ", bad);
      assert "" + (QuotedText(j.fields[i].key) + ": ") == QuotedText(j.fields[i].key) + ": ";
    }
  }

  /** What a change must leave alone for a tree without `bad` to be passive: clean text that ends in
      punctuation, and clean scalars before a clear end. */
  ghost predicate Spares(c: Change, bad: string) {
    && bad != ""
    && (forall a: string | Without(a, bad) && EndsInPunctuation(a) :: AlwaysStays(c, a))
    && (forall a: string | Without(a, bad) && a != "" && ClearEnd(a, bad) :: Turns(c, a, a))
  }

  /** A quoted text, or one that has no beginning of the substring at all. */
  predicate ClearEnd(a: string, bad: string) {
    a == "" || a[|a| - 1] == '\"' || bad == "" || bad[0] !in a
  }

  predicate EndsInPunctuation(a: string) {
    a == "" || a[|a| - 1] == ' ' || a == "[" || a == "{" || a == "]" || a == "}"
  }

  lemma {:induction false} TreeIsPassive(c: Change, bad: string, j: Json)
    requires Foreign(bad) && Spares(c, bad) && TreeWithout(j, bad)
    ensures Passive(c, j)
  {
    if j.IsScalar() {
      ScalarWithout(j, bad);
      EmptyTurns(c, bad);
    } else {
      WithoutFirst(Open(j), bad);
      WithoutFirst(Close(j), bad);
      forall i | 0 <= i < Width(j)
        ensures AlwaysStays(c, Label(j, i)) && Passive(c, ValueAt(j, i))
      {
        LabelWithout(j, i, bad);
        TreeIsPassive(c, bad, ValueAt(j, i));
      }
    }
  }

  lemma EmptyTurns(c: Change, bad: string)
    requires Foreign(bad) && Spares(c, bad)
    ensures Turns(c, "", "")
  {
    WithoutFirst("", bad);
    assert AlwaysStays(c, "");
  }
}
