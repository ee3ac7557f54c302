/** Putting `${var}` into a JSON body through sentinels: mark the positions, print, then replace the
    sentinels in the text (backend/app/services/jmx_builder.py:719-753). */
module JsonSubstitution {
  import opened Text
  import opened Json
  import opened JsonSetter
  import opened JsonText

  // --- requests for substitution ---

  /** A correlated value: where it goes, the text before it, and whether the leaf was a number. */
  datatype Consumer = Consumer(path: string, variable: string, wrapper: string, numeric: bool)

  /** A credential that a property supplies at run time. */
  datatype Secret = Secret(path: string, property: string)

  /** One marked position: the path as written and as parsed, its sentinel's inside, and the wrapper
      and reference that take the sentinel's place. */
  datatype Sub = Sub(path: string, pos: seq<Seg>, core: string, wrapper: string, inner: string, numeric: bool)

  function Reference(inner: string): string {
    "${" + inner + "}"
  }

  function Token(s: Sub): string {
    s.wrapper + Reference(s.inner)
  }

  function ConsumerSub(index: nat, c: Consumer): Sub {
    Sub(c.path, ParsePath(c.path), "B11_SENTINEL_" + (Decimal(index) + ("_" + c.variable)),
        c.wrapper, c.variable, c.numeric)
  }

  function SecretSub(index: nat, s: Secret): Sub {
    Sub(s.path, ParsePath(s.path), "B11_SECRET_" + (Decimal(index) + ("_" + s.property)),
        "", "__P(" + s.property + ",)", false)
  }

  /** Consumers first, then credentials, each numbered from zero. */
  function SubAt(consumers: seq<Consumer>, secrets: seq<Secret>, i: nat): Sub
    requires i < |consumers| + |secrets|
  {
    if i < |consumers| then ConsumerSub(i, consumers[i]) else SecretSub(i - |consumers|, secrets[i - |consumers|])
  }

  function Subs(consumers: seq<Consumer>, secrets: seq<Secret>): seq<Sub> {
    seq(|consumers| + |secrets|, i requires 0 <= i < |consumers| + |secrets| => SubAt(consumers, secrets, i))
  }

  function Marker(s: Sub): string {
    "@@" + s.core + "@@"
  }

  /** What the text loop looks for: a sentinel at a numeric leaf goes with its quotes. */
  function Pattern(s: Sub): string {
    if s.numeric then "\"" + Marker(s) + "\"" else Marker(s)
  }

  function Hidden(s: Sub): string {
    "\"" + Marker(s) + "\""
  }

  function Shown(s: Sub): string {
    if s.numeric then Token(s) else "\"" + Token(s) + "\""
  }

  // --- text without sentinels ---

  const PREFIX := "@@B11_"

  predicate IsMarkerChar(c: char) {
    IsWord(c) || c == '@' || c == '\"'
  }

  predicate Free(s: string) {
    Without(s, PREFIX)
  }

  predicate EndsClear(a: string) {
    a != "" && !IsMarkerChar(a[|a| - 1])
  }

  predicate GoodSub(s: Sub) {
    Words(s.core) && StartsWith(s.core, "B11_") && s.core != "" && Free(Token(s))
  }

  lemma PatternIsMarkerChars(s: Sub, x: nat)
    requires GoodSub(s) && x < |Pattern(s)|
    ensures IsMarkerChar(Pattern(s)[x])
  {
  }

  /** The prefix sits in a pattern, after the quote if there is one. */
  lemma PrefixInPattern(s: Sub)
    requires GoodSub(s)
    ensures
      var d := if s.numeric then 1 else 0;
      |Pattern(s)| >= d + |PREFIX| && Pattern(s)[d..d + |PREFIX|] == PREFIX
  {
    assert Marker(s)[..6] == "@@" + s.core[..4];
  }

  lemma SliceOfSlice(s: string, i: nat, j: nat, d: nat, e: nat)
    requires i <= j <= |s| && d <= e <= j - i
    ensures s[i..j][d..e] == s[i + d..i + e]
  {
    assert forall x | 0 <= x < e - d :: s[i..j][d..e][x] == s[i + d + x];
  }

  lemma InsideIsVisible(a: string, rest: string, k: nat, d: nat, pat: string)
    requires k + |pat| <= |a| && d + |PREFIX| <= |pat| && pat[d..d + |PREFIX|] == PREFIX
    ensures StartsWith((a + rest)[k..], pat) ==> StartsWith(a[k + d..], PREFIX)
  {
    if StartsWith((a + rest)[k..], pat) {
      assert (a + rest)[k..][..|pat|] == a[k..k + |pat|];
      assert a[k..k + |pat|] == pat;
      SliceOfSlice(a, k, k + |pat|, d, d + |PREFIX|);
      assert a[k + d..][..|PREFIX|] == a[k + d..k + d + |PREFIX|];
    }
  }

  /** No sentinel starts in clean text that ends clearly or is followed by a clear end. */
  lemma CleanText(a: string, rest: string, s: Sub)
    requires GoodSub(s) && Free(a) && (Closes(rest) || EndsClear(a))
    ensures NoStart(a, rest, Pattern(s))
  {
    var pat := Pattern(s);
    var d := if s.numeric then 1 else 0;
    PrefixInPattern(s);
    forall k | 0 <= k < |a|
      ensures !StartsWith((a + rest)[k..], pat)
    {
      if k + |pat| <= |a| {
        assert !StartsWith(a[k + d..], PREFIX);
        InsideIsVisible(a, rest, k, d, pat);
      } else if EndsClear(a) {
        PatternIsMarkerChars(s, |a| - 1 - k);
        Mismatch((a + rest)[k..], pat, |a| - 1 - k);
      } else {
        PatternIsMarkerChars(s, |a| - k);
        Mismatch((a + rest)[k..], pat, |a| - k);
      }
    }
  }

  predicate DifferAt(a: string, b: string, x: nat) {
    x < |a| + 2 && x < |b| + 2 && (a + "@@")[x] != (b + "@@")[x]
  }

  /** Where two different words in `@@ @@` stop agreeing. */
  lemma WordsDiffer(a: string, b: string) returns (x: nat)
    requires Words(a) && Words(b) && a != b
    ensures DifferAt(a, b, x)
  {
    if x' :| 0 <= x' < |a| && x' < |b| && a[x'] != b[x'] {
      x := x';
    } else if |a| < |b| {
      x := |a|;
      assert IsWord(b[x]);
    } else {
      x := |b|;
      assert |a| == |b| ==> a == b;
      assert IsWord(a[x]);
    }
  }

  lemma MismatchAt(text: string, k: nat, pat: string, i: nat)
    requires k + i < |text| && i < |pat| && text[k + i] != pat[i]
    ensures !StartsWith(text[k..], pat)
  {
    Mismatch(text[k..], pat, i);
  }

  /** A sentinel does not start anywhere in another sentinel. */
  lemma OtherMarker(t: Sub, s: Sub, rest: string)
    requires GoodSub(t) && GoodSub(s) && t.core != s.core && Closes(rest)
    ensures NoStart(Hidden(t), rest, Pattern(s))
  {
    var x := WordsDiffer(s.core, t.core);
    forall k | 0 <= k < |Hidden(t)|
      ensures !StartsWith((Hidden(t) + rest)[k..], Pattern(s))
    {
      if s.numeric {
        QuotedDiffers(t, s, rest, k, x);
      } else {
        BareDiffers(t, s, rest, k, x);
      }
    }
  }

  /** A sentinel that is looked for with its quotes. */
  lemma QuotedDiffers(t: Sub, s: Sub, rest: string, k: nat, x: nat)
    requires GoodSub(t) && GoodSub(s) && s.numeric && Closes(rest)
    requires DifferAt(s.core, t.core, x) && k < |Hidden(t)|
    ensures !StartsWith((Hidden(t) + rest)[k..], Pattern(s))
  {
    var text, pat, n := Hidden(t) + rest, Pattern(s), |t.core|;
    assert |Hidden(t)| == n + 6;
    PatternAt(s, x);
    MarkerAt(t, rest, k);
    if k == 0 {
      MarkerAt(t, rest, 3 + x);
      MismatchAt(text, k, pat, 3 + x);
    } else if k == n + 5 {
      if rest != "" {
        MismatchAt(text, k, pat, 1);
      }
    } else {
      MismatchAt(text, k, pat, 0);
    }
  }

  /** A sentinel that is looked for without its quotes. */
  lemma BareDiffers(t: Sub, s: Sub, rest: string, k: nat, x: nat)
    requires GoodSub(t) && GoodSub(s) && !s.numeric && Closes(rest)
    requires DifferAt(s.core, t.core, x) && k < |Hidden(t)|
    ensures !StartsWith((Hidden(t) + rest)[k..], Pattern(s))
  {
    var text, pat, n := Hidden(t) + rest, Pattern(s), |t.core|;
    assert |Hidden(t)| == n + 6;
    PatternAt(s, x);
    MarkerAt(t, rest, k);
    if k == 1 {
      MarkerAt(t, rest, 3 + x);
      MismatchAt(text, k, pat, 2 + x);
    } else if k == 2 {
      MarkerAt(t, rest, 3);
      MismatchAt(text, k, pat, 1);
    } else if k == n + 3 {
      MarkerAt(t, rest, n + 5);
      MismatchAt(text, k, pat, 2);
    } else if k == n + 4 {
      MarkerAt(t, rest, n + 5);
      MismatchAt(text, k, pat, 1);
    } else {
      MismatchAt(text, k, pat, 0);
    }
  }

  /** The characters of a pattern. */
  lemma PatternAt(s: Sub, x: nat)
    requires GoodSub(s) && x < |s.core| + 2
    ensures
      var pat, d := Pattern(s), if s.numeric then 3 else 2;
      && |pat| > d + x && pat[d + x] == (s.core + "@@")[x] && pat[1] == '@'
      && (if s.numeric then pat[0] == '\"' else pat[0] == '@' && IsWord(pat[2]))
  {
    assert IsWord(s.core[0]);
  }

  /** The characters of a hidden sentinel. */
  lemma MarkerAt(t: Sub, rest: string, k: nat)
    requires Words(t.core) && k < |Hidden(t)|
    ensures
      var c, n := (Hidden(t) + rest)[k], |t.core|;
      && (k == 0 || k == n + 5 ==> c == '\"')
      && (k == 1 || k == 2 || k == n + 3 || k == n + 4 ==> c == '@')
      && (3 <= k < n + 3 ==> IsWord(c) && c == t.core[k - 3])
      && (k >= 3 && k < n + 5 ==> c == (t.core + "@@")[k - 3])
  {
  }

  function Replacement(s: Sub): Change {
    Change(Pattern(s), Token(s))
  }

  // --- one replacement ---

  lemma CleanStays(s: Sub, a: string, rest: string)
    requires GoodSub(s) && Free(a) && (Closes(rest) || EndsClear(a))
    ensures TurnsWith(Replacement(s), a, a, rest)
  {
    CleanText(a, rest, s);
    ReplaceSkips(a, rest, Pattern(s), Token(s));
  }

  lemma PatternTurns(s: Sub, rest: string)
    requires Pattern(s) != ""
    ensures TurnsWith(Replacement(s), Pattern(s), Token(s), rest)
  {
    ReplaceHits(rest, Pattern(s), Token(s));
  }

  lemma OwnMarker(s: Sub, rest: string)
    requires GoodSub(s)
    ensures TurnsWith(Replacement(s), Hidden(s), Shown(s), rest)
  {
    if s.numeric {
      PatternTurns(s, rest);
    } else {
      var c := Replacement(s);
      QuoteStays(s, rest);
      PatternTurns(s, "\"" + rest);
      TurnsTogether(c, Marker(s), Token(s), "\"", "\"", rest);
      QuoteStays(s, Marker(s) + "\"" + rest);
      TurnsTogether(c, "\"", "\"", Marker(s) + "\"", Token(s) + "\"", rest);
      Associates("\"", Marker(s), "\"");
      Associates("\"", Token(s), "\"");
    }
  }

  lemma QuoteStays(s: Sub, rest: string)
    requires GoodSub(s) && !s.numeric
    ensures TurnsWith(Replacement(s), "\"", "\"", rest)
  {
    Mismatch("\"" + rest, Pattern(s), 0);
    assert ("\"" + rest)[0..] == "\"" + rest;
    ReplaceSkips("\"", rest, Pattern(s), Token(s));
  }

  // --- printed text is clean when the keys and strings are ---

  /** No key or string holds the beginning of a sentinel. */
  predicate Unmarked(j: Json) {
    TreeWithout(j, PREFIX)
  }

  lemma ReplacementSpares(s: Sub)
    requires GoodSub(s)
    ensures Spares(Replacement(s), PREFIX)
  {
    forall a: string | Without(a, PREFIX) && EndsInPunctuation(a)
      ensures AlwaysStays(Replacement(s), a)
    {
      forall rest: string
        ensures TurnsWith(Replacement(s), a, a, rest)
      {
        if a == "" {
          NothingTurns(Replacement(s), rest);
        } else {
          CleanStays(s, a, rest);
        }
      }
    }
    forall a: string | Without(a, PREFIX) && a != "" && ClearEnd(a, PREFIX)
      ensures Turns(Replacement(s), a, a)
    {
      forall rest: string | Closes(rest)
        ensures TurnsWith(Replacement(s), a, a, rest)
      {
        CleanStays(s, a, rest);
      }
    }
  }

  /** Nothing that an unmarked tree prints looks like a sentinel. */
  lemma UnmarkedIsPassive(s: Sub, j: Json)
    requires GoodSub(s) && Unmarked(j)
    ensures Passive(Replacement(s), j)
  {
    PrefixIsForeign();
    ReplacementSpares(s);
    TreeIsPassive(Replacement(s), PREFIX, j);
  }

  lemma PrefixIsForeign()
    ensures Foreign(PREFIX)
  {
  }
}
