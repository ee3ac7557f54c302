/** JMeter variable names (backend/app/utils/naming.py). */
module Naming {
  import opened Text

  // --- sanitising ---

  function WordsOnly(s: string): (r: string)
    ensures |r| == |s| && forall i | 0 <= i < |r| :: IsWord(r[i])
  {
    if s == "" then "" else [if IsWord(s[0]) then s[0] else '_'] + WordsOnly(s[1..])
  }

  /** `re.sub("_+", "_", s)`. */
  function Collapse(s: string): string {
    if |s| < 2 then s
    else if s[0] == '_' && s[1] == '_' then Collapse(s[1..])
    else [s[0]] + Collapse(s[1..])
  }

  function StripLeft(s: string, p: char -> bool): string {
    if s != "" && p(s[0]) then StripLeft(s[1..], p) else s
  }

  function StripRight(s: string, p: char -> bool): string {
    if s != "" && p(s[|s| - 1]) then StripRight(s[..|s| - 1], p) else s
  }

  function Strip(s: string, p: char -> bool): string {
    StripRight(StripLeft(s, p), p)
  }

  predicate IsUnderscore(c: char) {
    c == '_'
  }

  function Core(raw: string): string {
    Strip(Collapse(WordsOnly(Strip(raw, IsSpace))), IsUnderscore)
  }

  const FALLBACK := "var"

  function Sanitized(raw: string): string {
    if raw == "" || Core(raw) == "" then FALLBACK
    else if IsDigit(Core(raw)[0]) then FALLBACK + "_" + Core(raw)
    else Core(raw)
  }

  predicate DoubleAt(s: string, i: nat) {
    i + 1 < |s| && s[i] == '_' && s[i + 1] == '_'
  }

  predicate NoDouble(s: string) {
    forall i | 0 <= i < |s| :: !DoubleAt(s, i)
  }

  lemma NoDoubleFrom(c: char, s: string)
    requires NoDouble(s) && (c != '_' || s == "" || s[0] != '_')
    ensures NoDouble([c] + s)
  {
    forall i | 0 <= i < |[c] + s|
      ensures !DoubleAt([c] + s, i)
    {
      assert i > 0 ==> !DoubleAt(s, i - 1);
    }
  }

  lemma NoDoubleInside(s: string, k: nat, n: nat)
    requires NoDouble(s) && k + n <= |s|
    ensures NoDouble(s[k..][..n])
  {
    forall i | 0 <= i < n
      ensures !DoubleAt(s[k..][..n], i)
    {
      assert !DoubleAt(s, k + i);
    }
  }

  lemma {:induction false} CollapseKeepsWords(s: string)
    requires Words(s)
    ensures Words(Collapse(s)) && (s != "" ==> Collapse(s) != "" && Collapse(s)[0] == s[0])
    ensures NoDouble(Collapse(s))
  {
    if |s| >= 2 {
      CollapseKeepsWords(s[1..]);
      if s[0] != '_' || s[1] != '_' {
        NoDoubleFrom(s[0], Collapse(s[1..]));
      }
    }
  }

  /** A word with no double, leading or trailing underscore. */
  predicate Tidy(s: string) {
    && Words(s)
    && NoDouble(s)
    && (s != "" ==> s[0] != '_' && s[|s| - 1] != '_')
  }

  lemma {:induction false} StripLeftIs(s: string, p: char -> bool) returns (k: nat)
    ensures k <= |s| && StripLeft(s, p) == s[k..] && (k < |s| ==> !p(s[k]))
  {
    if s != "" && p(s[0]) {
      var k' := StripLeftIs(s[1..], p);
      k := k' + 1;
    } else {
      k := 0;
    }
  }

  lemma {:induction false} StripRightIs(s: string, p: char -> bool) returns (n: nat)
    ensures n <= |s| && StripRight(s, p) == s[..n] && (n > 0 ==> !p(s[n - 1]))
  {
    if s != "" && p(s[|s| - 1]) {
      n := StripRightIs(s[..|s| - 1], p);
      assert s[..|s| - 1][..n] == s[..n];
    } else {
      n := |s|;
      assert s[..n] == s;
    }
  }

  lemma CoreIsTidy(raw: string)
    ensures Tidy(Core(raw))
  {
    var words := WordsOnly(Strip(raw, IsSpace));
    var c := Collapse(words);
    CollapseKeepsWords(words);
    var k := StripLeftIs(c, IsUnderscore);
    var n := StripRightIs(c[k..], IsUnderscore);
    var core := c[k..][..n];
    NoDoubleInside(c, k, n);
    assert Words(core) by {
      assert forall i | 0 <= i < n :: core[i] == c[k..][i];
    }
    assert n > 0 ==> core[0] == c[k];
  }

  lemma PrefixedIsTidy(core: string)
    requires Tidy(core) && core != ""
    ensures Tidy(FALLBACK + "_" + core)
  {
    var s := FALLBACK + "_" + core;
    forall i | 0 <= i < |s|
      ensures !DoubleAt(s, i)
    {
      assert i >= 4 ==> !DoubleAt(core, i - 4);
    }
  }

  /** Whatever the raw text, the result is a valid identifier. */
  lemma SanitizedIsIdent(raw: string)
    ensures IsIdent(Sanitized(raw)) && Tidy(Sanitized(raw))
  {
    CoreIsTidy(raw);
    var core := Core(raw);
    if core != "" {
      assert IsWord(core[0]);
      PrefixedIsTidy(core);
    }
  }

  lemma {:induction false} WordsStay(s: string)
    requires Words(s)
    ensures WordsOnly(s) == s
  {
    if s != "" {
      WordsStay(s[1..]);
      assert s == [s[0]] + s[1..];
    }
  }

  lemma {:induction false} CollapsedStays(s: string)
    requires NoDouble(s)
    ensures Collapse(s) == s
  {
    if |s| >= 2 {
      assert !DoubleAt(s, 0);
      NoDoubleInside(s, 1, |s| - 1);
      assert s[1..][..|s| - 1] == s[1..];
      CollapsedStays(s[1..]);
      assert s == [s[0]] + s[1..];
    }
  }

  /** Sanitising twice is sanitising once. */
  lemma SanitizedIsStable(raw: string)
    ensures Sanitized(Sanitized(raw)) == Sanitized(raw)
  {
    var s := Sanitized(raw);
    SanitizedIsIdent(raw);
    assert IsWord(s[0]) && IsWord(s[|s| - 1]);
    assert Strip(s, IsSpace) == s;
    WordsStay(s);
    CollapsedStays(s);
    assert Strip(s, IsUnderscore) == s;
    assert Core(s) == s && !IsDigit(s[0]);
  }

  // --- unique names ---

  function Suffixed(name: string, i: nat): string {
    name + "_" + Decimal(i)
  }

  lemma SuffixesDiffer(name: string, i: nat, k: nat)
    requires Suffixed(name, i) == Suffixed(name, k)
    ensures i == k
  {
    assert Suffixed(name, i)[|name| + 1..] == Decimal(i) && Suffixed(name, k)[|name| + 1..] == Decimal(k);
    DecimalIsInjective(i, k);
  }

  /** The suffixed names already tried. */
  function Tried(name: string, i: nat): set<string> {
    set k | 2 <= k < i :: Suffixed(name, k)
  }

  lemma NextIsUntried(name: string, i: nat)
    ensures Suffixed(name, i) !in Tried(name, i)
  {
    if Suffixed(name, i) in Tried(name, i) {
      var k :| 2 <= k < i && Suffixed(name, k) == Suffixed(name, i);
      SuffixesDiffer(name, i, k);
    }
  }

  lemma TriedGrows(name: string, i: nat)
    requires i >= 2
    ensures Tried(name, i + 1) == Tried(name, i) + {Suffixed(name, i)}
  {
    forall s | s in Tried(name, i) + {Suffixed(name, i)}
      ensures s in Tried(name, i + 1)
    {
      if s in Tried(name, i) {
        var k :| 2 <= k < i && Suffixed(name, k) == s;
        assert 2 <= k < i + 1 && Suffixed(name, k) == s;
      } else {
        assert 2 <= i < i + 1 && Suffixed(name, i) == s;
      }
    }
  }

  lemma FewerLeft(name: string, taken: set<string>, i: nat)
    requires i >= 2 && Suffixed(name, i) in taken
    ensures |taken - Tried(name, i + 1)| < |taken - Tried(name, i)|
  {
    NextIsUntried(name, i);
    TriedGrows(name, i);
    assert taken - Tried(name, i + 1) == taken - Tried(name, i) - {Suffixed(name, i)};
  }

  /** The first free suffix from `i` on; every taken one uses up a taken name. */
  function FreeSuffix(name: string, taken: set<string>, i: nat): (r: nat)
    requires i >= 2
    ensures r >= i && Suffixed(name, r) !in taken && forall k | i <= k < r :: Suffixed(name, k) in taken
    decreases |taken - Tried(name, i)|
  {
    if Suffixed(name, i) in taken then
      FewerLeft(name, taken, i);
      FreeSuffix(name, taken, i + 1)
    else i
  }

  function Deduped(name: string, taken: set<string>): (r: string)
    ensures r !in taken
  {
    if name !in taken then name else Suffixed(name, FreeSuffix(name, taken, 2))
  }

  lemma DedupedIsIdent(name: string, taken: set<string>)
    requires IsIdent(name)
    ensures IsIdent(Deduped(name, taken))
  {
    if name in taken {
      var digits := Decimal(FreeSuffix(name, taken, 2));
      assert forall k | 0 <= k < |digits| :: IsDigit(digits[k]);
    }
  }

  /** The suffix search, which adds the name it finds. */
  method DedupeVariableName(name: string, taken: set<string>) returns (unique: string, taken': set<string>)
    ensures unique == Deduped(name, taken) && unique !in taken && taken' == taken + {unique}
  {
    if name !in taken {
      return name, taken + {name};
    }
    var i := 2;
    while Suffixed(name, i) in taken
      invariant i >= 2 && FreeSuffix(name, taken, i) == FreeSuffix(name, taken, 2)
      decreases |taken - Tried(name, i)|
    {
      FewerLeft(name, taken, i);
      i := i + 1;
    }
    unique := Suffixed(name, i);
    taken' := taken + {unique};
  }
}
