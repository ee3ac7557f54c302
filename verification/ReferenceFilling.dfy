/** What JMeter does with the exported body: it replaces `${name}` by the value of `name`. */
module ReferenceFilling {
  import opened Wrappers
  import opened Text
  import opened Json
  import opened JsonText
  import opened JsonSubstitution
  import opened JsonSentinels

  /** Names and property calls: what stands between the braces. */
  predicate PlainInner(inner: string) {
    '$' !in inner && '{' !in inner && '}' !in inner && ' ' !in inner && '\"' !in inner && '\\' !in inner
  }

  function Filling(inner: string, value: string): Change {
    Change(Reference(inner), value)
  }

  /** Values by name. */
  type Values = map<string, string>

  /** What a substituted position shows once its reference is filled. */
  function Recorded(s: Sub, values: Values): string
    requires s.inner in values
  {
    if s.numeric then s.wrapper + values[s.inner] else "\"" + (s.wrapper + values[s.inner]) + "\""
  }

  lemma DollarComesFirst(inner: string, x: nat)
    requires PlainInner(inner) && x < |Reference(inner)|
    ensures Reference(inner)[x] == '$' <==> x == 0
    ensures Reference(inner)[x] != '\"' && Reference(inner)[x] != ' '
  {
    if 2 <= x < |inner| + 2 {
      assert Reference(inner)[x] == inner[x - 2] && inner[x - 2] in inner;
    }
  }

  /** No reference reaches from `a` into what follows it. */
  predicate Parted(a: string, rest: string) {
    || a == "" || a[|a| - 1] == '\"' || a[|a| - 1] == ' ' || '$' !in a
    || (rest != "" && rest[0] == '$')
  }

  /** Text without a reference takes no part in filling it when none reaches beyond its end. */
  lemma OthersStay(inner: string, value: string, a: string, rest: string)
    requires PlainInner(inner) && Without(a, Reference(inner)) && Parted(a, rest)
    ensures TurnsWith(Filling(inner, value), a, a, rest)
  {
    var ref := Reference(inner);
    forall k | 0 <= k < |a|
      ensures !StartsWith((a + rest)[k..], ref)
    {
      if k + |ref| <= |a| {
        assert (a + rest)[k..][..|ref|] == a[k..][..|ref|];
        assert !StartsWith(a[k..], ref);
      } else if '$' !in a {
        assert a[k] in a;
        Mismatch((a + rest)[k..], ref, 0);
      } else if a[|a| - 1] == '\"' || a[|a| - 1] == ' ' {
        DollarComesFirst(inner, |a| - 1 - k);
        Mismatch((a + rest)[k..], ref, |a| - 1 - k);
      } else {
        DollarComesFirst(inner, |a| - k);
        Mismatch((a + rest)[k..], ref, |a| - k);
      }
    }
    ReplaceSkips(a, rest, ref, value);
  }

  lemma FillingSpares(inner: string, value: string)
    requires PlainInner(inner)
    ensures Spares(Filling(inner, value), Reference(inner))
  {
    var c := Filling(inner, value);
    forall a: string | Without(a, Reference(inner)) && EndsInPunctuation(a)
      ensures AlwaysStays(c, a)
    {
      forall rest: string
        ensures TurnsWith(c, a, a, rest)
      {
        OthersStay(inner, value, a, rest);
      }
    }
    forall a: string | Without(a, Reference(inner)) && a != "" && ClearEnd(a, Reference(inner))
      ensures Turns(c, a, a)
    {
      forall rest: string | Closes(rest)
        ensures TurnsWith(c, a, a, rest)
      {
        OthersStay(inner, value, a, rest);
      }
    }
  }

  /** Another reference is passed over. */
  lemma OtherReferenceStays(c: Change, inner: string, other: string, rest: string)
    requires c.pat == Reference(inner) && PlainInner(inner) && PlainInner(other) && inner != other
    ensures TurnsWith(c, Reference(other), Reference(other), rest)
  {
    var x := InnersDiffer(inner, other);
    forall k | 0 <= k < |Reference(other)|
      ensures !StartsWith((Reference(other) + rest)[k..], c.pat)
    {
      if k == 0 {
        Mismatch((Reference(other) + rest)[k..], c.pat, 2 + x);
      } else {
        DollarComesFirst(other, k);
        Mismatch((Reference(other) + rest)[k..], c.pat, 0);
      }
    }
    ReplaceSkips(Reference(other), rest, c.pat, c.text);
  }

  lemma InnersDiffer(a: string, b: string) returns (x: nat)
    requires PlainInner(a) && PlainInner(b) && a != b
    ensures x < |a| + 1 && x < |b| + 1 && (a + "}")[x] != (b + "}")[x]
  {
    if y :| 0 <= y < |a| && y < |b| && a[y] != b[y] {
      x := y;
    } else if |a| < |b| {
      x := |a|;
      assert b[x] in b;
    } else {
      x := |b|;
      assert |a| == |b| ==> a == b;
      assert a[x] in a;
    }
  }

  // --- one name at a time ---

  /** A substituted position about which filling `name` is clear: neither the text around its reference
      nor what is recorded there holds a reference to `name`. */
  predicate Fillable(s: Sub, name: string, values: Values) {
    && PlainInner(s.inner) && s.inner in values
    && Without(s.wrapper, Reference(name)) && Without(Recorded(s, values), Reference(name))
    && Recorded(s, values) != "" && ClearEnd(Recorded(s, values), Reference(name))
  }

  /** What a position shows when the names in `done` are filled. */
  function Filled(s: Sub, done: seq<string>, values: Values): string
    requires s.inner in values
  {
    if s.inner in done then Recorded(s, values) else Shown(s)
  }

  lemma ReferenceTurns(inner: string, value: string, rest: string)
    ensures TurnsWith(Filling(inner, value), Reference(inner), value, rest)
  {
    ReplaceHits(rest, Reference(inner), value);
  }

  lemma QuoteStaysHere(inner: string, value: string, rest: string)
    requires PlainInner(inner)
    ensures TurnsWith(Filling(inner, value), "\"", "\"", rest)
  {
    WithoutFirst("\"", Reference(inner));
    OthersStay(inner, value, "\"", rest);
  }

  /** A shown position turns as its reference does. */
  lemma WrappedTurns(inner: string, value: string, s: Sub, to: string, rest: string)
    requires PlainInner(inner) && Without(s.wrapper, Reference(inner))
    requires forall r: string :: TurnsWith(Filling(inner, value), Reference(s.inner), to, r)
    ensures TurnsWith(Filling(inner, value), Shown(s),
                      if s.numeric then s.wrapper + to else "\"" + (s.wrapper + to) + "\"", rest)
  {
    var c, ref := Filling(inner, value), Reference(s.inner);
    if s.numeric {
      assert TurnsWith(c, ref, to, rest);
      OthersStay(inner, value, s.wrapper, ref + rest);
      TurnsTogether(c, s.wrapper, s.wrapper, ref, to, rest);
    } else {
      var tail := "\"" + rest;
      assert TurnsWith(c, ref, to, tail);
      OthersStay(inner, value, s.wrapper, ref + tail);
      TurnsTogether(c, s.wrapper, s.wrapper, ref, to, tail);
      QuoteStaysHere(inner, value, rest);
      TurnsTogether(c, s.wrapper + ref, s.wrapper + to, "\"", "\"", rest);
      QuoteStaysHere(inner, value, s.wrapper + ref + "\"" + rest);
      TurnsTogether(c, "\"", "\"", s.wrapper + ref + "\"", s.wrapper + to + "\"", rest);
      Associates("\"", s.wrapper + ref, "\"");
      Associates("\"", s.wrapper + to, "\"");
    }
  }

  lemma FilledTurns(x: Sub, done: seq<string>, name: string, values: Values)
    requires Fillable(x, name, values) && name in values && PlainInner(name)
    ensures Turns(Filling(name, values[name]), Filled(x, done, values), Filled(x, done + [name], values))
  {
    var c := Filling(name, values[name]);
    forall rest: string | Closes(rest)
      ensures TurnsWith(c, Filled(x, done, values), Filled(x, done + [name], values), rest)
    {
      if x.inner in done {
        OthersStay(name, values[name], Recorded(x, values), rest);
      } else if x.inner == name {
        forall r: string
          ensures TurnsWith(c, Reference(x.inner), values[name], r)
        {
          ReferenceTurns(name, values[name], r);
        }
        WrappedTurns(name, values[name], x, values[name], rest);
      } else {
        forall r: string
          ensures TurnsWith(c, Reference(x.inner), Reference(x.inner), r)
        {
          OtherReferenceStays(c, name, x.inner, r);
        }
        WrappedTurns(name, values[name], x, Reference(x.inner), rest);
      }
    }
  }

  // --- all names ---

  predicate HaveValues(w: map<seq<Seg>, Sub>, values: Values) {
    forall p | p in w :: w[p].inner in values
  }

  predicate AllFillable(w: map<seq<Seg>, Sub>, name: string, values: Values) {
    forall p | p in w :: Fillable(w[p], name, values)
  }

  function FilledTexts(w: map<seq<Seg>, Sub>, done: seq<string>, values: Values): Overlay
    requires HaveValues(w, values)
  {
    map p | p in w :: Filled(w[p], done, values)
  }

  lemma FillOne(body: Json, w: map<seq<Seg>, Sub>, done: seq<string>, name: string, values: Values)
    requires TreeWithout(body, Reference(name)) && AllFillable(w, name, values) && name in values && PlainInner(name)
    ensures ReplaceAll(PrintAt(body, [], FilledTexts(w, done, values)), Reference(name), values[name])
         == PrintAt(body, [], FilledTexts(w, done + [name], values))
  {
    var c := Filling(name, values[name]);
    var before, after := FilledTexts(w, done, values), FilledTexts(w, done + [name], values);
    forall p | p in before
      ensures Turns(c, before[p], after[p])
    {
      FilledTurns(w[p], done, name, values);
    }
    assert before.Keys == w.Keys == after.Keys;
    FillingSpares(name, values[name]);
    ReferenceIsForeign(name);
    TreeIsPassive(c, Reference(name), body);
    PrintTurns(c, body, [], before, after, "");
    var text, text' := PrintAt(body, [], before), PrintAt(body, [], after);
    assert text + "" == text && text' + "" == text';
  }

  lemma ReferenceIsForeign(name: string)
    requires PlainInner(name)
    ensures Foreign(Reference(name))
  {
    forall x | 0 <= x < |Reference(name)|
      ensures Reference(name)[x] != '\"' && Reference(name)[x] != '\\'
    {
      if 2 <= x < |name| + 2 {
        assert Reference(name)[x] == name[x - 2] && name[x - 2] in name;
      }
    }
  }

  /** The text after the first `n` names are filled. */
  function FillAll(text: string, names: seq<string>, values: Values, n: nat): string
    requires n <= |names| && forall i | 0 <= i < |names| :: names[i] in values
  {
    if n == 0 then text
    else ReplaceAll(FillAll(text, names, values, n - 1), Reference(names[n - 1]), values[names[n - 1]])
  }

  predicate Nameable(names: seq<string>, values: Values) {
    forall i | 0 <= i < |names| :: names[i] in values && PlainInner(names[i])
  }

  /** Neither the body nor the text around or behind a substituted position holds a reference to a
      filled name; references to other names may stand anywhere. */
  predicate AllClear(body: Json, w: map<seq<Seg>, Sub>, names: seq<string>, values: Values) {
    forall i | 0 <= i < |names| :: TreeWithout(body, Reference(names[i])) && AllFillable(w, names[i], values)
  }

  lemma {:induction false} FilledAfter(body: Json, w: map<seq<Seg>, Sub>, names: seq<string>, values: Values, n: nat)
    requires AllClear(body, w, names, values) && Nameable(names, values) && HaveValues(w, values) && n <= |names|
    ensures FillAll(PrintAt(body, [], FilledTexts(w, [], values)), names, values, n)
         == PrintAt(body, [], FilledTexts(w, names[..n], values))
    decreases n
  {
    if n == 0 {
      assert names[..0] == [];
    } else {
      FilledAfter(body, w, names, values, n - 1);
      FillOne(body, w, names[..n - 1], names[n - 1], values);
      assert names[..n - 1] + [names[n - 1]] == names[..n];
    }
  }

  /** The recorded text of every substituted position: wrapper and value, bare or quoted, are what
      the body prints there, so the value needs no escaping. */
  predicate RecordedAsIs(body: Json, w: map<seq<Seg>, Sub>, values: Values) {
    forall p | p in w ::
      w[p].inner in values
      && (Get(body, p).Some? ==> Recorded(w[p], values) == PrintAt(Get(body, p).value, p, map[]))
  }

  lemma FilledPrint(body: Json, w: map<seq<Seg>, Sub>, names: seq<string>, values: Values)
    requires WellFormed(body) && HaveValues(w, values) && RecordedAsIs(body, w, values)
    requires forall p | p in w :: w[p].inner in names
    ensures PrintAt(body, [], FilledTexts(w, names, values)) == Print(body)
  {
    var last := FilledTexts(w, names, values);
    forall p | [] + p in last && Get(body, p).Some?
      ensures last[[] + p] == PrintAt(Get(body, p).value, [] + p, map[])
    {
      assert [] + p == p;
    }
    OverlayOfOwnText(body, [], last);
  }

  /** Filling the references of the exported text with the recorded values, one name after the other,
      gives back the body as it was printed before the substitution, whatever other references the
      body holds. */
  lemma FillingGivesTheBodyBack(body: Json, subs: seq<Sub>, names: seq<string>, values: Values)
    requires WellFormed(body) && Nameable(names, values)
    requires AllClear(body, Winners(body, subs, |subs|), names, values)
    requires RecordedAsIs(body, Winners(body, subs, |subs|), values)
    requires forall p | p in Winners(body, subs, |subs|) :: Winners(body, subs, |subs|)[p].inner in names
    ensures FillAll(Substituted(body, subs), names, values, |names|) == Print(body)
  {
    var w := Winners(body, subs, |subs|);
    NothingFilled(w, values);
    FilledAfter(body, w, names, values, |names|);
    assert names[..|names|] == names;
    FilledPrint(body, w, names, values);
  }

  lemma NothingFilled(w: map<seq<Seg>, Sub>, values: Values)
    requires HaveValues(w, values)
    ensures FilledTexts(w, [], values) == map p | p in w :: Shown(w[p])
  {
  }
}
