/** The whole substitution: marking, printing, replacing and the matching parsed body
    (backend/app/services/jmx_builder.py:719-753). */
module JsonSentinels {
  import opened Wrappers
  import opened Text
  import opened Json
  import opened JsonPath
  import opened JsonLeaves
  import opened JsonSetter
  import opened JsonText
  import opened JsonSubstitution

  // --- marking ---

  /** The body after the first `n` assignments of sentinels. */
  function Marked(body: Json, subs: seq<Sub>, n: nat): Json
    requires n <= |subs|
  {
    if n == 0 then body else AssignedAt(Marked(body, subs, n - 1), subs[n - 1].pos, Str(Marker(subs[n - 1]))).0
  }

  predicate Lands(body: Json, subs: seq<Sub>, k: nat)
    requires k < |subs|
  {
    AssignedAt(Marked(body, subs, k), subs[k].pos, Str(Marker(subs[k]))).1
  }

  /** The substitutions that found something to assign to, in order. */
  function Landed(body: Json, subs: seq<Sub>, n: nat): seq<Sub>
    requires n <= |subs|
  {
    if n == 0 then []
    else Landed(body, subs, n - 1) + (if Lands(body, subs, n - 1) then [subs[n - 1]] else [])
  }

  /** At each marked position, the last substitution made there. */
  function Winners(body: Json, subs: seq<Sub>, n: nat): map<seq<Seg>, Sub>
    requires n <= |subs|
  {
    if n == 0 then map[]
    else if Lands(body, subs, n - 1) then Winners(body, subs, n - 1)[subs[n - 1].pos := subs[n - 1]]
    else Winners(body, subs, n - 1)
  }

  /** What the text shows at each marked position when the substitutions in `done` are through. */
  function Texts(w: map<seq<Seg>, Sub>, done: seq<Sub>): Overlay {
    map p | p in w :: if w[p] in done then Shown(w[p]) else Hidden(w[p])
  }

  /** The body as text, with `token` (bare at numeric leaves, quoted elsewhere) at every position
      that was assigned, and everything else as `json.dumps` writes it. */
  function Substituted(body: Json, subs: seq<Sub>): string {
    var w := Winners(body, subs, |subs|);
    PrintAt(body, [], map p | p in w :: Shown(w[p]))
  }

  lemma {:induction false} MarkedIsWellFormed(body: Json, subs: seq<Sub>, n: nat)
    requires WellFormed(body) && n <= |subs|
    ensures WellFormed(Marked(body, subs, n))
  {
    if n > 0 {
      MarkedIsWellFormed(body, subs, n - 1);
      PutIsWellFormed(Marked(body, subs, n - 1), subs[n - 1].pos, Str(Marker(subs[n - 1])));
    }
  }

  predicate Literal(s: string) {
    forall i | 0 <= i < |s| :: !NeedsEscape(s[i])
  }

  lemma {:induction false} LiteralIsNotEscaped(s: string)
    requires Literal(s)
    ensures EscapeAll(s) == s
  {
    if s != "" {
      LiteralIsNotEscaped(s[1..]);
      assert EscapeChar(s[0]) == [s[0]];
      assert s == [s[0]] + s[1..];
    }
  }

  /** The sentinel needs no escaping. */
  predicate PrintsHidden(s: Sub) {
    ScalarJson(Str(Marker(s))) == Hidden(s)
  }

  lemma MarkerPrintsHidden(s: Sub)
    requires GoodSub(s)
    ensures PrintsHidden(s)
  {
    assert Literal(s.core) by {
      assert forall i | 0 <= i < |s.core| :: IsWord(s.core[i]);
    }
    LiteralIsNotEscaped(Marker(s));
  }

  predicate AllGood(subs: seq<Sub>) {
    forall i | 0 <= i < |subs| :: GoodSub(subs[i])
  }

  lemma OverTexts(older: map<seq<Seg>, Sub>, pos: seq<Seg>, s: Sub, w: Overlay)
    ensures Texts(older, []) + Over(pos, Hidden(s), w) == Texts(older[pos := s], []) + w
  {
  }

  /** Printing `after` is printing `before` with one more sentinel shown, whatever else is
      overlaid. */
  ghost predicate ShowsOneMore(before: Json, after: Json, s: Sub) {
    forall more: Overlay :: PrintsOver(before, after, s, more)
  }

  predicate PrintsOver(before: Json, after: Json, s: Sub, more: Overlay) {
    PrintAt(after, [], more) == PrintAt(before, [], Over(s.pos, Hidden(s), more))
  }

  lemma PutShowsOneMore(before: Json, s: Sub)
    requires WellFormed(before) && PrintsHidden(s) && Get(before, s.pos).Some?
    ensures ShowsOneMore(before, Put(before, s.pos, Str(Marker(s))), s)
  {
    var after := Put(before, s.pos, Str(Marker(s)));
    forall more: Overlay
      ensures PrintsOver(before, after, s, more)
    {
      PrintAfterPut(before, [], s.pos, Str(Marker(s)), more);
      assert [] + s.pos == s.pos;
    }
  }

  /** Printing `marked` is printing `body` with the sentinels of `w` shown. */
  predicate PrintsAs(marked: Json, body: Json, w: map<seq<Seg>, Sub>, more: Overlay) {
    PrintAt(marked, [], more) == PrintAt(body, [], Texts(w, []) + more)
  }

  ghost predicate AlwaysPrintsAs(marked: Json, body: Json, w: map<seq<Seg>, Sub>) {
    forall more: Overlay :: PrintsAs(marked, body, w, more)
  }

  lemma NothingMarked(body: Json)
    ensures AlwaysPrintsAs(body, body, map[])
  {
    forall more: Overlay
      ensures PrintsAs(body, body, map[], more)
    {
      assert Texts(map[], []) + more == more;
    }
  }

  lemma OneMoreMark(before: Json, after: Json, body: Json, older: map<seq<Seg>, Sub>, s: Sub)
    requires ShowsOneMore(before, after, s) && AlwaysPrintsAs(before, body, older)
    ensures AlwaysPrintsAs(after, body, older[s.pos := s])
  {
    var newer := older[s.pos := s];
    forall more: Overlay
      ensures PrintsAs(after, body, newer, more)
    {
      assert PrintsOver(before, after, s, more);
      assert PrintsAs(before, body, older, Over(s.pos, Hidden(s), more));
      OverTexts(older, s.pos, s, more);
    }
  }

  /** Each marking that lands shows one more sentinel. */
  ghost predicate StepShows(body: Json, subs: seq<Sub>, k: nat)
    requires k < |subs|
  {
    if Lands(body, subs, k) then ShowsOneMore(Marked(body, subs, k), Marked(body, subs, k + 1), subs[k])
    else Marked(body, subs, k + 1) == Marked(body, subs, k)
  }

  lemma MarkingShows(body: Json, subs: seq<Sub>, k: nat)
    requires WellFormed(body) && k < |subs| && PrintsHidden(subs[k])
    ensures StepShows(body, subs, k)
  {
    MarkedIsWellFormed(body, subs, k);
    if Lands(body, subs, k) {
      PutShowsOneMore(Marked(body, subs, k), subs[k]);
    }
  }

  lemma MarkOnce(body: Json, subs: seq<Sub>, k: nat)
    requires k < |subs| && StepShows(body, subs, k)
    requires AlwaysPrintsAs(Marked(body, subs, k), body, Winners(body, subs, k))
    ensures AlwaysPrintsAs(Marked(body, subs, k + 1), body, Winners(body, subs, k + 1))
  {
    if Lands(body, subs, k) {
      OneMoreMark(Marked(body, subs, k), Marked(body, subs, k + 1), body, Winners(body, subs, k), subs[k]);
    }
  }

  /** The marked body prints as the original one with the sentinels shown. */
  lemma {:induction false} MarkedPrints(body: Json, subs: seq<Sub>, n: nat)
    requires n <= |subs| && forall k | 0 <= k < |subs| :: StepShows(body, subs, k)
    ensures AlwaysPrintsAs(Marked(body, subs, n), body, Winners(body, subs, n))
    decreases n
  {
    if n == 0 {
      NothingMarked(body);
    } else {
      MarkedPrints(body, subs, n - 1);
      MarkOnce(body, subs, n - 1);
    }
  }

  lemma AllMarkedPrints(body: Json, subs: seq<Sub>)
    requires WellFormed(body) && AllGood(subs)
    ensures AlwaysPrintsAs(Marked(body, subs, |subs|), body, Winners(body, subs, |subs|))
  {
    forall k | 0 <= k < |subs|
      ensures StepShows(body, subs, k)
    {
      MarkerPrintsHidden(subs[k]);
      MarkingShows(body, subs, k);
    }
    MarkedPrints(body, subs, |subs|);
  }

  // --- replacing one sentinel after the other ---

  predicate DistinctCores(subs: seq<Sub>) {
    forall i, k | 0 <= i < |subs| && 0 <= k < |subs| && subs[i].core == subs[k].core :: i == k
  }

  lemma SlotTurns(s: Sub, x: Sub, done: seq<Sub>)
    requires GoodSub(s) && GoodSub(x) && (x.core == s.core ==> x == s)
    ensures
      var before := if x in done then Shown(x) else Hidden(x);
      var after := if x in done + [s] then Shown(x) else Hidden(x);
      Turns(Replacement(s), before, after)
  {
    forall rest: string | Closes(rest)
      ensures TurnsWith(Replacement(s), if x in done then Shown(x) else Hidden(x),
                        if x in done + [s] then Shown(x) else Hidden(x), rest)
    {
      if x in done {
        ShownIsFree(x);
        CleanStays(s, Shown(x), rest);
      } else if x == s {
        OwnMarker(s, rest);
      } else {
        OtherMarker(x, s, rest);
        ReplaceSkips(Hidden(x), rest, Pattern(s), Token(s));
      }
    }
  }

  lemma ShownIsFree(x: Sub)
    requires GoodSub(x)
    ensures Free(Shown(x))
  {
    WithoutFirst("\"", PREFIX);
    WithoutTogether("\"", Token(x), PREFIX);
    WithoutTogether("\"" + Token(x), "\"", PREFIX);
  }

  predicate CoresTell(w: map<seq<Seg>, Sub>, s: Sub) {
    forall p | p in w :: GoodSub(w[p]) && (w[p].core == s.core ==> w[p] == s)
  }

  /** Replacing one sentinel in the text brings exactly its own positions up to date. */
  lemma ReplaceOne(body: Json, w: map<seq<Seg>, Sub>, done: seq<Sub>, s: Sub)
    requires GoodSub(s) && Unmarked(body) && CoresTell(w, s)
    ensures ReplaceAll(PrintAt(body, [], Texts(w, done)), Pattern(s), Token(s))
         == PrintAt(body, [], Texts(w, done + [s]))
  {
    var text, text' := PrintAt(body, [], Texts(w, done)), PrintAt(body, [], Texts(w, done + [s]));
    forall p | p in Texts(w, done)
      ensures Turns(Replacement(s), Texts(w, done)[p], Texts(w, done + [s])[p])
    {
      SlotTurns(s, w[p], done);
    }
    assert Texts(w, done).Keys == w.Keys == Texts(w, done + [s]).Keys;
    UnmarkedIsPassive(s, body);
    PrintTurns(Replacement(s), body, [], Texts(w, done), Texts(w, done + [s]), "");
    assert text + "" == text && text' + "" == text';
  }

  lemma {:induction false} WinnersAreLanded(body: Json, subs: seq<Sub>, n: nat)
    requires n <= |subs|
    ensures forall p | p in Winners(body, subs, n) :: Winners(body, subs, n)[p] in Landed(body, subs, n)
    ensures forall s | s in Landed(body, subs, n) :: s in subs
  {
    if n > 0 {
      WinnersAreLanded(body, subs, n - 1);
    }
  }

  lemma CoresTellAll(body: Json, subs: seq<Sub>, s: Sub)
    requires AllGood(subs) && DistinctCores(subs) && s in subs
    ensures CoresTell(Winners(body, subs, |subs|), s)
  {
    WinnersAreLanded(body, subs, |subs|);
    var k :| 0 <= k < |subs| && subs[k] == s;
    forall x | x in subs && x.core == s.core
      ensures x == s
    {
      var i :| 0 <= i < |subs| && subs[i] == x;
      assert i == k;
    }
  }

  /** The text when the first `i` landed sentinels are replaced. */
  predicate Replaced(body: Json, subs: seq<Sub>, i: nat, text: string) {
    && i <= |Landed(body, subs, |subs|)|
    && text == PrintAt(body, [], Texts(Winners(body, subs, |subs|), Landed(body, subs, |subs|)[..i]))
  }

  lemma NothingMore(w: map<seq<Seg>, Sub>)
    ensures Texts(w, []) + map[] == Texts(w, [])
  {
  }

  lemma ReplacedAtStart(body: Json, subs: seq<Sub>)
    requires WellFormed(body) && AllGood(subs)
    ensures Replaced(body, subs, 0, Print(Marked(body, subs, |subs|)))
  {
    var marked, w := Marked(body, subs, |subs|), Winners(body, subs, |subs|);
    AllMarkedPrints(body, subs);
    assert PrintsAs(marked, body, w, map[]);
    NothingMore(w);
    assert Landed(body, subs, |subs|)[..0] == [];
  }

  lemma ReplaceNextIn(body: Json, w: map<seq<Seg>, Sub>, landed: seq<Sub>, i: nat, text: string)
    requires i < |landed| && GoodSub(landed[i]) && Unmarked(body) && CoresTell(w, landed[i])
    requires text == PrintAt(body, [], Texts(w, landed[..i]))
    ensures ReplaceAll(text, Pattern(landed[i]), Token(landed[i])) == PrintAt(body, [], Texts(w, landed[..i + 1]))
  {
    ReplaceOne(body, w, landed[..i], landed[i]);
    assert landed[..i] + [landed[i]] == landed[..i + 1];
  }

  lemma ReplacedNext(body: Json, subs: seq<Sub>, i: nat, text: string)
    requires Unmarked(body) && AllGood(subs) && DistinctCores(subs)
    requires Replaced(body, subs, i, text) && i < |Landed(body, subs, |subs|)|
    ensures
      var s := Landed(body, subs, |subs|)[i];
      Pattern(s) != "" && Replaced(body, subs, i + 1, ReplaceAll(text, Pattern(s), Token(s)))
  {
    LandedIsGood(body, subs, i);
    CoresTellAll(body, subs, Landed(body, subs, |subs|)[i]);
    ReplaceNextIn(body, Winners(body, subs, |subs|), Landed(body, subs, |subs|), i, text);
  }

  lemma LandedIsGood(body: Json, subs: seq<Sub>, i: nat)
    requires AllGood(subs) && i < |Landed(body, subs, |subs|)|
    ensures Landed(body, subs, |subs|)[i] in subs && GoodSub(Landed(body, subs, |subs|)[i])
  {
    WinnersAreLanded(body, subs, |subs|);
  }

  lemma AllShown(w: map<seq<Seg>, Sub>, landed: seq<Sub>)
    requires forall p | p in w :: w[p] in landed
    ensures Texts(w, landed) == map p | p in w :: Shown(w[p])
  {
  }

  lemma ReplacedAtEnd(body: Json, subs: seq<Sub>, text: string)
    requires Replaced(body, subs, |Landed(body, subs, |subs|)|, text)
    ensures text == Substituted(body, subs)
  {
    var w, landed := Winners(body, subs, |subs|), Landed(body, subs, |subs|);
    WinnersAreLanded(body, subs, |subs|);
    assert landed[..|landed|] == landed;
    AllShown(w, landed);
  }

  predicate Parsed(subs: seq<Sub>) {
    forall i | 0 <= i < |subs| :: subs[i].pos == ParsePath(subs[i].path)
  }

  /** Paths of the consumers among the first `n` substitutions that were made. */
  function DonePaths(body: Json, subs: seq<Sub>, n: nat): set<string>
    requires n <= |subs|
  {
    if n == 0 then {}
    else DonePaths(body, subs, n - 1) + (if Lands(body, subs, n - 1) then {subs[n - 1].path} else {})
  }

  predicate MarkState(body: Json, subs: seq<Sub>, counted: nat, i: nat, marked: Json, marks: seq<Sub>,
                      done: set<string>) {
    && i <= |subs| && counted <= |subs|
    && marked == Marked(body, subs, i) && marks == Landed(body, subs, i)
    && done == DonePaths(body, subs, if i < counted then i else counted)
  }

  lemma MarkStateNext(body: Json, subs: seq<Sub>, counted: nat, i: nat, marked: Json, marks: seq<Sub>,
                      done: set<string>, next: Json, landed: bool)
    requires MarkState(body, subs, counted, i, marked, marks, done) && i < |subs|
    requires (next, landed) == AssignedAt(marked, subs[i].pos, Str(Marker(subs[i])))
    ensures MarkState(body, subs, counted, i + 1, next, if landed then marks + [subs[i]] else marks,
                      if landed && i < counted then done + {subs[i].path} else done)
  {
    assert landed == Lands(body, subs, i) && next == Marked(body, subs, i + 1);
  }

  /** The marking loop; the first `counted` substitutions are those of consumers. */
  method MarkAll(body: Json, subs: seq<Sub>, counted: nat) returns (marked: Json, marks: seq<Sub>, done: set<string>)
    requires Parsed(subs) && counted <= |subs|
    ensures marked == Marked(body, subs, |subs|) && marks == Landed(body, subs, |subs|)
    ensures done == DonePaths(body, subs, counted)
  {
    marked, marks, done := body, [], {};
    for i := 0 to |subs|
      invariant MarkState(body, subs, counted, i, marked, marks, done)
    {
      var next, landed := SetJsonPath(marked, subs[i].path, Str(Marker(subs[i])));
      MarkStateNext(body, subs, counted, i, marked, marks, done, next, landed);
      marked := next;
      if landed {
        marks := marks + [subs[i]];
        if i < counted {
          done := done + {subs[i].path};
        }
      }
    }
  }

  /** Printing, then the replacing loop. */
  method ReplaceMarks(ghost body: Json, ghost subs: seq<Sub>, marked: Json, marks: seq<Sub>) returns (text: string)
    requires WellFormed(body) && Unmarked(body) && AllGood(subs) && DistinctCores(subs)
    requires marked == Marked(body, subs, |subs|) && marks == Landed(body, subs, |subs|)
    ensures text == Substituted(body, subs)
  {
    text := Print(marked);
    ReplacedAtStart(body, subs);
    for i := 0 to |marks|
      invariant Replaced(body, subs, i, text)
    {
      ReplacedNext(body, subs, i, text);
      text := ReplaceAll(text, Pattern(marks[i]), Token(marks[i]));
    }
    ReplacedAtEnd(body, subs, text);
  }

  // --- the substitutions of a request ---

  predicate GoodConsumer(c: Consumer) {
    Words(c.variable) && Free(c.wrapper)
  }

  predicate GoodRequests(consumers: seq<Consumer>, secrets: seq<Secret>) {
    && (forall i | 0 <= i < |consumers| :: GoodConsumer(consumers[i]))
    && (forall i | 0 <= i < |secrets| :: Words(secrets[i].property))
  }

  lemma NumberedCore(kind: string, i: nat, a: string, k: nat, b: string)
    requires kind + (Decimal(i) + ("_" + a)) == kind + (Decimal(k) + ("_" + b))
    ensures i == k
  {
    StartsWithOwn(kind, Decimal(i) + ("_" + a));
    StartsWithOwn(kind, Decimal(k) + ("_" + b));
    SpanIs(Decimal(i), "_" + a, IsDigit);
    SpanIs(Decimal(k), "_" + b, IsDigit);
    StartsWithOwn(Decimal(i), "_" + a);
    StartsWithOwn(Decimal(k), "_" + b);
    DecimalIsInjective(i, k);
  }

  lemma KindsOfCore(i: nat, c: Consumer, k: nat, s: Secret)
    ensures ConsumerSub(i, c).core != SecretSub(k, s).core
  {
    assert ConsumerSub(i, c).core[6] == 'N' && SecretSub(k, s).core[6] == 'C';
  }

  lemma WordCore(kind: string, i: nat, name: string)
    requires Words(kind) && Words(name)
    ensures Words(kind + (Decimal(i) + ("_" + name)))
  {
    assert forall x | 0 <= x < |Decimal(i)| :: IsDigit(Decimal(i)[x]);
  }

  lemma ConsumerIsGood(i: nat, c: Consumer)
    requires GoodConsumer(c)
    ensures GoodSub(ConsumerSub(i, c))
  {
    WordCore("B11_SENTINEL_", i, c.variable);
    assert ConsumerSub(i, c).core[..4] == "B11_";
    assert '@' !in Reference(c.variable) by {
      assert forall x | 0 <= x < |c.variable| :: IsWord(c.variable[x]);
    }
    WithoutFirst(Reference(c.variable), PREFIX);
    WithoutTogether(c.wrapper, Reference(c.variable), PREFIX);
  }

  lemma SecretIsGood(i: nat, s: Secret)
    requires Words(s.property)
    ensures GoodSub(SecretSub(i, s))
  {
    WordCore("B11_SECRET_", i, s.property);
    assert SecretSub(i, s).core[..4] == "B11_";
    assert '@' !in Token(SecretSub(i, s)) by {
      assert forall x | 0 <= x < |s.property| :: IsWord(s.property[x]);
    }
    WithoutFirst(Token(SecretSub(i, s)), PREFIX);
  }

  lemma CoresTellPlaces(consumers: seq<Consumer>, secrets: seq<Secret>, i: nat, k: nat)
    requires i < |consumers| + |secrets| && k < |consumers| + |secrets|
    requires SubAt(consumers, secrets, i).core == SubAt(consumers, secrets, k).core
    ensures i == k
  {
    var n := |consumers|;
    if i < n && k < n {
      NumberedCore("B11_SENTINEL_", i, consumers[i].variable, k, consumers[k].variable);
    } else if i >= n && k >= n {
      NumberedCore("B11_SECRET_", i - n, secrets[i - n].property, k - n, secrets[k - n].property);
    } else if i < n {
      KindsOfCore(i, consumers[i], k - n, secrets[k - n]);
    } else {
      KindsOfCore(k, consumers[k], i - n, secrets[i - n]);
    }
  }

  lemma SubIsGood(consumers: seq<Consumer>, secrets: seq<Secret>, i: nat)
    requires GoodRequests(consumers, secrets) && i < |consumers| + |secrets|
    ensures GoodSub(SubAt(consumers, secrets, i))
  {
    if i < |consumers| {
      ConsumerIsGood(i, consumers[i]);
    } else {
      SecretIsGood(i - |consumers|, secrets[i - |consumers|]);
    }
  }

  /** The sentinels of one request are all different, whatever the variables are called. */
  lemma RequestsAreGood(consumers: seq<Consumer>, secrets: seq<Secret>)
    requires GoodRequests(consumers, secrets)
    ensures
      var subs := Subs(consumers, secrets);
      AllGood(subs) && DistinctCores(subs)
  {
    var subs := Subs(consumers, secrets);
    forall i | 0 <= i < |subs|
      ensures GoodSub(subs[i])
    {
      SubIsGood(consumers, secrets, i);
    }
    forall i, k | 0 <= i < |subs| && 0 <= k < |subs| && subs[i].core == subs[k].core
      ensures i == k
    {
      CoresTellPlaces(consumers, secrets, i, k);
    }
  }

  lemma RequestsAreParsed(consumers: seq<Consumer>, secrets: seq<Secret>)
    ensures Parsed(Subs(consumers, secrets))
  {
  }

  // --- the parsed body after the substitution ---

  /** The marked body after the first `m` assignments of tokens. */
  function Tokened(body: Json, subs: seq<Sub>, m: nat): Json
    requires m <= |subs|
  {
    if m == 0 then Marked(body, subs, |subs|)
    else AssignedAt(Tokened(body, subs, m - 1), subs[m - 1].pos, Str(Token(subs[m - 1]))).0
  }

  /** Substitutions are made at scalars, as the indexer lists them. */
  predicate AtLeaves(body: Json, subs: seq<Sub>) {
    forall i | 0 <= i < |subs| && subs[i].pos != [] && Get(body, subs[i].pos).Some? ::
      Get(body, subs[i].pos).value.IsScalar()
  }

  /** A tree with scalars at the same substituted positions as the body. */
  predicate SameShape(tree: Json, body: Json, subs: seq<Sub>) {
    && WellFormed(tree)
    && forall i | 0 <= i < |subs| && subs[i].pos != [] :: SameAt(tree, body, subs[i].pos)
  }

  predicate SameAt(tree: Json, body: Json, p: seq<Seg>) {
    && (Get(tree, p).Some? <==> Get(body, p).Some?)
    && (Get(tree, p).Some? ==> Get(tree, p).value.IsScalar())
  }

  lemma NothingBelow(j: Json, p: seq<Seg>, q: seq<Seg>)
    requires p <= q && p != q && Get(j, p).Some? && Get(j, p).value.IsScalar()
    ensures Get(j, q) == None
  {
    assert p + q[|p|..] == q;
    GetSplits(j, p, q[|p|..]);
  }

  lemma SameAtAfterPut(tree: Json, body: Json, p: seq<Seg>, q: seq<Seg>, v: Json)
    requires WellFormed(tree) && v.IsScalar() && Get(tree, p).Some?
    requires SameAt(tree, body, p) && SameAt(tree, body, q)
    ensures SameAt(Put(tree, p, v), body, q)
  {
    if p == q {
      GetAfterPut(tree, p, v);
    } else if p <= q {
      NothingBelow(tree, p, q);
      assert p + q[|p|..] == q;
      GetBelowPut(tree, p, q[|p|..], v);
    } else if q <= p {
      if Get(tree, q).Some? {
        NothingBelow(tree, q, p);
      } else {
        assert q + p[|q|..] == p;
        GetSplits(tree, q, p[|q|..]);
      }
    } else {
      GetApartFromPut(tree, p, q, v);
    }
  }

  lemma ShapeIsKept(tree: Json, body: Json, subs: seq<Sub>, k: nat, v: Json)
    requires SameShape(tree, body, subs) && k < |subs| && v.IsScalar()
    ensures SameShape(AssignedAt(tree, subs[k].pos, v).0, body, subs)
  {
    if subs[k].pos != [] && Get(tree, subs[k].pos).Some? {
      PutIsWellFormed(tree, subs[k].pos, v);
      forall i | 0 <= i < |subs| && subs[i].pos != []
        ensures SameAt(Put(tree, subs[k].pos, v), body, subs[i].pos)
      {
        SameAtAfterPut(tree, body, subs[k].pos, subs[i].pos, v);
      }
    }
  }

  lemma {:induction false} MarkedKeepsShape(body: Json, subs: seq<Sub>, n: nat)
    requires WellFormed(body) && AtLeaves(body, subs) && n <= |subs|
    ensures SameShape(Marked(body, subs, n), body, subs)
  {
    if n > 0 {
      MarkedKeepsShape(body, subs, n - 1);
      ShapeIsKept(Marked(body, subs, n - 1), body, subs, n - 1, Str(Marker(subs[n - 1])));
    }
  }

  lemma {:induction false} TokenedKeepsShape(body: Json, subs: seq<Sub>, m: nat)
    requires WellFormed(body) && AtLeaves(body, subs) && m <= |subs|
    ensures SameShape(Tokened(body, subs, m), body, subs)
  {
    if m == 0 {
      MarkedKeepsShape(body, subs, |subs|);
    } else {
      TokenedKeepsShape(body, subs, m - 1);
      ShapeIsKept(Tokened(body, subs, m - 1), body, subs, m - 1, Str(Token(subs[m - 1])));
    }
  }

  /** A substitution lands exactly where the body has something. */
  lemma LandsWhereSomethingIs(body: Json, subs: seq<Sub>, k: nat)
    requires WellFormed(body) && AtLeaves(body, subs) && k < |subs|
    ensures Lands(body, subs, k) <==> subs[k].pos != [] && Get(body, subs[k].pos).Some?
  {
    MarkedKeepsShape(body, subs, k);
    assert subs[k].pos != [] ==> SameAt(Marked(body, subs, k), body, subs[k].pos);
  }

  /** Winning positions are leaves of the body. */
  predicate LeafOf(body: Json, p: seq<Seg>) {
    p != [] && Get(body, p).Some? && Get(body, p).value.IsScalar()
  }

  lemma {:induction false} WinnersAreLeaves(body: Json, subs: seq<Sub>, n: nat)
    requires WellFormed(body) && AtLeaves(body, subs) && n <= |subs|
    ensures forall p | p in Winners(body, subs, n) ::
              LeafOf(body, p) && exists i :: 0 <= i < n && subs[i] == Winners(body, subs, n)[p] && subs[i].pos == p
  {
    if n > 0 {
      WinnersAreLeaves(body, subs, n - 1);
      LandsWhereSomethingIs(body, subs, n - 1);
    }
  }

  lemma PutKeepsOtherLeaf(tree: Json, p: seq<Seg>, q: seq<Seg>, v: Json)
    requires WellFormed(tree) && LeafOf(tree, p) && LeafOf(tree, q) && p != q
    ensures Get(Put(tree, p, v), q) == Get(tree, q)
  {
    LeavesAreApart(tree, p, q);
    GetApartFromPut(tree, p, q, v);
  }

  lemma TokenedStep(body: Json, subs: seq<Sub>, k: nat, p: seq<Seg>)
    requires WellFormed(body) && AtLeaves(body, subs) && k < |subs|
    requires LeafOf(body, p) && exists i :: 0 <= i < |subs| && subs[i].pos == p
    ensures
      Get(Tokened(body, subs, k + 1), p)
      == if subs[k].pos == p then Some(Str(Token(subs[k]))) else Get(Tokened(body, subs, k), p)
  {
    var tree, s := Tokened(body, subs, k), subs[k];
    TokenedKeepsShape(body, subs, k);
    var i :| 0 <= i < |subs| && subs[i].pos == p;
    assert SameAt(tree, body, subs[i].pos);
    if s.pos != [] && Get(tree, s.pos).Some? {
      assert SameAt(tree, body, s.pos);
      if s.pos == p {
        GetAfterPut(tree, p, Str(Token(s)));
      } else {
        PutKeepsOtherLeaf(tree, s.pos, p, Str(Token(s)));
      }
    }
  }

  /** The parsed body holds, at each substituted position, the token that the text shows there. */
  lemma {:induction false} TokenedAt(body: Json, subs: seq<Sub>, m: nat, p: seq<Seg>)
    requires WellFormed(body) && AtLeaves(body, subs) && m <= |subs| && p in Winners(body, subs, m)
    ensures Get(Tokened(body, subs, m), p) == Some(Str(Token(Winners(body, subs, m)[p])))
  {
    WinnersAreLeaves(body, subs, m);
    LandsWhereSomethingIs(body, subs, m - 1);
    TokenedStep(body, subs, m - 1, p);
    if subs[m - 1].pos != p {
      TokenedAt(body, subs, m - 1, p);
    }
  }

  /** Text and parsed body agree: at the position of any substitution that finds a leaf, both show
      the last token assigned there. */
  lemma TextAndTreeAgree(body: Json, subs: seq<Sub>, k: nat)
    requires WellFormed(body) && AtLeaves(body, subs) && k < |subs|
    requires subs[k].pos != [] && SafePath(subs[k].pos) && Get(body, subs[k].pos).Some?
    ensures
      var w, p := Winners(body, subs, |subs|), subs[k].pos;
      && p in w && PathValues(Tokened(body, subs, |subs|), PathText(p)) == [Str(Token(w[p]))]
  {
    LandsWhereSomethingIs(body, subs, k);
    WinnersKeep(body, subs, k, |subs|);
    TokenedAt(body, subs, |subs|, subs[k].pos);
    PathValuesReadThePosition(Tokened(body, subs, |subs|), subs[k].pos);
  }

  lemma {:induction false} WinnersKeep(body: Json, subs: seq<Sub>, k: nat, n: nat)
    requires k < n <= |subs| && Lands(body, subs, k)
    ensures subs[k].pos in Winners(body, subs, n)
    decreases n
  {
    if k < n - 1 {
      WinnersKeep(body, subs, k, n - 1);
    }
  }

  lemma StepKeepsLeaf(tree: Json, body: Json, subs: seq<Sub>, k: nat, v: Json, q: seq<Seg>)
    requires SameShape(tree, body, subs) && k < |subs| && subs[k].pos != q && LeafOf(tree, q)
    ensures Get(AssignedAt(tree, subs[k].pos, v).0, q) == Get(tree, q)
  {
    var p := subs[k].pos;
    if p != [] && Get(tree, p).Some? {
      assert SameAt(tree, body, p);
      PutKeepsOtherLeaf(tree, p, q, v);
    }
  }

  lemma {:induction false} MarksKeepLeaf(body: Json, subs: seq<Sub>, n: nat, q: seq<Seg>)
    requires WellFormed(body) && AtLeaves(body, subs) && n <= |subs| && LeafOf(body, q)
    requires forall i | 0 <= i < |subs| :: subs[i].pos != q
    ensures Get(Marked(body, subs, n), q) == Get(body, q)
  {
    if n > 0 {
      MarksKeepLeaf(body, subs, n - 1, q);
      MarkedKeepsShape(body, subs, n - 1);
      StepKeepsLeaf(Marked(body, subs, n - 1), body, subs, n - 1, Str(Marker(subs[n - 1])), q);
    }
  }

  /** Every other leaf of the parsed body is as it was. */
  lemma {:induction false} OtherLeavesAreKept(body: Json, subs: seq<Sub>, m: nat, q: seq<Seg>)
    requires WellFormed(body) && AtLeaves(body, subs) && m <= |subs| && LeafOf(body, q)
    requires forall i | 0 <= i < |subs| :: subs[i].pos != q
    ensures Get(Tokened(body, subs, m), q) == Get(body, q)
  {
    if m == 0 {
      MarksKeepLeaf(body, subs, |subs|, q);
    } else {
      OtherLeavesAreKept(body, subs, m - 1, q);
      TokenedKeepsShape(body, subs, m - 1);
      StepKeepsLeaf(Tokened(body, subs, m - 1), body, subs, m - 1, Str(Token(subs[m - 1])), q);
    }
  }

  // --- _apply_json_subs ---

  lemma {:induction false} DonePathsAre(body: Json, subs: seq<Sub>, n: nat)
    requires n <= |subs|
    ensures forall path :: path in DonePaths(body, subs, n) <==>
              exists i :: 0 <= i < n && Lands(body, subs, i) && subs[i].path == path
  {
    if n > 0 {
      DonePathsAre(body, subs, n - 1);
    }
  }

  /** The second pass, over the parsed body. */
  method SetTokens(marked: Json, subs: seq<Sub>, ghost body: Json) returns (tokened: Json)
    requires Parsed(subs) && marked == Marked(body, subs, |subs|)
    ensures tokened == Tokened(body, subs, |subs|)
  {
    tokened := marked;
    for i := 0 to |subs|
      invariant tokened == Tokened(body, subs, i)
    {
      var next, _ := SetJsonPath(tokened, subs[i].path, Str(Token(subs[i])));
      tokened := next;
    }
  }

  /** Marking, printing, replacing one sentinel after the other, and the parsed body that goes with
      the text. Provided that no key, string or wrapper holds the sentinel prefix, the text is the
      structural print with the references in place. */
  method ApplyJsonSubs(body: Json, consumers: seq<Consumer>, secrets: seq<Secret>)
    returns (rawBody: string, parsedBody: Json, done: set<string>)
    requires WellFormed(body) && Unmarked(body) && GoodRequests(consumers, secrets)
    ensures
      var subs := Subs(consumers, secrets);
      && rawBody == Substituted(body, subs)
      && parsedBody == Tokened(body, subs, |subs|)
      && done == DonePaths(body, subs, |consumers|)
  {
    var subs := Subs(consumers, secrets);
    RequestsAreGood(consumers, secrets);
    RequestsAreParsed(consumers, secrets);
    var marked, marks;
    marked, marks, done := MarkAll(body, subs, |consumers|);
    rawBody := ReplaceMarks(body, subs, marked, marks);
    parsedBody := SetTokens(marked, subs, body);
  }
}
