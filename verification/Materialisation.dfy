/** Which substitutions are still there in the final request
    (backend/app/services/jmx_builder.py:241-253, 573-702). */
module Materialisation {
  import opened Wrappers
  import opened Text
  import opened Json
  import opened JsonPath
  import opened JsonLeaves
  import opened JsonSetter
  import opened JsonSubstitution
  import opened JsonSentinels
  import opened Naming
  import opened RequestMutation

  // --- a reference tells its variable ---

  /** Whatever stands before them, references to different variables are different texts. */
  lemma ReferencesTell(a: string, v: string, b: string, w: string)
    requires Words(v) && Words(w) && a + Reference(v) == b + Reference(w)
    ensures a == b && v == w
  {
    var left, right := a + "${", b + "${";
    assert a + Reference(v) == left + v + "}" && b + Reference(w) == right + w + "}";
    assert (left + v + "}")[..|left + v|] == left + v && (right + w + "}")[..|right + w|] == right + w;
    TailSpanIs(left, v, IsWord);
    TailSpanIs(right, w, IsWord);
    assert (left + v)[|left|..] == v && (right + w)[|right|..] == w;
    assert (left + v)[..|a|] == a && (right + w)[..|b|] == b;
  }

  lemma ExpectationsTell(u: Use, t: Use)
    requires Words(u.variable) && Words(t.variable) && Expected(u) == Expected(t)
    ensures u.variable == t.variable && u.wrapper == t.wrapper
  {
    ReferencesTell(u.wrapper, u.variable, t.wrapper, t.variable);
  }

  // --- the last use of a spot ---

  /** The last of the first `n` uses at a spot. */
  function LastAt(uses: seq<Use>, n: nat, spot: Spot): (r: Option<nat>)
    requires n <= |uses|
    ensures r.Some? ==> r.value < n && uses[r.value].spot == spot
    ensures r.Some? ==> forall k | r.value < k < n :: uses[k].spot != spot
    ensures r.None? ==> forall k | 0 <= k < n :: uses[k].spot != spot
  {
    if n == 0 then None else if uses[n - 1].spot == spot then Some(n - 1) else LastAt(uses, n - 1, spot)
  }

  // --- path segments ---

  lemma {:induction false} SegmentAfterUses(r: Request, uses: seq<Use>, n: nat, i: nat)
    requires n <= |uses|
    ensures |AfterUses(r, uses, n).segments| == |r.segments|
    ensures i < |r.segments| ==>
              var last := LastAt(uses, n, PathSpot(i));
              AfterUses(r, uses, n).segments[i] == if last.Some? then Expected(uses[last.value]) else r.segments[i]
  {
    if n > 0 {
      SegmentAfterUses(r, uses, n - 1, i);
    }
  }

  /** Whether a use replaces one of so many segments. */
  predicate ReplacesSegment(u: Use, segments: nat) {
    u.spot.PathSpot? && u.spot.index < segments
  }

  lemma PathAfterOne(r: Request, u: Use)
    ensures |Placed(r, u).segments| == |r.segments|
    ensures if ReplacesSegment(u, |r.segments|) then Placed(r, u).path == "/" + Joined(Placed(r, u).segments)
            else Placed(r, u).path == r.path && Placed(r, u).segments == r.segments
  {
  }

  /** Once a segment is replaced, the path is the segments joined. */
  lemma {:induction false} PathIsJoined(r: Request, uses: seq<Use>, n: nat)
    requires n <= |uses|
    requires exists k :: 0 <= k < n && ReplacesSegment(uses[k], |r.segments|)
    ensures AfterUses(r, uses, n).path == "/" + Joined(AfterUses(r, uses, n).segments)
  {
    var before := AfterUses(r, uses, n - 1);
    SegmentAfterUses(r, uses, n - 1, 0);
    PathAfterOne(before, uses[n - 1]);
    assert AfterUses(r, uses, n) == Placed(before, uses[n - 1]);
    if !ReplacesSegment(uses[n - 1], |r.segments|) {
      PathIsJoined(r, uses, n - 1);
    }
  }

  /** A path use passes the final check exactly when its segment exists and the last use of that
      segment asks for the same text. */
  lemma PathIsVerified(r: Request, uses: seq<Use>, policy: Policy, k: nat)
    requires k < |uses| && uses[k].spot.PathSpot?
    ensures
      var last := LastAt(uses, |uses|, uses[k].spot);
      && last.Some?
      && (Verified(Mutated(r, uses, policy), uses[k], policy) <==>
            uses[k].spot.index < |r.segments| && Expected(uses[last.value]) == Expected(uses[k]))
  {
    LaterStepsKeepSegments(r, uses, policy);
    SegmentAfterUses(r, uses, |uses|, uses[k].spot.index);
  }

  lemma LaterStepsKeepSegments(r: Request, uses: seq<Use>, policy: Policy)
    ensures Mutated(r, uses, policy).segments == AfterUses(r, uses, |uses|).segments
  {
  }

  // --- pairs ---

  predicate HasName(pairs: seq<Pair>, name: string) {
    exists i :: 0 <= i < |pairs| && pairs[i].name == name
  }

  lemma ReplacingKeepsNames(pairs: seq<Pair>, name: string, value: string, text: string, other: string)
    ensures HasName(PairsWith(pairs, name, value, text), other) <==> HasName(pairs, other)
  {
    var out := PairsWith(pairs, name, value, text);
    assert forall i | 0 <= i < |pairs| :: out[i].name == pairs[i].name;
  }

  lemma PairsAfterOne(r: Request, u: Use, kind: Kind)
    ensures PairsOf(Placed(r, u), kind) ==
            if u.spot.PairSpot? && u.spot.kind == kind
            then PairsWith(PairsOf(r, kind), u.spot.name, u.recorded, PairText(u)) else PairsOf(r, kind)
  {
  }

  lemma {:induction false} UsesKeepNames(r: Request, uses: seq<Use>, n: nat, kind: Kind, name: string)
    requires n <= |uses|
    ensures HasName(PairsOf(AfterUses(r, uses, n), kind), name) <==> HasName(PairsOf(r, kind), name)
  {
    if n > 0 {
      UsesKeepNames(r, uses, n - 1, kind, name);
      var before, u := AfterUses(r, uses, n - 1), uses[n - 1];
      PairsAfterOne(before, u, kind);
      assert AfterUses(r, uses, n) == Placed(before, u);
      if u.spot.PairSpot? {
        ReplacingKeepsNames(PairsOf(before, kind), u.spot.name, u.recorded, PairText(u), name);
      }
    }
  }

  lemma ReplacingPutsText(pairs: seq<Pair>, name: string, value: string, text: string)
    requires HasName(pairs, name)
    ensures HasPair(PairsWith(pairs, name, value, text), name, text)
  {
    var at := Target(pairs, name, value).value;
    assert PairsWith(pairs, name, value, text)[at] == Pair(name, text);
  }

  lemma ReplacingKeepsOtherPairs(pairs: seq<Pair>, name: string, value: string, text: string, other: Pair)
    requires other.name != name && other in pairs
    ensures other in PairsWith(pairs, name, value, text)
  {
    var i :| 0 <= i < |pairs| && pairs[i] == other;
    assert PairsWith(pairs, name, value, text)[i] == other;
  }

  /** The last use of a name is in place after all uses. */
  lemma {:induction false} LastPairStays(r: Request, uses: seq<Use>, n: nat, k: nat)
    requires k < n <= |uses| && uses[k].spot.PairSpot?
    requires HasName(PairsOf(r, uses[k].spot.kind), uses[k].spot.name)
    requires forall j | k < j < n :: uses[j].spot != uses[k].spot
    ensures HasPair(PairsOf(AfterUses(r, uses, n), uses[k].spot.kind), uses[k].spot.name, PairText(uses[k]))
    decreases n
  {
    var before, u, spot := AfterUses(r, uses, n - 1), uses[n - 1], uses[k].spot;
    UsesKeepNames(r, uses, n - 1, spot.kind, spot.name);
    PairsAfterOne(before, u, spot.kind);
    assert AfterUses(r, uses, n) == Placed(before, u);
    if k == n - 1 {
      ReplacingPutsText(PairsOf(before, spot.kind), spot.name, u.recorded, PairText(u));
    } else {
      LastPairStays(r, uses, n - 1, k);
      if u.spot.PairSpot? && u.spot.kind == spot.kind {
        ReplacingKeepsOtherPairs(PairsOf(before, spot.kind), u.spot.name, u.recorded, PairText(u),
                                 Pair(spot.name, PairText(uses[k])));
      }
    }
  }

  lemma ReferenceOccurs(wrapper: string, variable: string)
    ensures Occurs("${", wrapper + Reference(variable))
  {
    var s := wrapper + Reference(variable);
    assert s[|wrapper|..][..2] == "${";
    assert StartsWith(s[|wrapper|..], "${");
  }

  /** Credentials never take the place of a reference. */
  lemma SecretsKeepReferences(r: Request, policy: Policy, kind: Kind, pair: Pair)
    requires pair in PairsOf(r, kind) && Occurs("${", pair.value)
    ensures pair in PairsOf(WithSecrets(r, policy), kind)
  {
    var i :| 0 <= i < |PairsOf(r, kind)| && PairsOf(r, kind)[i] == pair;
    assert PairsOf(WithSecrets(r, policy), kind)[i] == pair;
  }

  predicate Sendable(u: Use, policy: Policy)
    requires u.spot.PairSpot?
  {
    && (u.spot.kind.HeaderPair? ==> Sent(u.spot.name, policy))
    && (u.spot.kind.CookiePair? ==> u.spot.name !in policy.serverCookies)
  }

  /** A use of a query parameter, header, cookie or form field that is not followed by another use of
      that name is verified, provided that the request has the name, that it will be sent, and that
      there is no text around the value where none is kept. */
  lemma LastPairIsVerified(r: Request, uses: seq<Use>, policy: Policy, k: nat)
    requires k < |uses| && uses[k].spot.PairSpot? && LastAt(uses, |uses|, uses[k].spot) == Some(k)
    requires HasName(PairsOf(r, uses[k].spot.kind), uses[k].spot.name) && Sendable(uses[k], policy)
    requires !uses[k].spot.kind.HeaderPair? ==> uses[k].wrapper == ""
    ensures Verified(Mutated(r, uses, policy), uses[k], policy)
  {
    var u := uses[k];
    LastPairStays(r, uses, |uses|, k);
    assert "" + Reference(u.variable) == Reference(u.variable);
    ReferenceOccurs(u.wrapper, u.variable);
    var pair := Pair(u.spot.name, Expected(u));
    assert pair in PairsOf(WithBody(AfterUses(r, uses, |uses|), uses, policy), u.spot.kind);
    SecretsKeepReferences(WithBody(AfterUses(r, uses, |uses|), uses, policy), policy, u.spot.kind, pair);
  }

  /** The one pair with a name. */
  predicate Only(pairs: seq<Pair>, name: string, at: nat) {
    at < |pairs| && pairs[at].name == name && forall i | 0 <= i < |pairs| && i != at :: pairs[i].name != name
  }

  lemma ReplacingBesideOnly(pairs: seq<Pair>, name: string, value: string, text: string, other: string, at: nat)
    requires Only(pairs, other, at)
    ensures
      var out := PairsWith(pairs, name, value, text);
      Only(out, other, at) && out[at].value == if name == other then text else pairs[at].value
  {
  }

  /** Its value after the first `n` uses is what the last of its uses puts there. */
  lemma {:induction false} OnlyPairAfterUses(r: Request, uses: seq<Use>, n: nat, kind: Kind, name: string, at: nat)
    requires n <= |uses| && Only(PairsOf(r, kind), name, at)
    ensures
      var pairs, last := PairsOf(AfterUses(r, uses, n), kind), LastAt(uses, n, PairSpot(kind, name));
      && Only(pairs, name, at)
      && pairs[at].value == if last.Some? then PairText(uses[last.value]) else PairsOf(r, kind)[at].value
  {
    if n > 0 {
      OnlyPairAfterUses(r, uses, n - 1, kind, name, at);
      var before, u := AfterUses(r, uses, n - 1), uses[n - 1];
      PairsAfterOne(before, u, kind);
      assert AfterUses(r, uses, n) == Placed(before, u);
      if u.spot.PairSpot? && u.spot.kind == kind {
        ReplacingBesideOnly(PairsOf(before, kind), u.spot.name, u.recorded, PairText(u), name, at);
      }
    }
  }

  lemma SecretsBesideOnly(r: Request, policy: Policy, kind: Kind, name: string, at: nat)
    requires Only(PairsOf(r, kind), name, at) && Occurs("${", PairsOf(r, kind)[at].value)
    ensures Only(PairsOf(WithSecrets(r, policy), kind), name, at)
    ensures PairsOf(WithSecrets(r, policy), kind)[at].value == PairsOf(r, kind)[at].value
  {
  }

  lemma VerdictOnPair(final: Request, u: Use, policy: Policy, at: nat)
    requires u.spot.PairSpot? && Only(PairsOf(final, u.spot.kind), u.spot.name, at)
    ensures Verified(final, u, policy) <==>
              Sendable(u, policy) && PairsOf(final, u.spot.kind)[at].value == Expected(u)
  {
    var pairs := PairsOf(final, u.spot.kind);
    assert pairs[at] == Pair(u.spot.name, pairs[at].value);
  }

  /** Where a name stands for one pair, a use of it passes the final check exactly when it is sent and
      the last use of the name puts the text it asks for. */
  lemma OnlyPairIsVerified(r: Request, uses: seq<Use>, policy: Policy, k: nat, at: nat)
    requires k < |uses| && uses[k].spot.PairSpot? && Only(PairsOf(r, uses[k].spot.kind), uses[k].spot.name, at)
    ensures
      var last := LastAt(uses, |uses|, uses[k].spot);
      && last.Some?
      && (Verified(Mutated(r, uses, policy), uses[k], policy) <==>
            Sendable(uses[k], policy) && PairText(uses[last.value]) == Expected(uses[k]))
  {
    var u, kind, name := uses[k], uses[k].spot.kind, uses[k].spot.name;
    var last := LastAt(uses, |uses|, u.spot).value;
    OnlyPairAfterUses(r, uses, |uses|, kind, name, at);
    var before := WithBody(AfterUses(r, uses, |uses|), uses, policy);
    assert PairsOf(before, kind) == PairsOf(AfterUses(r, uses, |uses|), kind);
    assert "" + Reference(uses[last].variable) == Reference(uses[last].variable);
    ReferenceOccurs(uses[last].wrapper, uses[last].variable);
    ReferenceOccurs("", uses[last].variable);
    SecretsBesideOnly(before, policy, kind, name, at);
    VerdictOnPair(Mutated(r, uses, policy), u, policy, at);
  }

  /** So one pair never passes for two different variables. */
  lemma OneVariableInAPair(r: Request, uses: seq<Use>, policy: Policy, k: nat, m: nat, at: nat)
    requires k < |uses| && m < |uses| && uses[k].spot == uses[m].spot && uses[k].spot.PairSpot?
    requires Only(PairsOf(r, uses[k].spot.kind), uses[k].spot.name, at)
    requires Words(uses[k].variable) && Words(uses[m].variable)
    requires Verified(Mutated(r, uses, policy), uses[k], policy) && Verified(Mutated(r, uses, policy), uses[m], policy)
    ensures uses[k].variable == uses[m].variable
  {
    OnlyPairIsVerified(r, uses, policy, k, at);
    OnlyPairIsVerified(r, uses, policy, m, at);
    ExpectationsTell(uses[k], uses[m]);
  }

  /** A name that the request does not have is never verified. */
  lemma UnknownNameFails(r: Request, uses: seq<Use>, policy: Policy, k: nat)
    requires k < |uses| && uses[k].spot.PairSpot? && !HasName(PairsOf(r, uses[k].spot.kind), uses[k].spot.name)
    ensures !Verified(Mutated(r, uses, policy), uses[k], policy)
  {
    var kind, name := uses[k].spot.kind, uses[k].spot.name;
    UsesKeepNames(r, uses, |uses|, kind, name);
    var before, final := WithBody(AfterUses(r, uses, |uses|), uses, policy), Mutated(r, uses, policy);
    assert PairsOf(before, kind) == PairsOf(AfterUses(r, uses, |uses|), kind);
    assert |PairsOf(final, kind)| == |PairsOf(before, kind)|;
    assert forall i | 0 <= i < |PairsOf(before, kind)| :: PairsOf(final, kind)[i].name == PairsOf(before, kind)[i].name;
  }

  /** Text around the value is lost in a query parameter, cookie or form field, so a use that asks for
      it is never verified there, whatever the other uses are. */
  lemma WrapperIsLost(r: Request, uses: seq<Use>, policy: Policy, k: nat, at: nat)
    requires k < |uses| && uses[k].spot.PairSpot? && !uses[k].spot.kind.HeaderPair? && uses[k].wrapper != ""
    requires Only(PairsOf(r, uses[k].spot.kind), uses[k].spot.name, at)
    requires forall i | 0 <= i < |uses| :: Words(uses[i].variable)
    ensures !Verified(Mutated(r, uses, policy), uses[k], policy)
  {
    OnlyPairIsVerified(r, uses, policy, k, at);
    var last := uses[LastAt(uses, |uses|, uses[k].spot).value];
    assert "" + Reference(last.variable) == Reference(last.variable);
    if PairText(last) == Expected(uses[k]) {
      ReferencesTell("", last.variable, uses[k].wrapper, uses[k].variable);
    }
  }

  predicate PutsIn(u: Use, kind: Kind, text: string) {
    u.spot.PairSpot? && u.spot.kind == kind && PairText(u) == text
  }

  /** Where a pair of the request comes from after the uses. */
  lemma {:induction false} PairsComeFrom(r: Request, uses: seq<Use>, n: nat, kind: Kind, pair: Pair)
    requires n <= |uses| && pair in PairsOf(AfterUses(r, uses, n), kind)
    ensures pair in PairsOf(r, kind) || exists i :: 0 <= i < n && PutsIn(uses[i], kind, pair.value)
    decreases n
  {
    if n > 0 {
      var before, u := AfterUses(r, uses, n - 1), uses[n - 1];
      PairsAfterOne(before, u, kind);
      assert AfterUses(r, uses, n) == Placed(before, u);
      if pair in PairsOf(before, kind) {
        PairsComeFrom(r, uses, n - 1, kind, pair);
      } else {
        assert PutsIn(uses[n - 1], kind, pair.value);
      }
    }
  }

  lemma SecretsComeFrom(r: Request, policy: Policy, kind: Kind, pair: Pair)
    requires pair in PairsOf(WithSecrets(r, policy), kind)
    ensures pair in PairsOf(r, kind) || exists name :: pair.value == PropertyCall(name)
  {
    var i :| 0 <= i < |PairsOf(WithSecrets(r, policy), kind)| && PairsOf(WithSecrets(r, policy), kind)[i] == pair;
    if PairsOf(r, kind)[i] != pair {
      assert pair.value == PropertyCall(PairsOf(r, kind)[i].name);
    }
  }

  /** A property call is no reference to a variable. */
  lemma CallIsNoReference(name: string, wrapper: string, variable: string)
    requires Words(variable)
    ensures PropertyCall(name) != wrapper + Reference(variable)
  {
    var call, text := PropertyCall(name), wrapper + Reference(variable);
    assert call == ("${__P(" + Sanitized(name)) + ",)}" && call[|call| - 2] == ')';
    assert text == (wrapper + "${" + variable) + "}";
    var front := wrapper + "${" + variable;
    assert text[|text| - 2] == front[|front| - 1];
    if variable != "" {
      assert front[|front| - 1] == variable[|variable| - 1] && IsWord(variable[|variable| - 1]);
    } else {
      assert front == wrapper + "${";
    }
  }

  /** Under a name that the request repeats the text is lost too, unless the recorded request had the
      very text that the use asks for. */
  lemma WrapperIsLostAnywhere(r: Request, uses: seq<Use>, policy: Policy, k: nat)
    requires k < |uses| && uses[k].spot.PairSpot? && !uses[k].spot.kind.HeaderPair? && uses[k].wrapper != ""
    requires Pair(uses[k].spot.name, Expected(uses[k])) !in PairsOf(r, uses[k].spot.kind)
    requires forall i | 0 <= i < |uses| :: Words(uses[i].variable)
    ensures !Verified(Mutated(r, uses, policy), uses[k], policy)
  {
    var kind, pair := uses[k].spot.kind, Pair(uses[k].spot.name, Expected(uses[k]));
    var before := WithBody(AfterUses(r, uses, |uses|), uses, policy);
    if Verified(Mutated(r, uses, policy), uses[k], policy) {
      SecretsComeFrom(before, policy, kind, pair);
      if pair in PairsOf(before, kind) {
        assert pair in PairsOf(AfterUses(r, uses, |uses|), kind);
        PairsComeFrom(r, uses, |uses|, kind, pair);
        var i :| 0 <= i < |uses| && PutsIn(uses[i], kind, pair.value);
        assert "" + Reference(uses[i].variable) == Reference(uses[i].variable);
        ReferencesTell("", uses[i].variable, uses[k].wrapper, uses[k].variable);
      } else {
        var name :| pair.value == PropertyCall(name);
        CallIsNoReference(name, uses[k].wrapper, uses[k].variable);
      }
    }
  }

  // --- the JSON body ---

  /** The consumers of the body among the first `n` uses, and which uses they are. */
  function JsonPositions(uses: seq<Use>): (r: seq<nat>)
    ensures |r| == |JsonUses(uses)|
    ensures forall i | 0 <= i < |r| ::
              && r[i] < |uses| && uses[r[i]].spot == JsonSpot(JsonUses(uses)[i].path)
              && Consumer(uses[r[i]].spot.path, uses[r[i]].variable, uses[r[i]].wrapper, uses[r[i]].numeric)
                 == JsonUses(uses)[i]
    ensures forall i, k | 0 <= i < k < |r| :: r[i] < r[k]
    ensures forall k | 0 <= k < |uses| && uses[k].spot.JsonSpot? :: k in r
  {
    if uses == [] then []
    else
      var front := uses[..|uses| - 1];
      assert forall k | 0 <= k < |front| :: front[k] == uses[k];
      JsonPositions(front) + (if uses[|uses| - 1].spot.JsonSpot? then [|uses| - 1] else [])
  }

  /** The winner at a position is the last substitution there that lands. */
  lemma {:induction false} WinnerIsLast(body: Json, subs: seq<Sub>, n: nat, i: nat)
    requires i < n <= |subs| && Lands(body, subs, i)
    requires forall k | i < k < n :: subs[k].pos != subs[i].pos
    ensures subs[i].pos in Winners(body, subs, n) && Winners(body, subs, n)[subs[i].pos] == subs[i]
    decreases n
  {
    if i < n - 1 {
      WinnerIsLast(body, subs, n - 1, i);
    }
  }

  lemma {:induction false} SecretsAreElsewhere(leaves: seq<Leaf>, uses: seq<Consumer>, policy: Policy, i: nat)
    requires i < |uses|
    ensures forall x | 0 <= x < |BodySecrets(leaves, uses, policy)| ::
              BodySecrets(leaves, uses, policy)[x].path != uses[i].path
  {
    if leaves != [] {
      SecretsAreElsewhere(leaves[..|leaves| - 1], uses, policy, i);
    }
  }

  predicate IsLeafPath(leaves: seq<Leaf>, path: string) {
    exists k :: 0 <= k < |leaves| && path == PathText(leaves[k].path)
  }

  lemma {:induction false} SecretsAreLeaves(leaves: seq<Leaf>, uses: seq<Consumer>, policy: Policy, x: nat)
    requires x < |BodySecrets(leaves, uses, policy)|
    ensures IsLeafPath(leaves, BodySecrets(leaves, uses, policy)[x].path)
  {
    var front := leaves[..|leaves| - 1];
    var before := BodySecrets(front, uses, policy);
    if x < |before| {
      SecretsAreLeaves(front, uses, policy, x);
      var k :| 0 <= k < |front| && before[x].path == PathText(front[k].path);
      assert leaves[k] == front[k];
    } else {
      assert leaves[|leaves| - 1].path == leaves[|leaves| - 1].path;
    }
  }

  /** The path of a safe position, as the indexer prints it. */
  predicate Canonical(path: string) {
    SafePath(ParsePath(path)) && PathText(ParsePath(path)) == path
  }

  /** A substitution at a printed path that leads to a scalar, or nowhere. */
  predicate AtLeafOrNowhere(body: Json, path: string) {
    && Canonical(path)
    && (Get(body, ParsePath(path)).Some? ==> Get(body, ParsePath(path)).value.IsScalar())
  }

  /** Body uses are at printed paths that lead to scalars, or nowhere. */
  predicate IndexedUses(body: Json, uses: seq<Consumer>) {
    forall i | 0 <= i < |uses| :: AtLeafOrNowhere(body, uses[i].path)
  }

  lemma SecretIsAtLeaf(body: Json, uses: seq<Consumer>, policy: Policy, x: nat)
    requires WellFormed(body) && SafeTree(body) && x < |BodySecrets(Leaves([], body), uses, policy)|
    ensures AtLeafOrNowhere(body, BodySecrets(Leaves([], body), uses, policy)[x].path)
  {
    var leaves := Leaves([], body);
    SecretsAreLeaves(leaves, uses, policy, x);
    var k :| 0 <= k < |leaves| && BodySecrets(leaves, uses, policy)[x].path == PathText(leaves[k].path);
    LeavesAreThere([], body, k);
    assert leaves[k].path[0..] == leaves[k].path;
    SafeTreeHasSafePaths(body, leaves[k].path);
    ParsePrintedPath(leaves[k].path);
  }

  /** Credentials are at leaves that no consumer asks for. */
  predicate ApartSecrets(body: Json, consumers: seq<Consumer>, secrets: seq<Secret>) {
    && (forall x | 0 <= x < |secrets| :: AtLeafOrNowhere(body, secrets[x].path))
    && (forall x, c | 0 <= x < |secrets| && 0 <= c < |consumers| :: secrets[x].path != consumers[c].path)
  }

  lemma SecretsAreApart(r: Request, uses: seq<Use>, policy: Policy)
    requires r.body.Some? && WellFormed(r.body.value) && SafeTree(r.body.value)
    ensures ApartSecrets(r.body.value, JsonUses(uses), SecretsOf(r, uses, policy))
  {
    if policy.externalize {
      var leaves, consumers := Leaves([], r.body.value), JsonUses(uses);
      forall x | 0 <= x < |BodySecrets(leaves, consumers, policy)|
        ensures AtLeafOrNowhere(r.body.value, BodySecrets(leaves, consumers, policy)[x].path)
      {
        SecretIsAtLeaf(r.body.value, consumers, policy, x);
      }
      forall c | 0 <= c < |consumers|
        ensures forall x | 0 <= x < |BodySecrets(leaves, consumers, policy)| ::
                  BodySecrets(leaves, consumers, policy)[x].path != consumers[c].path
      {
        SecretsAreElsewhere(leaves, consumers, policy, c);
      }
    }
  }

  /** The body and its substitutions, apart from the rest of the request. */
  predicate BodyAndSubs(body: Json, consumers: seq<Consumer>, secrets: seq<Secret>) {
    WellFormed(body) && IndexedUses(body, consumers) && ApartSecrets(body, consumers, secrets)
  }

  lemma SubIsParsed(consumers: seq<Consumer>, secrets: seq<Secret>, i: nat)
    requires i < |consumers| + |secrets|
    ensures
      var s := SubAt(consumers, secrets, i);
      && s.pos == ParsePath(s.path)
      && s.path == if i < |consumers| then consumers[i].path else secrets[i - |consumers|].path
  {
  }

  lemma SubsAreAtLeaves(body: Json, consumers: seq<Consumer>, secrets: seq<Secret>, i: nat)
    requires BodyAndSubs(body, consumers, secrets) && i < |consumers| + |secrets|
    ensures
      var s := SubAt(consumers, secrets, i);
      s.pos == ParsePath(s.path) && AtLeafOrNowhere(body, s.path)
  {
    SubIsParsed(consumers, secrets, i);
  }

  /** A consumer's place is not taken by a credential, and by another consumer only when it is at the
      same path. */
  lemma SamePlaceSamePath(body: Json, consumers: seq<Consumer>, secrets: seq<Secret>, c: nat, m: nat)
    requires BodyAndSubs(body, consumers, secrets) && c < |consumers| && m < |consumers| + |secrets|
    requires SubAt(consumers, secrets, m).pos == SubAt(consumers, secrets, c).pos
    ensures m < |consumers| && consumers[m].path == consumers[c].path
  {
    SubsAreAtLeaves(body, consumers, secrets, c);
    SubsAreAtLeaves(body, consumers, secrets, m);
    assert SubAt(consumers, secrets, m).path == SubAt(consumers, secrets, c).path;
    SubIsParsed(consumers, secrets, c);
    SubIsParsed(consumers, secrets, m);
  }

  lemma LaterIsElsewhere(body: Json, consumers: seq<Consumer>, secrets: seq<Secret>, c: nat, m: nat)
    requires BodyAndSubs(body, consumers, secrets) && c < |consumers| && m < |consumers| + |secrets|
    requires m < |consumers| ==> consumers[m].path != consumers[c].path
    ensures SubAt(consumers, secrets, m).pos != SubAt(consumers, secrets, c).pos
  {
    if SubAt(consumers, secrets, m).pos == SubAt(consumers, secrets, c).pos {
      SamePlaceSamePath(body, consumers, secrets, c, m);
    }
  }

  /** The last consumer at a path that leads to a leaf is what text and parsed body show there. */
  lemma LastConsumerWins(body: Json, consumers: seq<Consumer>, secrets: seq<Secret>, c: nat)
    requires BodyAndSubs(body, consumers, secrets) && c < |consumers|
    requires forall m | c < m < |consumers| :: consumers[m].path != consumers[c].path
    requires ParsePath(consumers[c].path) != [] && Get(body, ParsePath(consumers[c].path)).Some?
    ensures
      var subs, p := Subs(consumers, secrets), ParsePath(consumers[c].path);
      var w := Winners(body, subs, |subs|);
      && p in w && Token(w[p]) == consumers[c].wrapper + Reference(consumers[c].variable)
      && PathValues(Tokened(body, subs, |subs|), consumers[c].path) == [Str(Token(w[p]))]
  {
    var subs := Subs(consumers, secrets);
    forall i | 0 <= i < |subs| && subs[i].pos != [] && Get(body, subs[i].pos).Some?
      ensures Get(body, subs[i].pos).value.IsScalar()
    {
      SubsAreAtLeaves(body, consumers, secrets, i);
    }
    assert subs[c] == ConsumerSub(c, consumers[c]);
    LandsWhereSomethingIs(body, subs, c);
    forall m | c < m < |subs|
      ensures subs[m].pos != subs[c].pos
    {
      LaterIsElsewhere(body, consumers, secrets, c, m);
    }
    WinnerIsLast(body, subs, |subs|, c);
    SubsAreAtLeaves(body, consumers, secrets, c);
    TextAndTreeAgree(body, subs, c);
  }

  lemma BodyIsTokened(r: Request, uses: seq<Use>, policy: Policy)
    requires r.body.Some? && JsonUses(uses) != []
    ensures
      var subs, final := BodySubs(r, uses, policy), Mutated(r, uses, policy);
      && final.body == Some(Tokened(r.body.value, subs, |subs|)) && final.raw == Substituted(r.body.value, subs)
  {
    UsesLeaveTheBody(r, uses, |uses|);
    assert |BodySubs(r, uses, policy)| > 0;
  }

  lemma LastJsonUse(uses: seq<Use>, k: nat) returns (last: nat, c: nat)
    requires k < |uses| && uses[k].spot.JsonSpot?
    ensures LastAt(uses, |uses|, uses[k].spot) == Some(last) && c < |JsonUses(uses)|
    ensures JsonUses(uses)[c]
      == Consumer(uses[k].spot.path, uses[last].variable, uses[last].wrapper, uses[last].numeric)
    ensures forall m | c < m < |JsonUses(uses)| :: JsonUses(uses)[m].path != uses[k].spot.path
  {
    last := LastAt(uses, |uses|, uses[k].spot).value;
    var at := JsonPositions(uses);
    c :| 0 <= c < |at| && at[c] == last;
    forall m | c < m < |at|
      ensures JsonUses(uses)[m].path != uses[k].spot.path
    {
      assert at[m] > last && uses[at[m]].spot != uses[k].spot;
    }
  }

  /** What the final request shows where the last body use of a path is. */
  lemma LastUseIsShown(r: Request, uses: seq<Use>, policy: Policy, k: nat, last: nat, c: nat)
    requires k < |uses| && last < |uses| && uses[k].spot.JsonSpot? && r.body.Some? && c < |JsonUses(uses)|
    requires JsonUses(uses)[c]
      == Consumer(uses[k].spot.path, uses[last].variable, uses[last].wrapper, uses[last].numeric)
    requires forall m | c < m < |JsonUses(uses)| :: JsonUses(uses)[m].path != uses[k].spot.path
    requires WellFormed(r.body.value) && SafeTree(r.body.value) && IndexedUses(r.body.value, JsonUses(uses))
    requires var p := ParsePath(uses[k].spot.path); p != [] && Get(r.body.value, p).Some?
    ensures
      var final, subs, p := Mutated(r, uses, policy), BodySubs(r, uses, policy), ParsePath(uses[k].spot.path);
      var w := Winners(r.body.value, subs, |subs|);
      && final.raw == Substituted(r.body.value, subs) && p in w && Token(w[p]) == Expected(uses[last])
      && final.body.Some? && PathValues(final.body.value, uses[k].spot.path) == [Str(Expected(uses[last]))]
  {
    BodyIsTokened(r, uses, policy);
    SecretsAreApart(r, uses, policy);
    LastConsumerWins(r.body.value, JsonUses(uses), SecretsOf(r, uses, policy), c);
  }

  lemma VerdictOnBody(final: Request, u: Use, policy: Policy, text: string)
    requires u.spot.JsonSpot? && final.body.Some? && PathValues(final.body.value, u.spot.path) == [Str(text)]
    ensures Verified(final, u, policy) <==> text == Expected(u)
  {
  }

  /** A body use at a leaf passes the final check exactly when the last use of that path asks for the
      same text; and the text that is sent shows that text, bare or quoted, at that place. */
  lemma JsonIsVerified(r: Request, uses: seq<Use>, policy: Policy, k: nat)
    requires k < |uses| && uses[k].spot.JsonSpot? && r.body.Some?
    requires WellFormed(r.body.value) && SafeTree(r.body.value) && IndexedUses(r.body.value, JsonUses(uses))
    requires var p := ParsePath(uses[k].spot.path); p != [] && Get(r.body.value, p).Some?
    ensures
      var last, final := LastAt(uses, |uses|, uses[k].spot), Mutated(r, uses, policy);
      var subs, p := BodySubs(r, uses, policy), ParsePath(uses[k].spot.path);
      var w := Winners(r.body.value, subs, |subs|);
      && last.Some?
      && (Verified(final, uses[k], policy) <==> Expected(uses[last.value]) == Expected(uses[k]))
      && final.raw == Substituted(r.body.value, subs) && p in w && Token(w[p]) == Expected(uses[last.value])
  {
    var last, c := LastJsonUse(uses, k);
    LastUseIsShown(r, uses, policy, k, last, c);
    VerdictOnBody(Mutated(r, uses, policy), uses[k], policy, Expected(uses[last]));
  }

  // --- one variable for each place ---

  /** No path segment and no place of the body passes the final check for two different variables. */
  lemma OneVariableEach(r: Request, uses: seq<Use>, policy: Policy, k: nat, m: nat)
    requires k < |uses| && m < |uses| && uses[k].spot == uses[m].spot && !uses[k].spot.PairSpot?
    requires uses[k].spot.JsonSpot? ==>
               && r.body.Some? && WellFormed(r.body.value) && SafeTree(r.body.value)
               && IndexedUses(r.body.value, JsonUses(uses)) && ParsePath(uses[k].spot.path) != []
    requires Words(uses[k].variable) && Words(uses[m].variable)
    requires Verified(Mutated(r, uses, policy), uses[k], policy) && Verified(Mutated(r, uses, policy), uses[m], policy)
    ensures uses[k].variable == uses[m].variable
  {
    if uses[k].spot.PathSpot? {
      PathIsVerified(r, uses, policy, k);
      PathIsVerified(r, uses, policy, m);
    } else {
      VerifiedIsThere(r, uses, policy, k);
      JsonIsVerified(r, uses, policy, k);
      JsonIsVerified(r, uses, policy, m);
    }
    ExpectationsTell(uses[k], uses[m]);
  }

  /** What the final check finds, use by use. */
  predicate Checks(r: Request, uses: seq<Use>, policy: Policy, verified: seq<bool>) {
    && |verified| == |uses|
    && forall i | 0 <= i < |uses| :: verified[i] == Verified(Mutated(r, uses, policy), uses[i], policy)
  }

  /** At a path segment or a place of the body, two uses that are not reported are uses of one
      variable. */
  lemma UnreportedUsesAgree(r: Request, uses: seq<Use>, policy: Policy, verified: seq<bool>, k: nat, m: nat)
    requires k < |uses| && m < |uses| && uses[k].spot == uses[m].spot && !uses[k].spot.PairSpot?
    requires uses[k].spot.JsonSpot? ==>
               && r.body.Some? && WellFormed(r.body.value) && SafeTree(r.body.value)
               && IndexedUses(r.body.value, JsonUses(uses)) && ParsePath(uses[k].spot.path) != []
    requires Words(uses[k].variable) && Words(uses[m].variable) && Checks(r, uses, policy, verified)
    requires !IsReported(uses, verified, k) && !IsReported(uses, verified, m)
    ensures uses[k].variable == uses[m].variable
  {
    var k' := InPlace(r, uses, policy, verified, k);
    var m' := InPlace(r, uses, policy, verified, m);
    OneVariableEach(r, uses, policy, k', m');
  }

  /** A use that is not reported is in place: some use of the same variable at the same spot has its
      text there in the final request. */
  lemma InPlace(r: Request, uses: seq<Use>, policy: Policy, verified: seq<bool>, k: nat) returns (m: nat)
    requires k < |uses| && Checks(r, uses, policy, verified) && !IsReported(uses, verified, k)
    ensures m < |uses| && uses[m].spot == uses[k].spot && uses[m].variable == uses[k].variable
    ensures Verified(Mutated(r, uses, policy), uses[m], policy)
  {
    m :| m < |uses| && uses[m].spot == uses[k].spot && uses[m].variable == uses[k].variable && verified[m];
  }

  // --- which uses are reported ---

  /** At a spot where a use passes exactly when the spot is there and shows its text, the last use decides
      which uses are reported: those of other variables. */
  lemma ReportedBySpot(uses: seq<Use>, verified: seq<bool>, k: nat, last: nat, there: bool)
    requires |verified| == |uses| && k < |uses| && last < |uses| && uses[last].spot == uses[k].spot
    requires forall m | 0 <= m < |uses| && uses[m].spot == uses[k].spot ::
               Words(uses[m].variable) && (verified[m] <==> there && Expected(uses[last]) == Expected(uses[m]))
    ensures IsReported(uses, verified, k) <==> !there || uses[last].variable != uses[k].variable
  {
    forall m | 0 <= m < |uses| && uses[m].spot == uses[k].spot && Expected(uses[last]) == Expected(uses[m])
      ensures uses[last].variable == uses[m].variable
    {
      ExpectationsTell(uses[last], uses[m]);
    }
    assert there && uses[last].variable == uses[k].variable ==> verified[last];
  }

  predicate WordVariables(uses: seq<Use>) {
    forall i | 0 <= i < |uses| :: Words(uses[i].variable)
  }

  /** A use of a path segment is reported exactly when there is no such segment or the last use of it is
      of another variable. */
  lemma PathUseReported(r: Request, uses: seq<Use>, policy: Policy, verified: seq<bool>, k: nat)
    requires k < |uses| && uses[k].spot.PathSpot? && Checks(r, uses, policy, verified) && WordVariables(uses)
    ensures
      var last := LastAt(uses, |uses|, uses[k].spot);
      && last.Some?
      && (IsReported(uses, verified, k) <==>
            uses[k].spot.index >= |r.segments| || uses[last.value].variable != uses[k].variable)
  {
    var last := LastAt(uses, |uses|, uses[k].spot).value;
    forall m | 0 <= m < |uses| && uses[m].spot == uses[k].spot
      ensures verified[m] <==> uses[k].spot.index < |r.segments| && Expected(uses[last]) == Expected(uses[m])
    {
      PathIsVerified(r, uses, policy, m);
    }
    ReportedBySpot(uses, verified, k, last, uses[k].spot.index < |r.segments|);
  }

  /** A body use at a leaf is reported exactly when the last use of its path is of another variable. */
  lemma JsonUseReported(r: Request, uses: seq<Use>, policy: Policy, verified: seq<bool>, k: nat)
    requires k < |uses| && uses[k].spot.JsonSpot? && r.body.Some? && Checks(r, uses, policy, verified)
    requires WordVariables(uses)
    requires WellFormed(r.body.value) && SafeTree(r.body.value) && IndexedUses(r.body.value, JsonUses(uses))
    requires var p := ParsePath(uses[k].spot.path); p != [] && Get(r.body.value, p).Some?
    ensures
      var last := LastAt(uses, |uses|, uses[k].spot);
      last.Some? && (IsReported(uses, verified, k) <==> uses[last.value].variable != uses[k].variable)
  {
    var last := LastAt(uses, |uses|, uses[k].spot).value;
    forall m | 0 <= m < |uses| && uses[m].spot == uses[k].spot
      ensures verified[m] <==> Expected(uses[last]) == Expected(uses[m])
    {
      JsonIsVerified(r, uses, policy, m);
    }
    ReportedBySpot(uses, verified, k, last, true);
  }

  /** A use of a header, parameter, cookie or field that stands for one pair is reported exactly when it is
      not sent, or the last use of the name is of another variable, or no use of the variable asks for
      what is kept: its text in a header, the bare reference elsewhere. */
  lemma PairUseReported(r: Request, uses: seq<Use>, policy: Policy, verified: seq<bool>, k: nat, at: nat)
    requires k < |uses| && uses[k].spot.PairSpot? && Only(PairsOf(r, uses[k].spot.kind), uses[k].spot.name, at)
    requires Checks(r, uses, policy, verified) && WordVariables(uses)
    ensures
      var last := LastAt(uses, |uses|, uses[k].spot);
      && last.Some?
      && (IsReported(uses, verified, k) <==>
            || !Sendable(uses[k], policy)
            || uses[last.value].variable != uses[k].variable
            || (!uses[k].spot.kind.HeaderPair? && !AsksForReference(uses, k)))
  {
    var last := LastAt(uses, |uses|, uses[k].spot).value;
    var text := PairText(uses[last]);
    forall m | 0 <= m < |uses| && uses[m].spot == uses[k].spot
      ensures verified[m] <==> Sendable(uses[k], policy) && text == Expected(uses[m])
    {
      OnlyPairIsVerified(r, uses, policy, m, at);
    }
    if uses[k].spot.kind.HeaderPair? {
      ReportedBySpot(uses, verified, k, last, Sendable(uses[k], policy));
    } else {
      ReferencesReported(uses, verified, k, last, Sendable(uses[k], policy));
    }
  }

  /** Some use of the same variable at the same spot asks for nothing around the value. */
  predicate AsksForReference(uses: seq<Use>, k: nat)
    requires k < |uses|
  {
    exists m :: 0 <= m < |uses| && uses[m].spot == uses[k].spot && uses[m].variable == uses[k].variable
                && uses[m].wrapper == ""
  }

  lemma ReferencesReported(uses: seq<Use>, verified: seq<bool>, k: nat, last: nat, there: bool)
    requires |verified| == |uses| && k < |uses| && last < |uses| && uses[last].spot == uses[k].spot
    requires WordVariables(uses)
    requires forall m | 0 <= m < |uses| && uses[m].spot == uses[k].spot ::
               verified[m] <==> there && Reference(uses[last].variable) == Expected(uses[m])
    ensures IsReported(uses, verified, k) <==>
              !there || uses[last].variable != uses[k].variable || !AsksForReference(uses, k)
  {
    var v := uses[last].variable;
    assert "" + Reference(v) == Reference(v);
    forall m | 0 <= m < |uses| && uses[m].spot == uses[k].spot
      ensures Reference(v) == Expected(uses[m]) <==> uses[m].wrapper == "" && uses[m].variable == v
    {
      if Reference(v) == Expected(uses[m]) {
        ReferencesTell("", v, uses[m].wrapper, uses[m].variable);
      }
    }
  }

  /** A path that leads nowhere in the recorded body leads nowhere in the final one. */
  lemma VerifiedIsThere(r: Request, uses: seq<Use>, policy: Policy, k: nat)
    requires k < |uses| && uses[k].spot.JsonSpot? && r.body.Some?
    requires WellFormed(r.body.value) && SafeTree(r.body.value) && IndexedUses(r.body.value, JsonUses(uses))
    requires ParsePath(uses[k].spot.path) != [] && Verified(Mutated(r, uses, policy), uses[k], policy)
    ensures Get(r.body.value, ParsePath(uses[k].spot.path)).Some?
  {
    var last, c := LastJsonUse(uses, k);
    BodyIsTokened(r, uses, policy);
    SecretsAreApart(r, uses, policy);
    NowhereStays(r.body.value, JsonUses(uses), SecretsOf(r, uses, policy), c);
  }

  lemma NowhereStays(body: Json, consumers: seq<Consumer>, secrets: seq<Secret>, c: nat)
    requires BodyAndSubs(body, consumers, secrets) && c < |consumers|
    requires ParsePath(consumers[c].path) != []
    ensures
      var subs := Subs(consumers, secrets);
      Get(body, ParsePath(consumers[c].path)).None? ==>
        PathValues(Tokened(body, subs, |subs|), consumers[c].path) == []
  {
    var subs := Subs(consumers, secrets);
    forall i | 0 <= i < |subs| && subs[i].pos != [] && Get(body, subs[i].pos).Some?
      ensures Get(body, subs[i].pos).value.IsScalar()
    {
      SubsAreAtLeaves(body, consumers, secrets, i);
    }
    assert subs[c] == ConsumerSub(c, consumers[c]);
    TokenedKeepsShape(body, subs, |subs|);
    assert SameAt(Tokened(body, subs, |subs|), body, subs[c].pos);
    SubsAreAtLeaves(body, consumers, secrets, c);
    PathValuesReadThePosition(Tokened(body, subs, |subs|), subs[c].pos);
  }
}
