/** Putting variable references into a recorded request, supplying credentials at run time, and
    checking what is really in the final request (backend/app/services/jmx_builder.py:573-714). */
module RequestMutation {
  import opened Wrappers
  import opened Text
  import opened Json
  import opened JsonPath
  import opened JsonLeaves
  import opened JsonSubstitution
  import opened JsonSentinels
  import opened Naming

  datatype Pair = Pair(name: string, value: string)

  datatype Kind = QueryPair | HeaderPair | CookiePair | FormPair

  datatype Request = Request(segments: seq<string>, path: string, query: seq<Pair>, headers: seq<Pair>,
                             cookies: seq<Pair>, form: seq<Pair>, body: Option<Json>, raw: string)

  /** Where a consumer is: a path segment, a named pair, or a place in the JSON body. */
  datatype Spot = PathSpot(index: nat) | PairSpot(kind: Kind, name: string) | JsonSpot(path: string)

  /** One approved consumer of a variable in this request. */
  datatype Use = Use(spot: Spot, recorded: string, wrapper: string, variable: string, numeric: bool)

  /** The options and key lists that decide which credentials are supplied at run time and which
      headers and cookies are sent. */
  datatype Policy = Policy(externalize: bool, secretField: string -> bool, sensitiveHeader: string -> bool,
                           unsentHeader: string -> bool, droppedAgent: string -> bool, serverCookies: set<string>)

  /** What must stand at a use's spot in the end. */
  function Expected(u: Use): string {
    u.wrapper + Reference(u.variable)
  }

  // --- pairs ---

  function PairsOf(r: Request, k: Kind): seq<Pair> {
    match k
    case QueryPair => r.query
    case HeaderPair => r.headers
    case CookiePair => r.cookies
    case FormPair => r.form
  }

  function WithPairs(r: Request, k: Kind, pairs: seq<Pair>): Request {
    match k
    case QueryPair => r.(query := pairs)
    case HeaderPair => r.(headers := pairs)
    case CookiePair => r.(cookies := pairs)
    case FormPair => r.(form := pairs)
  }

  /** The first pair with the name and the recorded value. */
  function Recorded(pairs: seq<Pair>, name: string, value: string): (r: Option<nat>)
    ensures r.Some? ==> r.value < |pairs| && pairs[r.value] == Pair(name, value)
  {
    if pairs == [] then None
    else if pairs[0] == Pair(name, value) then Some(0)
    else
      var rest := Recorded(pairs[1..], name, value);
      if rest.None? then None else Some(rest.value + 1)
  }

  function Named(pairs: seq<Pair>, name: string): (r: Option<nat>)
    ensures r.Some? ==> r.value < |pairs| && pairs[r.value].name == name
    ensures r.None? ==> forall i | 0 <= i < |pairs| :: pairs[i].name != name
  {
    if pairs == [] then None
    else if pairs[0].name == name then Some(0)
    else
      var rest := Named(pairs[1..], name);
      assert pairs == [pairs[0]] + pairs[1..];
      if rest.None? then None else Some(rest.value + 1)
  }

  function Target(pairs: seq<Pair>, name: string, value: string): (r: Option<nat>)
    ensures r.Some? ==> r.value < |pairs| && pairs[r.value].name == name
    ensures r.None? ==> forall i | 0 <= i < |pairs| :: pairs[i].name != name
  {
    if Recorded(pairs, name, value).Some? then Recorded(pairs, name, value) else Named(pairs, name)
  }

  function PairsWith(pairs: seq<Pair>, name: string, value: string, text: string): seq<Pair> {
    var at := Target(pairs, name, value);
    if at.None? then pairs else pairs[at.value := Pair(name, text)]
  }

  /** The two loops of `_replace_pair`: exact match first, then by name only. */
  method ReplacePair(pairs: seq<Pair>, name: string, value: string, text: string) returns (out: seq<Pair>, n: nat)
    ensures out == PairsWith(pairs, name, value, text)
    ensures n == if exists i :: 0 <= i < |pairs| && pairs[i].name == name then 1 else 0
  {
    var i := 0;
    while i < |pairs|
      invariant 0 <= i <= |pairs|
      invariant Recorded(pairs, name, value) == Shifted(Recorded(pairs[i..], name, value), i)
    {
      if pairs[i] == Pair(name, value) {
        return pairs[i := Pair(name, text)], 1;
      }
      assert pairs[i..][1..] == pairs[i + 1..];
      i := i + 1;
    }
    i := 0;
    while i < |pairs|
      invariant 0 <= i <= |pairs|
      invariant Named(pairs, name) == Shifted(Named(pairs[i..], name), i)
    {
      if pairs[i].name == name {
        return pairs[i := Pair(name, text)], 1;
      }
      assert pairs[i..][1..] == pairs[i + 1..];
      i := i + 1;
    }
    return pairs, 0;
  }

  function Shifted(r: Option<nat>, by': nat): Option<nat> {
    if r.None? then None else Some(r.value + by')
  }

  /** Only headers keep the text around the value. */
  function PairText(u: Use): string {
    if u.spot.PairSpot? && u.spot.kind.HeaderPair? then Expected(u) else Reference(u.variable)
  }

  // --- the substitutions outside the body ---

  function Joined(segments: seq<string>): string {
    if segments == [] then ""
    else if |segments| == 1 then segments[0]
    else Joined(segments[..|segments| - 1]) + "/" + segments[|segments| - 1]
  }

  function Placed(r: Request, u: Use): Request {
    match u.spot
    case PathSpot(i) =>
      if i < |r.segments| then
        r.(segments := r.segments[i := Expected(u)], path := "/" + Joined(r.segments[i := Expected(u)]))
      else r
    case PairSpot(kind, name) => WithPairs(r, kind, PairsWith(PairsOf(r, kind), name, u.recorded, PairText(u)))
    case JsonSpot(_) => r
  }

  function AfterUses(r: Request, uses: seq<Use>, n: nat): Request
    requires n <= |uses|
  {
    if n == 0 then r else Placed(AfterUses(r, uses, n - 1), uses[n - 1])
  }

  // --- the JSON body ---

  function JsonUses(uses: seq<Use>): seq<Consumer> {
    if uses == [] then []
    else
      var u := uses[|uses| - 1];
      JsonUses(uses[..|uses| - 1])
      + (if u.spot.JsonSpot? then [Consumer(u.spot.path, u.variable, u.wrapper, u.numeric)] else [])
  }

  /** The key of a leaf, when it is a member. */
  function LeafKey(path: seq<Seg>): Option<string> {
    if path != [] && path[|path| - 1].Member? then Some(path[|path| - 1].key) else None
  }

  /** A credential field with a literal value that no consumer replaces. */
  predicate IsBodySecret(leaf: Leaf, uses: seq<Consumer>, policy: Policy) {
    && leaf.value.Str? && leaf.value.s != "" && !Occurs("${", leaf.value.s)
    && (forall i | 0 <= i < |uses| :: uses[i].path != PathText(leaf.path))
    && LeafKey(leaf.path).Some? && policy.secretField(LeafKey(leaf.path).value)
  }

  function BodySecrets(leaves: seq<Leaf>, uses: seq<Consumer>, policy: Policy): seq<Secret> {
    if leaves == [] then []
    else
      var leaf := leaves[|leaves| - 1];
      BodySecrets(leaves[..|leaves| - 1], uses, policy)
      + (if IsBodySecret(leaf, uses, policy)
         then [Secret(PathText(leaf.path), Sanitized(LeafKey(leaf.path).value))] else [])
  }

  function SecretsOf(r: Request, uses: seq<Use>, policy: Policy): seq<Secret> {
    if policy.externalize && r.body.Some? then BodySecrets(Leaves([], r.body.value), JsonUses(uses), policy) else []
  }

  function BodySubs(r: Request, uses: seq<Use>, policy: Policy): seq<Sub> {
    Subs(JsonUses(uses), SecretsOf(r, uses, policy))
  }

  function WithBody(r: Request, uses: seq<Use>, policy: Policy): Request {
    var subs := BodySubs(r, uses, policy);
    if r.body.None? || subs == [] then r
    else r.(body := Some(Tokened(r.body.value, subs, |subs|)), raw := Substituted(r.body.value, subs))
  }

  // --- credentials in form fields and headers ---

  function PropertyCall(name: string): string {
    "${__P(" + Sanitized(name) + ",)}"
  }

  function SecretFields(form: seq<Pair>, policy: Policy): (r: seq<Pair>)
    ensures |r| == |form|
  {
    seq(|form|, i requires 0 <= i < |form| =>
      if form[i].value != "" && !Occurs("${", form[i].value) && policy.secretField(form[i].name)
      then Pair(form[i].name, PropertyCall(form[i].name)) else form[i])
  }

  function SecretHeaders(headers: seq<Pair>, policy: Policy): (r: seq<Pair>)
    ensures |r| == |headers|
  {
    seq(|headers|, i requires 0 <= i < |headers| =>
      if !policy.unsentHeader(headers[i].name) && !Occurs("${", headers[i].value)
         && policy.sensitiveHeader(headers[i].name)
      then Pair(headers[i].name, PropertyCall(headers[i].name)) else headers[i])
  }

  function WithSecrets(r: Request, policy: Policy): Request {
    if policy.externalize then
      r.(form := SecretFields(r.form, policy), headers := SecretHeaders(r.headers, policy))
    else r
  }

  /** The final request. */
  function Mutated(r: Request, uses: seq<Use>, policy: Policy): Request {
    WithSecrets(WithBody(AfterUses(r, uses, |uses|), uses, policy), policy)
  }

  // --- the final check ---

  predicate HasPair(pairs: seq<Pair>, name: string, value: string) {
    Pair(name, value) in pairs
  }

  predicate Sent(header: string, policy: Policy) {
    !policy.unsentHeader(header) && !policy.droppedAgent(header)
  }

  /** Whether the final request holds what the use asks for, where it will be sent. */
  predicate Verified(r: Request, u: Use, policy: Policy) {
    match u.spot
    case PathSpot(i) => i < |r.segments| && r.segments[i] == Expected(u)
    case PairSpot(QueryPair, name) => HasPair(r.query, name, Expected(u))
    case PairSpot(FormPair, name) => HasPair(r.form, name, Expected(u))
    case PairSpot(HeaderPair, name) => Sent(name, policy) && HasPair(r.headers, name, Expected(u))
    case PairSpot(CookiePair, name) => name !in policy.serverCookies && HasPair(r.cookies, name, Expected(u))
    case JsonSpot(path) => r.body.Some? && Str(Expected(u)) in PathValues(r.body.value, path)
  }

  predicate GoodUses(uses: seq<Use>) {
    forall i | 0 <= i < |uses| :: Words(uses[i].variable) && Free(uses[i].wrapper)
  }

  predicate Serialisable(r: Request) {
    r.body.Some? ==> WellFormed(r.body.value) && Unmarked(r.body.value)
  }

  lemma {:induction false} JsonUsesAreGood(uses: seq<Use>)
    requires GoodUses(uses)
    ensures forall i | 0 <= i < |JsonUses(uses)| :: GoodConsumer(JsonUses(uses)[i])
  {
    if uses != [] {
      JsonUsesAreGood(uses[..|uses| - 1]);
    }
  }

  lemma {:induction false} BodySecretsAreGood(leaves: seq<Leaf>, uses: seq<Consumer>, policy: Policy)
    ensures forall i | 0 <= i < |BodySecrets(leaves, uses, policy)| ::
              Words(BodySecrets(leaves, uses, policy)[i].property)
  {
    if leaves != [] {
      BodySecretsAreGood(leaves[..|leaves| - 1], uses, policy);
      var key := LeafKey(leaves[|leaves| - 1].path);
      if key.Some? {
        SanitizedIsIdent(key.value);
      }
    }
  }

  lemma RequestsOfUses(r: Request, uses: seq<Use>, policy: Policy)
    requires GoodUses(uses)
    ensures GoodRequests(JsonUses(uses), SecretsOf(r, uses, policy))
  {
    JsonUsesAreGood(uses);
    if policy.externalize && r.body.Some? {
      BodySecretsAreGood(Leaves([], r.body.value), JsonUses(uses), policy);
    }
  }

  lemma {:induction false} UsesLeaveTheBody(r: Request, uses: seq<Use>, n: nat)
    requires n <= |uses|
    ensures AfterUses(r, uses, n).body == r.body && AfterUses(r, uses, n).raw == r.raw
  {
    if n > 0 {
      UsesLeaveTheBody(r, uses, n - 1);
    }
  }

  method PlaceOne(r: Request, u: Use) returns (out: Request)
    ensures out == Placed(r, u)
  {
    out := r;
    match u.spot {
      case PathSpot(i) =>
        if i < |r.segments| {
          var segments := r.segments[i := Expected(u)];
          out := r.(segments := segments, path := "/" + Joined(segments));
        }
      case PairSpot(kind, name) =>
        var pairs, _ := ReplacePair(PairsOf(r, kind), name, u.recorded, PairText(u));
        out := WithPairs(r, kind, pairs);
      case JsonSpot(_) =>
    }
  }

  /** The copy of the request is changed step by step, then checked use by use. */
  method MutateRequest(r: Request, uses: seq<Use>, policy: Policy) returns (final: Request, verified: seq<bool>)
    requires Serialisable(r) && GoodUses(uses)
    ensures final == Mutated(r, uses, policy)
    ensures |verified| == |uses| && forall i | 0 <= i < |uses| :: verified[i] == Verified(final, uses[i], policy)
  {
    var consumers;
    final, consumers := PlaceAll(r, uses);
    UsesLeaveTheBody(r, uses, |uses|);
    final := SubstituteBody(final, uses, policy, consumers);
    final := WithSecrets(final, policy);
    verified := CheckAll(final, uses, policy);
  }

  /** The loop over the uses: places outside the body at once, those in the body are collected. */
  method PlaceAll(r: Request, uses: seq<Use>) returns (placed: Request, consumers: seq<Consumer>)
    ensures placed == AfterUses(r, uses, |uses|) && consumers == JsonUses(uses)
  {
    placed := r;
    consumers := [];
    for i := 0 to |uses|
      invariant placed == AfterUses(r, uses, i) && consumers == JsonUses(uses[..i])
    {
      assert uses[..i + 1][..i] == uses[..i];
      placed := PlaceOne(placed, uses[i]);
      if uses[i].spot.JsonSpot? {
        consumers := consumers + [Consumer(uses[i].spot.path, uses[i].variable, uses[i].wrapper, uses[i].numeric)];
      }
    }
    assert uses[..|uses|] == uses;
  }

  /** The loop of the final check. */
  method CheckAll(final: Request, uses: seq<Use>, policy: Policy) returns (verified: seq<bool>)
    ensures |verified| == |uses| && forall i | 0 <= i < |uses| :: verified[i] == Verified(final, uses[i], policy)
  {
    verified := [];
    for i := 0 to |uses|
      invariant |verified| == i && forall k | 0 <= k < i :: verified[k] == Verified(final, uses[k], policy)
    {
      verified := verified + [Verified(final, uses[i], policy)];
    }
  }

  // --- the report ---

  /** A use is reported when no use of the same variable at the same spot passed the final check. */
  predicate IsReported(uses: seq<Use>, verified: seq<bool>, k: nat)
    requires |verified| == |uses| && k < |uses|
  {
    forall m | 0 <= m < |uses| && uses[m].spot == uses[k].spot && uses[m].variable == uses[k].variable :: !verified[m]
  }

  /** The loop that collects the keys that passed, and the one that reports the others. */
  method ReportUnmaterialised(uses: seq<Use>, verified: seq<bool>) returns (missing: seq<nat>)
    requires |verified| == |uses|
    ensures forall k | 0 <= k < |uses| :: k in missing <==> IsReported(uses, verified, k)
    ensures forall x | 0 <= x < |missing| :: missing[x] < |uses|
    ensures forall x, y | 0 <= x < y < |missing| :: missing[x] < missing[y]
  {
    var keys: set<(Spot, string)> := {};
    for i := 0 to |uses|
      invariant forall m | 0 <= m < i && verified[m] :: (uses[m].spot, uses[m].variable) in keys
      invariant forall key | key in keys ::
                  exists m :: 0 <= m < i && verified[m] && key == (uses[m].spot, uses[m].variable)
    {
      if verified[i] {
        keys := keys + {(uses[i].spot, uses[i].variable)};
      }
    }
    missing := [];
    for i := 0 to |uses|
      invariant forall k | 0 <= k < i :: k in missing <==> IsReported(uses, verified, k)
      invariant forall x | 0 <= x < |missing| :: missing[x] < i
      invariant forall x, y | 0 <= x < y < |missing| :: missing[x] < missing[y]
    {
      if (uses[i].spot, uses[i].variable) !in keys {
        missing := missing + [i];
      }
    }
  }

  method SubstituteBody(r: Request, uses: seq<Use>, policy: Policy, consumers: seq<Consumer>) returns (out: Request)
    requires Serialisable(r) && GoodUses(uses) && consumers == JsonUses(uses)
    ensures out == WithBody(r, uses, policy)
  {
    out := r;
    var secrets := SecretsOf(r, uses, policy);
    if r.body.Some? && (consumers != [] || secrets != []) {
      RequestsOfUses(r, uses, policy);
      var raw, parsed, done := ApplyJsonSubs(r.body.value, consumers, secrets);
      out := r.(body := Some(parsed), raw := raw);
    }
  }
}
