/** One causal pass over a run: which earlier response value each request value comes from
    (backend/app/services/auto_correlator.py). */
module AutoCorrelation {
  import opened Wrappers
  import opened Text
  import opened Naming
  import opened Occurrences

  // --- what may be a source or a target ---

  const NOT_REPLAYED: set<string> := {
    "content-length", "connection", "host", "transfer-encoding", "cookie", "postman-token", "accept-encoding",
    "user-agent"
  }

  const NOISE_HEADERS: set<string> := {
    "date", "server", "connection", "content-length", "transfer-encoding", "content-encoding", "cf-ray",
    "x-powered-by", "via", "age", "keep-alive", "vary", "cache-control", "expires", "content-type", "accept-ranges"
  }

  const PLACEHOLDERS: set<string> := {
    "string", "<string>", "{{string}}", "guid", "uuid", "id", "0", "null", "undefined", "none",
    "00000000-0000-0000-0000-000000000000"
  }

  function KeyOr(o: Occurrence, otherwise: string): string {
    if o.key.Some? && o.key.value != "" then o.key.value else otherwise
  }

  predicate IsTarget(sink: Occurrence) {
    sink.place.Header? ==> LowerAll(KeyOr(sink, sink.path)) !in NOT_REPLAYED
  }

  predicate IsPlaceholder(value: string) {
    LowerAll(Strip(value, IsSpace)) in PLACEHOLDERS
  }

  function RawCount(sources: seq<Occurrence>, raw: string): nat {
    if sources == [] then 0
    else RawCount(sources[..|sources| - 1], raw) + (if sources[|sources| - 1].raw == raw then 1 else 0)
  }

  /** A response value that later requests may use: unique in its response, real data. */
  predicate IsSource(e: Execution, src: Occurrence) {
    && !src.place.Cookie?
    && (src.place.Header? ==> LowerAll(KeyOr(src, "")) !in NOISE_HEADERS)
    && !src.kind.NullKind? && !src.kind.BooleanKind?
    && RawCount(e.sources, src.raw) == 1
    && src.raw != "" && !IsPlaceholder(src.raw)
  }

  function Filter(e: Execution, sources: seq<Occurrence>): seq<Occurrence> {
    if sources == [] then []
    else
      Filter(e, sources[..|sources| - 1])
      + (if IsSource(e, sources[|sources| - 1]) then [sources[|sources| - 1]] else [])
  }

  function Produced(e: Execution): seq<Occurrence> {
    if e.usable then Filter(e, e.sources) else []
  }

  /** The sources known when execution `i` makes its request. */
  function SourcesBefore(run: seq<Execution>, i: nat): seq<Occurrence>
    requires i <= |run|
  {
    if i == 0 then [] else SourcesBefore(run, i - 1) + Produced(run[i - 1])
  }

  // --- concrete values ---

  function LastName(s: string): Option<string>
    decreases |s|
  {
    if s == "" then None
    else if IsPathSeparator(s[0]) then LastName(s[1..])
    else
      var n := Span(s, NotPathSeparator);
      var rest := LastName(s[n..]);
      if rest.Some? || s[..n] == "$" || IsDecimal(s[..n]) then rest else Some(s[..n])
  }

  function FieldName(o: Occurrence): string {
    var last := LastName(o.path);
    KeyOr(o, if last.Some? then last.value else o.path)
  }

  predicate IsNamedIdentifier(src: Occurrence, sink: Occurrence) {
    var name := NormalizedName(FieldName(src));
    && |name| >= 4
    && Equivalent(FieldName(src), FieldName(sink))
    && (Ends(name, "id") || Ends(name, "guid") || Ends(name, "uuid"))
  }

  /** A source whose value the sink carries, and is worth correlating. */
  predicate Supplies(src: Occurrence, sink: Occurrence, segments: seq<string>, minLength: nat) {
    && Match(src.raw, sink).Some?
    && (Excluded(src, minLength).None? || IsNamedIdentifier(src, sink) || NamesItsResource(src, sink, segments))
  }

  function Suppliers(sources: seq<Occurrence>, sink: Occurrence, segments: seq<string>, minLength: nat)
    : seq<Occurrence>
  {
    if sources == [] then []
    else
      Suppliers(sources[..|sources| - 1], sink, segments, minLength)
      + (if Supplies(sources[|sources| - 1], sink, segments, minLength) then [sources[|sources| - 1]] else [])
  }

  function FirstSupplier(sources: seq<Occurrence>, sink: Occurrence, segments: seq<string>, minLength: nat):
    Option<Occurrence>
  {
    var all := Suppliers(sources, sink, segments, minLength);
    if all == [] then None else Some(all[0])
  }

  /** The first supplier is the earliest listed source that supplies the sink. */
  lemma {:induction false} FirstSupplierIsEarliest(sources: seq<Occurrence>, sink: Occurrence, segments: seq<string>,
                                                   minLength: nat)
    ensures
      var first := FirstSupplier(sources, sink, segments, minLength);
      if first.None? then forall k | 0 <= k < |sources| :: !Supplies(sources[k], sink, segments, minLength)
      else exists k :: 0 <= k < |sources| && sources[k] == first.value
             && Supplies(sources[k], sink, segments, minLength)
             && forall j | 0 <= j < k :: !Supplies(sources[j], sink, segments, minLength)
  {
    if sources != [] {
      var front := sources[..|sources| - 1];
      FirstSupplierIsEarliest(front, sink, segments, minLength);
      var before := FirstSupplier(front, sink, segments, minLength);
      if before.Some? {
        var k :| 0 <= k < |front| && front[k] == before.value && Supplies(front[k], sink, segments, minLength)
          && forall j | 0 <= j < k :: !Supplies(front[j], sink, segments, minLength);
        assert sources[k] == front[k] && forall j | 0 <= j < k :: sources[j] == front[j];
      } else if Supplies(sources[|sources| - 1], sink, segments, minLength) {
        assert forall j | 0 <= j < |sources| - 1 :: sources[j] == front[j];
      } else {
        assert forall j | 0 <= j < |sources| - 1 :: sources[j] == front[j];
      }
    }
  }

  /** What the first loop decides for a sink. */
  datatype Choice = Exact(src: Occurrence) | Pending | Nothing

  function ChoiceFor(sources: seq<Occurrence>, sink: Occurrence, segments: seq<string>, minLength: nat): Choice {
    if !IsTarget(sink) then Nothing
    else
      var src := FirstSupplier(sources, sink, segments, minLength);
      if src.Some? then Exact(src.value) else if IsPlaceholder(sink.raw) then Pending else Nothing
  }

  function Choices(e: Execution, sources: seq<Occurrence>, minLength: nat): (r: seq<Choice>)
    ensures |r| == |e.sinks|
  {
    seq(|e.sinks|, k requires 0 <= k < |e.sinks| => ChoiceFor(sources, e.sinks[k], e.segments, minLength))
  }

  // --- array rows ---

  /** The array that a JSON source lies in, and its row. */
  datatype Row = Row(list: string, row: string)

  /** `prefix[digits]` as array and row. */
  function RowOfBracket(s: string): Option<Row> {
    if s == "" || s[|s| - 1] != ']' then None
    else
      var inner := s[..|s| - 1];
      var n := TailSpan(inner, IsDigit);
      if n == 0 || n == |inner| || inner[|inner| - n - 1] != '[' then None
      else Some(Row(inner[..|inner| - n - 1], s))
  }

  /** An array row followed by `.name` or `['key']`. */
  function RowOfPath(path: string): Option<Row> {
    var n := TailSpan(path, IsWord);
    if n > 0 then
      if |path| > n && IsIdent(path[|path| - n..]) && path[|path| - n - 1] == '.'
      then RowOfBracket(path[..|path| - n - 1]) else None
    else if Ends(path, "']") then
      var inner := path[..|path| - 2];
      var m := TailSpan(inner, NotQuote);
      if m + 2 <= |inner| && inner[|inner| - m - 2] == '[' then RowOfBracket(inner[..|inner| - m - 2]) else None
    else None
  }

  function RowOf(src: Occurrence): Option<Row> {
    if src.place.JsonBody? then RowOfPath(src.path) else None
  }

  /** Arrays of one response. */
  type Group = (string, string)

  type Selection = map<Group, set<string>>

  function Selected(chosen: Selection, group: Group): set<string> {
    if group in chosen then chosen[group] else {}
  }

  function Select(chosen: Selection, src: Occurrence): Selection {
    var row := RowOf(src);
    if row.None? then chosen
    else
      var group := (src.execution, row.value.list);
      chosen[group := Selected(chosen, group) + {row.value.row}]
  }

  /** Rows selected by the concrete values of the first `k` sinks. */
  function SelectedBy(chosen: Selection, choices: seq<Choice>, k: nat): Selection
    requires k <= |choices|
  {
    if k == 0 then chosen
    else if choices[k - 1].Exact? then Select(SelectedBy(chosen, choices, k - 1), choices[k - 1].src)
    else SelectedBy(chosen, choices, k - 1)
  }

  /** Rows selected by all the requests before execution `i`. */
  function SelectedBefore(run: seq<Execution>, minLength: nat, i: nat): Selection
    requires i <= |run|
  {
    if i == 0 then map[]
    else
      var choices := Choices(run[i - 1], SourcesBefore(run, i - 1), minLength);
      SelectedBy(SelectedBefore(run, minLength, i - 1), choices, |choices|)
  }

  // --- placeholders ---

  function Namesakes(sources: seq<Occurrence>, name: string): seq<Occurrence> {
    if sources == [] then []
    else
      Namesakes(sources[..|sources| - 1], name)
      + (if Equivalent(FieldName(sources[|sources| - 1]), name) then [sources[|sources| - 1]] else [])
  }

  function GroupOf(src: Occurrence): Option<Group> {
    var row := RowOf(src);
    if row.Some? then Some((src.execution, row.value.list)) else None
  }

  function OutsideArrays(matches: seq<Occurrence>): seq<Occurrence> {
    if matches == [] then []
    else
      OutsideArrays(matches[..|matches| - 1])
      + (if RowOf(matches[|matches| - 1]).None? then [matches[|matches| - 1]] else [])
  }

  function Groups(matches: seq<Occurrence>): seq<Group> {
    if matches == [] then []
    else
      var before := Groups(matches[..|matches| - 1]);
      var group := GroupOf(matches[|matches| - 1]);
      if group.Some? && group.value !in before then before + [group.value] else before
  }

  function Members(matches: seq<Occurrence>, group: Group): seq<Occurrence> {
    if matches == [] then []
    else
      Members(matches[..|matches| - 1], group)
      + (if GroupOf(matches[|matches| - 1]) == Some(group) then [matches[|matches| - 1]] else [])
  }

  function InRows(members: seq<Occurrence>, rows: set<string>): seq<Occurrence> {
    if members == [] then []
    else
      var last := members[|members| - 1];
      InRows(members[..|members| - 1], rows)
      + (if RowOf(last).Some? && RowOf(last).value.row in rows then [last] else [])
  }

  /** The members of an array that an earlier selection leaves. */
  function Remaining(matches: seq<Occurrence>, chosen: Selection, group: Group): seq<Occurrence> {
    var members := Members(matches, group);
    if |members| <= 1 then members
    else if |Selected(chosen, group)| == 1 then InRows(members, Selected(chosen, group)) else []
  }

  /** One member of every array, or nothing when some array leaves none or several. */
  function Representatives(matches: seq<Occurrence>, chosen: Selection, groups: seq<Group>): Option<seq<Occurrence>> {
    if groups == [] then Some([])
    else
      var before := Representatives(matches, chosen, groups[..|groups| - 1]);
      var remaining := Remaining(matches, chosen, groups[|groups| - 1]);
      if before.None? || |remaining| != 1 then None else Some(before.value + remaining)
  }

  function Earliest(candidates: seq<Occurrence>): (r: Occurrence)
    requires candidates != []
    ensures r in candidates && forall c | c in candidates :: r.index <= c.index
  {
    if |candidates| == 1 then candidates[0]
    else
      var before := Earliest(candidates[..|candidates| - 1]);
      assert candidates == candidates[..|candidates| - 1] + [candidates[|candidates| - 1]];
      if candidates[|candidates| - 1].index < before.index then candidates[|candidates| - 1] else before
  }

  predicate OneValue(candidates: seq<Occurrence>) {
    candidates != [] && forall i | 0 <= i < |candidates| :: candidates[i].raw == candidates[0].raw
  }

  /** The source that a placeholder stands for, when its name leaves exactly one value. */
  function Inferred(sources: seq<Occurrence>, chosen: Selection, sink: Occurrence): Option<Occurrence> {
    var name := FieldName(sink);
    if |NormalizedName(name)| < 4 then None
    else
      var matches := Namesakes(sources, name);
      var fromArrays := Representatives(matches, chosen, Groups(matches));
      if fromArrays.None? || !OneValue(OutsideArrays(matches) + fromArrays.value) then None
      else Some(Earliest(OutsideArrays(matches) + fromArrays.value))
  }

  /** What each placeholder would stand for. */
  function Guesses(e: Execution, sources: seq<Occurrence>, chosen: Selection): (r: seq<Option<Occurrence>>)
    ensures |r| == |e.sinks|
  {
    seq(|e.sinks|, k requires 0 <= k < |e.sinks| => Inferred(sources, chosen, e.sinks[k]))
  }

  // --- uses and rules ---

  /** Sink `sink` of execution `execution` takes its value from `src`, for which `suggested` would be
      a readable variable name. */
  datatype Use = Use(execution: nat, sink: nat, src: Occurrence, suggested: string, consumer: Occurrence,
                     inferred: bool)

  function ConcreteUse(i: nat, k: nat, sink: Occurrence, src: Occurrence): Use {
    var wrapper := Match(src.raw, sink);
    Use(i, k, src, SuggestedName(src.key, src.path),
        sink.(wrapper := if wrapper.Some? then wrapper.value else None), false)
  }

  function GuessedUse(i: nat, k: nat, sink: Occurrence, src: Occurrence): Use {
    Use(i, k, src, SuggestedName(src.key, src.path), sink.(wrapper := None), true)
  }

  function ExactUses(i: nat, sinks: seq<Occurrence>, choices: seq<Choice>, k: nat): seq<Use>
    requires k <= |choices| == |sinks|
  {
    if k == 0 then []
    else if choices[k - 1].Exact? then
      ExactUses(i, sinks, choices, k - 1) + [ConcreteUse(i, k - 1, sinks[k - 1], choices[k - 1].src)]
    else ExactUses(i, sinks, choices, k - 1)
  }

  function PendingOf(choices: seq<Choice>, k: nat): (r: seq<nat>)
    requires k <= |choices|
    ensures forall x | 0 <= x < |r| :: r[x] < k && choices[r[x]].Pending?
    ensures forall x, y | 0 <= x < y < |r| :: r[x] < r[y]
  {
    if k == 0 then []
    else if choices[k - 1].Pending? then PendingOf(choices, k - 1) + [k - 1]
    else PendingOf(choices, k - 1)
  }

  function InferredUses(i: nat, sinks: seq<Occurrence>, guesses: seq<Option<Occurrence>>, pending: seq<nat>): seq<Use>
    requires |guesses| == |sinks| && forall x | 0 <= x < |pending| :: pending[x] < |sinks|
  {
    if pending == [] then []
    else
      var k := pending[|pending| - 1];
      InferredUses(i, sinks, guesses, pending[..|pending| - 1])
      + (if guesses[k].Some? then [GuessedUse(i, k, sinks[k], guesses[k].value)] else [])
  }

  /** The uses that the request of one execution makes. */
  function UsesIn(i: nat, e: Execution, choices: seq<Choice>, guesses: seq<Option<Occurrence>>): seq<Use>
    requires |choices| == |guesses| == |e.sinks|
  {
    ExactUses(i, e.sinks, choices, |choices|) + InferredUses(i, e.sinks, guesses, PendingOf(choices, |choices|))
  }

  function UsesFrom(i: nat, e: Execution, sources: seq<Occurrence>, chosen: Selection, minLength: nat): seq<Use> {
    UsesIn(i, e, Choices(e, sources, minLength), Guesses(e, sources, chosen))
  }

  function UsesOf(run: seq<Execution>, minLength: nat, i: nat): seq<Use>
    requires i < |run|
  {
    UsesFrom(i, run[i], SourcesBefore(run, i), SelectedBefore(run, minLength, i + 1), minLength)
  }

  /** The uses of every execution. */
  function Parts(run: seq<Execution>, minLength: nat): (r: seq<seq<Use>>)
    ensures |r| == |run|
  {
    seq(|run|, i requires 0 <= i < |run| => UsesOf(run, minLength, i))
  }

  function Together(parts: seq<seq<Use>>): seq<Use> {
    if parts == [] then [] else Together(parts[..|parts| - 1]) + parts[|parts| - 1]
  }

  function Uses(run: seq<Execution>, minLength: nat): seq<Use> {
    Together(Parts(run, minLength))
  }

  datatype Rule = Rule(name: string, producer: Occurrence, consumers: seq<Occurrence>, warned: bool)

  function KeyOf(r: Rule): Location {
    LocationOf(r.producer)
  }

  function RuleAt(rules: seq<Rule>, key: Location): (r: Option<nat>)
    ensures r.Some? ==> r.value < |rules| && KeyOf(rules[r.value]) == key
    ensures r.None? ==> forall i | 0 <= i < |rules| :: KeyOf(rules[i]) != key
  {
    if rules == [] then None
    else if KeyOf(rules[|rules| - 1]) == key then Some(|rules| - 1)
    else RuleAt(rules[..|rules| - 1], key)
  }

  /** The rules so far and the names they have taken. */
  datatype Book = Book(rules: seq<Rule>, taken: set<string>)

  function AddUse(b: Book, u: Use): Book {
    var at := RuleAt(b.rules, LocationOf(u.src));
    if at.Some? then
      var r := b.rules[at.value];
      b.(rules := b.rules[at.value := r.(consumers := r.consumers + [u.consumer], warned := r.warned || u.inferred)])
    else
      var name := Deduped(u.suggested, b.taken);
      Book(b.rules + [Rule(name, u.src, [u.consumer], u.inferred)], b.taken + {name})
  }

  function BookOf(uses: seq<Use>): Book {
    if uses == [] then Book([], {}) else AddUse(BookOf(uses[..|uses| - 1]), uses[|uses| - 1])
  }

  // --- the order of the run ---

  predicate InOrder(run: seq<Execution>) {
    forall i, k | 0 <= i < k < |run| :: run[i].index <= run[k].index
  }

  function Insert(e: Execution, run: seq<Execution>): seq<Execution> {
    if run == [] || run[|run| - 1].index <= e.index then run + [e]
    else Insert(e, run[..|run| - 1]) + [run[|run| - 1]]
  }

  /** `sorted(..., key=original_index)`: stable. */
  function Sorted(run: seq<Execution>): seq<Execution> {
    if run == [] then [] else Insert(run[|run| - 1], Sorted(run[..|run| - 1]))
  }

  lemma {:induction false} InsertIsPermutation(e: Execution, run: seq<Execution>)
    ensures multiset(Insert(e, run)) == multiset([e]) + multiset(run)
  {
    if run != [] && run[|run| - 1].index > e.index {
      InsertIsPermutation(e, run[..|run| - 1]);
      assert run == run[..|run| - 1] + [run[|run| - 1]];
    }
  }

  lemma {:induction false} InsertKeepsOrder(e: Execution, run: seq<Execution>)
    requires InOrder(run)
    ensures InOrder(Insert(e, run))
  {
    if run != [] && run[|run| - 1].index > e.index {
      var front, last := run[..|run| - 1], run[|run| - 1];
      InsertKeepsOrder(e, front);
      InsertIsPermutation(e, front);
      forall i | 0 <= i < |Insert(e, front)|
        ensures Insert(e, front)[i].index <= last.index
      {
        assert Insert(e, front)[i] in multiset(Insert(e, front));
        assert Insert(e, front)[i] == e || Insert(e, front)[i] in front;
      }
    }
  }

  /** The pass goes over the executions in the order of their indexes. */
  lemma {:induction false} SortedIsInOrder(run: seq<Execution>)
    ensures InOrder(Sorted(run))
  {
    if run != [] {
      SortedIsInOrder(run[..|run| - 1]);
      InsertKeepsOrder(run[|run| - 1], Sorted(run[..|run| - 1]));
    }
  }

  lemma {:induction false} SortedIsPermutation(run: seq<Execution>)
    ensures multiset(Sorted(run)) == multiset(run)
  {
    if run != [] {
      SortedIsPermutation(run[..|run| - 1]);
      InsertIsPermutation(run[|run| - 1], Sorted(run[..|run| - 1]));
      assert run == run[..|run| - 1] + [run[|run| - 1]];
    }
  }

  lemma InsertAtEnd(e: Execution, run: seq<Execution>)
    requires run == [] || run[|run| - 1].index <= e.index
    ensures Insert(e, run) == run + [e]
  {
  }

  /** A run in order is taken as it is. */
  lemma {:induction false} OrderIsKept(run: seq<Execution>)
    requires InOrder(run)
    ensures Sorted(run) == run
  {
    if run != [] {
      var front, last := run[..|run| - 1], run[|run| - 1];
      OrderIsKept(front);
      InsertAtEnd(last, front);
      assert run == front + [last];
    }
  }

  function Rules(run: seq<Execution>, minLength: nat): seq<Rule> {
    BookOf(Uses(Sorted(run), minLength)).rules
  }
}
