/** The element tree of a generated plan and the check of its nesting
    (backend/app/services/jmx_builder.py:210-357, backend/app/services/jmx_validator.py:80-97). */
module JmxTree {
  import opened Text

  /** What a test element is; its own properties are not part of the nesting. */
  datatype Test =
    | TestPlan
    | ThreadGroup
    | CookieManager
    | CacheManager
    | Variables(names: seq<string>)
    | Sampler(position: nat)
    | HeaderManager
    | ClientCookies
    | Extractor(variable: string)

  /** A child of a tree element: another tree element, or a test element. */
  datatype Node = Tree(children: seq<Node>) | Element(test: Test)

  // --- the grammar ---

  /** Test element and tree element take turns, at every level. */
  predicate Alternates(kids: seq<Node>) {
    && |kids| % 2 == 0
    && forall i | 0 <= i < |kids| ::
         if i % 2 == 0 then kids[i].Element? else kids[i].Tree? && Alternates(kids[i].children)
  }

  // --- the validator ---

  datatype Failure = StrayTree | NotFollowed(test: Test)

  /** What the check reports, in order. */
  function Failures(kids: seq<Node>): seq<Failure> {
    if kids == [] then []
    else if kids[0].Tree? then [StrayTree] + Failures(kids[1..])
    else if |kids| < 2 || !kids[1].Tree? then [NotFollowed(kids[0].test)] + Failures(kids[1..])
    else Failures(kids[1].children) + Failures(kids[2..])
  }

  /** The index loop, which goes into every tree element that follows a test element. */
  method CheckPairing(kids: seq<Node>) returns (failures: seq<Failure>)
    ensures failures == Failures(kids)
  {
    failures := [];
    var i := 0;
    while i < |kids|
      invariant 0 <= i <= |kids|
      invariant failures + Failures(kids[i..]) == Failures(kids)
    {
      ghost var before, rest := failures, kids[i..];
      if kids[i].Tree? {
        failures := failures + [StrayTree];
        Associates(before, [StrayTree], Failures(rest[1..]));
        assert rest[1..] == kids[i + 1..];
        i := i + 1;
      } else if i + 1 >= |kids| || !kids[i + 1].Tree? {
        failures := failures + [NotFollowed(kids[i].test)];
        Associates(before, [NotFollowed(kids[i].test)], Failures(rest[1..]));
        assert rest[1..] == kids[i + 1..];
        i := i + 1;
      } else {
        var inner := CheckPairing(kids[i + 1].children);
        failures := failures + inner;
        Associates(before, inner, Failures(rest[2..]));
        assert rest[2..] == kids[i + 2..];
        i := i + 2;
      }
    }
  }

  lemma AlternatesInPairs(first: Node, second: Node, rest: seq<Node>)
    ensures Alternates([first, second] + rest) <==>
              first.Element? && second.Tree? && Alternates(second.children) && Alternates(rest)
  {
    var kids := [first, second] + rest;
    if Alternates(kids) {
      assert kids[0] == first && kids[1] == second;
      forall i | 0 <= i < |rest|
        ensures if i % 2 == 0 then rest[i].Element? else rest[i].Tree? && Alternates(rest[i].children)
      {
        assert kids[i + 2] == rest[i] && (i + 2) % 2 == i % 2;
      }
    }
    if first.Element? && second.Tree? && Alternates(second.children) && Alternates(rest) {
      forall i | 0 <= i < |kids|
        ensures if i % 2 == 0 then kids[i].Element? else kids[i].Tree? && Alternates(kids[i].children)
      {
        if i >= 2 {
          assert kids[i] == rest[i - 2] && (i - 2) % 2 == i % 2;
        }
      }
    }
  }

  /** The check reports nothing exactly on well nested trees. */
  lemma {:induction false} NothingReportedIffAlternates(kids: seq<Node>)
    ensures Failures(kids) == [] <==> Alternates(kids)
  {
    if kids != [] {
      if |kids| >= 2 && kids[0].Element? && kids[1].Tree? {
        NothingReportedIffAlternates(kids[1].children);
        NothingReportedIffAlternates(kids[2..]);
        AlternatesInPairs(kids[0], kids[1], kids[2..]);
        assert kids == [kids[0], kids[1]] + kids[2..];
      } else {
        assert Failures(kids) != [];
        NotAlternating(kids);
      }
    }
  }

  lemma NotAlternating(kids: seq<Node>)
    requires kids != [] && !(|kids| >= 2 && kids[0].Element? && kids[1].Tree?)
    ensures !Alternates(kids)
  {
    if |kids| >= 2 && kids[0].Element? {
      assert 1 % 2 != 0;
    }
  }

  // --- the builder ---

  /** A request of the run: whether it sends headers or client cookies is decided by the final
      request. */
  datatype Execution = Execution(id: string, sendsHeaders: bool, setsCookies: bool)

  datatype Rule = Rule(variable: string, producer: string, consumers: seq<string>, enabled: bool)

  datatype Options = Options(cacheManager: bool, hostVariables: seq<string>, declareVariables: bool)

  function Active(rules: seq<Rule>): seq<Rule> {
    if rules == [] then []
    else Active(rules[..|rules| - 1]) + (if rules[|rules| - 1].enabled then [rules[|rules| - 1]] else [])
  }

  /** A test element with an empty tree element. */
  function Leafed(test: Test): seq<Node> {
    [Element(test), Tree([])]
  }

  function Extractors(rules: seq<Rule>, id: string): seq<Node> {
    if rules == [] then []
    else
      Extractors(rules[..|rules| - 1], id)
      + (if rules[|rules| - 1].producer == id then Leafed(Extractor(rules[|rules| - 1].variable)) else [])
  }

  /** What is nested below a sampler. */
  function Below(e: Execution, rules: seq<Rule>): seq<Node> {
    (if e.sendsHeaders then Leafed(HeaderManager) else [])
    + (if e.setsCookies then Leafed(ClientCookies) else [])
    + Extractors(rules, e.id)
  }

  function Sampled(run: seq<Execution>, rules: seq<Rule>, n: nat): seq<Node>
    requires n <= |run|
  {
    if n == 0 then []
    else Sampled(run, rules, n - 1) + [Element(Sampler(n - 1)), Tree(Below(run[n - 1], rules))]
  }

  function Names(rules: seq<Rule>, have: seq<string>): seq<string> {
    if rules == [] then have
    else
      var before := Names(rules[..|rules| - 1], have);
      if rules[|rules| - 1].variable in before then before else before + [rules[|rules| - 1].variable]
  }

  function Declared(rules: seq<Rule>, o: Options): seq<string> {
    if o.declareVariables then Names(rules, o.hostVariables) else o.hostVariables
  }

  function Managers(o: Options): seq<Node> {
    Leafed(CookieManager) + (if o.cacheManager then Leafed(CacheManager) else [])
  }

  /** The variable block goes to the front. */
  function GroupTree(run: seq<Execution>, rules: seq<Rule>, o: Options): seq<Node> {
    (if Declared(rules, o) != [] then Leafed(Variables(Declared(rules, o))) else [])
    + (Managers(o) + Sampled(run, rules, |run|))
  }

  /** The children of the root's only child. */
  function Built(run: seq<Execution>, rules: seq<Rule>, o: Options): seq<Node> {
    [Element(TestPlan), Tree([Element(ThreadGroup), Tree(GroupTree(run, Active(rules), o))])]
  }

  method SamplerTree(e: Execution, rules: seq<Rule>) returns (kids: seq<Node>)
    ensures kids == Below(e, rules)
  {
    kids := [];
    if e.sendsHeaders {
      kids := kids + Leafed(HeaderManager);
    }
    if e.setsCookies {
      kids := kids + Leafed(ClientCookies);
    }
    ghost var before := kids;
    for i := 0 to |rules|
      invariant kids == before + Extractors(rules[..i], e.id)
    {
      assert rules[..i + 1][..i] == rules[..i];
      if rules[i].producer == e.id {
        kids := kids + Leafed(Extractor(rules[i].variable));
      }
    }
    assert rules[..|rules|] == rules;
  }

  method DeclaredNames(rules: seq<Rule>, o: Options) returns (names: seq<string>)
    ensures names == Declared(rules, o)
  {
    names := o.hostVariables;
    if o.declareVariables {
      for i := 0 to |rules|
        invariant names == Names(rules[..i], o.hostVariables)
      {
        assert rules[..i + 1][..i] == rules[..i];
        if rules[i].variable !in names {
          names := names + [rules[i].variable];
        }
      }
      assert rules[..|rules|] == rules;
    }
  }

  /** Managers, samplers in the order of the run, and the variable block inserted at the front. */
  method Build(run: seq<Execution>, rules: seq<Rule>, o: Options) returns (top: seq<Node>)
    ensures top == Built(run, rules, o)
  {
    var active := Active(rules);
    var group := Leafed(CookieManager);
    assert group + [] == group;
    if o.cacheManager {
      group := group + Leafed(CacheManager);
    }
    for i := 0 to |run|
      invariant group == Managers(o) + Sampled(run, active, i)
    {
      var kids := SamplerTree(run[i], active);
      Associates(Managers(o), Sampled(run, active, i), [Element(Sampler(i)), Tree(kids)]);
      group := group + [Element(Sampler(i)), Tree(kids)];
    }
    var names := DeclaredNames(active, o);
    assert [] + group == group;
    if names != [] {
      group := Leafed(Variables(names)) + group;
    }
    top := [Element(TestPlan), Tree([Element(ThreadGroup), Tree(group)])];
  }

  // --- the built tree is well nested ---

  lemma {:induction false} AlternatesTogether(a: seq<Node>, b: seq<Node>)
    requires Alternates(a) && Alternates(b)
    ensures Alternates(a + b)
    decreases |a|
  {
    if a == [] {
      assert a + b == b;
    } else {
      assert a == [a[0], a[1]] + a[2..];
      AlternatesInPairs(a[0], a[1], a[2..]);
      AlternatesTogether(a[2..], b);
      AlternatesInPairs(a[0], a[1], a[2..] + b);
      assert a + b == [a[0], a[1]] + (a[2..] + b);
    }
  }

  lemma PairAlternates(test: Test, kids: seq<Node>)
    requires Alternates(kids)
    ensures Alternates([Element(test), Tree(kids)])
  {
    AlternatesInPairs(Element(test), Tree(kids), []);
    assert [Element(test), Tree(kids)] + [] == [Element(test), Tree(kids)];
  }

  lemma LeafedAlternates(test: Test)
    ensures Alternates(Leafed(test))
  {
    PairAlternates(test, []);
  }

  lemma {:induction false} ExtractorsAlternate(rules: seq<Rule>, id: string)
    ensures Alternates(Extractors(rules, id))
  {
    if rules != [] {
      ExtractorsAlternate(rules[..|rules| - 1], id);
      LeafedAlternates(Extractor(rules[|rules| - 1].variable));
      AlternatesTogether(Extractors(rules[..|rules| - 1], id),
                         if rules[|rules| - 1].producer == id
                         then Leafed(Extractor(rules[|rules| - 1].variable)) else []);
    }
  }

  lemma BelowAlternates(e: Execution, rules: seq<Rule>)
    ensures Alternates(Below(e, rules))
  {
    var headers := if e.sendsHeaders then Leafed(HeaderManager) else [];
    var cookies := if e.setsCookies then Leafed(ClientCookies) else [];
    LeafedAlternates(HeaderManager);
    LeafedAlternates(ClientCookies);
    ExtractorsAlternate(rules, e.id);
    AlternatesTogether(headers, cookies);
    AlternatesTogether(headers + cookies, Extractors(rules, e.id));
  }

  lemma {:induction false} SampledAlternates(run: seq<Execution>, rules: seq<Rule>, n: nat)
    requires n <= |run|
    ensures Alternates(Sampled(run, rules, n))
  {
    if n > 0 {
      SampledAlternates(run, rules, n - 1);
      BelowAlternates(run[n - 1], rules);
      PairAlternates(Sampler(n - 1), Below(run[n - 1], rules));
      AlternatesTogether(Sampled(run, rules, n - 1), [Element(Sampler(n - 1)), Tree(Below(run[n - 1], rules))]);
    }
  }

  lemma GroupAlternates(run: seq<Execution>, rules: seq<Rule>, o: Options)
    ensures Alternates(GroupTree(run, rules, o))
  {
    LeafedAlternates(CookieManager);
    LeafedAlternates(CacheManager);
    AlternatesTogether(Leafed(CookieManager), if o.cacheManager then Leafed(CacheManager) else []);
    SampledAlternates(run, rules, |run|);
    AlternatesTogether(Managers(o), Sampled(run, rules, |run|));
    LeafedAlternates(Variables(Declared(rules, o)));
    AlternatesTogether(if Declared(rules, o) != [] then Leafed(Variables(Declared(rules, o))) else [],
                       Managers(o) + Sampled(run, rules, |run|));
  }

  /** Whatever the run, the rules and the options, the validator has nothing to report about the
      nesting of a built plan. */
  lemma BuiltPlansAreValid(run: seq<Execution>, rules: seq<Rule>, o: Options)
    ensures Alternates(Built(run, rules, o)) && Failures(Built(run, rules, o)) == []
  {
    GroupAlternates(run, Active(rules), o);
    PairAlternates(ThreadGroup, GroupTree(run, Active(rules), o));
    PairAlternates(TestPlan, [Element(ThreadGroup), Tree(GroupTree(run, Active(rules), o))]);
    NothingReportedIffAlternates(Built(run, rules, o));
  }

  // --- document order ---

  /** The test elements in the order of the document. */
  function Document(kids: seq<Node>): seq<Test> {
    if kids == [] then []
    else
      (match kids[0]
       case Tree(children) => Document(children)
       case Element(test) => [test])
      + Document(kids[1..])
  }

  lemma {:induction false} DocumentTogether(a: seq<Node>, b: seq<Node>)
    ensures Document(a + b) == Document(a) + Document(b)
    decreases |a|
  {
    if a == [] {
      assert a + b == b;
    } else {
      assert (a + b)[1..] == a[1..] + b;
      DocumentTogether(a[1..], b);
      Associates(Document([a[0]]), Document(a[1..]), Document(b));
      DocumentOfOne(a[0]);
    }
  }

  lemma DocumentOfOne(n: Node)
    ensures Document([n]) == match n case Tree(children) => Document(children) case Element(test) => [test]
  {
    assert [n][1..] == [];
    assert Document([n][1..]) == [];
  }

  lemma DocumentOfPair(test: Test, kids: seq<Node>)
    ensures Document([Element(test), Tree(kids)]) == [test] + Document(kids)
  {
    assert [Element(test), Tree(kids)][1..] == [Tree(kids)];
    DocumentOfOne(Tree(kids));
  }

  /** `b` comes after `a` somewhere in the order. */
  predicate Before(order: seq<Test>, a: Test, b: Test) {
    exists i, k :: 0 <= i < k < |order| && order[i] == a && order[k] == b
  }

  lemma BeforeStays(front: seq<Test>, order: seq<Test>, back: seq<Test>, a: Test, b: Test)
    requires Before(order, a, b)
    ensures Before(front + order + back, a, b)
  {
    var i, k :| 0 <= i < k < |order| && order[i] == a && order[k] == b;
    var all := front + order + back;
    assert all[|front| + i] == a && all[|front| + k] == b;
  }

  lemma {:induction false} ExtractorIsBelow(rules: seq<Rule>, r: nat, id: string)
    requires r < |rules| && rules[r].producer == id
    ensures Extractor(rules[r].variable) in Document(Extractors(rules, id))
  {
    var front, last := rules[..|rules| - 1], rules[|rules| - 1];
    var more := if last.producer == id then Leafed(Extractor(last.variable)) else [];
    DocumentTogether(Extractors(front, id), more);
    if r < |rules| - 1 {
      ExtractorIsBelow(front, r, id);
    } else {
      DocumentOfPair(Extractor(last.variable), []);
    }
  }

  lemma ExtractorInSampler(e: Execution, rules: seq<Rule>, r: nat)
    requires r < |rules| && rules[r].producer == e.id
    ensures Extractor(rules[r].variable) in Document(Below(e, rules))
  {
    var headers := if e.sendsHeaders then Leafed(HeaderManager) else [];
    var cookies := if e.setsCookies then Leafed(ClientCookies) else [];
    DocumentTogether(headers + cookies, Extractors(rules, e.id));
    ExtractorIsBelow(rules, r, e.id);
  }

  /** The tests below each sampler. */
  function BelowAll(run: seq<Execution>, rules: seq<Rule>): (r: seq<seq<Test>>)
    ensures |r| == |run|
  {
    seq(|run|, i requires 0 <= i < |run| => Document(Below(run[i], rules)))
  }

  /** The samplers one after the other, each with what is below it. */
  function Order(below: seq<seq<Test>>, n: nat): seq<Test>
    requires n <= |below|
  {
    if n == 0 then [] else Order(below, n - 1) + ([Sampler(n - 1)] + below[n - 1])
  }

  lemma {:induction false} SampledDocument(run: seq<Execution>, rules: seq<Rule>, n: nat)
    requires n <= |run|
    ensures Document(Sampled(run, rules, n)) == Order(BelowAll(run, rules), n)
  {
    if n > 0 {
      SampledDocument(run, rules, n - 1);
      DocumentTogether(Sampled(run, rules, n - 1), [Element(Sampler(n - 1)), Tree(Below(run[n - 1], rules))]);
      DocumentOfPair(Sampler(n - 1), Below(run[n - 1], rules));
    }
  }

  lemma {:induction false} BelowIsListed(below: seq<seq<Test>>, p: nat, n: nat, t: Test)
    requires p < n <= |below| && t in below[p]
    ensures t in Order(below, n)
    decreases n
  {
    if p < n - 1 {
      BelowIsListed(below, p, n - 1, t);
    }
  }

  lemma {:induction false} BelowComesBefore(below: seq<seq<Test>>, p: nat, c: nat, n: nat, t: Test)
    requires p < c < n <= |below| && t in below[p]
    ensures Before(Order(below, n), t, Sampler(c))
    decreases n
  {
    var order, more := Order(below, n - 1), [Sampler(n - 1)] + below[n - 1];
    if c == n - 1 {
      BelowIsListed(below, p, c, t);
      var i :| 0 <= i < |order| && order[i] == t;
      assert (order + more)[i] == t && (order + more)[|order|] == Sampler(c);
    } else {
      BelowComesBefore(below, p, c, n - 1, t);
      BeforeStays([], order, more, t, Sampler(c));
      assert [] + order + more == order + more;
    }
  }

  lemma Regroup(a: seq<Test>, b: seq<Test>, c: seq<Test>, d: seq<Test>, e: seq<Test>)
    ensures a + (b + (c + (d + e))) == a + b + c + d + e + []
  {
  }

  lemma BuiltDocument(run: seq<Execution>, rules: seq<Rule>, o: Options) returns (front: seq<Test>)
    ensures Document(Built(run, rules, o)) == front + Order(BelowAll(run, Active(rules)), |run|) + []
  {
    var active := Active(rules);
    var variables := if Declared(active, o) != [] then Leafed(Variables(Declared(active, o))) else [];
    var samplers := Order(BelowAll(run, active), |run|);
    SampledDocument(run, active, |run|);
    DocumentTogether(Managers(o), Sampled(run, active, |run|));
    DocumentTogether(variables, Managers(o) + Sampled(run, active, |run|));
    DocumentOfPair(ThreadGroup, GroupTree(run, active, o));
    DocumentOfPair(TestPlan, [Element(ThreadGroup), Tree(GroupTree(run, active, o))]);
    front := [TestPlan] + [ThreadGroup] + Document(variables) + Document(Managers(o));
    Regroup([TestPlan], [ThreadGroup], Document(variables), Document(Managers(o)), samplers);
  }

  /** An enabled rule's extractor comes before every sampler that follows the rule's producer, so a
      consumer that follows its producer finds its variable set. */
  lemma ExtractorsPrecedeConsumers(run: seq<Execution>, rules: seq<Rule>, o: Options, p: nat, r: nat, c: nat)
    requires p < c < |run| && r < |Active(rules)| && Active(rules)[r].producer == run[p].id
    ensures Before(Document(Built(run, rules, o)), Extractor(Active(rules)[r].variable), Sampler(c))
  {
    var below, t := BelowAll(run, Active(rules)), Extractor(Active(rules)[r].variable);
    ExtractorInSampler(run[p], Active(rules), r);
    BelowComesBefore(below, p, c, |run|, t);
    var front := BuiltDocument(run, rules, o);
    BeforeStays(front, Order(below, |run|), [], t, Sampler(c));
  }
}
