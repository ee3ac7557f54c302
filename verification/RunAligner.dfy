/** Pairing the executions of two runs by request signature and occurrence
    (backend/app/services/run_aligner.py). */
module RunAligner {
  import opened Wrappers
  import opened Text

  /** An execution as the aligner sees it: its identity and the signature of its request. */
  datatype Execution = Execution(id: string, signature: string)

  datatype Status = Matched | MissingInComparison | ExtraInComparison

  /** Positions in the two runs. */
  datatype Pair = Pair(signature: string, baseline: Option<nat>, comparison: Option<nat>, status: Status)

  datatype Report = Report(pairs: seq<Pair>, matched: nat, missing: nat, extra: nat, reordered: nat)

  function Bases(run: seq<Execution>): seq<string> {
    seq(|run|, i requires 0 <= i < |run| => run[i].signature)
  }

  // --- occurrence tags ---

  function CountIn(bases: seq<string>, b: string): nat {
    multiset(bases)[b]
  }

  /** How often the signature at `i` has occurred before. */
  function Ordinal(bases: seq<string>, i: nat): nat
    requires i < |bases|
  {
    CountIn(bases[..i], bases[i])
  }

  function Tag(base: string, n: nat): string {
    base + "#" + Decimal(n)
  }

  function TagAt(bases: seq<string>, i: nat): string
    requires i < |bases|
  {
    Tag(bases[i], Ordinal(bases, i))
  }

  function Tags(bases: seq<string>): seq<string> {
    seq(|bases|, i requires 0 <= i < |bases| => TagAt(bases, i))
  }

  /** Tags tell signature and ordinal apart, even when a signature itself ends in `#` and digits. */
  lemma TagsTell(a: string, m: nat, b: string, n: nat)
    requires Tag(a, m) == Tag(b, n)
    ensures a == b && m == n
  {
    TailSpanIs(a + "#", Decimal(m), IsDigit);
    TailSpanIs(b + "#", Decimal(n), IsDigit);
    assert Tag(a, m)[..|a|] == a && Tag(b, n)[..|b|] == b;
    assert Tag(a, m)[|a| + 1..] == Decimal(m) && Tag(b, n)[|b| + 1..] == Decimal(n);
    DecimalIsInjective(m, n);
  }

  lemma CountGrows(bases: seq<string>, i: nat, k: nat)
    requires i < k <= |bases|
    ensures CountIn(bases[..i], bases[i]) < CountIn(bases[..k], bases[i])
  {
    assert bases[..k] == bases[..i] + [bases[i]] + bases[i + 1..k];
  }

  /** Tags are pairwise distinct within a run. */
  lemma TagsAreDistinct(bases: seq<string>, i: nat, k: nat)
    requires i < |bases| && k < |bases| && TagAt(bases, i) == TagAt(bases, k)
    ensures i == k
  {
    TagsTell(bases[i], Ordinal(bases, i), bases[k], Ordinal(bases, k));
    if i < k {
      CountGrows(bases, i, k);
    } else if k < i {
      CountGrows(bases, k, i);
    }
  }

  /** The position of the n-th occurrence. */
  lemma {:induction false} OccurrenceExists(bases: seq<string>, b: string, n: nat) returns (k: nat)
    requires n < CountIn(bases, b)
    ensures k < |bases| && bases[k] == b && Ordinal(bases, k) == n
    decreases |bases|
  {
    var last := |bases| - 1;
    assert bases == bases[..last] + [bases[last]];
    if n < CountIn(bases[..last], b) {
      k := OccurrenceExists(bases[..last], b, n);
      assert bases[..last][..k] == bases[..k];
    } else {
      k := last;
    }
  }

  // --- the partner of a baseline execution ---

  function Find(tags: seq<string>, tag: string): (r: Option<nat>)
    ensures r.Some? ==> r.value < |tags| && tags[r.value] == tag
    ensures r.Some? ==> forall k | 0 <= k < r.value :: tags[k] != tag
    ensures r.None? ==> tag !in tags
  {
    if tags == [] then None
    else if tags[0] == tag then Some(0)
    else
      var rest := Find(tags[1..], tag);
      assert tags == [tags[0]] + tags[1..];
      if rest.None? then None else Some(rest.value + 1)
  }

  function Partner(a: seq<string>, b: seq<string>, i: nat): Option<nat>
    requires i < |a|
  {
    Find(Tags(b), TagAt(a, i))
  }

  /** An execution has a partner exactly when the other run has its signature often enough; the k-th
      occurrence goes with the k-th. */
  lemma PartnerIs(a: seq<string>, b: seq<string>, i: nat)
    requires i < |a|
    ensures Partner(a, b, i).Some? <==> Ordinal(a, i) < CountIn(b, a[i])
    ensures Partner(a, b, i).Some? ==>
              var k := Partner(a, b, i).value;
              k < |b| && b[k] == a[i] && Ordinal(b, k) == Ordinal(a, i)
  {
    if Partner(a, b, i).Some? {
      var k := Partner(a, b, i).value;
      TagsTell(a[i], Ordinal(a, i), b[k], Ordinal(b, k));
      assert b == b[..k] + [b[k]] + b[k + 1..];
    }
    if Ordinal(a, i) < CountIn(b, a[i]) {
      var k := OccurrenceExists(b, a[i], Ordinal(a, i));
      assert Tags(b)[k] == TagAt(a, i);
    }
  }

  /** Different executions have different partners. */
  lemma PartnersDiffer(a: seq<string>, b: seq<string>, i: nat, k: nat)
    requires i < |a| && k < |a| && Partner(a, b, i).Some? && Partner(a, b, i) == Partner(a, b, k)
    ensures i == k
  {
    TagsAreDistinct(a, i, k);
  }

  // --- counting ---

  /** Matched among the first `n` baseline executions. */
  function MatchedIn(a: seq<string>, b: seq<string>, n: nat): nat
    requires n <= |a|
  {
    if n == 0 then 0 else MatchedIn(a, b, n - 1) + (if Partner(a, b, n - 1).Some? then 1 else 0)
  }

  lemma OneMore(m: multiset<string>, n: multiset<string>, x: string)
    ensures |(m + multiset{x}) * n| == |m * n| + (if m[x] < n[x] then 1 else 0)
  {
    if m[x] < n[x] {
      assert (m + multiset{x}) * n == m * n + multiset{x};
    } else {
      assert (m + multiset{x}) * n == m * n;
    }
  }

  /** The number of matches is the size of the intersection of the two runs' signature multisets. */
  lemma {:induction false} MatchedIsIntersection(a: seq<string>, b: seq<string>, n: nat)
    requires n <= |a|
    ensures MatchedIn(a, b, n) == |multiset(a[..n]) * multiset(b)|
  {
    if n == 0 {
      assert multiset(a[..0]) * multiset(b) == multiset{};
    } else {
      MatchedIsIntersection(a, b, n - 1);
      assert a[..n] == a[..n - 1] + [a[n - 1]];
      OneMore(multiset(a[..n - 1]), multiset(b), a[n - 1]);
      PartnerIs(a, b, n - 1);
    }
  }

  /** Comparison executions of the first `n` that some baseline execution is matched with. */
  predicate Used(a: seq<string>, b: seq<string>, k: nat)
    requires k < |b|
  {
    Tags(b)[k] in Tags(a)
  }

  function UsedIn(a: seq<string>, b: seq<string>, n: nat): nat
    requires n <= |b|
  {
    if n == 0 then 0 else UsedIn(a, b, n - 1) + (if Used(a, b, n - 1) then 1 else 0)
  }

  lemma UsedIsPartnered(a: seq<string>, b: seq<string>, k: nat)
    requires k < |b|
    ensures Used(a, b, k) <==> Partner(b, a, k).Some?
  {
  }

  lemma {:induction false} UsedIsMatched(a: seq<string>, b: seq<string>, n: nat)
    requires n <= |b|
    ensures UsedIn(a, b, n) == MatchedIn(b, a, n)
  {
    if n > 0 {
      UsedIsMatched(a, b, n - 1);
      UsedIsPartnered(a, b, n - 1);
    }
  }

  /** As many comparison executions are used as baseline executions are matched. */
  lemma UsedEqualsMatched(a: seq<string>, b: seq<string>)
    ensures UsedIn(a, b, |b|) == MatchedIn(a, b, |a|)
  {
    UsedIsMatched(a, b, |b|);
    MatchedIsIntersection(a, b, |a|);
    MatchedIsIntersection(b, a, |b|);
    assert a[..|a|] == a && b[..|b|] == b;
    assert multiset(a) * multiset(b) == multiset(b) * multiset(a);
  }

  // --- any other pairing is no larger ---

  /** A pairing of positions with equal signatures, no position used twice. */
  predicate IsPairing(a: seq<string>, b: seq<string>, pairing: seq<(nat, nat)>) {
    && (forall x | 0 <= x < |pairing| ::
          pairing[x].0 < |a| && pairing[x].1 < |b| && a[pairing[x].0] == b[pairing[x].1])
    && (forall x, y | 0 <= x < |pairing| && 0 <= y < |pairing| && x != y ::
          pairing[x].0 != pairing[y].0 && pairing[x].1 != pairing[y].1)
  }

  function Chosen(a: seq<string>, at: seq<nat>): (r: seq<string>)
    requires forall x | 0 <= x < |at| :: at[x] < |a|
    ensures |r| == |at|
  {
    seq(|at|, x requires 0 <= x < |at| => a[at[x]])
  }

  predicate DistinctPositions(at: seq<nat>) {
    forall x, y | 0 <= x < |at| && 0 <= y < |at| && x != y :: at[x] != at[y]
  }

  lemma ChosenWithout(a: seq<string>, at: seq<nat>, x: nat)
    requires x < |at| && forall y | 0 <= y < |at| :: at[y] < |a|
    ensures multiset(Chosen(a, at)) == multiset(Chosen(a, at[..x] + at[x + 1..])) + multiset{a[at[x]]}
  {
    var all := Chosen(a, at);
    assert all == all[..x] + [a[at[x]]] + all[x + 1..];
    assert Chosen(a, at[..x] + at[x + 1..]) == all[..x] + all[x + 1..];
  }

  /** Distinct positions of a sequence select no element more often than it occurs. */
  lemma {:induction false} ChosenIsPart(a: seq<string>, at: seq<nat>)
    requires DistinctPositions(at) && forall x | 0 <= x < |at| :: at[x] < |a|
    ensures multiset(Chosen(a, at)) <= multiset(a)
    decreases |a|, 1
  {
    if at == [] {
      assert Chosen(a, at) == [];
    } else {
      assert at[0] < |a|;
      var last := |a| - 1;
      assert a == a[..last] + [a[last]];
      if x :| 0 <= x < |at| && at[x] == last {
        ChosenFromFront(a, at[..x] + at[x + 1..]);
        ChosenWithout(a, at, x);
      } else {
        ChosenFromFront(a, at);
      }
    }
  }

  lemma ChosenFromFront(a: seq<string>, at: seq<nat>)
    requires a != [] && DistinctPositions(at) && forall x | 0 <= x < |at| :: at[x] < |a| - 1
    ensures multiset(Chosen(a, at)) <= multiset(a[..|a| - 1])
    decreases |a|, 0
  {
    ChosenIsPart(a[..|a| - 1], at);
    assert Chosen(a[..|a| - 1], at) == Chosen(a, at);
  }

  /** The alignment is a maximum pairing. */
  lemma NoPairingIsLarger(a: seq<string>, b: seq<string>, pairing: seq<(nat, nat)>)
    requires IsPairing(a, b, pairing)
    ensures |pairing| <= MatchedIn(a, b, |a|)
  {
    var left := seq(|pairing|, x requires 0 <= x < |pairing| => pairing[x].0);
    var right := seq(|pairing|, x requires 0 <= x < |pairing| => pairing[x].1);
    ChosenIsPart(a, left);
    ChosenIsPart(b, right);
    assert Chosen(a, left) == Chosen(b, right);
    MatchedIsIntersection(a, b, |a|);
    assert a[..|a|] == a;
    PartIsSmaller(multiset(Chosen(a, left)), multiset(a) * multiset(b));
  }

  lemma PartIsSmaller(m: multiset<string>, n: multiset<string>)
    requires m <= n
    ensures |m| <= |n|
  {
    assert n == m + (n - m);
  }

  // --- the report ---

  function BaselinePair(a: seq<string>, b: seq<string>, i: nat): Pair
    requires i < |a|
  {
    var p := Partner(a, b, i);
    Pair(TagAt(a, i), Some(i), p, if p.Some? then Matched else MissingInComparison)
  }

  function BaselinePairs(a: seq<string>, b: seq<string>, n: nat): seq<Pair>
    requires n <= |a|
  {
    seq(n, i requires 0 <= i < n => BaselinePair(a, b, i))
  }

  function ExtraPairs(a: seq<string>, b: seq<string>, n: nat): seq<Pair>
    requires n <= |b|
  {
    if n == 0 then []
    else
      ExtraPairs(a, b, n - 1)
      + (if Used(a, b, n - 1) then [] else [Pair(TagAt(b, n - 1), None, Some(n - 1), ExtraInComparison)])
  }

  function ReorderedIn(a: seq<string>, b: seq<string>, n: nat): nat
    requires n <= |a|
  {
    if n == 0 then 0
    else
      ReorderedIn(a, b, n - 1)
      + (if Partner(a, b, n - 1).Some? && Partner(a, b, n - 1).value != n - 1 then 1 else 0)
  }

  function Aligned(a: seq<string>, b: seq<string>): Report {
    Report(BaselinePairs(a, b, |a|) + ExtraPairs(a, b, |b|), MatchedIn(a, b, |a|), |a| - MatchedCount(a, b),
           |b| - MatchedCount(b, a), ReorderedIn(a, b, |a|))
  }

  function MatchedCount(a: seq<string>, b: seq<string>): (m: nat)
    ensures m <= |a| && m == MatchedIn(a, b, |a|)
  {
    MatchedBound(a, b, |a|);
    MatchedIn(a, b, |a|)
  }

  lemma {:induction false} MatchedBound(a: seq<string>, b: seq<string>, n: nat)
    requires n <= |a|
    ensures MatchedIn(a, b, n) <= n
  {
    if n > 0 {
      MatchedBound(a, b, n - 1);
    }
  }

  /** The counter dictionary of `_indexed_signatures`. */
  method IndexedSignatures(run: seq<Execution>) returns (out: seq<string>)
    ensures out == Tags(Bases(run))
  {
    var seen: map<string, nat> := map[];
    out := [];
    var bases := Bases(run);
    for i := 0 to |run|
      invariant out == Tags(bases)[..i]
      invariant forall b :: CountIn(bases[..i], b) == if b in seen then seen[b] else 0
    {
      var base := run[i].signature;
      var n := if base in seen then seen[base] else 0;
      seen := seen[base := n + 1];
      out := out + [Tag(base, n)];
      assert bases[..i + 1] == bases[..i] + [base];
      assert Tags(bases)[i] == Tag(base, n);
    }
  }

  /** What the loop over the baseline has found after `n` executions. */
  ghost predicate BaselineDone(a: seq<string>, b: seq<string>, n: nat, r: Report, used: set<string>) {
    && n <= |a|
    && r.pairs == BaselinePairs(a, b, n) && r.matched == MatchedIn(a, b, n) && r.missing == n - r.matched
    && r.extra == 0 && r.reordered == ReorderedIn(a, b, n)
    && forall s :: s in used <==> s in Tags(a)[..n] && s in Tags(b)
  }

  function WithBaseline(r: Report, sig: string, order: nat, partner: Option<nat>): Report {
    if partner.Some? then
      r.(pairs := r.pairs + [Pair(sig, Some(order), partner, Matched)], matched := r.matched + 1,
         reordered := r.reordered + (if partner.value != order then 1 else 0))
    else r.(pairs := r.pairs + [Pair(sig, Some(order), None, MissingInComparison)], missing := r.missing + 1)
  }

  lemma BaselineNext(a: seq<string>, b: seq<string>, n: nat, r: Report, used: set<string>)
    requires BaselineDone(a, b, n, r, used) && n < |a|
    ensures BaselineDone(a, b, n + 1, WithBaseline(r, TagAt(a, n), n, Partner(a, b, n)),
                         if Partner(a, b, n).Some? then used + {TagAt(a, n)} else used)
  {
    assert BaselinePairs(a, b, n + 1) == BaselinePairs(a, b, n) + [BaselinePair(a, b, n)];
    assert Tags(a)[..n + 1] == Tags(a)[..n] + [TagAt(a, n)];
    assert Partner(a, b, n).Some? ==> Tags(b)[Partner(a, b, n).value] == TagAt(a, n);
  }

  /** The two loops of `align_runs`, over baseline and then comparison. */
  method AlignRuns(baseline: seq<Execution>, comparison: seq<Execution>) returns (report: Report)
    ensures report == Aligned(Bases(baseline), Bases(comparison))
  {
    var baseSigs := IndexedSignatures(baseline);
    var compSigs := IndexedSignatures(comparison);
    ghost var a, b := Bases(baseline), Bases(comparison);
    var used: set<string> := {};
    report := Report([], 0, 0, 0, 0);
    for order := 0 to |baseSigs|
      invariant BaselineDone(a, b, order, report, used)
    {
      var partner := Find(compSigs, baseSigs[order]);
      BaselineNext(a, b, order, report, used);
      report := WithBaseline(report, baseSigs[order], order, partner);
      if partner.Some? {
        used := used + {baseSigs[order]};
      }
    }
    assert baseSigs[..|baseSigs|] == baseSigs;
    var pairs, extra := AddExtras(a, b, compSigs, used, report.pairs);
    report := report.(pairs := pairs, extra := extra);
  }

  method AddExtras(ghost a: seq<string>, ghost b: seq<string>, compSigs: seq<string>, used: set<string>,
                   before: seq<Pair>)
    returns (pairs: seq<Pair>, extra: nat)
    requires compSigs == Tags(b) && forall s :: s in used <==> s in Tags(a) && s in Tags(b)
    ensures pairs == before + ExtraPairs(a, b, |b|) && extra == |b| - MatchedCount(b, a)
  {
    pairs, extra := before, 0;
    for k := 0 to |compSigs|
      invariant pairs == before + ExtraPairs(a, b, k)
      invariant extra == k - UsedIn(a, b, k)
    {
      assert compSigs[k] in used <==> Used(a, b, k);
      if compSigs[k] !in used {
        extra := extra + 1;
        Associates(before, ExtraPairs(a, b, k), [Pair(compSigs[k], None, Some(k), ExtraInComparison)]);
        pairs := pairs + [Pair(compSigs[k], None, Some(k), ExtraInComparison)];
      } else {
        assert ExtraPairs(a, b, k) + [] == ExtraPairs(a, b, k);
      }
    }
    UsedIsMatched(a, b, |b|);
  }

  /** Everything is accounted for: matched and missing make up the baseline, matched and extra the
      comparison. */
  lemma CountsAddUp(a: seq<string>, b: seq<string>)
    ensures
      var r := Aligned(a, b);
      && r.matched + r.missing == |a| && r.matched + r.extra == |b|
      && r.matched == |multiset(a) * multiset(b)|
  {
    UsedEqualsMatched(a, b);
    UsedIsMatched(a, b, |b|);
    MatchedIsIntersection(a, b, |a|);
    assert a[..|a|] == a;
  }

  /** A run aligned with itself is paired execution by execution. */
  lemma SelfAlignment(a: seq<string>)
    ensures
      var r := Aligned(a, a);
      && r.matched == |a| && r.missing == 0 && r.extra == 0 && r.reordered == 0
      && r.pairs == seq(|a|, i requires 0 <= i < |a| => Pair(TagAt(a, i), Some(i), Some(i), Matched))
  {
    forall i | 0 <= i < |a|
      ensures Partner(a, a, i) == Some(i)
    {
      PartnerIs(a, a, i);
      assert a == a[..i] + [a[i]] + a[i + 1..];
      TagsAreDistinct(a, i, Partner(a, a, i).value);
    }
    NothingReordered(a, |a|);
    CountsAddUp(a, a);
    assert multiset(a) * multiset(a) == multiset(a);
    NothingExtra(a, |a|);
  }

  lemma {:induction false} NothingReordered(a: seq<string>, n: nat)
    requires n <= |a| && forall i | 0 <= i < |a| :: Partner(a, a, i) == Some(i)
    ensures ReorderedIn(a, a, n) == 0
  {
    if n > 0 {
      NothingReordered(a, n - 1);
    }
  }

  lemma {:induction false} NothingExtra(a: seq<string>, n: nat)
    requires n <= |a|
    ensures ExtraPairs(a, a, n) == []
  {
    if n > 0 {
      NothingExtra(a, n - 1);
      assert Tags(a)[n - 1] in Tags(a);
    }
  }
}
