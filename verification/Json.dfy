/** JSON trees as `json.loads` returns them: dictionaries keep their order and have distinct
    keys. Floats carry their Python text: a JSON number, or `inf`, `-inf` or `nan`. */
module Json {
  import opened Wrappers

  datatype Json =
    | Null
    | Bool(b: bool)
    | Int(n: int)
    | Float(text: string)
    | Str(s: string)
    | Arr(items: seq<Json>)
    | Obj(fields: seq<Field>)
  {
    predicate IsScalar() {
      !Arr? && !Obj?
    }
  }

  datatype Field = Field(key: string, value: Json)

  predicate DistinctKeys(fields: seq<Field>) {
    forall i, k | 0 <= i < k < |fields| :: fields[i].key != fields[k].key
  }

  predicate WellFormed(j: Json) {
    match j
    case Arr(items) => forall i | 0 <= i < |items| :: WellFormed(items[i])
    case Obj(fields) => DistinctKeys(fields) && forall i | 0 <= i < |fields| :: WellFormed(fields[i].value)
    case _ => true
  }

  // --- dictionaries ---

  function IndexOfKey(fields: seq<Field>, key: string): (r: Option<nat>)
    ensures r.Some? ==> r.value < |fields| && fields[r.value].key == key
    ensures r.None? ==> forall i | 0 <= i < |fields| :: fields[i].key != key
  {
    if fields == [] then None
    else if fields[0].key == key then Some(0)
    else
      var rest := IndexOfKey(fields[1..], key);
      assert rest.None? ==> forall i | 0 < i < |fields| :: fields[i] == fields[1..][i - 1];
      if rest.None? then None else Some(rest.value + 1)
  }

  function Lookup(j: Json, key: string): Option<Json> {
    if j.Obj? && IndexOfKey(j.fields, key).Some? then Some(j.fields[IndexOfKey(j.fields, key).value].value) else None
  }

  lemma IndexOfDistinctKey(fields: seq<Field>, i: nat)
    requires DistinctKeys(fields) && i < |fields|
    ensures IndexOfKey(fields, fields[i].key) == Some(i)
  {
  }

  // --- positions in a tree ---

  datatype Seg = Member(key: string) | Elem(index: nat)

  function Child(j: Json, s: Seg): Option<Json> {
    match s
    case Member(key) => Lookup(j, key)
    case Elem(i) => if j.Arr? && i < |j.items| then Some(j.items[i]) else None
  }

  function Get(j: Json, path: seq<Seg>): Option<Json> {
    if path == [] then Some(j)
    else
      var c := Child(j, path[0]);
      if c.None? then None else Get(c.value, path[1..])
  }

  function SetChild(j: Json, s: Seg, v: Json): Json {
    match s
    case Member(key) =>
      if j.Obj? && IndexOfKey(j.fields, key).Some? then Obj(j.fields[IndexOfKey(j.fields, key).value := Field(key, v)])
      else j
    case Elem(i) => if j.Arr? && i < |j.items| then Arr(j.items[i := v]) else j
  }

  /** Assign at a position; a position that does not exist leaves the tree alone. */
  function Put(j: Json, path: seq<Seg>, v: Json): Json {
    if path == [] then v
    else
      var c := Child(j, path[0]);
      if c.None? then j else SetChild(j, path[0], Put(c.value, path[1..], v))
  }

  lemma ChildOfSetChild(j: Json, s: Seg, t: Seg, v: Json)
    requires WellFormed(j) && Child(j, s).Some?
    ensures Child(SetChild(j, s, v), t) == if t == s then Some(v) else Child(j, t)
  {
    if s.Member? {
      var i := IndexOfKey(j.fields, s.key).value;
      var fields' := j.fields[i := Field(s.key, v)];
      assert forall x | 0 <= x < |fields'| :: fields'[x].key == j.fields[x].key;
      IndexOfDistinctKey(fields', i);
      if t.Member? && IndexOfKey(j.fields, t.key).Some? {
        IndexOfDistinctKey(fields', IndexOfKey(j.fields, t.key).value);
      }
    }
  }

  lemma SetChildIsWellFormed(j: Json, s: Seg, v: Json)
    requires WellFormed(j) && WellFormed(v)
    ensures WellFormed(SetChild(j, s, v))
  {
  }

  lemma ChildIsWellFormed(j: Json, s: Seg)
    requires WellFormed(j) && Child(j, s).Some?
    ensures WellFormed(Child(j, s).value)
  {
  }

  // --- lens laws ---

  lemma {:induction false} PutIsWellFormed(j: Json, path: seq<Seg>, v: Json)
    requires WellFormed(j) && WellFormed(v)
    ensures WellFormed(Put(j, path, v))
    decreases |path|
  {
    if path != [] && Child(j, path[0]).Some? {
      ChildIsWellFormed(j, path[0]);
      PutIsWellFormed(Child(j, path[0]).value, path[1..], v);
      SetChildIsWellFormed(j, path[0], Put(Child(j, path[0]).value, path[1..], v));
    }
  }

  /** Two positions neither of which contains the other. */
  predicate Apart(p: seq<Seg>, q: seq<Seg>) {
    !(p <= q) && !(q <= p)
  }

  /** What was put is what is read back. */
  lemma {:induction false} GetAfterPut(j: Json, path: seq<Seg>, v: Json)
    requires WellFormed(j) && Get(j, path).Some?
    ensures Get(Put(j, path, v), path) == Some(v)
    decreases |path|
  {
    if path != [] {
      var c := Child(j, path[0]).value;
      ChildIsWellFormed(j, path[0]);
      GetAfterPut(c, path[1..], v);
      ChildOfSetChild(j, path[0], path[0], Put(c, path[1..], v));
    }
  }

  /** Putting leaves every position apart from it alone. */
  lemma {:induction false} GetApartFromPut(j: Json, path: seq<Seg>, q: seq<Seg>, v: Json)
    requires WellFormed(j) && Apart(path, q)
    ensures Get(Put(j, path, v), q) == Get(j, q)
    decreases |path|
  {
    if path != [] && q != [] && Child(j, path[0]).Some? {
      var c := Child(j, path[0]).value;
      ChildOfSetChild(j, path[0], q[0], Put(c, path[1..], v));
      if path[0] == q[0] {
        assert path == [path[0]] + path[1..] && q == [q[0]] + q[1..];
        assert Apart(path[1..], q[1..]);
        ChildIsWellFormed(j, path[0]);
        GetApartFromPut(c, path[1..], q[1..], v);
      }
    }
  }

  /** Reads below a put see what was put. */
  lemma {:induction false} GetBelowPut(j: Json, path: seq<Seg>, q: seq<Seg>, v: Json)
    requires WellFormed(j) && Get(j, path).Some?
    ensures Get(Put(j, path, v), path + q) == Get(v, q)
    decreases |path|
  {
    if path == [] {
      assert path + q == q;
    } else {
      var c := Child(j, path[0]).value;
      ChildIsWellFormed(j, path[0]);
      GetBelowPut(c, path[1..], q, v);
      ChildOfSetChild(j, path[0], path[0], Put(c, path[1..], v));
      assert (path + q)[1..] == path[1..] + q;
    }
  }

  /** Putting back what was read changes nothing. */
  lemma {:induction false} PutWhatWasRead(j: Json, path: seq<Seg>)
    requires WellFormed(j) && Get(j, path).Some?
    ensures Put(j, path, Get(j, path).value) == j
    decreases |path|
  {
    if path != [] {
      ChildIsWellFormed(j, path[0]);
      PutWhatWasRead(Child(j, path[0]).value, path[1..]);
      assert SetChild(j, path[0], Child(j, path[0]).value) == j;
    }
  }

  /** The second of two puts at one position wins. */
  lemma {:induction false} PutTwice(j: Json, path: seq<Seg>, v: Json, w: Json)
    requires WellFormed(j) && WellFormed(v) && Get(j, path).Some?
    ensures Put(Put(j, path, v), path, w) == Put(j, path, w)
    decreases |path|
  {
    if path != [] {
      var c := Child(j, path[0]).value;
      ChildIsWellFormed(j, path[0]);
      PutTwice(c, path[1..], v, w);
      var once := Put(c, path[1..], v);
      ChildOfSetChild(j, path[0], path[0], once);
      if path[0].Member? {
        var i := IndexOfKey(j.fields, path[0].key).value;
        assert DistinctKeys(j.fields[i := Field(path[0].key, once)]);
        IndexOfDistinctKey(j.fields[i := Field(path[0].key, once)], i);
      }
    }
  }

  lemma {:induction false} GetSplits(j: Json, p: seq<Seg>, q: seq<Seg>)
    ensures Get(j, p + q) == if Get(j, p).None? then None else Get(Get(j, p).value, q)
    decreases |p|
  {
    if p == [] {
      assert p + q == q;
    } else {
      assert (p + q)[1..] == p[1..] + q;
      if Child(j, p[0]).Some? {
        GetSplits(Child(j, p[0]).value, p[1..], q);
      }
    }
  }
}
