/** Each run of a job gets its own deep copy of the uploaded material
    (backend/app/services/execution_job_service.py:449-473). The material is a tree of mutable
    objects, as parsed JSON is in the original. */
module RunInputs {

  /** What the material holds, as a value. */
  datatype Tree = Tree(text: string, kids: seq<Tree>)

  /** A dictionary, list or scalar that anyone holding it can change. */
  class Node {
    var text: string
    var kids: seq<Node>
    ghost var Repr: set<object>

    ghost predicate Valid()
      reads this, Repr
      decreases Repr
    {
      && this in Repr
      && forall i | 0 <= i < |kids| ::
           kids[i] in Repr && kids[i].Repr <= Repr && this !in kids[i].Repr && kids[i].Valid()
    }

    ghost function Value(): Tree
      requires Valid()
      reads this, Repr
      decreases Repr, 0
    {
      Tree(text, KidValues(|kids|))
    }

    ghost function KidValues(n: nat): (r: seq<Tree>)
      requires Valid() && n <= |kids|
      reads this, Repr
      ensures |r| == n && forall i | 0 <= i < n :: r[i] == kids[i].Value()
      decreases Repr, 0, n
    {
      if n == 0 then [] else KidValues(n - 1) + [kids[n - 1].Value()]
    }

    constructor (text: string, kids: seq<Node>, ghost below: set<object>)
      requires forall i | 0 <= i < |kids| :: kids[i] in below && kids[i].Valid() && kids[i].Repr <= below
      ensures Valid() && this.text == text && this.kids == kids && Repr == below + {this}
      ensures fresh(this)
    {
      this.text, this.kids := text, kids;
      Repr := below + {this};
    }
  }

  /** Copies of the first `n` children, made of new objects only. */
  ghost predicate Copies(original: Node, n: nat, copies: seq<Node>, below: set<object>)
    reads original, original.Repr, below
  {
    && original.Valid() && n <= |original.kids| && |copies| == n
    && forall k | 0 <= k < n ::
         copies[k] in below && copies[k].Repr <= below && copies[k].Valid()
         && copies[k].Value() == original.kids[k].Value()
  }

  lemma OneMoreCopy(original: Node, n: nat, copies: seq<Node>, below: set<object>, copy: Node)
    requires Copies(original, n, copies, below) && n < |original.kids|
    requires copy.Valid() && copy.Value() == original.kids[n].Value()
    ensures Copies(original, n + 1, copies + [copy], below + copy.Repr)
  {
  }

  method CopyKids(original: Node, n: nat) returns (copies: seq<Node>, ghost below: set<object>)
    requires original.Valid() && n <= |original.kids|
    ensures fresh(below) && Copies(original, n, copies, below)
    decreases original.Repr, 0, n
  {
    if n == 0 {
      copies, below := [], {};
    } else {
      copies, below := CopyKids(original, n - 1);
      var copy := DeepCopy(original.kids[n - 1]);
      OneMoreCopy(original, n - 1, copies, below, copy);
      copies, below := copies + [copy], below + copy.Repr;
    }
  }

  /** `copy.deepcopy`: an equal tree made of new objects only. */
  method DeepCopy(original: Node) returns (c: Node)
    requires original.Valid()
    ensures c.Valid() && fresh(c.Repr) && c.Value() == original.Value()
    decreases original.Repr, 1
  {
    var copies, below := CopyKids(original, |original.kids|);
    c := new Node(original.text, copies, below);
    assert c.KidValues(|copies|) == original.KidValues(|original.kids|);
  }

  /** A runner may change its input as it likes. */
  class Runner {
    constructor () {
    }

    /** Nothing is promised about the input afterwards. */
    method Run(input: Node) returns (report: string)
      requires input.Valid()
      modifies input.Repr
    {
      report := input.text;
      input.text := "";
      input.kids := [];
    }
  }

  /** One run on a fresh copy; `start` is what the runner is given. */
  method RunOnce(material: Node, runner: Runner) returns (report: string, ghost start: Tree)
    requires material.Valid()
    ensures start == old(material.Value())
    ensures material.Valid() && material.Value() == old(material.Value())
  {
    var input := DeepCopy(material);
    start := input.Value();
    report := runner.Run(input);
  }

  /** Both runs of one job. Whatever the runner does to the input of the first run, the second run
      starts from an equal one, and the caller's material is left alone. */
  method RunTwice(material: Node, runner: Runner)
    returns (baseline: string, comparison: string, ghost first: Tree, ghost second: Tree)
    requires material.Valid()
    ensures first == second == old(material.Value())
    ensures material.Valid() && material.Value() == old(material.Value())
  {
    baseline, first := RunOnce(material, runner);
    comparison, second := RunOnce(material, runner);
  }
}
