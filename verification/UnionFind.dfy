/** `_UnionFind` of src/autosiem/risk.py: parents never exceed their index, so a root is the least
    member of its class, and path halving moves no class. */
module UnionFind {
  ghost predicate Forest(parent: seq<nat>) {
    forall i :: 0 <= i < |parent| ==> parent[i] <= i
  }

  ghost function Root(parent: seq<nat>, i: nat): (r: nat)
    requires Forest(parent) && i < |parent|
    ensures r <= i && parent[r] == r
  {
    if parent[i] == i then i else Root(parent, parent[i])
  }

  ghost predicate Together(parent: seq<nat>, i: nat, j: nat)
    requires Forest(parent) && i < |parent| && j < |parent|
  {
    Root(parent, i) == Root(parent, j)
  }

  /** Every class is led by its least member. */
  lemma {:induction false} RootIsLeast(parent: seq<nat>, i: nat, j: nat)
    requires Forest(parent) && i < |parent| && j < |parent| && Together(parent, i, j)
    ensures Root(parent, i) <= j && Together(parent, i, Root(parent, i))
  {
    assert parent[Root(parent, i)] == Root(parent, i);
  }

  /** Skipping a parent changes no root. */
  lemma {:induction false} HalvingKeepsRoots(parent: seq<nat>, item: nat, i: nat)
    requires Forest(parent) && item < |parent| && i < |parent|
    ensures Forest(parent[item := parent[parent[item]]])
    ensures Root(parent[item := parent[parent[item]]], i) == Root(parent, i)
    decreases i
  {
    var halved := parent[item := parent[parent[item]]];
    if halved[i] != i {
      HalvingKeepsRoots(parent, item, halved[i]);
    }
  }

  /** Hanging one root under a lower one joins exactly their two classes. */
  lemma {:induction false} HangingJoins(parent: seq<nat>, low: nat, high: nat, i: nat)
    requires Forest(parent) && low < high < |parent| && parent[low] == low && parent[high] == high && i < |parent|
    ensures Forest(parent[high := low])
    ensures Root(parent[high := low], i) == if Root(parent, i) == high then low else Root(parent, i)
    decreases i
  {
    var hung := parent[high := low];
    if i == high {
      assert Root(hung, low) == low;
    } else if parent[i] != i {
      HangingJoins(parent, low, high, parent[i]);
    }
  }

  /** The root of `i` once the classes of `a` and `b` are one: the lower of their two roots leads it. */
  ghost function Merged(parent: seq<nat>, a: nat, b: nat, i: nat): nat
    requires Forest(parent) && a < |parent| && b < |parent| && i < |parent|
  {
    var ra, rb := Root(parent, a), Root(parent, b);
    if Root(parent, i) != ra && Root(parent, i) != rb then Root(parent, i) else if ra < rb then ra else rb
  }

  class Classes {
    const parent: array<nat>

    ghost predicate Valid()
      reads this, parent
    {
      Forest(parent[..])
    }

    constructor (size: nat)
      ensures Valid() && fresh(parent) && parent.Length == size
      ensures forall i :: 0 <= i < size ==> Root(parent[..], i) == i
    {
      parent := new nat[size](i => i);
    }

    method Find(item: nat) returns (root: nat)
      requires Valid() && item < parent.Length
      modifies parent
      ensures Valid() && root == Root(old(parent[..]), item)
      ensures forall i :: 0 <= i < parent.Length ==> Root(parent[..], i) == Root(old(parent[..]), i)
    {
      root := item;
      while parent[root] != root
        invariant root < parent.Length && Valid()
        invariant Root(parent[..], root) == Root(old(parent[..]), item)
        invariant forall i :: 0 <= i < parent.Length ==> Root(parent[..], i) == Root(old(parent[..]), i)
        decreases root
      {
        ghost var before := parent[..];
        parent[root] := parent[parent[root]];
        assert parent[..] == before[root := before[before[root]]];
        forall i | 0 <= i < parent.Length ensures Forest(parent[..]) && Root(parent[..], i) == Root(before, i) {
          HalvingKeepsRoots(before, root, i);
        }
        root := parent[root];
      }
    }

    method Union(left: nat, right: nat)
      requires Valid() && left < parent.Length && right < parent.Length
      modifies parent
      ensures Valid()
      ensures forall i :: 0 <= i < parent.Length ==> Root(parent[..], i) == Merged(old(parent[..]), left, right, i)
    {
      var leftRoot := Find(left);
      var rightRoot := Find(right);
      if leftRoot != rightRoot {
        var low: nat, high: nat :=
          if leftRoot < rightRoot then leftRoot else rightRoot, if leftRoot < rightRoot then rightRoot else leftRoot;
        ghost var before := parent[..];
        assert Root(before, low) == low && Root(before, high) == high by {
          assert Root(before, leftRoot) == Root(old(parent[..]), leftRoot);
          assert Root(before, rightRoot) == Root(old(parent[..]), rightRoot);
        }
        parent[high] := low;
        assert parent[..] == before[high := low];
        forall i | 0 <= i < parent.Length
          ensures Forest(parent[..]) && Root(parent[..], i) == if Root(before, i) == high then low else Root(before, i)
        {
          HangingJoins(before, low, high, i);
        }
      }
    }
  }
}
