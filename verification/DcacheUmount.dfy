/** Tearing down a tree of dentries when a file system is unmounted. */
module DcacheUmount {
  import opened Lists

  type Id = nat

  /** The list of children of every dentry, the parent of every dentry, and a rank that decreases
      from parent to child, so that there are no cycles.  The root is its own parent. */
  ghost predicate IsTree(root: Id, kids: map<Id, seq<Id>>, parent: map<Id, Id>, rank: map<Id, nat>) {
    && root in kids && parent.Keys == rank.Keys && kids.Keys <= parent.Keys && parent[root] == root
    && (forall x :: x in kids ==> NoDup(kids[x]))
    && Down(root, kids, parent) && Up(root, kids, parent, rank)
  }

  /** Everything on a list of children is there and knows its parent. */
  ghost predicate Down(root: Id, kids: map<Id, seq<Id>>, parent: map<Id, Id>)
    requires kids.Keys <= parent.Keys
  {
    forall x, c {:trigger c in kids[x]} :: x in kids && c in kids[x] ==> c in kids && c != root && parent[c] == x
  }

  /** Every dentry but the root is on its parent's list. */
  ghost predicate Up(root: Id, kids: map<Id, seq<Id>>, parent: map<Id, Id>, rank: map<Id, nat>)
    requires root in kids && kids.Keys <= parent.Keys == rank.Keys
  {
    forall c {:trigger parent[c]} :: c in kids && c != root ==>
      parent[c] in kids && c in kids[parent[c]] && rank[c] < rank[parent[c]] <= rank[root]
  }

  /** Taking a dentry off its parent's list and freeing it. */
  function Unlink(kids: map<Id, seq<Id>>, p: Id, d: Id): map<Id, seq<Id>>
    requires p in kids
  {
    kids[p := Without(kids[p], d)] - {d}
  }

  /** `next` is `kids` without the childless node `d`. */
  ghost predicate Lacks(kids: map<Id, seq<Id>>, next: map<Id, seq<Id>>, d: Id) {
    && (forall x :: x in next <==> x in kids && x != d)
    && (forall x :: x in next ==> NoDup(next[x]))
    && (forall x, c {:trigger c in next[x]} {:trigger c in kids[x]} :: x in next ==>
        (c in next[x] <==> c in kids[x] && c != d))
  }

  lemma UnlinkLacks(kids: map<Id, seq<Id>>, p: Id, d: Id)
    requires p in kids && d in kids && p != d
    requires forall x :: x in kids ==> NoDup(kids[x]) && (x != p ==> d !in kids[x])
    ensures Lacks(kids, Unlink(kids, p, d), d) && |Unlink(kids, p, d)| == |kids| - 1
  {
    WithoutSpec(kids[p], d);
    assert Unlink(kids, p, d).Keys == kids.Keys - {d};
  }

  lemma LackingDown(root: Id, kids: map<Id, seq<Id>>, next: map<Id, seq<Id>>, parent: map<Id, Id>, d: Id)
    requires kids.Keys <= parent.Keys && Down(root, kids, parent) && Lacks(kids, next, d)
    ensures next.Keys <= parent.Keys && Down(root, next, parent)
  {
  }

  lemma LackingUp(root: Id, kids: map<Id, seq<Id>>, next: map<Id, seq<Id>>, parent: map<Id, Id>, rank: map<Id, nat>,
      d: Id)
    requires root in kids && kids.Keys <= parent.Keys == rank.Keys && Up(root, kids, parent, rank)
    requires d in kids && kids[d] == [] && d != root && Lacks(kids, next, d)
    ensures next.Keys <= parent.Keys && root in next && Up(root, next, parent, rank)
  {
    forall c | c in next && c != root
      ensures parent[c] in next && c in next[parent[c]] && rank[c] < rank[parent[c]] <= rank[root]
    {
      assert c in kids[parent[c]];
    }
  }

  /** A tree with any node besides its root has a child under the root. */
  lemma {:induction false} Climb(root: Id, kids: map<Id, seq<Id>>, parent: map<Id, Id>, rank: map<Id, nat>, x: Id)
    requires IsTree(root, kids, parent, rank) && x in kids && x != root
    ensures kids[root] != []
    decreases rank[root] - rank[x]
  {
    var p := parent[x];
    assert x in kids[p];
    if p != root { Climb(root, kids, parent, rank, p); }
  }

  /** Each count has gone down with the children, and a child is on its parent's list until it
      is freed. */
  ghost predicate CountsOk(kids: map<Id, seq<Id>>, count: map<Id, int>, kids0: map<Id, seq<Id>>, count0: map<Id, int>) {
    && kids.Keys <= kids0.Keys && kids.Keys <= count.Keys && kids0.Keys <= count0.Keys
    && (forall x :: x in kids ==> count[x] - |kids[x]| == count0[x] - |kids0[x]|)
    && (forall x, c {:trigger c in kids0[x]} :: x in kids && c in kids0[x] ==> c in kids[x] || c !in kids)
  }

  /** Everything that is gone has been freed once, after its children, and had no references but
      its children's. */
  ghost predicate FreedOk(kids: map<Id, seq<Id>>, freed: seq<Id>, kids0: map<Id, seq<Id>>, count0: map<Id, int>)
    requires kids0.Keys <= count0.Keys
  {
    && NoDup(freed) && (forall x :: x in kids0 <==> x in kids || x in freed) && (forall x :: x in freed ==> x !in kids)
    && (forall x, c {:trigger c in kids0[x]} :: x in kids0 && c in kids0[x] ==> c in kids0)
    && ChildrenFirst(freed, kids0)
    && (forall x :: x in freed ==> count0[x] == |kids0[x]|)
  }

  ghost predicate ChildrenFirst(freed: seq<Id>, kids0: map<Id, seq<Id>>) {
    forall i, c :: 0 <= i < |freed| && freed[i] in kids0 && c in kids0[freed[i]] ==> c in freed[..i]
  }

  lemma FreedGrows(kids: map<Id, seq<Id>>, next: map<Id, seq<Id>>, freed: seq<Id>, kids0: map<Id, seq<Id>>,
      count0: map<Id, int>, d: Id)
    requires kids0.Keys <= count0.Keys && FreedOk(kids, freed, kids0, count0) && d in kids && count0[d] == |kids0[d]|
    requires forall x :: x in next <==> x in kids && x != d
    requires forall c :: c in kids0[d] ==> c !in kids
    ensures FreedOk(next, freed + [d], kids0, count0)
  {
    var more := freed + [d];
    assert forall i :: 0 <= i <= |freed| ==> more[..i] == freed[..i];
    assert freed[..|freed|] == freed;
    forall i, c | 0 <= i < |more| && more[i] in kids0 && c in kids0[more[i]] ensures c in more[..i] {
      if i < |freed| { assert more[i] == freed[i] && c in freed[..i]; }
      else { assert c in kids0 && c in freed; }
    }
  }

  lemma CountsFollow(kids: map<Id, seq<Id>>, next: map<Id, seq<Id>>, count: map<Id, int>, kids0: map<Id, seq<Id>>,
      count0: map<Id, int>, p: Id, d: Id)
    requires CountsOk(kids, count, kids0, count0) && Lacks(kids, next, d) && p in kids && p != d
    requires next[p] == Without(kids[p], d) && |next[p]| == |kids[p]| - 1 && forall x :: x in next && x != p ==>
             next[x] == kids[x]
    ensures CountsOk(next, count[p := count[p] - 1], kids0, count0)
  {
  }

  lemma Untouched(root: Id, kids: map<Id, seq<Id>>, parent: map<Id, Id>, rank: map<Id, nat>, count: map<Id, int>)
    requires IsTree(root, kids, parent, rank) && kids.Keys <= count.Keys
    ensures CountsOk(kids, count, kids, count) && FreedOk(kids, [], kids, count)
  {
  }

  /** Some dentry has other references than its children's. */
  ghost predicate Overcounted(kids0: map<Id, seq<Id>>, count0: map<Id, int>) {
    exists x :: x in kids0 && x in count0 && count0[x] != |kids0[x]|
  }

  lemma AllFreed(freed: seq<Id>, kids0: map<Id, seq<Id>>, count0: map<Id, int>)
    requires kids0.Keys <= count0.Keys && FreedOk(map[], freed, kids0, count0)
    ensures !Overcounted(kids0, count0) && NoDup(freed) && (forall x :: x in freed <==> x in kids0)
            && ChildrenFirst(freed, kids0)
  {
    assert forall x :: x in kids0 ==> x in freed;
  }

  lemma LeafMiscounted(kids: map<Id, seq<Id>>, count: map<Id, int>, kids0: map<Id, seq<Id>>, count0: map<Id, int>,
      d: Id)
    requires CountsOk(kids, count, kids0, count0) && d in kids && kids[d] == []
    ensures count[d] != 0 ==> Overcounted(kids0, count0)
    ensures count[d] == 0 ==> count0[d] == |kids0[d]|
    ensures forall c :: c in kids0[d] ==> c !in kids
  {
  }

  class Dcache {
    const root: Id
    const parent: map<Id, Id>
    var kids: map<Id, seq<Id>>
    var count: map<Id, int>
    var freed: seq<Id>
    ghost const rank: map<Id, nat>
    ghost const kids0: map<Id, seq<Id>>
    ghost const count0: map<Id, int>

    constructor (root: Id, kids: map<Id, seq<Id>>, parent: map<Id, Id>, count: map<Id, int>, ghost rank: map<Id, nat>)
      requires IsTree(root, kids, parent, rank) && kids.Keys <= count.Keys
      ensures this.root == root && this.kids == kids0 == kids && this.count == count0 == count
              && this.parent == parent && this.rank == rank
      ensures freed == [] && Valid()
    {
      this.root, this.kids, this.parent, this.count, freed := root, kids, parent, count, [];
      this.rank, kids0, count0 := rank, kids, count;
      new;
      Untouched(root, kids, parent, rank, count);
    }

    ghost predicate Valid()
      reads this
    {
      && IsTree(root, kids, parent, rank) && CountsOk(kids, count, kids0, count0) && FreedOk(kids, freed, kids0, count0)
    }

    method Descend(from: Id) returns (d: Id)
      requires Valid() && from in kids
      ensures d in kids && kids[d] == []
    {
      d := from;
      while kids[d] != []
        invariant d in kids
        decreases rank[d]
      {
        var c := kids[d][0];
        assert c in kids[d] && rank[c] < rank[parent[c]];
        d := c;
      }
    }

    lemma FreeKeepsTree(d: Id)
      requires Valid() && d in kids && d != root && kids[d] == []
      ensures parent[d] in kids && parent[d] != d && d in kids[parent[d]]
      ensures var next := Unlink(kids, parent[d], d);
              Lacks(kids, next, d) && |next| == |kids| - 1 && IsTree(root, next, parent, rank)
    {
      var p := parent[d];
      assert d in kids[p] && d != p;
      UnlinkLacks(kids, p, d);
      LackingDown(root, kids, Unlink(kids, p, d), parent, d);
      LackingUp(root, kids, Unlink(kids, p, d), parent, rank, d);
    }

    lemma FreeKeepsFreed(d: Id)
      requires Valid() && d in kids && d != root && kids[d] == [] && count[d] == 0
      requires parent[d] in kids && Lacks(kids, Unlink(kids, parent[d], d), d)
      ensures FreedOk(Unlink(kids, parent[d], d), freed + [d], kids0, count0)
    {
      LeafMiscounted(kids, count, kids0, count0, d);
      FreedGrows(kids, Unlink(kids, parent[d], d), freed, kids0, count0, d);
    }

    lemma FreeKeepsCounts(d: Id)
      requires Valid() && d in kids && d in kids[parent[d]] && parent[d] in kids && parent[d] != d
      requires Lacks(kids, Unlink(kids, parent[d], d), d)
      ensures parent[d] in count
              && CountsOk(Unlink(kids, parent[d], d), count[parent[d] := count[parent[d]] - 1], kids0, count0)
    {
      var p := parent[d];
      WithoutSpec(kids[p], d);
      CountsFollow(kids, Unlink(kids, p, d), count, kids0, count0, p, d);
    }

    /** Free a dentry that has no children and no references left. */
    method Free(d: Id)
      requires Valid() && d in kids && d != root && kids[d] == [] && count[d] == 0
      modifies this
      ensures Valid() && |kids| == |old(kids)| - 1 && parent[d] in kids
    {
      FreeKeepsTree(d);
      FreeKeepsCounts(d);
      FreeKeepsFreed(d);
      var p := parent[d];
      count, kids, freed := count[p := count[p] - 1], Unlink(kids, p, d), freed + [d];
    }

    method FreeRoot()
      requires Valid() && kids[root] == [] && count[root] == 0
      modifies this
      ensures kids == map[] && FreedOk(kids, freed, kids0, count0)
    {
      forall x | x in kids ensures x == root {
        if x != root { Climb(root, kids, parent, rank, x); }
      }
      LeafMiscounted(kids, count, kids0, count0, root);
      FreedGrows(kids, kids - {root}, freed, kids0, count0, root);
      freed := freed + [root];
      kids := kids - {root};
    }

    /** `shrink_dcache_for_umount_subtree`.  It reports a bug exactly if some dentry has other
        references than its children's, and otherwise frees every dentry once, each after all of
        its children. */
    method Shrink() returns (bug: bool)
      requires Valid() && kids == kids0 && count == count0 && freed == []
      modifies this
      ensures bug <==> Overcounted(kids0, count0)
      ensures !bug ==> NoDup(freed) && (forall x :: x in freed <==> x in kids0) && ChildrenFirst(freed, kids0)
    {
      var d := root;
      while true
        invariant Valid() && d in kids
        decreases |kids|
      {
        d := Descend(d);
        ghost var size := |kids|;
        while true
          invariant Valid() && d in kids && kids[d] == [] && |kids| <= size
          decreases |kids|
        {
          LeafMiscounted(kids, count, kids0, count0, d);
          if count[d] != 0 { return true; }
          if d == root {
            FreeRoot();
            AllFreed(freed, kids0, count0);
            return false;
          }
          Free(d);
          d := parent[d];
          if kids[d] != [] { break; }
        }
        assert kids[d][0] in kids[d];
        d := kids[d][0];
      }
    }
  }

  /** A tree of dentries: its root, every dentry's children and parent, and the counts. */
  datatype Tree = Tree(root: Id, kids: map<Id, seq<Id>>, parent: map<Id, Id>, count: map<Id, int>)

  ghost predicate Sound(t: Tree) {
    t.kids.Keys <= t.count.Keys && exists rank: map<Id, nat> :: IsTree(t.root, t.kids, t.parent, rank)
  }

  /** Every dentry of the tree is freed once, after its children. */
  ghost predicate FreesAll(freed: seq<Id>, t: Tree) {
    NoDup(freed) && (forall x :: x in freed <==> x in t.kids) && ChildrenFirst(freed, t.kids)
  }

  /** How shrinking a tree may end. */
  ghost predicate Ended(t: Tree, bug: bool, freed: seq<Id>) {
    if bug then Overcounted(t.kids, t.count) else !Overcounted(t.kids, t.count) && FreesAll(freed, t)
  }

  method ShrinkTree(t: Tree) returns (bug: bool, freed: seq<Id>)
    requires Sound(t)
    ensures Ended(t, bug, freed)
  {
    ghost var rank: map<Id, nat> :| IsTree(t.root, t.kids, t.parent, rank);
    var cache := new Dcache(t.root, t.kids, t.parent, t.count, rank);
    bug := cache.Shrink();
    freed := cache.freed;
  }

  /** The trees were shrunk in turn, all of them or up to one that is a bug. */
  ghost predicate AllEnded(trees: seq<Tree>, bug: bool, freed: seq<seq<Id>>) {
    SoFar(trees, bug, freed) && (if bug then freed != [] else |freed| == |trees|)
  }

  ghost predicate SoFar(trees: seq<Tree>, bug: bool, freed: seq<seq<Id>>) {
    |freed| <= |trees| && forall i {:trigger freed[i]} :: 0 <= i < |freed| ==>
        Ended(trees[i], bug && i == |freed| - 1, freed[i])
  }

  lemma OneMore(trees: seq<Tree>, freed: seq<seq<Id>>, bug: bool, next: seq<Id>)
    requires SoFar(trees, false, freed) && |freed| < |trees| && Ended(trees[|freed|], bug, next)
    ensures SoFar(trees, bug, freed + [next])
  {
    var more := freed + [next];
    forall i | 0 <= i < |more| ensures Ended(trees[i], bug && i == |more| - 1, more[i]) {
      if i < |freed| { assert Ended(trees[i], false, freed[i]) && more[i] == freed[i]; }
    }
  }

  lemma BugIff(trees: seq<Tree>, bug: bool, freed: seq<seq<Id>>)
    requires AllEnded(trees, bug, freed)
    ensures bug <==> exists t :: t in trees && Overcounted(t.kids, t.count)
  {
    if bug {
      var i := |freed| - 1;
      assert Ended(trees[i], true, freed[i]);
    } else {
      forall t | t in trees ensures !Overcounted(t.kids, t.count) {
        var i :| 0 <= i < |trees| && trees[i] == t;
        assert Ended(trees[i], false, freed[i]);
      }
    }
  }

  /** One tree after the other, up to the first bug. */
  method ShrinkAll(trees: seq<Tree>) returns (bug: bool, freed: seq<seq<Id>>)
    requires forall t :: t in trees ==> Sound(t)
    ensures AllEnded(trees, bug, freed)
  {
    bug, freed := false, [];
    while |freed| < |trees| && !bug
      invariant SoFar(trees, bug, freed) && (bug ==> freed != [])
    {
      var next;
      bug, next := ShrinkTree(trees[|freed|]);
      OneMore(trees, freed, bug, next);
      freed := freed + [next];
    }
  }

  /** The mount's own reference to the root goes first. */
  function Unpinned(t: Tree): Tree
    requires t.root in t.count
  {
    t.(count := t.count[t.root := t.count[t.root] - 1])
  }

  lemma UnpinnedIsSound(t: Tree)
    requires Sound(t)
    ensures t.root in t.count && Sound(Unpinned(t))
  {
    var rank: map<Id, nat> :| IsTree(t.root, t.kids, t.parent, rank);
    assert IsTree(Unpinned(t).root, Unpinned(t).kids, Unpinned(t).parent, rank);
  }

  /** `shrink_dcache_for_umount`: the superblock's tree, and then the anonymous ones.  It stops at a tree
      in which some dentry has references beyond its children's and, for the root, the mount's; every
      tree before it, or every tree if there is none, is freed. */
  method Umount(main: Tree, anon: seq<Tree>) returns (bug: bool, freed: seq<seq<Id>>)
    requires Sound(main) && forall t :: t in anon ==> Sound(t)
    ensures main.root in main.count && AllEnded([Unpinned(main)] + anon, bug, freed)
    ensures bug <==> exists t :: t in [Unpinned(main)] + anon && Overcounted(t.kids, t.count)
  {
    UnpinnedIsSound(main);
    var trees := [Unpinned(main)] + anon;
    bug, freed := ShrinkAll(trees);
    BugIff(trees, bug, freed);
  }
}
