/** The commit graph that every ref of the model points into.

    Git names a commit by the hash of its content and of its parents' names.  The model takes that
    hash to be injective, so an object id *is* the commit it names: a finite tree of parents.
    Two refs hold the same object id exactly when they hold equal commits. */
module CommitGraph {
  import opened Basics

  /** `content` stands for everything of the commit that is not a parent: tree, message, times. */
  datatype Commit = Commit(content: nat, parents: seq<Commit>)

  /** An object id column or ref: None is the empty string, or a ref that does not exist. */
  type Oid = Option<Commit>

  /** All commits reachable from `c`, itself included. */
  function History(c: Commit): (h: set<Commit>)
    ensures c in h
  {
    {c} + set i, a | 0 <= i < |c.parents| && a in History(c.parents[i]) :: a
  }

  /** `git merge-base --is-ancestor a b` */
  predicate IsAncestor(a: Commit, b: Commit) {
    a in History(b)
  }

  /** `git merge-base a b` finds nothing. */
  predicate Unrelated(a: Commit, b: Commit) {
    History(a) * History(b) == {}
  }

  lemma ParentHistory(c: Commit, i: nat)
    requires i < |c.parents|
    ensures History(c.parents[i]) <= History(c)
  {
    forall a | a in History(c.parents[i])
      ensures a in History(c)
    {}
  }

  /** Reachability is transitive: an ancestor brings its whole history along. */
  lemma {:induction false} AncestorHistory(a: Commit, b: Commit)
    requires IsAncestor(a, b)
    ensures History(a) <= History(b)
    decreases b
  {
    if a != b {
      var i :| 0 <= i < |b.parents| && a in History(b.parents[i]);
      AncestorHistory(a, b.parents[i]);
      ParentHistory(b, i);
    }
  }

  lemma {:induction false} ProperAncestorIsSmaller(a: Commit, b: Commit)
    requires IsAncestor(a, b) && a != b
    ensures a < b
    decreases b
  {
    var i :| 0 <= i < |b.parents| && a in History(b.parents[i]);
    assert b.parents[i] < b;
    if a != b.parents[i] {
      ProperAncestorIsSmaller(a, b.parents[i]);
    }
  }

  /** Two commits that reach each other are the same commit, so a ref that only ever moves to
      descendants never returns to a value it has left. */
  lemma AncestorAntisymmetric(a: Commit, b: Commit)
    requires IsAncestor(a, b) && IsAncestor(b, a)
    ensures a == b
  {
    if a != b {
      ProperAncestorIsSmaller(a, b);
      ProperAncestorIsSmaller(b, a);
    }
  }

  /** A commit is in no parent's history. */
  lemma ParentsExcludeChild(c: Commit, i: nat)
    requires i < |c.parents|
    ensures c !in History(c.parents[i])
  {
    assert c.parents[i] < c;
    if c in History(c.parents[i]) {
      ParentHistory(c, i);
      AncestorAntisymmetric(c, c.parents[i]);
    }
  }

  /** The ref still reaches every commit it reached before. */
  predicate KeepsHistory(before: Oid, after: Oid) {
    before.Some? ==> after.Some? && History(before.value) <= History(after.value)
  }

  /** The commit is in the ref's history. */
  predicate Reaches(oid: Oid, c: Commit) {
    oid.Some? && c in History(oid.value)
  }

  /** A two-parent commit that merges this ref into another one. */
  predicate MergeOf(c: Commit, side: Oid) {
    side.Some? && |c.parents| == 2 && c.parents[1] == side.value
  }

  /** The ref reaches nothing beyond what the other two reach, but for merges of the second into the first. */
  ghost predicate AddsOnly(after: Oid, before: Oid, side: Oid) {
    forall c :: Reaches(after, c) ==> Reaches(before, c) || Reaches(side, c) || MergeOf(c, side)
  }

  /** `git commit`: one parent, or none on an unborn branch. */
  function CommitOn(content: nat, head: Oid): (c: Commit)
    ensures KeepsHistory(head, Some(c))
  {
    var c := Commit(content, if head.Some? then [head.value] else []);
    assert head.Some? ==> History(c.parents[0]) <= History(c) by {
      if head.Some? { ParentHistory(c, 0); }
    }
    c
  }

  /** `git merge other` without conflicts: fast-forward when possible, else a two-parent commit. */
  function MergeOn(content: nat, head: Commit, other: Commit): (c: Commit)
    ensures History(head) <= History(c) && History(other) <= History(c)
    ensures AddsOnly(Some(c), Some(head), Some(other))
  {
    if IsAncestor(other, head) then
      AncestorHistory(other, head);
      head
    else if IsAncestor(head, other) then
      AncestorHistory(head, other);
      other
    else
      var c := Commit(content, [head, other]);
      ParentHistory(c, 0);
      ParentHistory(c, 1);
      c
  }
}
