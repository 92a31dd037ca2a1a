/** Lists of blocks as chains of link words: what each list operation writes keeps them linked. */
module Chains {
  import opened Basics

  lemma MultisetSplit(l: seq<Addr>, n: nat)
    requires n <= |l|
    ensures multiset(l) == multiset(l[..n]) + multiset(l[n..])
  {
    assert l == l[..n] + l[n..];
  }

  lemma MultisetPop(l: seq<Addr>)
    requires l != []
    ensures multiset(l) == multiset(l[1..]) + multiset{l[0]}
    ensures l[0] in l
  {
    assert l == [l[0]] + l[1..];
  }

  lemma OnceIsNoDup(l: seq<Addr>)
    requires forall b :: multiset(l)[b] <= 1
    ensures NoDup(l)
  {
    forall i, j | 0 <= i < j < |l| ensures l[i] != l[j] {
      MultisetSplit(l, j);
      assert l[i] == l[..j][i] && l[..j][i] in multiset(l[..j]);
      assert l[j] == l[j..][0] && l[j..][0] in multiset(l[j..]);
      assert multiset(l)[l[i]] <= 1;
    }
  }

  lemma NoDupConcat(a: seq<Addr>, b: seq<Addr>)
    requires NoDup(a) && NoDup(b) && forall x :: x in a ==> x !in b
    ensures NoDup(a + b)
  {
    var l := a + b;
    forall i, j | 0 <= i < j < |l| ensures l[i] != l[j] {
      if i < |a| && j >= |a| {
        assert l[i] == a[i] && a[i] in a && l[j] == b[j - |a|] && b[j - |a|] in b;
      } else if i >= |a| {
        assert l[i] == b[i - |a|] && l[j] == b[j - |a|];
      }
    }
  }

  lemma LinkedAt(link: map<Addr, Addr>, l: seq<Addr>, i: nat)
    requires Linked(link, l) && i < |l|
    ensures Next(link, l[i]) == if i + 1 < |l| then l[i + 1] else 0
    ensures Next(link, l[i]) == Head(l[i + 1..])
  {
    var rest := l[i + 1..];
    assert Next(link, l[i]) == if i + 1 < |l| then l[i + 1] else 0;
    if i + 1 < |l| {
      assert |rest| > 0 && rest[0] == l[i + 1];
    } else {
      assert rest == [];
    }
  }

  /** `push_block`. */
  lemma PushLinked(link: map<Addr, Addr>, b: Addr, l: seq<Addr>)
    requires Linked(link, l) && b !in l
    ensures Linked(link[b := Head(l)], [b] + l)
  {
    var link' := link[b := Head(l)];
    var r := [b] + l;
    forall i | 0 <= i < |r| ensures Next(link', r[i]) == if i + 1 < |r| then r[i + 1] else 0 {
      if i > 0 {
        assert r[i] == l[i - 1] && l[i - 1] in l;
        LinkedAt(link, l, i - 1);
        assert i + 1 < |r| ==> r[i + 1] == l[i];
      } else {
        assert r[0] == b;
        assert l != [] ==> r[1] == l[0];
      }
    }
    assert Linked(link', r);
  }

  /** The list left by a pop is linked, and no write was needed. */
  lemma PopLinked(link: map<Addr, Addr>, l: seq<Addr>)
    requires Linked(link, l) && l != []
    ensures Linked(link, l[1..]) && Next(link, l[0]) == Head(l[1..])
  {
    LinkedAt(link, l, 0);
    forall i | 0 <= i < |l[1..]|
      ensures Next(link, l[1..][i]) == if i + 1 < |l[1..]| then l[1..][i + 1] else 0
    {
      LinkedAt(link, l, i + 1);
    }
  }

  /** `push_batch`: one write to the batch's tail splices the two lists. */
  lemma SpliceLinked(link: map<Addr, Addr>, batch: seq<Addr>, l: seq<Addr>)
    requires Linked(link, batch) && Linked(link, l) && batch != []
    requires NoDup(batch) && batch[|batch| - 1] !in l
    ensures Linked(link[batch[|batch| - 1] := Head(l)], batch + l)
  {
    var n := |batch|;
    var link' := link[batch[n - 1] := Head(l)];
    var r := batch + l;
    forall i | 0 <= i < |r| ensures Next(link', r[i]) == if i + 1 < |r| then r[i + 1] else 0 {
      if i < n - 1 {
        LinkedAt(link, batch, i);
        assert r[i] == batch[i] && r[i + 1] == batch[i + 1] && batch[i] != batch[n - 1];
      } else if i == n - 1 {
        assert r[i] == batch[n - 1];
        assert l != [] ==> r[n] == l[0];
      } else {
        LinkedAt(link, l, i - n);
        assert r[i] == l[i - n] && l[i - n] in l;
        assert i + 1 < |r| ==> r[i + 1] == l[i + 1 - n];
      }
    }
    assert Linked(link', r);
  }

  /** `pop_batch_unchecked`: one write to the last block of a prefix splits a list in two. */
  lemma CutLinked(link: map<Addr, Addr>, l: seq<Addr>, n: nat)
    requires Linked(link, l) && NoDup(l) && 0 < n <= |l|
    ensures Linked(link[l[n - 1] := 0], l[..n]) && Linked(link[l[n - 1] := 0], l[n..])
  {
    var link' := link[l[n - 1] := 0];
    var q, r := l[..n], l[n..];
    forall i | 0 <= i < |q| ensures Next(link', q[i]) == if i + 1 < |q| then q[i + 1] else 0 {
      LinkedAt(link, l, i);
      assert i < n - 1 ==> l[i] != l[n - 1];
    }
    assert Linked(link', q);
    forall i | 0 <= i < |r| ensures Next(link', r[i]) == if i + 1 < |r| then r[i + 1] else 0 {
      LinkedAt(link, l, n + i);
      assert r[i] == l[n + i] && l[n + i] != l[n - 1];
    }
    assert Linked(link', r);
  }
}
