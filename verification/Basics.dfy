/** Addresses, options and the intrusive-list relation shared by every module. */
module Basics {
  /** A byte address. Address 0 is the null pointer, so it never names a block. */
  type Addr = nat

  datatype Option<+T> = None | Some(value: T)

  /** `f` of every element, in order. */
  function Map<T, U>(f: T -> U, l: seq<T>): (r: seq<U>)
    ensures |r| == |l| && forall i :: 0 <= i < |l| ==> r[i] == f(l[i])
  {
    seq(|l|, i requires 0 <= i < |l| => f(l[i]))
  }

  /** Index of the first element that satisfies `p`, or |l|. */
  function FirstWhere<T>(l: seq<T>, p: T -> bool): (i: nat)
    ensures i <= |l|
    ensures i < |l| ==> p(l[i])
    ensures forall j :: 0 <= j < i ==> !p(l[j])
  {
    if l == [] then 0
    else if p(l[0]) then 0
    else 1 + FirstWhere(l[1..], p)
  }

  function Min(a: nat, b: nat): nat { if a < b then a else b }

  function Max(a: nat, b: nat): nat { if a < b then b else a }

  /** The word a list head or link holds for `l`: its first block, or null. */
  function Head(l: seq<Addr>): Addr { if l == [] then 0 else l[0] }

  /** Reads the free-list link word of `b`; memory that was never written reads 0. */
  function Next(link: map<Addr, Addr>, b: Addr): Addr { if b in link then link[b] else 0 }

  /** The link words of the blocks of `l` chain them in order and end in null. */
  ghost predicate Linked(link: map<Addr, Addr>, l: seq<Addr>) {
    forall i :: 0 <= i < |l| ==> Next(link, l[i]) == if i + 1 < |l| then l[i + 1] else 0
  }

  ghost predicate NoDup<T>(l: seq<T>) {
    forall i, j :: 0 <= i < j < |l| ==> l[i] != l[j]
  }

  /** `link` and `link'` agree on every block of `l`. */
  ghost predicate SameLinks(link: map<Addr, Addr>, link': map<Addr, Addr>, l: seq<Addr>) {
    forall b :: b in l ==> Next(link', b) == Next(link, b)
  }

  lemma LinkedFrame(link: map<Addr, Addr>, link': map<Addr, Addr>, l: seq<Addr>)
    requires Linked(link, l) && SameLinks(link, link', l)
    ensures Linked(link', l)
  {
    forall i | 0 <= i < |l|
      ensures Next(link', l[i]) == if i + 1 < |l| then l[i + 1] else 0
    {
      assert l[i] in l;
    }
  }

  /** A sequence without repeats, drawn from another of the same length, is a permutation of it. */
  lemma {:induction false} FullSubsequence(part: seq<Addr>, whole: seq<Addr>)
    requires forall b :: multiset(part)[b] <= 1
    requires forall b :: b in part ==> b in whole
    requires |part| == |whole|
    ensures multiset(part) == multiset(whole)
  {
    assert multiset(part) <= multiset(whole) by {
      forall b | b in multiset(part)
        ensures multiset(part)[b] <= multiset(whole)[b]
      {
        assert b in part;
        assert b in whole;
      }
    }
    var rest := multiset(whole) - multiset(part);
    assert multiset(whole) == multiset(part) + rest;
    assert |multiset(whole)| == |multiset(part)| + |rest|;
    assert |rest| == 0;
  }
}
