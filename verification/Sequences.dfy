/** Regrouping of concatenations, stated once so that other proofs need not search for it. */
module Sequences {

  lemma Shift<T>(a: seq<T>, x: T, b: seq<T>)
    ensures (a + [x]) + b == a + ([x] + b)
  {
  }

  lemma Assoc<T>(a: seq<T>, b: seq<T>, c: seq<T>)
    ensures (a + b) + c == a + (b + c)
  {
  }

  lemma Pad<T>(a: seq<T>, b: seq<T>, c: seq<T>, d: seq<T>, e: seq<T>)
    ensures a + (b + c + d) + e == (a + b) + c + (d + e)
  {
  }

  lemma Front<T>(x: seq<T>, a: seq<T>, b: seq<T>, c: seq<T>)
    ensures x + (a + b + c) == (x + a) + b + c
  {
  }

  /** A prefix that ends with `h` and `run`, in front of a tail. */
  lemma Glue<T>(front: seq<T>, whole: seq<T>, h: T, run: seq<T>, tail: seq<T>, value: seq<T>)
    requires whole == front + ([h] + run) && value == [h] + (run + tail)
    ensures whole + tail == front + value
  {
  }

  lemma CutRun<T>(items: seq<T>, i: nat, end: nat)
    requires i < end <= |items|
    ensures items[..end] == items[..i] + ([items[i]] + items[i + 1..end])
  {
  }

  lemma CutOne<T>(items: seq<T>, i: nat)
    requires i < |items|
    ensures items[..i + 1] == items[..i] + [items[i]] && items[i..] == [items[i]] + items[i + 1..]
    ensures items[i..][0] == items[i] && items[i..][1..] == items[i + 1..]
  {
  }

  lemma Snoc<T>(items: seq<T>, i: nat)
    requires i < |items|
    ensures items[..i + 1] == items[..i] + [items[i]]
  {
  }

  lemma Unsnoc<T>(items: seq<T>)
    requires items != []
    ensures items == items[..|items| - 1] + [items[|items| - 1]]
  {
  }

  lemma SnocFront<T>(front: seq<T>, x: T)
    ensures (front + [x])[..|front|] == front && (front + [x])[|front|] == x
  {
  }

  lemma Halves<T>(items: seq<T>, i: nat)
    requires i <= |items|
    ensures items == items[..i] + items[i..]
  {
  }

  /** Head and tail of a list with a new first element. */
  lemma Cons<T>(x: T, tail: seq<T>)
    ensures ([x] + tail)[0] == x && ([x] + tail)[1..] == tail
  {
  }

  lemma ConsFront<T>(a: seq<T>, b: seq<T>)
    requires a != []
    ensures a == [a[0]] + a[1..] && (a + b)[0] == a[0] && (a + b)[1..] == a[1..] + b && a + b == [a[0]] + (a[1..] + b)
  {
  }

  lemma Regroup5<T>(a: seq<T>, b: seq<T>, c: seq<T>, d: seq<T>, e: seq<T>)
    ensures a + b + c + d + e == a + b + (c + d + e)
  {
  }

  lemma Middle<T>(a: seq<T>, b: seq<T>, c: seq<T>)
    ensures (a + b + c)[|a|..|a| + |b|] == b
  {
  }

  lemma NoFront<T>(s: seq<T>)
    ensures [] + s == s
  {
  }

  // ----- selection by position

  /** The positions from `i` up to `n` that satisfy `p`, in order. */
  function Where(i: nat, n: nat, p: nat -> bool): (at: seq<nat>)
    requires i <= n
    ensures forall k :: 0 <= k < |at| ==> i <= at[k] < n && p(at[k])
    ensures forall j, k :: 0 <= j < k < |at| ==> at[j] < at[k]
    ensures forall m: nat :: i <= m < n && p(m) ==> m in at
    decreases n - i
  {
    if i == n then [] else (if p(i) then [i] else []) + Where(i + 1, n, p)
  }

  /** `part` stands for exactly the elements of `whole` at the positions from `i` on that satisfy `p`, in their order:
      each is related by `r` to its own one. */
  ghost predicate Picks<S, T>(part: seq<T>, whole: seq<S>, i: nat, p: nat -> bool, r: (S, T) -> bool)
    requires i <= |whole|
  {
    var at := Where(i, |whole|, p);
    |part| == |at| && forall k :: 0 <= k < |at| ==> r(whole[at[k]], part[k])
  }

  predicate Same<T(==)>(x: T, y: T) { x == y }

  /** One position more in front. */
  lemma PicksMore<S, T>(part: seq<T>, whole: seq<S>, i: nat, p: nat -> bool, r: (S, T) -> bool)
    requires i < |whole|
    ensures !p(i) ==> (Picks(part, whole, i, p, r) <==> Picks(part, whole, i + 1, p, r))
    ensures p(i) && part != [] && r(whole[i], part[0]) && Picks(part[1..], whole, i + 1, p, r)
      ==> Picks(part, whole, i, p, r)
  {
    var at, rest := Where(i, |whole|, p), Where(i + 1, |whole|, p);
    if p(i) {
      assert at == [i] + rest;
    } else {
      assert at == rest;
    }
  }
}
