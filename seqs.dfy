/** Generic sequence helpers: joining a sequence of sequences, and mapping
    a function over a sequence. */
module Seqs {

  /** The elements of xss[0], xss[1], ... in order ('' .join for strings). */
  function Flatten<T>(xss: seq<seq<T>>): seq<T> {
    if xss == [] then [] else Flatten(xss[..|xss| - 1]) + xss[|xss| - 1]
  }

  lemma {:induction false} FlattenAppend<T>(a: seq<seq<T>>, b: seq<seq<T>>)
    ensures Flatten(a + b) == Flatten(a) + Flatten(b)
    decreases |b|
  {
    if b == [] {
      assert a + b == a;
    } else {
      var init := b[..|b| - 1];
      var last := b[|b| - 1];
      assert a + b == (a + init) + [last];
      FlattenSnoc(a + init, last);
      FlattenAppend(a, init);
      FlattenSnoc(init, last);
      AppendAssoc(Flatten(a), Flatten(init), last);
    }
  }

  lemma FlattenSnoc<T>(a: seq<seq<T>>, x: seq<T>)
    ensures Flatten(a + [x]) == Flatten(a) + x
  {
    assert (a + [x])[..|a|] == a;
  }

  /** When every part has width w, part k occupies positions w * k up to
      w * k + w of the whole. */
  lemma FlattenUniform<T>(xss: seq<seq<T>>, w: nat, k: nat)
    requires forall i :: 0 <= i < |xss| ==> |xss[i]| == w
    requires k < |xss|
    ensures |Flatten(xss)| == w * |xss|
    ensures w * k + w <= |Flatten(xss)| && Flatten(xss)[w * k..w * k + w] == xss[k]
  {
    var pre := xss[..k];
    var post := xss[k + 1..];
    assert xss == (pre + [xss[k]]) + post;
    FlattenAppend(pre + [xss[k]], post);
    FlattenSnoc(pre, xss[k]);
    FlattenLength(pre, w);
    FlattenLength(xss, w);
    var a, b := Flatten(pre), Flatten(post);
    assert ((a + xss[k]) + b)[|a|..|a| + |xss[k]|] == xss[k];
  }

  /** The parts of head + middle + tail can be cut out again. */
  lemma Delimited<T>(head: seq<T>, middle: seq<T>, tail: seq<T>)
    requires |tail| > 0
    ensures |head| + |middle| < |head + middle + tail|
    ensures (head + middle + tail)[..|head|] == head
    ensures (head + middle + tail)[|head|..|head| + |middle|] == middle
    ensures (head + middle + tail)[|head| + |middle|] == tail[0]
  {
  }

  lemma {:induction false} FlattenLength<T>(xss: seq<seq<T>>, w: nat)
    requires forall i :: 0 <= i < |xss| ==> |xss[i]| == w
    ensures |Flatten(xss)| == w * |xss|
    decreases |xss|
  {
    if xss != [] {
      var init := xss[..|xss| - 1];
      FlattenLength(init, w);
      assert w * (|init| + 1) == w * |init| + w;
    }
  }

  lemma TakeSnoc<T>(s: seq<T>, i: nat)
    requires i < |s|
    ensures s[..i] + [s[i]] == s[..i + 1]
  {
  }

  lemma TakeAll<T>(s: seq<T>)
    ensures s[..|s|] == s
  {
  }

  /** Three or four single appends onto the empty sequence build the
      display of those elements. */
  lemma Built3<T>(a: T, b: T, c: T)
    ensures (([] + [a]) + [b]) + [c] == [a, b, c]
  {
  }

  lemma Built4<T>(a: T, b: T, c: T, d: T)
    ensures ((([] + [a]) + [b]) + [c]) + [d] == [a, b, c, d]
  {
  }

  lemma Snoc3<T>(a: T, b: T, c: T, d: T)
    ensures [a, b, c] + [d] == [a, b, c, d]
  {
  }

  /** The positions of the ends of [x] + mid + [y, z]. */
  lemma Bracketed<T>(x: T, mid: seq<T>, y: T, z: T)
    ensures |[x] + mid + [y, z]| == |mid| + 3
    ensures ([x] + mid + [y, z])[0] == x
    ensures ([x] + mid + [y, z])[|mid| + 1] == y
    ensures ([x] + mid + [y, z])[|mid| + 2] == z
  {
  }

  lemma SnocAssoc<T>(a: seq<T>, b: seq<T>, x: T)
    ensures (a + b) + [x] == a + (b + [x])
  {
  }

  lemma AppendAssoc<T>(a: seq<T>, b: seq<T>, c: seq<T>)
    ensures (a + b) + c == a + (b + c)
  {
  }

  lemma SnocSnoc<T>(a: seq<T>, x: T, y: T)
    ensures (a + [x]) + [y] == a + [x, y]
  {
  }

  function Map<A, B>(f: A -> B, xs: seq<A>): (ys: seq<B>)
    ensures |ys| == |xs| && forall i :: 0 <= i < |xs| ==> ys[i] == f(xs[i])
  {
    seq(|xs|, i requires 0 <= i < |xs| => f(xs[i]))
  }

  lemma MapSnoc<A, B>(f: A -> B, xs: seq<A>, x: A)
    ensures Map(f, xs + [x]) == Map(f, xs) + [f(x)]
  {
  }

  /** f applied to each element together with its position. */
  function MapIndexed<A, B>(f: (nat, A) -> B, xs: seq<A>): (ys: seq<B>)
    ensures |ys| == |xs| && forall i :: 0 <= i < |xs| ==> ys[i] == f(i, xs[i])
  {
    seq(|xs|, i requires 0 <= i < |xs| => f(i, xs[i]))
  }

  lemma MapIndexedSnoc<A, B>(f: (nat, A) -> B, xs: seq<A>, x: A)
    ensures MapIndexed(f, xs + [x]) == MapIndexed(f, xs) + [f(|xs|, x)]
  {
  }
}
