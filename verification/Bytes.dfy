/** Byte strings and the few sequence operations every other module shares. */
module Bytes {

  type byte = x: int | 0 <= x < 256

  type Bytes = seq<byte>

  datatype Option<+T> = None | Some(value: T)

  const ESC: byte := 0x1b

  /** `b & 0xC0 == 0x80`: a UTF-8 continuation byte. */
  predicate IsContinuation(b: byte) {
    0x80 <= b < 0xC0
  }

  /** The last `n` elements of `s`, or all of it when it is shorter. */
  function Tail<T>(s: seq<T>, n: nat): seq<T> {
    if |s| <= n then s else s[|s| - n..]
  }

  /** Keeping a tail, appending and cutting again loses nothing a single cut would keep. */
  lemma TailAppend<T>(s: seq<T>, p: seq<T>, n: nat)
    ensures Tail(Tail(s, n) + p, n) == Tail(s + p, n)
  {
    if |s| > n {
      var all, k := s + p, |s| - n;
      assert Tail(s, n) + p == all[k..];
      assert all[k..][|p|..] == all[k + |p|..];
    }
  }

  lemma Assoc<T>(a: seq<T>, b: seq<T>, c: seq<T>)
    ensures (a + b) + c == a + (b + c)
  {
  }

  lemma Around<T>(s: seq<T>, n: nat)
    requires n < |s|
    ensures s[..n + 1] == s[..n] + [s[n]]
    ensures s == (s[..n] + [s[n]]) + s[n + 1..]
  {
  }

  lemma DropAppend<T>(a: seq<T>, b: seq<T>, n: nat)
    requires n <= |a|
    ensures (a + b)[n..] == a[n..] + b
  {
  }

  lemma SnocSlices<T>(s: seq<T>, x: T, n: nat)
    requires n <= |s|
    ensures (s + [x])[..n] == s[..n] && (s + [x])[n..] == s[n..] + [x]
  {
  }

  /** Concatenation of a sequence of sequences, peeled from the right. */
  function Concat<T>(ss: seq<seq<T>>): seq<T> {
    if ss == [] then [] else Concat(ss[..|ss| - 1]) + ss[|ss| - 1]
  }

  lemma ConcatSnoc<T>(ss: seq<seq<T>>, s: seq<T>)
    ensures Concat(ss + [s]) == Concat(ss) + s
  {
    assert (ss + [s])[..|ss|] == ss;
  }
}
