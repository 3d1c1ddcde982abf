/**
 * Small building blocks shared by the rest of the model: an Option type,
 * order-preserving sublists, removal by index, "first element that
 * matches" and the one-tick step of the game's count-down counters.
 */
module Basics {

  datatype Option<T> = None | Some(value: T)

  /** `a` is obtained from `b` by deleting elements, keeping the order of the rest. */
  predicate SubseqOf<T(==)>(a: seq<T>, b: seq<T>)
    decreases |b|
  {
    a == [] || (b != [] && ((a[0] == b[0] && SubseqOf(a[1..], b[1..])) || SubseqOf(a, b[1..])))
  }

  lemma {:induction false} SubseqRefl<T>(s: seq<T>)
    ensures SubseqOf(s, s)
    decreases |s|
  {
    if s != [] {
      SubseqRefl(s[1..]);
    }
  }

  lemma {:induction false} SubseqTrans<T>(a: seq<T>, b: seq<T>, c: seq<T>)
    requires SubseqOf(a, b) && SubseqOf(b, c)
    ensures SubseqOf(a, c)
    decreases |c|
  {
    if a != [] {
      assert b != [] && c != [];
      if SubseqOf(b, c[1..]) {
        SubseqTrans(a, b, c[1..]);
      } else if a[0] == b[0] && SubseqOf(a[1..], b[1..]) {
        SubseqTrans(a[1..], b[1..], c[1..]);
      } else {
        SubseqTrans(a, b[1..], c[1..]);
      }
    }
  }

  /** Appending an element to the longer list keeps a sublist a sublist. */
  lemma {:induction false} SubseqExtend<T>(a: seq<T>, b: seq<T>, x: T)
    requires SubseqOf(a, b)
    ensures SubseqOf(a, b + [x])
    decreases |b|
  {
    if a != [] {
      assert (b + [x])[1..] == b[1..] + [x];
      if a[0] == b[0] && SubseqOf(a[1..], b[1..]) {
        SubseqExtend(a[1..], b[1..], x);
      } else {
        SubseqExtend(a, b[1..], x);
      }
    }
  }

  /** Appending the same element to both lists keeps a sublist a sublist. */
  lemma {:induction false} SubseqSnoc<T>(a: seq<T>, b: seq<T>, x: T)
    requires SubseqOf(a, b)
    ensures SubseqOf(a + [x], b + [x])
    decreases |b|
  {
    if b == [] {
      assert a == [];
      assert a + [x] == b + [x];
      SubseqRefl([x]);
    } else {
      assert (b + [x])[1..] == b[1..] + [x];
      if a == [] {
        SubseqSnoc(a, b[1..], x);
      } else {
        assert (a + [x])[1..] == a[1..] + [x];
        if a[0] == b[0] && SubseqOf(a[1..], b[1..]) {
          SubseqSnoc(a[1..], b[1..], x);
        } else {
          SubseqSnoc(a, b[1..], x);
        }
      }
    }
  }

  /** The list with its element at index `k` spliced out. */
  function RemoveAt<T>(s: seq<T>, k: nat): (r: seq<T>)
    requires k < |s|
    ensures |r| == |s| - 1
    ensures forall j :: 0 <= j < k ==> r[j] == s[j]
    ensures forall j :: k <= j < |r| ==> r[j] == s[j + 1]
  {
    s[..k] + s[k + 1..]
  }

  /** Splicing out one element leaves the rest in order. */
  lemma {:induction false} RemoveAtSubseq<T>(s: seq<T>, k: nat)
    requires k < |s|
    ensures SubseqOf(RemoveAt(s, k), s)
    decreases k
  {
    if k == 0 {
      assert RemoveAt(s, k) == s[1..];
      SubseqRefl(s[1..]);
    } else {
      assert RemoveAt(s, k)[1..] == RemoveAt(s[1..], k - 1);
      RemoveAtSubseq(s[1..], k - 1);
    }
  }

  /** Index of the first element of `s` satisfying `p`, scanning from the front. */
  function FirstMatch<T>(s: seq<T>, p: T -> bool): (r: Option<nat>)
    ensures r.Some? ==> r.value < |s|
    decreases |s|
  {
    if s == [] then None
    else if p(s[0]) then Some(0)
    else match FirstMatch(s[1..], p)
      case None => None
      case Some(k) => Some(k + 1)
  }

  /**
   * The first match satisfies `p` and no element before it does; with no
   * match, none does.
   */
  lemma {:induction false} FirstMatchIsFirst<T>(s: seq<T>, p: T -> bool)
    ensures FirstMatch(s, p).Some? ==> p(s[FirstMatch(s, p).value])
    ensures FirstMatch(s, p).Some? ==> forall j :: 0 <= j < FirstMatch(s, p).value ==> !p(s[j])
    ensures FirstMatch(s, p).None? ==> forall j :: 0 <= j < |s| ==> !p(s[j])
    decreases |s|
  {
    if s != [] && !p(s[0]) {
      FirstMatchIsFirst(s[1..], p);
      assert forall j :: 1 <= j < |s| ==> s[j] == s[1..][j - 1];
    }
  }

  /** The contract of FirstMatch pins it down, so an index found by any other means agrees with it. */
  lemma FirstMatchUnique<T>(s: seq<T>, p: T -> bool, k: nat)
    requires k < |s| && p(s[k]) && forall j :: 0 <= j < k ==> !p(s[j])
    ensures FirstMatch(s, p) == Some(k)
  {
    FirstMatchIsFirst(s, p);
  }

  /** With no element satisfying `p`, there is no first match. */
  lemma {:induction false} FirstMatchNone<T>(s: seq<T>, p: T -> bool)
    requires forall j :: 0 <= j < |s| ==> !p(s[j])
    ensures FirstMatch(s, p) == None
    decreases |s|
  {
    if s != [] {
      FirstMatchNone(s[1..], p);
    }
  }

  /** Extending a list at the back never moves an earlier first match. */
  lemma FirstMatchSnoc<T>(s: seq<T>, x: T, p: T -> bool)
    ensures FirstMatch(s + [x], p) ==
      match FirstMatch(s, p)
      case Some(k) => Some(k)
      case None => if p(x) then Some(|s|) else None
  {
    var t := s + [x];
    FirstMatchIsFirst(s, p);
    assert forall j :: 0 <= j < |s| ==> t[j] == s[j];
    match FirstMatch(s, p)
    case Some(k) =>
      FirstMatchUnique(t, p, k);
    case None =>
      if p(x) {
        FirstMatchUnique(t, p, |s|);
      } else {
        FirstMatchNone(t, p);
      }
  }


  /** The scanning loop: index of the first element satisfying `p`, if any. */
  method FindFirst<T>(s: seq<T>, p: T -> bool) returns (r: Option<nat>)
    ensures r == FirstMatch(s, p)
  {
    var i := 0;
    while i < |s|
      invariant 0 <= i <= |s|
      invariant forall j :: 0 <= j < i ==> !p(s[j])
    {
      if p(s[i]) {
        FirstMatchUnique(s, p, i);
        return Some(i);
      }
      i := i + 1;
    }
    FirstMatchIsFirst(s, p);
    return None;
  }

  /** One tick of the game's count-down counters: `if (c > 0) c--`. */
  function Tick(c: int): int
  {
    if c > 0 then c - 1 else c
  }
}
