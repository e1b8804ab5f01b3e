/**
 * Left- and right-folded heterogeneous lists (the `lhlist` and `rhlist`
 * modules of gpu-bulwark).
 *
 * In Rust a left-folded list is `()` or a pair `(init, last)`, and a
 * right-folded list is `()` or a pair `(head, tail)`; the elements may have
 * different types. Here every list is generic over one element type, which
 * callers instantiate with a tagged datatype (a GLSL variable, a uniform
 * definition, ...). Each list is abstracted by its element sequence
 * (`LElems`, `RElems`); every operation is specified against that sequence.
 */
module HList {

  /** Left-folded list: `()` or `(init, last)`. */
  datatype LList<T> = LNil | LCons(init: LList<T>, last: T)

  /** Right-folded list: `()` or `(head, tail)`. */
  datatype RList<T> = RNil | RCons(head: T, tail: RList<T>)

  // ---------------------------------------------------------------------
  // Reference semantics: the sequence of elements, front to back.

  function LElems<T>(l: LList<T>): seq<T>
  {
    match l
    case LNil => []
    case LCons(init, e) => LElems(init) + [e]
  }

  function RElems<T>(r: RList<T>): seq<T>
  {
    match r
    case RNil => []
    case RCons(h, t) => [h] + RElems(t)
  }

  /** Sequence reversal, peeling the last element. */
  function Rev<T>(s: seq<T>): seq<T>
  {
    if |s| == 0 then [] else [s[|s| - 1]] + Rev(s[..|s| - 1])
  }

  lemma {:induction false} RevLength<T>(s: seq<T>)
    ensures |Rev(s)| == |s|
  {
    if |s| > 0 { RevLength(s[..|s| - 1]); }
  }

  lemma {:induction false} RevAt<T>(s: seq<T>, i: nat)
    requires i < |s|
    ensures |Rev(s)| == |s| && Rev(s)[i] == s[|s| - 1 - i]
  {
    RevLength(s);
    if i > 0 { RevAt(s[..|s| - 1], i - 1); }
  }

  lemma {:induction false} RevConsFront<T>(e: T, s: seq<T>)
    ensures Rev([e] + s) == Rev(s) + [e]
  {
    RevLength(s);
    RevLength([e] + s);
    forall i | 0 <= i < |s| + 1
      ensures Rev([e] + s)[i] == (Rev(s) + [e])[i]
    {
      RevAt([e] + s, i);
      if i < |s| { RevAt(s, i); }
    }
  }

  lemma {:induction false} RevRev<T>(s: seq<T>)
    ensures Rev(Rev(s)) == s
  {
    RevLength(s);
    RevLength(Rev(s));
    forall i | 0 <= i < |s| ensures Rev(Rev(s))[i] == s[i] {
      RevAt(Rev(s), i);
      RevAt(s, |s| - 1 - i);
    }
  }

  // ---------------------------------------------------------------------
  // Left-folded lists (lhlist)

  /** `Base::LENGTH`: `()` has length 0 and each pair adds one. */
  function LLength<T>(l: LList<T>): (n: nat)
    ensures n == |LElems(l)|
  {
    match l
    case LNil => 0
    case LCons(init, _) => LLength(init) + 1
  }

  /** `Append`: the new element becomes the last one. */
  function LAppend<T>(l: LList<T>, e: T): (r: LList<T>)
    ensures LElems(r) == LElems(l) + [e]
    ensures LLength(r) == LLength(l) + 1
  {
    match l
    case LNil => LCons(LNil, e)
    case LCons(_, _) => LCons(l, e)
  }

  /** `Prepend`: the new element becomes the first one; the rest keep their order. */
  function LPrepend<T>(l: LList<T>, e: T): (r: LList<T>)
    ensures LElems(r) == [e] + LElems(l)
  {
    match l
    case LNil => LCons(LNil, e)
    case LCons(init, last) => LCons(LPrepend(init, e), last)
  }

  /** `Concatenate`, with its five impls: self's elements followed by other's. */
  function LConcat<T>(a: LList<T>, b: LList<T>): (r: LList<T>)
    ensures LElems(r) == LElems(a) + LElems(b)
    decreases b
  {
    match (a, b)
    case (LNil, LNil) => LNil
    case (LNil, LCons(_, _)) => b
    case (LCons(_, _), LNil) => a
    case (LCons(_, _), LCons(LNil, t)) => LCons(a, t)
    case (LCons(_, _), LCons(LCons(oh, oe), ot)) => LCons(LConcat(a, LCons(oh, oe)), ot)
  }

  /** `First`: defined on non-empty lists only. */
  function LFirst<T>(l: LList<T>): (r: T)
    requires l.LCons?
    ensures r == LElems(l)[0]
  {
    match l
    case LCons(LNil, e) => e
    case LCons(LCons(h, e), _) => LFirst(LCons(h, e))
  }

  /** `Last`: the element of the outermost pair. */
  function LLast<T>(l: LList<T>): (r: T)
    requires l.LCons?
    ensures r == LElems(l)[|LElems(l)| - 1]
  {
    l.last
  }

  /** `Invert`: the same elements in the same order, right-folded. */
  function LInvert<T>(l: LList<T>): (r: RList<T>)
    ensures RElems(r) == LElems(l)
  {
    match l
    case LNil => RNil
    case LCons(init, e) => RAppend(LInvert(init), e)
  }

  /** `Reverse`: reverse the inner list, then prepend the old last element. */
  function LReverse<T>(l: LList<T>): (r: LList<T>)
    ensures LElems(r) == Rev(LElems(l))
  {
    match l
    case LNil => LNil
    case LCons(init, e) =>
      var s := LElems(init) + [e];
      assert s[..|s| - 1] == LElems(init);
      LPrepend(LReverse(init), e)
  }

  /**
   * `Find<Needle, I>`: index `Zero` is the last element, and each
   * `Successor` steps one pair towards the front.
   */
  function LFind<T>(l: LList<T>, k: nat): (r: T)
    requires k < LLength(l)
    ensures r == LElems(l)[|LElems(l)| - 1 - k]
  {
    match l
    case LCons(init, e) => if k == 0 then e else LFind(init, k - 1)
  }

  // ---------------------------------------------------------------------
  // Right-folded lists (rhlist)

  /** `Base::LENGTH`: `()` has length 0 and each pair adds one. */
  function RLength<T>(r: RList<T>): (n: nat)
    ensures n == |RElems(r)|
  {
    match r
    case RNil => 0
    case RCons(_, t) => RLength(t) + 1
  }

  /** `Append`: `(H, T.append(E))`, so the element ends up last. */
  function RAppend<T>(r: RList<T>, e: T): (s: RList<T>)
    ensures RElems(s) == RElems(r) + [e]
  {
    match r
    case RNil => RCons(e, RNil)
    case RCons(h, t) => RCons(h, RAppend(t, e))
  }

  /** `Prepend`: `(elem, self)`. */
  function RPrepend<T>(r: RList<T>, e: T): (s: RList<T>)
    ensures RElems(s) == [e] + RElems(r)
    ensures RLength(s) == RLength(r) + 1
  {
    match r
    case RNil => RCons(e, RNil)
    case RCons(_, _) => RCons(e, r)
  }

  /** `First`: the head of the outermost pair. */
  function RFirst<T>(r: RList<T>): (e: T)
    requires r.RCons?
    ensures e == RElems(r)[0]
  {
    r.head
  }

  /** `Last`: `(E, ())` gives E, `(H, (E, T))` recurses into the tail. */
  function RLast<T>(r: RList<T>): (e: T)
    requires r.RCons?
    ensures e == RElems(r)[|RElems(r)| - 1]
  {
    match r
    case RCons(e, RNil) => e
    case RCons(_, RCons(e, t)) => RLast(RCons(e, t))
  }

  /** `Invert`: the same elements in the same order, left-folded. */
  function RInvert<T>(r: RList<T>): (l: LList<T>)
    ensures LElems(l) == RElems(r)
  {
    match r
    case RNil => LNil
    case RCons(e, t) => LPrepend(RInvert(t), e)
  }

  /** `Reverse`: reverse the tail, then append the old head. */
  function RReverse<T>(r: RList<T>): (s: RList<T>)
    ensures RElems(s) == Rev(RElems(r))
  {
    match r
    case RNil => RNil
    case RCons(e, t) =>
      RevConsFront(e, RElems(t));
      RAppend(RReverse(t), e)
  }

  /** `Selector<Needle, I>`: index `Zero` is the head; `Successor` recurses into the tail. */
  function RSelect<T>(r: RList<T>, k: nat): (e: T)
    requires k < RLength(r)
    ensures e == RElems(r)[k]
  {
    match r
    case RCons(h, t) => if k == 0 then h else RSelect(t, k - 1)
  }

  // ---------------------------------------------------------------------
  // Helpers for callers

  /** The left-folded list of a sequence, built front to back as the list macros do. */
  function LFromSeq<T>(s: seq<T>): (l: LList<T>)
    ensures LElems(l) == s
  {
    if |s| == 0 then LNil else LCons(LFromSeq(s[..|s| - 1]), s[|s| - 1])
  }

  /** Apply `f` to every element, keeping the fold. */
  function LMap<T, U>(f: T -> U, l: LList<T>): (r: LList<U>)
    ensures |LElems(r)| == |LElems(l)|
    ensures forall i :: 0 <= i < |LElems(l)| ==> LElems(r)[i] == f(LElems(l)[i])
  {
    match l
    case LNil => LNil
    case LCons(init, e) => LCons(LMap(f, init), f(e))
  }

  // ---------------------------------------------------------------------
  // Laws relating the operations

  /** A left-folded list is determined by its elements. */
  lemma {:induction false} LElemsInjective<T>(a: LList<T>, b: LList<T>)
    requires LElems(a) == LElems(b)
    ensures a == b
  {
    match a
    case LNil =>
    case LCons(ai, ae) =>
      var b' := b;
      assert b'.LCons?;
      var s := LElems(a);
      assert LElems(ai) == s[..|s| - 1] == LElems(b.init);
      LElemsInjective(ai, b.init);
  }

  /** A right-folded list is determined by its elements. */
  lemma {:induction false} RElemsInjective<T>(a: RList<T>, b: RList<T>)
    requires RElems(a) == RElems(b)
    ensures a == b
  {
    match a
    case RNil =>
    case RCons(ah, at) =>
      assert b.RCons?;
      var s := RElems(a);
      assert RElems(at) == s[1..] == RElems(b.tail);
      RElemsInjective(at, b.tail);
  }

  /** The empty list is a left and a right identity of concatenation. */
  lemma ConcatIdentity<T>(l: LList<T>)
    ensures LConcat(LNil, l) == l && LConcat(l, LNil) == l
  {
  }

  /** `Append` then `Last` gives the appended element back. */
  lemma AppendLast<T>(l: LList<T>, e: T)
    ensures LLast(LAppend(l, e)) == e
    ensures LAppend(l, e).init == l
  {
  }

  /** `Prepend` then `First` gives the prepended element back. */
  lemma PrependFirst<T>(l: LList<T>, e: T)
    ensures LFirst(LPrepend(l, e)) == e
    ensures LLength(LPrepend(l, e)) == LLength(l) + 1
  {
  }

  /** Reversing a left-folded list twice restores it and keeps its length. */
  lemma LReverseInvolution<T>(l: LList<T>)
    ensures LLength(LReverse(l)) == LLength(l)
    ensures LReverse(LReverse(l)) == l
  {
    RevLength(LElems(l));
    RevRev(LElems(l));
    LElemsInjective(LReverse(LReverse(l)), l);
  }

  /** Reversing a right-folded list twice restores it and keeps its length. */
  lemma RReverseInvolution<T>(r: RList<T>)
    ensures RLength(RReverse(r)) == RLength(r)
    ensures RReverse(RReverse(r)) == r
  {
    RevLength(RElems(r));
    RevRev(RElems(r));
    RElemsInjective(RReverse(RReverse(r)), r);
  }

  /** `Invert` in both directions are inverse to each other. */
  lemma InvertRoundTrip<T>(l: LList<T>, r: RList<T>)
    ensures RInvert(LInvert(l)) == l
    ensures LInvert(RInvert(r)) == r
    ensures RLength(LInvert(l)) == LLength(l)
  {
    LElemsInjective(RInvert(LInvert(l)), l);
    RElemsInjective(LInvert(RInvert(r)), r);
  }

  /** Inverting commutes with reversing. */
  lemma InvertReverse<T>(l: LList<T>)
    ensures LInvert(LReverse(l)) == RReverse(LInvert(l))
  {
    RElemsInjective(LInvert(LReverse(l)), RReverse(LInvert(l)));
  }

  /**
   * `Find` counts from the back and `Selector` from the front: `Find` index
   * 0 is `Last`, the highest `Find` index is `First`, and `Find` index k is
   * the inverted list's `Selector` index `len - 1 - k`.
   */
  lemma FindSelect<T>(l: LList<T>, k: nat)
    requires k < LLength(l)
    ensures LFind(l, 0) == LLast(l)
    ensures LFind(l, LLength(l) - 1) == LFirst(l)
    ensures RSelect(LInvert(l), LLength(l) - 1 - k) == LFind(l, k)
  {
    InvertRoundTrip(l, RNil);
  }
}
