/**
 * Indexed heterogeneous lists (`hlist::indexed`): every element is wrapped
 * in `Indexed<INDEX, T>`, which tags a value with a compile-time index.
 */
module Indexed {
  import opened HList

  /** `Indexed<INDEX, T>`: the value together with its index tag. */
  datatype Indexed<T> = Indexed(index: nat, value: T)

  /** `Indexed::new`: stores the value unchanged under the chosen tag. */
  function New<T>(index: nat, value: T): (r: Indexed<T>)
    ensures r.index == index && r.value == value
  {
    Indexed(index, value)
  }

  // ---------------------------------------------------------------------
  // lhlist

  /** `lhlist::Empty::new`: the one-element list `((), Indexed<0, E>)`. */
  function LNew<T>(value: T): (r: LList<Indexed<T>>)
    ensures LElems(r) == [Indexed(0, value)]
    ensures LLength(r) == 1 && LLast(r) == New(0, value)
  {
    LCons(LNil, New(0, value))
  }

  /** `Empty::appned_indexed`, implemented only for `()`: the same as `new`. */
  function LAppendIndexedEmpty<T>(l: LList<Indexed<T>>, value: T): (r: LList<Indexed<T>>)
    requires l.LNil?
    ensures r == LNew(value)
    ensures LElems(r) == LElems(l) + [Indexed(0, value)]
  {
    LNew(value)
  }

  /**
   * `Append::append_indexed`, implemented for non-empty lists: the tagged
   * value goes last and the list before it is left untouched. The index
   * is chosen by the caller.
   */
  function LAppendIndexed<T>(l: LList<Indexed<T>>, index: nat, value: T): (r: LList<Indexed<T>>)
    requires l.LCons?
    ensures r.LCons? && r.init == l && r.last == Indexed(index, value)
    ensures LElems(r) == LElems(l) + [Indexed(index, value)]
  {
    LCons(l, New(index, value))
  }

  // ---------------------------------------------------------------------
  // rhlist

  /** `rhlist::Empty::new`: the one-element list `(Indexed<0, E>, ())`. */
  function RNew<T>(value: T): (r: RList<Indexed<T>>)
    ensures RElems(r) == [Indexed(0, value)]
    ensures RLength(r) == 1 && RFirst(r) == New(0, value)
  {
    RCons(New(0, value), RNil)
  }

  /** `Empty::prepend_indexed`, implemented only for `()`: the same as `new`. */
  function RPrependIndexedEmpty<T>(r: RList<Indexed<T>>, value: T): (s: RList<Indexed<T>>)
    requires r.RNil?
    ensures s == RNew(value)
    ensures RElems(s) == [Indexed(0, value)] + RElems(r)
  {
    RNew(value)
  }

  /**
   * `rhlist::Append::append_indexed`: despite its name it builds
   * `(Indexed::new(value), self)`, so the tagged value goes FIRST.
   */
  function RAppendIndexed<T>(r: RList<Indexed<T>>, index: nat, value: T): (s: RList<Indexed<T>>)
    requires r.RCons?
    ensures s.RCons? && s.tail == r && s.head == Indexed(index, value)
    ensures RElems(s) == [Indexed(index, value)] + RElems(r)
  {
    RCons(New(index, value), r)
  }

  /**
   * The right-folded `append_indexed` is the generic `Prepend`, and it
   * differs from the generic `Append` on every list whose elements are not
   * all equal to the new one.
   */
  lemma RAppendIndexedIsPrepend<T>(r: RList<Indexed<T>>, index: nat, value: T)
    requires r.RCons?
    ensures RAppendIndexed(r, index, value) == RPrepend(r, Indexed(index, value))
    ensures r.head != Indexed(index, value) ==>
              RAppendIndexed(r, index, value) != RAppend(r, Indexed(index, value))
  {
    if r.head != Indexed(index, value) {
      var s := RAppend(r, Indexed(index, value));
      assert RElems(s)[0] == r.head;
    }
  }

  /** Inverting the left-folded singleton gives the right-folded one, and back. */
  lemma NewInvert<T>(value: T)
    ensures LInvert(LNew(value)) == RNew(value)
    ensures RInvert(RNew(value)) == LNew(value)
  {
  }
}
