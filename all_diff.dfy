/**
 * The compile-time all-different check on locations
 * (`notes/const-all-diffrernt.rs`): a left-folded list of locations
 * carries an `INDEX` (its length minus one) and an `ARRAY` of N = 1024
 * `i64` slots, built by `all_diff`, which stops compilation when a
 * location repeats.
 */
module AllDiff {
  import opened Wrappers
  import opened HList

  /** The fixed buffer size N. */
  const N: nat := 1024

  /** `usize` on a 64-bit target. */
  const USIZE_LIMIT: nat := 0x1_0000_0000_0000_0000

  /** `location as i64`: a 64-bit two's-complement reinterpretation. */
  function AsI64(x: nat): (r: int)
    requires x < USIZE_LIMIT
    ensures -0x8000_0000_0000_0000 <= r < 0x8000_0000_0000_0000
    ensures x < 0x8000_0000_0000_0000 ==> r == x
  {
    if x < 0x8000_0000_0000_0000 then x else x - USIZE_LIMIT
  }

  /** The panics of `all_diff`, and the out-of-bounds write the guard lets through. */
  datatype AllDiffError = BufferTooSmall | Overlapping | IndexOutOfBounds

  /** `[-1; N]`. */
  function Unset(k: nat): seq<int>
  {
    seq(k, _ => -1)
  }

  /**
   * What `all_diff(array, index, location)` is meant to compute: refuse an
   * index outside the buffer; refuse a location equal to one of the first
   * `index` entries; otherwise copy those entries, put the location at
   * position `index` and leave the rest -1.
   */
  function AllDiffSpec(arr: seq<int>, index: nat, location: nat): (r: Result<seq<int>, AllDiffError>)
    requires |arr| == N && location < USIZE_LIMIT
    ensures r.Ok? ==> |r.value| == N
  {
    if index >= N then Err(BufferTooSmall)
    else if exists i :: 0 <= i < index && arr[i] == AsI64(location) then Err(Overlapping)
    else Ok(arr[..index] + [AsI64(location)] + Unset(N - index - 1))
  }

  /**
   * `all_diff` with the guard as written, `index > N`: at index N the loop
   * still runs, and then the write `new_array[N]` is out of bounds.
   */
  function AllDiffAsWrittenSpec(arr: seq<int>, index: nat, location: nat): (r: Result<seq<int>, AllDiffError>)
    requires |arr| == N && location < USIZE_LIMIT
  {
    if index > N then Err(BufferTooSmall)
    else if exists i :: 0 <= i < index && arr[i] == AsI64(location) then Err(Overlapping)
    else if index == N then Err(IndexOutOfBounds)
    else Ok(arr[..index] + [AsI64(location)] + Unset(N - index - 1))
  }

  /** `all_diff` with the corrected guard `index >= N`. */
  method AllDiff(arr: seq<int>, index: nat, location: nat) returns (r: Result<seq<int>, AllDiffError>)
    requires |arr| == N && location < USIZE_LIMIT
    ensures r == AllDiffSpec(arr, index, location)
  {
    if index >= N {
      return Err(BufferTooSmall);
    }
    var loc := AsI64(location);
    var newArray := new int[N](_ => -1);
    var i := 0;
    while i < index
      invariant 0 <= i <= index
      invariant newArray[..i] == arr[..i]
      invariant forall k :: i <= k < N ==> newArray[k] == -1
      invariant forall k :: 0 <= k < i ==> arr[k] != loc
    {
      if arr[i] == loc {
        return Err(Overlapping);
      }
      newArray[i] := arr[i];
      i := i + 1;
    }
    newArray[index] := loc;
    assert newArray[..] == arr[..index] + [loc] + Unset(N - index - 1) by {
      assert newArray[..index] == arr[..index];
      forall k | 0 <= k < N
        ensures newArray[k] == (arr[..index] + [loc] + Unset(N - index - 1))[k]
      {
        if k < index { assert newArray[k] == newArray[..index][k]; }
      }
    }
    return Ok(newArray[..]);
  }

  /** `all_diff` exactly as written. */
  method AllDiffAsWritten(arr: seq<int>, index: nat, location: nat) returns (r: Result<seq<int>, AllDiffError>)
    requires |arr| == N && location < USIZE_LIMIT
    ensures r == AllDiffAsWrittenSpec(arr, index, location)
  {
    if index > N {
      return Err(BufferTooSmall);
    }
    var loc := AsI64(location);
    var newArray := new int[N](_ => -1);
    var i := 0;
    while i < index
      invariant 0 <= i <= index
      invariant i <= N ==> newArray[..i] == arr[..i]
      invariant forall k :: i <= k < N ==> newArray[k] == -1
      invariant forall k :: 0 <= k < i ==> arr[k] != loc
    {
      if arr[i] == loc {
        return Err(Overlapping);
      }
      newArray[i] := arr[i];
      i := i + 1;
    }
    if index == N {
      // `new_array[index] = ...` with index == N: out of bounds
      return Err(IndexOutOfBounds);
    }
    newArray[index] := loc;
    assert newArray[..] == arr[..index] + [loc] + Unset(N - index - 1) by {
      assert newArray[..index] == arr[..index];
      forall k | 0 <= k < N
        ensures newArray[k] == (arr[..index] + [loc] + Unset(N - index - 1))[k]
      {
        if k < index { assert newArray[k] == newArray[..index][k]; }
      }
    }
    return Ok(newArray[..]);
  }

  /** The guard as written lets index N through, where the write falls outside the buffer. */
  lemma AsWrittenGuardMissesN()
    ensures !(N > N)
    ensures AllDiffAsWrittenSpec(Unset(N), N, 5) == Err(IndexOutOfBounds)
    ensures AllDiffSpec(Unset(N), N, 5) == Err(BufferTooSmall)
  {
    assert forall i :: 0 <= i < N ==> Unset(N)[i] == -1;
  }

  // ---------------------------------------------------------------------
  // The AllDiff chain over a list of locations

  /** Locations representable as `usize`. */
  predicate Fits(s: seq<nat>)
  {
    forall k :: 0 <= k < |s| ==> s[k] < USIZE_LIMIT
  }

  predicate Representable(l: LList<nat>)
  {
    Fits(LElems(l))
  }

  /** `AllDiff::INDEX`: 0 for the first location, the previous index plus 1 after that. */
  function Index(l: LList<nat>): (k: nat)
    requires l.LCons?
    ensures k == |LElems(l)| - 1
  {
    match l
    case LCons(LNil, _) => 0
    case LCons(LCons(h, p), _) => Index(LCons(h, p)) + 1
  }

  /**
   * `AllDiff::ARRAY`: `all_diff([-1; N], 0, FIRST)` for the first
   * location, `all_diff(prev::ARRAY, INDEX, CURR)` after that; an error
   * anywhere stops the chain.
   */
  function Array(l: LList<nat>): (r: Result<seq<int>, AllDiffError>)
    requires l.LCons? && Representable(l)
    ensures r.Ok? ==> |r.value| == N
  {
    match l
    case LCons(LNil, first) =>
      assert LElems(l)[0] == first;
      AllDiffSpec(Unset(N), 0, first)
    case LCons(LCons(h, p), c) =>
      var init: LList<nat> := LCons(h, p);
      assert LElems(l) == LElems(init) + [c];
      assert LElems(l)[|LElems(init)|] == c;
      assert Representable(init) by {
        forall k | 0 <= k < |LElems(init)| ensures LElems(init)[k] < USIZE_LIMIT {
          assert LElems(init)[k] == LElems(l)[k];
        }
      }
      var prev := Array(init);
      if prev.Err? then prev else AllDiffSpec(prev.value, Index(l), c)
  }

  /** The buffer a list of distinct locations leaves: the locations, then -1 padding. */
  function Expected(s: seq<nat>): seq<int>
    requires |s| <= N && Fits(s)
  {
    seq(|s|, k requires 0 <= k < |s| => AsI64(s[k])) + Unset(N - |s|)
  }

  /** Pairwise distinct after the cast to `i64`. */
  predicate Distinct(s: seq<nat>)
    requires Fits(s)
  {
    forall i, j :: 0 <= i < j < |s| ==> AsI64(s[i]) != AsI64(s[j])
  }

  /**
   * The chain accepts a list iff it fits the buffer (at most N entries)
   * and its locations are pairwise different; it then holds them in
   * order, followed by -1. The order of the locations does not matter.
   */
  lemma {:induction false} ArrayAcceptsDistinct(l: LList<nat>)
    requires l.LCons? && Representable(l)
    ensures Array(l).Ok? <==> |LElems(l)| <= N && Distinct(LElems(l))
    ensures Array(l).Ok? ==> Array(l).value == Expected(LElems(l))
  {
    var s: seq<nat> := LElems(l);
    match l
    case LCons(LNil, first) =>
      assert LElems(l) == LElems<nat>(LNil) + [first];
      assert s == [first] && s[0] == first;
      assert Unset(N)[..0] + [AsI64(first)] + Unset(N - 1) == Expected(s);
    case LCons(LCons(h, p), c) =>
      var init: LList<nat> := LCons(h, p);
      var t: seq<nat> := LElems(init);
      assert s == t + [c];
      assert c < USIZE_LIMIT by { assert s[|t|] == c; }
      assert Representable(init) by {
        forall k | 0 <= k < |t| ensures t[k] < USIZE_LIMIT { assert t[k] == s[k]; }
      }
      ArrayAcceptsDistinct(init);
      var k := Index(l);
      assert k == |t|;
      if Array(init).Ok? {
        var a := Array(init).value;
        assert a == Expected(t);
        if k < N {
          assert a[..k] == seq(|t|, i requires 0 <= i < |t| => AsI64(t[i]));
          assert (exists i :: 0 <= i < k && a[i] == AsI64(c)) <==> (exists i :: 0 <= i < |t| && AsI64(t[i]) == AsI64(c)) by {
            forall i | 0 <= i < k ensures a[i] == AsI64(t[i]) { assert a[i] == a[..k][i]; }
          }
          if Array(l).Ok? {
            assert Array(l).value == a[..k] + [AsI64(c)] + Unset(N - k - 1);
            assert Array(l).value == Expected(s);
          }
          assert Distinct(s) <==> Distinct(t) && forall i :: 0 <= i < |t| ==> AsI64(t[i]) != AsI64(c) by {
            if Distinct(t) && forall i :: 0 <= i < |t| ==> AsI64(t[i]) != AsI64(c) {
              forall i, j | 0 <= i < j < |s| ensures AsI64(s[i]) != AsI64(s[j]) {
                if j < |t| { assert s[i] == t[i] && s[j] == t[j]; } else { assert s[i] == t[i] && s[j] == c; }
              }
            }
            if Distinct(s) {
              forall i, j | 0 <= i < j < |t| ensures AsI64(t[i]) != AsI64(t[j]) { assert s[i] == t[i] && s[j] == t[j]; }
              forall i | 0 <= i < |t| ensures AsI64(t[i]) != AsI64(c) { assert s[i] == t[i] && s[|t|] == c; }
            }
          }
        }
      } else {
        if |s| <= N && Distinct(s) {
          forall i, j | 0 <= i < j < |t| ensures AsI64(t[i]) != AsI64(t[j]) { assert s[i] == t[i] && s[j] == t[j]; }
        }
      }
  }

  /** `locations!(...)`: the literals as a left-folded list, in order. */
  function Locations(s: seq<nat>): (l: LList<nat>)
    requires |s| >= 1
    ensures l.LCons? && LElems(l) == s
  {
    LFromSeq(s)
  }

  /** A list of small literals is accepted iff its literals are pairwise different. */
  lemma AcceptsLiterals(s: seq<nat>)
    requires 1 <= |s| <= N && forall k :: 0 <= k < |s| ==> s[k] < 0x8000_0000_0000_0000
    ensures Array(Locations(s)).Ok? <==> forall i, j :: 0 <= i < j < |s| ==> s[i] != s[j]
  {
    ArrayAcceptsDistinct(Locations(s));
  }

  /** The tests: (1, 2, 3), (3, 2, 1) and (1, 3, 2) are accepted, and (1, 1) is rejected. */
  lemma TestValid1()
    ensures Array(Locations([1, 2, 3])).Ok?
  {
    AcceptsLiterals([1, 2, 3]);
  }

  lemma TestValid2()
    ensures Array(Locations([3, 2, 1])).Ok?
  {
    AcceptsLiterals([3, 2, 1]);
  }

  lemma TestValid3()
    ensures Array(Locations([1, 3, 2])).Ok?
  {
    AcceptsLiterals([1, 3, 2]);
  }

  lemma TestInvalid1()
    ensures Array(Locations([1, 1])).Err?
  {
    AcceptsLiterals([1, 1]);
    assert [1, 1][0] == [1, 1][1];
  }
}
