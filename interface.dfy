/**
 * Shader interface variables and their location checks (`glsl::variable`
 * and its successor `glsl::binding`).
 *
 * Both files define a variable `Variable<S, L, T>` (called `Binding` in
 * the second) with a storage qualifier S, a layout qualifier L and a GLSL
 * type T; the compile-time check `are_locations_valid`; the
 * `ConstFnValid` chain that applies it to adjacent pairs of a list; and
 * `MatchingInputs`, which turns a list of outputs into the next stage's
 * inputs. The only difference is the location count of a type:
 * `glsl::variable` uses `N_USED_LOCATIONS` of `glsl::location` for
 * transparent types, `glsl::binding` uses `LOCATION_COUNT` for every
 * `glsl::Type`. `CountTable` selects between the two.
 */
module Interface {
  import opened Wrappers
  import opened HList
  import opened Glsl
  import Location
  import Layout

  /** Storage qualifiers (The OpenGL Shading Language 4.60, section 4.3). */
  datatype Storage = In | Out | Uniform | Buffer

  /** Layout qualifiers `location = N` and `binding = N` (section 4.4 of the same standard). */
  datatype LayoutQualifier = AtLocation(n: nat) | AtBinding(n: nat)

  /** `Variable<S, L, T>` / `Binding<S, L, T>`. */
  datatype Variable = Variable(storage: Storage, layout: LayoutQualifier, ty: GlslType)

  /** Which location table a file uses. */
  datatype CountTable = VariableTable | BindingTable

  /**
   * The location count of a type, or `None` when the type does not meet
   * the pair check's bound: `TransparentType` (a `Location` impl) for
   * `glsl::variable`, `glsl::Type` for `glsl::binding`.
   */
  function SlotCount(table: CountTable, t: GlslType): (r: Option<nat>)
    ensures r.Some? ==> IsType(t) && r.value == StandardLocations(t)
  {
    match table
    case VariableTable =>
      if Location.HasLocation(t) then
        Location.LocationIsType(t);
        Some(Location.NUsedLocations(t))
      else None
    case BindingTable =>
      if IsType(t) then
        Layout.TypeHasLayout(t);
        Some(Layout.LocationCount(t))
      else None
  }

  // ---------------------------------------------------------------------
  // are_locations_valid and the ConstFnValid chain

  /** The two assertion messages of `are_locations_valid`. */
  datatype PairError = NotIncreasing | Overlap

  /**
   * `are_locations_valid::<PT, PL, CT, CL>`: first "locations must be
   * specified in strictly increasing order" when PL > CL + count(CT), then
   * "locations overlap" unless PL + count(PT) <= CL. The first assertion
   * never fires alone: the pair passes exactly when the second holds.
   */
  function CheckPair(pl: nat, pCount: nat, cl: nat, cCount: nat): (r: Option<PairError>)
    ensures r.None? <==> pl + pCount <= cl
    ensures r == Some(NotIncreasing) ==> !(pl + pCount <= cl)
  {
    if pl > cl + cCount then Some(NotIncreasing)
    else if !(pl + pCount <= cl) then Some(Overlap)
    else None
  }

  /**
   * The inductive `ConstFnValid` impl applies to a pair of adjacent
   * variables only when both have the same storage, both have a
   * `location` qualifier and both types meet the count bound.
   */
  predicate PairApplies(table: CountTable, p: Variable, c: Variable)
  {
    p.storage == c.storage && p.layout.AtLocation? && c.layout.AtLocation?
    && SlotCount(table, p.ty).Some? && SlotCount(table, c.ty).Some?
  }

  /** The adjacent pair passes `are_locations_valid`. */
  predicate PairValid(table: CountTable, p: Variable, c: Variable)
  {
    PairApplies(table, p, c)
    && CheckPair(p.layout.n, SlotCount(table, p.ty).value, c.layout.n, SlotCount(table, c.ty).value).None?
  }

  /**
   * `ConstFnValid`: implemented for `((), V)` with no check, and for
   * `((H, P), C)` when `(H, P)` is valid and the pair (P, C) passes. `()`
   * has no impl.
   */
  predicate ConstFnValid(table: CountTable, l: LList<Variable>)
  {
    match l
    case LNil => false
    case LCons(LNil, _) => true
    case LCons(LCons(h, p), c) => ConstFnValid(table, LCons(h, p)) && PairValid(table, p, c)
  }

  /** Reference definition: a non-empty sequence whose adjacent pairs all pass. */
  predicate AdjacentValid(table: CountTable, s: seq<Variable>)
  {
    |s| >= 1 && forall i :: 0 <= i < |s| - 1 ==> PairValid(table, s[i], s[i + 1])
  }

  /** The first location after the range a variable occupies. */
  function End(table: CountTable, v: Variable): nat
    requires v.layout.AtLocation? && SlotCount(table, v.ty).Some?
  {
    v.layout.n + SlotCount(table, v.ty).value
  }

  // ---------------------------------------------------------------------
  // MatchingInputs, and the list macros

  /** The outputs `matching_inputs` accepts: `Out` variables at a location. */
  predicate IsOutput(v: Variable)
  {
    v.storage == Out && v.layout.AtLocation?
  }

  /** `matching_input`: the `In` variable at the same location, of the same type. */
  function MatchingInput(v: Variable): (r: Variable)
    requires IsOutput(v)
    ensures r.storage == In && r.layout == v.layout && r.ty == v.ty
  {
    Variable(In, v.layout, v.ty)
  }

  /** `MatchingInputs`: `()` gives `()`, `(H, out)` gives `(H::Inputs, in)`. */
  function MatchingInputs(l: LList<Variable>): (r: LList<Variable>)
    requires forall v | v in LElems(l) :: IsOutput(v)
    ensures |LElems(r)| == |LElems(l)|
    ensures forall i :: 0 <= i < |LElems(l)| ==>
              LElems(r)[i] == Variable(In, LElems(l)[i].layout, LElems(l)[i].ty)
  {
    match l
    case LNil => LNil
    case LCons(h, v) => LCons(MatchingInputs(h), MatchingInput(v))
  }

  /** `Glsl!` / `Bindings!`: the declarations as a left-folded list, in order. */
  function Declare(decls: seq<Variable>): (l: LList<Variable>)
    requires |decls| >= 1
    ensures l.LCons? && LElems(l) == decls
  {
    LFromSeq(decls)
  }

  /**
   * `glsl!` / `bindings!`: the same fold, with `validated` after every
   * append; `None` stands for the compile error of the first failing
   * check. It succeeds exactly when the whole list is valid.
   */
  function DeclareValidated(table: CountTable, decls: seq<Variable>): (r: Option<LList<Variable>>)
    requires |decls| >= 1
    ensures r.Some? ==> r.value == Declare(decls)
    ensures r.Some? <==> ConstFnValid(table, Declare(decls))
  {
    if |decls| == 1 then
      Some(LCons(LNil, decls[0]))
    else
      var front := decls[..|decls| - 1];
      var acc := DeclareValidated(table, front);
      LElemsInjective(Declare(decls).init, Declare(front));
      if acc.None? then None
      else
        var l := LCons(acc.value, decls[|decls| - 1]);
        if ConstFnValid(table, l) then Some(l) else None
  }

  // ---------------------------------------------------------------------
  // Properties

  /** A one-element list is valid, whatever its variable. */
  lemma SingletonValid(table: CountTable, v: Variable)
    ensures ConstFnValid(table, LCons(LNil, v))
    ensures ConstFnValid(table, Declare([v]))
  {
  }

  /** Appending to a valid list keeps it valid iff the new last pair passes. */
  lemma AppendValid(table: CountTable, l: LList<Variable>, v: Variable)
    requires l.LCons?
    ensures ConstFnValid(table, LCons(l, v)) <==> ConstFnValid(table, l) && PairValid(table, l.last, v)
  {
  }

  /** The chain checks exactly the adjacent pairs of the element sequence. */
  lemma {:induction false} ConstFnValidIffAdjacent(table: CountTable, l: LList<Variable>)
    ensures ConstFnValid(table, l) <==> AdjacentValid(table, LElems(l))
  {
    match l
    case LNil =>
    case LCons(LNil, _) =>
    case LCons(LCons(h, p), c) =>
      ConstFnValidIffAdjacent(table, LCons(h, p));
      var s := LElems(LCons(h, p));
      assert LElems(l) == s + [c];
      assert s[|s| - 1] == p;
      if AdjacentValid(table, s + [c]) {
        forall i | 0 <= i < |s| - 1 ensures PairValid(table, s[i], s[i + 1]) {
          assert (s + [c])[i] == s[i] && (s + [c])[i + 1] == s[i + 1];
        }
        assert (s + [c])[|s| - 1] == p && (s + [c])[|s|] == c;
        assert PairValid(table, p, c);
      }
      if ConstFnValid(table, l) {
        forall i | 0 <= i < |s + [c]| - 1 ensures PairValid(table, (s + [c])[i], (s + [c])[i + 1]) {
          if i < |s| - 1 {
            assert (s + [c])[i] == s[i] && (s + [c])[i + 1] == s[i + 1];
          } else {
            assert (s + [c])[i] == p && (s + [c])[i + 1] == c;
          }
        }
      }
  }

  lemma {:induction false} AdjacentDisjointAt(table: CountTable, s: seq<Variable>, i: nat, j: nat)
    requires AdjacentValid(table, s) && i < j < |s|
    ensures PairApplies(table, s[i], s[i + 1]) && PairApplies(table, s[j - 1], s[j])
    ensures End(table, s[i]) <= s[j].layout.n
    decreases j - i
  {
    assert PairValid(table, s[j - 1], s[j]);
    if j > i + 1 {
      AdjacentDisjointAt(table, s, i, j - 1);
    }
  }

  /**
   * In a valid list every variable's location range [L, L + count) ends
   * at or before the start of every later one: the ranges are pairwise
   * disjoint, although only adjacent pairs are compared. When every type
   * uses at least one location, the locations strictly increase.
   */
  lemma ValidListLayout(table: CountTable, l: LList<Variable>, i: nat, j: nat)
    requires ConstFnValid(table, l) && i < j < |LElems(l)|
    ensures LElems(l)[i].layout.AtLocation? && LElems(l)[j].layout.AtLocation?
    ensures SlotCount(table, LElems(l)[i].ty).Some? && SlotCount(table, LElems(l)[j].ty).Some?
    ensures End(table, LElems(l)[i]) <= LElems(l)[j].layout.n
    ensures NoEmptyArray(LElems(l)[i].ty) ==> LElems(l)[i].layout.n < LElems(l)[j].layout.n
  {
    var s := LElems(l);
    ConstFnValidIffAdjacent(table, l);
    AdjacentDisjointAt(table, s, i, j);
    if NoEmptyArray(s[i].ty) {
      StandardLocationsPositive(s[i].ty);
    }
  }

  lemma {:induction false} StandardLocationsPositive(t: GlslType)
    requires IsType(t) && NoEmptyArray(t)
    ensures StandardLocations(t) >= 1
  {
    if t.ArrayT? {
      StandardLocationsPositive(t.elem);
    }
  }

  /** All variables of a valid list with two or more elements share one storage qualifier. */
  lemma {:induction false} ValidSameStorage(table: CountTable, l: LList<Variable>, i: nat)
    requires ConstFnValid(table, l) && i < |LElems(l)|
    ensures LElems(l)[i].storage == LElems(l)[|LElems(l)| - 1].storage
  {
    var s := LElems(l);
    ConstFnValidIffAdjacent(table, l);
    var k := i;
    while k < |s| - 1
      invariant i <= k <= |s| - 1
      invariant s[i].storage == s[k].storage
    {
      assert PairValid(table, s[k], s[k + 1]);
      k := k + 1;
    }
  }

  /**
   * `MatchingInputs` of a valid output list is a valid input list under
   * the same table: locations, types and order are kept, and only the
   * storage changes, uniformly.
   */
  lemma {:induction false} MatchingInputsValid(table: CountTable, l: LList<Variable>)
    requires forall v | v in LElems(l) :: IsOutput(v)
    requires ConstFnValid(table, l)
    ensures ConstFnValid(table, MatchingInputs(l))
  {
    match l
    case LCons(LNil, _) =>
    case LCons(LCons(h, p), c) =>
      assert forall v | v in LElems(LCons(h, p)) :: v in LElems(l);
      MatchingInputsValid(table, LCons(h, p));
  }

  /** `glsl!` rejects a list that reuses a location of a variable that uses locations. */
  lemma RejectsReuse(table: CountTable, v: Variable, w: Variable)
    requires v.layout.AtLocation? && w.layout == v.layout
    requires SlotCount(table, v.ty).Some? && SlotCount(table, v.ty).value >= 1
    ensures DeclareValidated(table, [v, w]).None?
  {
    var l := Declare([v, w]);
    assert LElems(LCons(LNil, v)) == [v];
    assert LElems(LCons(LCons(LNil, v), w)) == [v] + [w] == [v, w];
    LElemsInjective(l, LCons(LCons(LNil, v), w));
  }
}
