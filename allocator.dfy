/**
 * Per-slot allocators: the `Allocator` implementations for shader and
 * program objects (`src/gl/shader/internal.rs`, `src/gl/shader/mod.rs`,
 * `src/object/shader/internal.rs`, `src/object/shader.rs`,
 * `src/object/program/mod.rs`, `src/gl/program/mod.rs`). Unlike buffers and
 * vertex arrays, whose single `glCreate*` call fills every slot, these loop
 * over the slots and make one `glCreateShader` / `glCreateProgram` call per
 * slot, and free with one delete call per name.
 */
module Allocator {
  import opened Driver

  /** The calls of a per-slot allocation of `n` names. */
  function EachCreate(kind: Kind, n: nat): (r: seq<Call>)
    ensures |r| == n
    ensures forall i :: 0 <= i < n ==> r[i] == Create(kind, 1)
  {
    if n == 0 then [] else EachCreate(kind, n - 1) + [Create(kind, 1)]
  }

  /** The calls of a per-name free. */
  function EachDelete(kind: Kind, names: seq<nat>): (r: seq<Call>)
    ensures |r| == |names|
    ensures forall i :: 0 <= i < |names| ==> r[i] == Delete(kind, [names[i]])
  {
    if names == [] then [] else EachDelete(kind, names[..|names| - 1]) + [Delete(kind, [names[|names| - 1]])]
  }

  lemma FreshSplit(kind: Kind, from: nat, n: nat)
    ensures Fresh(kind, from, n) + Fresh(kind, from + n, 1) == Fresh(kind, from, n + 1)
  {
  }

  /** A create of `m` names followed by a create of one is a create of `m + 1`. */
  lemma CreateCompose(s: State, kind: Kind, m: nat)
    ensures Step(Step(s, Create(kind, m)), Create(kind, 1)) == Step(s, Create(kind, m + 1))
  {
    FreshSplit(kind, s.next, m);
    var a, b := Fresh(kind, s.next, m), Fresh(kind, s.next + m, 1);
    assert s.live + a + b == s.live + Fresh(kind, s.next, m + 1);
  }

  /** Creating one object per slot has exactly the effect of creating them all in one call. */
  lemma {:induction false} EachCreateIsBatch(s: State, kind: Kind, n: nat)
    ensures Run(s, EachCreate(kind, n)) == Step(s, Create(kind, n))
  {
    if n == 0 {
      assert Fresh(kind, s.next, 0) == {};
      assert s.live + Fresh(kind, s.next, 0) == s.live;
    } else {
      var cs := EachCreate(kind, n);
      assert cs[..|cs| - 1] == EachCreate(kind, n - 1);
      assert cs[|cs| - 1] == Create(kind, 1);
      EachCreateIsBatch(s, kind, n - 1);
      CreateCompose(s, kind, n - 1);
    }
  }

  lemma {:induction false} HandlesSnoc(kind: Kind, names: seq<nat>)
    requires names != []
    ensures Handles(kind, names) == Handles(kind, names[..|names| - 1]) + [Handle(kind, names[|names| - 1])]
  {
    var a := Handles(kind, names);
    var b := Handles(kind, names[..|names| - 1]) + [Handle(kind, names[|names| - 1])];
    assert |a| == |b|;
    forall i | 0 <= i < |a| ensures a[i] == b[i] {
      if i < |names| - 1 {
        assert b[i] == Handles(kind, names[..|names| - 1])[i];
      }
    }
  }

  lemma {:induction false} DeletedSnoc(kind: Kind, init: seq<nat>, last: nat)
    ensures (set n | n in init + [last] :: Handle(kind, n))
            == (set n | n in init :: Handle(kind, n)) + {Handle(kind, last)}
  {
    var names := init + [last];
    var gone := set n | n in names :: Handle(kind, n);
    var gone' := set n | n in init :: Handle(kind, n);
    forall h | h in gone ensures h in gone' + {Handle(kind, last)} {
      var n :| n in names && h == Handle(kind, n);
      var i :| 0 <= i < |names| && names[i] == n;
      if i < |init| {
        assert init[i] == n;
      }
    }
    forall h | h in gone' ensures h in gone {
      var n :| n in init && h == Handle(kind, n);
      var i :| 0 <= i < |init| && init[i] == n;
      assert names[i] == n;
    }
    assert Handle(kind, last) in gone by {
      assert names[|init|] == last;
    }
  }

  lemma SingletonDeleted(kind: Kind, x: nat)
    ensures (set n | n in [x] :: Handle(kind, n)) == {Handle(kind, x)}
  {
    assert x in [x];
  }

  /** Two deletes in a row remove and log what one delete of both name lists would. */
  lemma StepDeleteSnoc(m: State, kind: Kind, init: seq<nat>, last: nat)
    ensures Step(Step(m, Delete(kind, init)), Delete(kind, [last])) == Step(m, Delete(kind, init + [last]))
  {
    DeletedSnoc(kind, init, last);
    SingletonDeleted(kind, last);
    HandlesSnoc(kind, init + [last]);
    assert (init + [last])[..|init|] == init;
    assert Handles(kind, [last]) == [Handle(kind, last)];
    assert (m.freed + Handles(kind, init)) + [Handle(kind, last)] == m.freed + (Handles(kind, init) + [Handle(kind, last)]);
  }

  /** Deleting one name per call has exactly the effect of deleting them all in one call. */
  lemma {:induction false} EachDeleteIsBatch(s: State, kind: Kind, names: seq<nat>)
    ensures Run(s, EachDelete(kind, names)) == Step(s, Delete(kind, names))
  {
    if names == [] {
      assert EachDelete(kind, names) == [];
      assert Handles(kind, names) == [];
      var t := Step(s, Delete(kind, names));
      assert t.live == s.live;
      assert t.freed == s.freed;
    } else {
      var init := names[..|names| - 1];
      var last := names[|names| - 1];
      var cs := EachDelete(kind, names);
      assert cs[..|cs| - 1] == EachDelete(kind, init);
      EachDeleteIsBatch(s, kind, init);
      StepDeleteSnoc(s, kind, init, last);
      assert init + [last] == names;
    }
  }

  /** `allocate(names)`: one create call per slot, each writing its name into the slot. */
  method AllocateEach(gl: Gl, kind: Kind, names: array<nat>)
    modifies gl, names
    ensures gl.trace == old(gl.trace) + EachCreate(kind, names.Length)
    ensures forall i :: 0 <= i < names.Length ==> names[i] == old(gl.State().next) + i
  {
    var first := gl.State().next;
    var i := 0;
    while i < names.Length
      invariant 0 <= i <= names.Length
      invariant gl.trace == old(gl.trace) + EachCreate(kind, i)
      invariant gl.State().next == first + i
      invariant forall j :: 0 <= j < i ==> names[j] == first + j
    {
      var name := gl.CreateOne(kind);
      names[i] := name;
      i := i + 1;
    }
  }

  /** `free(names)`: one delete call per name, in order. */
  method FreeEach(gl: Gl, kind: Kind, names: seq<nat>)
    modifies gl
    ensures gl.trace == old(gl.trace) + EachDelete(kind, names)
  {
    var i := 0;
    while i < |names|
      invariant 0 <= i <= |names|
      invariant gl.trace == old(gl.trace) + EachDelete(kind, names[..i])
    {
      assert names[..i + 1][..i] == names[..i];
      gl.Issue(Delete(kind, [names[i]]));
      i := i + 1;
    }
    assert names[..|names|] == names;
  }
}
