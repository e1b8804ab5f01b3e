/**
 * Object handles and bind guards (`src/gl/object.rs`, and the older
 * `Object` of `src/gl/prelude.rs`, which behaves the same way).
 *
 * An `ObjectBase` owns one driver name: creating it asks the allocator for
 * exactly one name, dropping it frees exactly that name. A `BindGuard` binds
 * a name when created and binds 0 when dropped. Rust drops values
 * implicitly; here every drop is an explicit `Drop` call, made where the
 * Rust scope would end.
 */
module Object {
  import opened Driver

  /** `Allocator::free`: one delete call for all the names. */
  method Free(gl: Gl, kind: Kind, names: seq<nat>)
    modifies gl
    ensures gl.trace == old(gl.trace) + [Delete(kind, names)]
    ensures gl.State().freed == old(gl.State().freed) + Handles(kind, names)
  {
    gl.Issue(Delete(kind, names));
  }

  class BindGuard {
    const point: BindPoint

    /** `Bind::new`: bind `name` at the point. */
    constructor (gl: Gl, point: BindPoint, name: nat)
      modifies gl
      ensures this.point == point
      ensures gl.trace == old(gl.trace) + [Bind(point, name)]
    {
      gl.Issue(Bind(point, name));
      this.point := point;
    }

    /** Dropping the guard: `Binder::unbind`, which is `bind(0)`. */
    method Drop(gl: Gl)
      modifies gl
      ensures gl.trace == old(gl.trace) + [Bind(point, 0)]
    {
      gl.Issue(Bind(point, 0));
    }
  }

  class ObjectBase {
    const kind: Kind
    /** The driver name; `name()` returns it. */
    const name: nat

    /** `ObjectBase::default`: allocate into a one-slot buffer and keep the name written there. */
    constructor Default(gl: Gl, kind: Kind)
      modifies gl
      ensures this.kind == kind && name == old(gl.State().next)
      ensures gl.trace == old(gl.trace) + [Create(kind, 1)]
      ensures Handle(kind, name) !in old(gl.State().live) && Handle(kind, name) in gl.State().live
    {
      var slot := new nat[1];
      slot[0] := 0;
      gl.CreateInto(kind, slot);
      this.kind := kind;
      this.name := slot[0];
    }

    /** Dropping frees exactly `[name]`. */
    method Drop(gl: Gl)
      modifies gl
      ensures gl.trace == old(gl.trace) + [Delete(kind, [name])]
      ensures gl.State().freed == old(gl.State().freed) + [Handle(kind, name)]
      ensures Handle(kind, name) !in gl.State().live
    {
      Free(gl, kind, [name]);
    }

    /** `bind()`: a guard for `name` at the object's binding point. */
    method Bind(gl: Gl, point: BindPoint) returns (guard: BindGuard)
      modifies gl
      ensures fresh(guard) && guard.point == point
      ensures gl.trace == old(gl.trace) + [Driver.Bind(point, name)]
    {
      guard := new BindGuard(gl, point, name);
    }

    /** The derived `Clone`: a second owner of the same name. */
    method Clone() returns (c: ObjectBase)
      ensures fresh(c) && c.kind == kind && c.name == name
    {
      c := new ObjectBase.Copy(kind, name);
    }

    constructor Copy(kind: Kind, name: nat)
      ensures this.kind == kind && this.name == name
    {
      this.kind := kind;
      this.name := name;
    }
  }

  /**
   * A clone and its original each free the shared name when dropped, so the
   * driver is asked to delete the same handle twice.
   */
  lemma DoubleFree(s: State, kind: Kind, name: nat)
    ensures Run(s, [Delete(kind, [name]), Delete(kind, [name])]).freed
            == s.freed + [Handle(kind, name), Handle(kind, name)]
  {
    var d := Delete(kind, [name]);
    RunSingle(s, d);
    RunConcat(s, [d], [d]);
    RunSingle(Step(s, d), d);
    assert [d] + [d] == [d, d];
  }

  /** A guard's whole life — create, then drop — leaves its point unbound, whatever was bound before. */
  lemma GuardLifetime(s: State, point: BindPoint, name: nat, q: BindPoint)
    ensures Bound(Run(s, [Driver.Bind(point, name), Driver.Bind(point, 0)]), point) == 0
    ensures q != point ==> Bound(Run(s, [Driver.Bind(point, name), Driver.Bind(point, 0)]), q) == Bound(s, q)
  {
    UnbindClears(s, point, name);
    RunConcat(s, [Driver.Bind(point, name)], [Driver.Bind(point, 0)]);
    RunSingle(s, Driver.Bind(point, name));
    RunSingle(Step(s, Driver.Bind(point, name)), Driver.Bind(point, 0));
    assert [Driver.Bind(point, name)] + [Driver.Bind(point, 0)] == [Driver.Bind(point, name), Driver.Bind(point, 0)];
  }
}
