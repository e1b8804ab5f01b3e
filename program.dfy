/**
 * Programs of the `gl` tree (`src/gl/program/mod.rs`): creating a program
 * with the declarations its uniform definitions give, linking it, and the
 * external resources (samplers) it declares together with the texture units
 * that must provide them.
 */
module GlProgram {
  import opened Wrappers
  import opened HList
  import opened Driver
  import opened Object
  import opened InfoLog
  import opened Interface
  import GlUniform

  /**
   * `Program<Ins, Outs, Unis, Res>`: the owned program object and its
   * uniform declarations. The parameter lists and the resource list are
   * type-level only.
   */
  datatype Program = Program(base: ObjectBase, declarations: LList<Variable>)

  /**
   * `create_with_uniforms`: a new program object whose declarations are the
   * definitions' `AsDeclarations`, one binding per definition, same type,
   * same location, same order.
   */
  method CreateWithUniforms(gl: Gl, defs: LList<GlUniform.Definition>) returns (p: Program)
    modifies gl
    ensures p.base.kind == ProgramObj && p.base.name == old(gl.State().next)
    ensures Handle(ProgramObj, p.base.name) in gl.State().live
    ensures p.declarations == GlUniform.AsDeclarations(defs)
    ensures gl.trace == old(gl.trace) + [Create(ProgramObj, 1)]
  {
    var base := new ObjectBase.Default(gl, ProgramObj);
    p := Program(base, GlUniform.AsDeclarations(defs));
  }

  /** Whether `link` keeps the program: there is no info log. */
  lemma LinkSucceedsIff(linked: bool, q: Query)
    requires Answered(q)
    ensures Outcome(ProgramLog(linked, q)).Ok? <==> (linked || q.length <= 0)
    ensures Outcome(ProgramLog(linked, q)).Err? ==> Outcome(ProgramLog(linked, q)).error == Text(q)
  {
  }

  /**
   * `link`: `LinkProgram`, then `info_log` with the driver's answers
   * (`linked` is `LINK_STATUS`). `Ok(self)` is built before `map_or` looks
   * at the log, so on a log the program is dropped and its name deleted.
   */
  method Link(gl: Gl, p: Program, linked: bool, q: Query) returns (r: Result<Program, seq<bv8>>)
    requires Answered(q)
    modifies gl
    ensures r.Ok? <==> ProgramLog(linked, q).None?
    ensures r.Ok? ==> r.value == p
    ensures r.Err? ==> r.error == ProgramLog(linked, q).value
    ensures gl.trace == old(gl.trace) + [LinkProgram(p.base.name)]
                        + (if r.Ok? then [] else [Delete(p.base.kind, [p.base.name])])
  {
    gl.Issue(LinkProgram(p.base.name));
    var log := ProgramLog(linked, q);
    match log
    case None =>
      r := Ok(p);
    case Some(msg) =>
      p.base.Drop(gl);
      r := Err(msg);
  }

  /** A failed link leaves the program's name deleted in the driver. */
  lemma FailedLinkFreesProgram(s: State, name: nat)
    ensures Handle(ProgramObj, name) !in Run(s, [LinkProgram(name), Delete(ProgramObj, [name])]).live
    ensures Run(s, [LinkProgram(name), Delete(ProgramObj, [name])]).freed == s.freed + [Handle(ProgramObj, name)]
  {
    RunTwo(s, LinkProgram(name), Delete(ProgramObj, [name]));
  }

  // ---------------------------------------------------------------------
  // Resources

  /** `SamplerVariable<Target, Output, BINDING>`: a texture target token, the sampled output kind, a binding. */
  datatype Sampler = Sampler(target: nat, output: nat, binding: nat)

  /**
   * `TextureUnit<Target, Kind, InternalFormat, BINDING>`, as far as
   * `ResourceProviders` looks at it: its target, its format's `Output`
   * kind and its binding.
   */
  datatype Unit = Unit(target: nat, output: nat, binding: nat)

  /** `Resources::sampler`: the declared resources with one more sampler at the end. */
  function AddSampler(res: LList<Sampler>, s: Sampler): (r: LList<Sampler>)
    ensures LElems(r) == LElems(res) + [s]
    ensures LLength(r) == LLength(res) + 1
  {
    LAppend(res, s)
  }

  /** One unit provides one sampler: same target, same output kind, same binding. */
  predicate Serves(u: Unit, s: Sampler)
  {
    u.target == s.target && u.output == s.output && u.binding == s.binding
  }

  /**
   * The three `ResourceProviders` impls: `()` provides `()`, a one-unit list
   * provides a one-sampler list, and a list of two or more provides when its
   * last two units serve the last two samplers and what is left before them
   * provides the rest.
   */
  predicate Provides(units: LList<Unit>, res: LList<Sampler>)
  {
    match (units, res)
    case (LNil, LNil) => true
    case (LCons(LNil, u), LCons(LNil, s)) => Serves(u, s)
    case (LCons(LCons(uh, up), uc), LCons(LCons(rh, sp), sc)) => Serves(up, sp) && Serves(uc, sc) && Provides(uh, rh)
    case _ => false
  }

  /** Elementwise reading of `ResourceProviders`. */
  predicate PairedUp(us: seq<Unit>, ss: seq<Sampler>)
  {
    |us| == |ss| && forall i :: 0 <= i < |us| ==> Serves(us[i], ss[i])
  }

  lemma PairedUpSnoc(us: seq<Unit>, ss: seq<Sampler>, u: Unit, s: Sampler)
    ensures PairedUp(us + [u], ss + [s]) <==> PairedUp(us, ss) && Serves(u, s)
  {
    if PairedUp(us + [u], ss + [s]) {
      assert Serves((us + [u])[|us|], (ss + [s])[|us|]);
      forall i | 0 <= i < |us| ensures Serves(us[i], ss[i]) {
        assert Serves((us + [u])[i], (ss + [s])[i]);
      }
    }
  }

  /** Units provide the resources exactly when they serve them one for one, in order. */
  lemma {:induction false} ProvidesIff(units: LList<Unit>, res: LList<Sampler>)
    ensures Provides(units, res) <==> PairedUp(LElems(units), LElems(res))
  {
    match (units, res)
    case (LNil, LNil) =>
    case (LNil, LCons(_, _)) =>
    case (LCons(_, _), LNil) =>
    case (LCons(LNil, u), LCons(LNil, s)) =>
      PairedUpSnoc([], [], u, s);
    case (LCons(LCons(uh, up), uc), LCons(LNil, s)) =>
      assert |LElems(units)| >= 2;
    case (LCons(LNil, u), LCons(LCons(rh, sp), sc)) =>
      assert |LElems(res)| >= 2;
    case (LCons(LCons(uh, up), uc), LCons(LCons(rh, sp), sc)) =>
      ProvidesIff(uh, rh);
      PairedUpSnoc(LElems(uh), LElems(rh), up, sp);
      PairedUpSnoc(LElems(uh) + [up], LElems(rh) + [sp], uc, sc);
  }

  /** Declaring one more sampler needs exactly one more unit that serves it. */
  lemma AddSamplerNeedsUnit(units: LList<Unit>, res: LList<Sampler>, u: Unit, s: Sampler)
    ensures Provides(LAppend(units, u), AddSampler(res, s)) <==> Provides(units, res) && Serves(u, s)
  {
    ProvidesIff(LAppend(units, u), AddSampler(res, s));
    ProvidesIff(units, res);
    PairedUpSnoc(LElems(units), LElems(res), u, s);
  }
}
