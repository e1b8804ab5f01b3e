/**
 * GL error codes and the error-queue drain (`src/gl/error.rs`; `src/error.rs`
 * is the same code against the other bindings crate).
 *
 * The code values are those of the OpenGL 4.6 Core Profile specification,
 * section 2.3.1, Table 2.3. `GetError` is a driver query: the codes it
 * returns, one per call, are the parameter `responses`; once those run out
 * the driver answers NO_ERROR.
 */
module GlError {
  import opened Wrappers

  const NO_ERROR: nat := 0
  const INVALID_ENUM: nat := 0x0500
  const INVALID_VALUE: nat := 0x0501
  const INVALID_OPERATION: nat := 0x0502
  const STACK_OVERFLOW: nat := 0x0503
  const STACK_UNDERFLOW: nat := 0x0504
  const OUT_OF_MEMORY: nat := 0x0505
  const INVALID_FRAMEBUFFER_OPERATION: nat := 0x0506
  const CONTEXT_LOST: nat := 0x0507

  datatype Error =
    | InvalidEnum
    | InvalidValue
    | InvalidOperation
    | StackOverflow
    | StackUnderflow
    | OutOfMemory
    | InvalidFramebufferOperation
    | ContextLost

  /** The code each variant stands for. */
  function Code(e: Error): nat
  {
    match e
    case InvalidEnum => INVALID_ENUM
    case InvalidValue => INVALID_VALUE
    case InvalidOperation => INVALID_OPERATION
    case StackOverflow => STACK_OVERFLOW
    case StackUnderflow => STACK_UNDERFLOW
    case OutOfMemory => OUT_OF_MEMORY
    case InvalidFramebufferOperation => INVALID_FRAMEBUFFER_OPERATION
    case ContextLost => CONTEXT_LOST
  }

  /** `Error::new`; `None` is the panic on an unsupported code (NO_ERROR among them). */
  function New(code: nat): (r: Option<Error>)
    ensures r.Some? <==> INVALID_ENUM <= code <= CONTEXT_LOST
    ensures r.Some? ==> Code(r.value) == code
  {
    if code == INVALID_ENUM then Some(InvalidEnum)
    else if code == INVALID_VALUE then Some(InvalidValue)
    else if code == INVALID_OPERATION then Some(InvalidOperation)
    else if code == STACK_OVERFLOW then Some(StackOverflow)
    else if code == STACK_UNDERFLOW then Some(StackUnderflow)
    else if code == OUT_OF_MEMORY then Some(OutOfMemory)
    else if code == INVALID_FRAMEBUFFER_OPERATION then Some(InvalidFramebufferOperation)
    else if code == CONTEXT_LOST then Some(ContextLost)
    else None
  }

  /** Decoding is the inverse of `Code`, and distinct variants have distinct codes. */
  lemma NewInvertsCode(e: Error, f: Error)
    ensures New(Code(e)) == Some(e)
    ensures Code(e) == Code(f) ==> e == f
    ensures Code(e) != NO_ERROR
  {
  }

  /**
   * What `poll_queue` returns when `GetError` answers `responses` in turn:
   * the decoded codes read before the first NO_ERROR, in the order read;
   * `None` when one of them is unsupported and `Error::new` panics.
   */
  function Drain(responses: seq<nat>): Option<seq<Error>>
  {
    if responses == [] || responses[0] == NO_ERROR then Some([])
    else match New(responses[0])
      case None => None
      case Some(e) =>
        match Drain(responses[1..])
        case None => None
        case Some(es) => Some([e] + es)
  }

  /** `pre` followed by the errors of `d`, if `d` succeeded. */
  function Prefix(pre: seq<Error>, d: Option<seq<Error>>): Option<seq<Error>>
  {
    match d
    case None => None
    case Some(es) => Some(pre + es)
  }

  /** `poll_queue`: call `GetError` until it answers NO_ERROR, pushing each decoded error. */
  method PollQueue(responses: seq<nat>) returns (r: Option<seq<Error>>)
    ensures r == Drain(responses)
  {
    var errors: seq<Error> := [];
    var i := 0;
    assert responses[0..] == responses;
    assert Prefix([], Drain(responses)) == Drain(responses) by {
      if Drain(responses).Some? { assert [] + Drain(responses).value == Drain(responses).value; }
    }
    while true
      invariant 0 <= i <= |responses|
      invariant Drain(responses) == Prefix(errors, Drain(responses[i..]))
      decreases |responses| - i
    {
      var error := if i < |responses| then responses[i] else NO_ERROR;
      if error == NO_ERROR {
        assert responses[i..] == [] || responses[i..][0] == NO_ERROR;
        assert errors + [] == errors;
        return Some(errors);
      }
      var e := New(error);
      if e.None? {
        return None;
      }
      assert responses[i..][1..] == responses[i + 1..];
      var d := Drain(responses[i + 1..]);
      assert Drain(responses[i..]) == Prefix([e.value], d);
      assert Prefix(errors, Prefix([e.value], d)) == Prefix(errors + [e.value], d) by {
        if d.Some? { assert errors + ([e.value] + d.value) == (errors + [e.value]) + d.value; }
      }
      errors := errors + [e.value];
      i := i + 1;
    }
  }

  /** The result is empty iff the first answer is NO_ERROR (or there is none). */
  lemma DrainEmpty(responses: seq<nat>)
    ensures Drain(responses) == Some([]) <==> (responses == [] || responses[0] == NO_ERROR)
  {
    if responses != [] && responses[0] != NO_ERROR && New(responses[0]).Some? {
      match Drain(responses[1..])
      case None =>
      case Some(es) => assert |[New(responses[0]).value] + es| > 0;
    }
  }

  /**
   * A successful drain returns one error per answer before the first
   * NO_ERROR, each decoding its answer, in order; and every answer read is
   * a supported code.
   */
  lemma {:induction false} DrainReadsInOrder(responses: seq<nat>, es: seq<Error>)
    requires Drain(responses) == Some(es)
    ensures |es| <= |responses|
    ensures forall i :: 0 <= i < |es| ==> Code(es[i]) == responses[i]
    ensures |es| == |responses| || responses[|es|] == NO_ERROR
  {
    if responses != [] && responses[0] != NO_ERROR {
      var e := New(responses[0]).value;
      var rest :| Drain(responses[1..]) == Some(rest) && es == [e] + rest;
      DrainReadsInOrder(responses[1..], rest);
    }
  }

  /** Conversely, answers that are all supported codes up to a NO_ERROR (or the end) drain successfully. */
  lemma {:induction false} DrainAcceptsSupported(responses: seq<nat>, k: nat)
    requires k <= |responses|
    requires forall i :: 0 <= i < k ==> INVALID_ENUM <= responses[i] <= CONTEXT_LOST
    requires k == |responses| || responses[k] == NO_ERROR
    ensures Drain(responses).Some? && |Drain(responses).value| == k
  {
    if k > 0 {
      DrainAcceptsSupported(responses[1..], k - 1);
    }
  }
}
