/**
 * Info logs and the success rule built on them.
 *
 * Every `info_log` in the crate asks the driver for `INFO_LOG_LENGTH`; a
 * length of 0 or less means no log. Otherwise it allocates a buffer of that
 * capacity, lets `glGet*InfoLog` fill it, and cuts the buffer to the length
 * the driver reports. `compile` and `link` succeed exactly when there is
 * no log, so a log holding only warnings is a failure too.
 *
 * The driver's answers are inputs (`Query`); nothing here calls a driver.
 */
module InfoLog {
  import opened Wrappers
  import Utf8

  /**
   * The driver's answers to one `info_log`: `length` is `INFO_LOG_LENGTH`,
   * `written` the bytes `glGet*InfoLog` stored in the buffer and `actual`
   * the length it reported.
   */
  datatype Query = Query(length: int, written: seq<bv8>, actual: nat)

  /**
   * What the driver guarantees when there is a log: the reported length
   * covers only bytes it wrote, and it wrote no more than the capacity.
   * `set_len` relies on it.
   */
  predicate Answered(q: Query)
  {
    q.length > 0 ==> q.actual <= |q.written| <= q.length
  }

  /** The log text: the written bytes cut to the reported length. */
  function Text(q: Query): (t: seq<bv8>)
    requires Answered(q) && q.length > 0
    ensures |t| == q.actual && t <= q.written
  {
    q.written[..q.actual]
  }

  /**
   * `info_log` as `src/gl/shader/internal.rs`, `src/object/shader/internal.rs`
   * and `src/object/program/mod.rs` write it; the text is taken unchecked.
   */
  function Unchecked(q: Query): (r: Option<seq<bv8>>)
    requires Answered(q)
    ensures r.None? <==> q.length <= 0
    ensures r.Some? ==> r.value == Text(q)
  {
    if q.length > 0 then Some(Text(q)) else None
  }

  /** The three outcomes of the checked `info_log` of `src/gl/shader/mod.rs`. */
  datatype Checked = NoLog | Log(text: seq<bv8>) | NotUtf8Panic

  /** `src/gl/shader/mod.rs`: as `Unchecked`, but `from_utf8(..).expect(..)` panics on text that is not UTF-8. */
  function CheckedLog(q: Query): (r: Checked)
    requires Answered(q)
  {
    if q.length <= 0 then NoLog
    else if Utf8.Valid(Text(q)) then Log(Text(q))
    else NotUtf8Panic
  }

  /** The checked log agrees with the unchecked one except that it panics on malformed text. */
  lemma CheckedAgrees(q: Query)
    requires Answered(q)
    ensures CheckedLog(q).NoLog? <==> Unchecked(q).None?
    ensures CheckedLog(q).Log? <==> (Unchecked(q).Some? && Utf8.Valid(Unchecked(q).value))
    ensures CheckedLog(q).Log? ==> CheckedLog(q).text == Unchecked(q).value
    ensures CheckedLog(q).NotUtf8Panic? <==> (Unchecked(q).Some? && !Utf8.Valid(Unchecked(q).value))
  {
  }

  /**
   * `src/gl/program/mod.rs`: a program whose `LINK_STATUS` is `TRUE` has no
   * log; otherwise the log is read as above.
   */
  function ProgramLog(linked: bool, q: Query): (r: Option<seq<bv8>>)
    requires Answered(q)
    ensures linked ==> r.None?
    ensures !linked ==> r == Unchecked(q)
  {
    if linked then None else Unchecked(q)
  }

  /** `compile` / `link`: `Ok` exactly when `info_log` is `None`, otherwise `Err` with the log. */
  function Outcome(log: Option<seq<bv8>>): (r: Result<(), seq<bv8>>)
    ensures r.Ok? <==> log.None?
    ensures r.Err? ==> r.error == log.value
  {
    match log
    case None => Ok(())
    case Some(m) => Err(m)
  }

  /** Any non-empty log fails compilation, whatever it says (warnings included). */
  lemma AnyLogFails(q: Query)
    requires Answered(q) && q.length > 0
    ensures Outcome(Unchecked(q)) == Err(Text(q))
  {
  }

  /** A failed link whose log length is 0 still counts as a successful link. */
  lemma SilentLinkFailureSucceeds(q: Query)
    requires Answered(q) && q.length == 0
    ensures Outcome(ProgramLog(false, q)).Ok?
  {
  }

  /** A log whose text is cut inside a character makes the checked log panic. */
  lemma CutLogPanics()
    ensures Answered(Query(2, [0xC3, 0xA9], 1))
    ensures CheckedLog(Query(2, [0xC3, 0xA9], 1)) == NotUtf8Panic
    ensures CheckedLog(Query(3, [0xC3, 0xA9], 2)) == Log([0xC3, 0xA9])
  {
    Utf8.TruncationBreaksCharacter();
    assert Text(Query(2, [0xC3, 0xA9], 1)) == [0xC3];
    assert Text(Query(3, [0xC3, 0xA9], 2)) == [0xC3, 0xA9];
  }

  /** A log of encoded text never panics: it is returned whole, cut to the reported length. */
  lemma EncodedLogAccepted(q: Query, cps: seq<nat>)
    requires Answered(q) && q.length > 0
    requires forall i :: 0 <= i < |cps| ==> Utf8.IsScalarValue(cps[i])
    requires Text(q) == Utf8.EncodeAll(cps)
    ensures CheckedLog(q) == Log(Utf8.EncodeAll(cps))
  {
    Utf8.EncodeAllValid(cps);
  }
}
