/**
 * The exceptions the writer raises or lets through, their messages, and
 * the message test that decides which native failure is tolerated.
 */
module Failures {
  import opened Wrappers
  import opened Lucene

  /** Every exception that can leave the writer, one constructor per origin. */
  datatype Error =
    | UnsupportedEncoding(encoding: VectorEncoding)      // addField: IllegalArgumentException
    | InvalidDistanceFunction(func: VectorSimilarityFunction) // distFuncToOrd: IllegalArgumentException
    | TooFewVectors(size: nat)                           // writeCagraIndex / writeHNSWIndex size guard
    | CagraIndexTooSmall                                 // cagraIndexParams size guard
    | NullMessage                                        // getMessage() was null in handleThrowableWithIgnore
    | BytesNotSupported                                  // mergeOneField on a BYTE field: AssertionError
    | AlreadyFinished                                    // finish called twice: IllegalStateException
    | Native(message: Option<string>)                    // thrown by the native index library
  {
    /**
     * What getMessage() returns for this exception. NullMessage stands for the
     * NullPointerException of the message test itself; its message is never
     * tested, so it is left as None.
     */
    function Message(): Option<string>
    {
      match this
      case UnsupportedEncoding(e) => Some("expected float32, got:" + e.Name())
      case InvalidDistanceFunction(f) => Some("invalid distance function: " + f.Name())
      case TooFewVectors(n) => Some(NatToString(n) + " vectors, less than min [2] required")
      case CagraIndexTooSmall => Some("cagra index must be greater than 2")
      case NullMessage => None
      case BytesNotSupported => Some("bytes not supported")
      case AlreadyFinished => Some("already finished")
      case Native(m) => m
    }
  }

  /** Decimal digits of n, as Java's string concatenation prints an int. */
  function NatToString(n: nat): (s: string)
    ensures |s| >= 1 && IsDigits(s)
    ensures |s| > 1 ==> s[0] != '0'
    decreases n
  {
    var d := "0123456789"[n % 10];
    if n < 10 then [d] else NatToString(n / 10) + [d]
  }

  predicate IsDigits(s: string)
  {
    forall i :: 0 <= i < |s| ==> '0' <= s[i] <= '9'
  }

  /** The number a string of decimal digits denotes, most significant digit first. */
  function DecimalValue(s: string): nat
    requires IsDigits(s)
  {
    if s == [] then 0
    else DecimalValue(s[..|s| - 1]) * 10 + (s[|s| - 1] as int - '0' as int)
  }

  /** Reading the printed digits back gives the number that was printed. */
  lemma {:induction false} NatToStringRoundTrip(n: nat)
    ensures DecimalValue(NatToString(n)) == n
    decreases n
  {
    var s := NatToString(n);
    var d := "0123456789"[n % 10];
    assert d as int - '0' as int == n % 10;
    if n >= 10 {
      NatToStringRoundTrip(n / 10);
      assert s[..|s| - 1] == NatToString(n / 10);
    }
  }

  /**
   * The message of the one native failure the writer tolerates: the
   * intermediate CAGRA graph could not be built.
   */
  const CANNOT_GENERATE_CAGRA: string :=
    "Could not generate an intermediate CAGRA graph because the initial "
    + "kNN graph contains too many invalid or duplicated neighbor nodes. "
    + "This error can occur, for example, if too many overflows occur "
    + "during the norm computation between the dataset vectors"

  /** String.contains: sub occurs somewhere in s. */
  predicate Contains(s: string, sub: string)
    decreases |s|
  {
    if |s| < |sub| then false
    else s[..|sub|] == sub || Contains(s[1..], sub)
  }

  /** sub occurs in s starting at position i. */
  predicate OccursAt(s: string, sub: string, i: int)
  {
    0 <= i <= |s| - |sub| && s[i..i + |sub|] == sub
  }

  /** Contains agrees with the positional definition of a substring occurrence. */
  lemma {:induction false} ContainsIffOccurs(s: string, sub: string)
    ensures Contains(s, sub) <==> exists i :: OccursAt(s, sub, i)
    decreases |s|
  {
    if |s| < |sub| {
    } else if s[..|sub|] == sub {
      assert OccursAt(s, sub, 0);
    } else {
      ContainsIffOccurs(s[1..], sub);
      if Contains(s[1..], sub) {
        var i :| OccursAt(s[1..], sub, i);
        assert s[i + 1..i + 1 + |sub|] == s[1..][i..i + |sub|];
        assert OccursAt(s, sub, i + 1);
      }
      if exists i :: OccursAt(s, sub, i) {
        var i :| OccursAt(s, sub, i);
        assert i != 0;
        assert s[1..][i - 1..i - 1 + |sub|] == s[i..i + |sub|];
        assert OccursAt(s[1..], sub, i - 1);
      }
    }
  }

  /**
   * handleThrowableWithIgnore: None when the failure is swallowed, otherwise
   * the exception that propagates (handleThrowable rethrows it unchanged; a
   * null message makes the contains call itself throw).
   */
  function HandleThrowableWithIgnore(t: Error, msg: string): (r: Option<Error>)
    ensures r.None? <==> t.Message().Some? && Contains(t.Message().value, msg)
    ensures r.Some? && t.Message().Some? ==> r.value == t
    ensures t.Message().None? ==> r == Some(NullMessage)
  {
    match t.Message()
    case None => Some(NullMessage)
    case Some(m) => if Contains(m, msg) then None else Some(t)
  }
}
