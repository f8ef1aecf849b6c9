/** The verification-code generator of backend/utils/email.go. The random
    source is an input: one `Draw` per call of `rand.Int(rand.Reader, 10)`. */
module Email {
  import opened Wrappers
  import Decimal

  const CodeLength: nat := 6

  /** What `rand.Int(rand.Reader, big.NewInt(10))` yields: a number in [0, 10). */
  type DigitDraw = d: int | 0 <= d < 10

  datatype Draw = Drawn(digit: DigitDraw) | ReadFailed

  datatype RandError = EntropyReadFailed

  /** The code built from the draws in order; None as soon as one failed. */
  function CodeOf(draws: seq<Draw>): Option<string>
  {
    if draws == [] then Some("")
    else
      match CodeOf(draws[..|draws| - 1])
      case None => None
      case Some(prefix) =>
        match draws[|draws| - 1]
        case ReadFailed => None
        case Drawn(d) => Some(prefix + [Decimal.DigitChar(d)])
  }

  /** The code `GenerateVerificationCode` returns for a stream of draws. */
  function DrawnCode(draws: seq<Draw>): Option<string>
    requires CodeLength <= |draws|
  {
    CodeOf(draws[..CodeLength])
  }

  /** A code exists exactly when no draw failed; it has one digit per draw,
      in draw order. */
  lemma {:induction false} CodeOfShape(draws: seq<Draw>)
    ensures CodeOf(draws).Some? <==> forall i :: 0 <= i < |draws| ==> draws[i].Drawn?
    ensures CodeOf(draws).Some? ==>
      && |CodeOf(draws).value| == |draws|
      && forall i :: 0 <= i < |draws| ==> CodeOf(draws).value[i] == Decimal.DigitChar(draws[i].digit)
  {
    if draws != [] {
      var init := draws[..|draws| - 1];
      CodeOfShape(init);
      assert forall i :: 0 <= i < |init| ==> init[i] == draws[i];
    }
  }

  /** Every code that can be stored is six decimal digits. */
  lemma DrawnCodeIsSixDigits(draws: seq<Draw>)
    requires CodeLength <= |draws|
    requires DrawnCode(draws).Some?
    ensures |DrawnCode(draws).value| == CodeLength
    ensures Decimal.AllDigits(DrawnCode(draws).value)
  {
    CodeOfShape(draws[..CodeLength]);
  }

  /** `GenerateVerificationCode`: six draws appended one digit at a time;
      the first failed draw aborts with "" and the error. */
  method GenerateVerificationCode(draws: seq<Draw>) returns (code: string, err: Option<RandError>)
    requires CodeLength <= |draws|
    ensures err.None? <==> forall i :: 0 <= i < CodeLength ==> draws[i].Drawn?
    ensures err.None? ==> |code| == CodeLength
    ensures err.None? ==> forall i :: 0 <= i < CodeLength ==> code[i] == Decimal.DigitChar(draws[i].digit)
    ensures Decimal.AllDigits(code)
    ensures err.Some? ==> code == "" && err == Some(EntropyReadFailed)
    ensures DrawnCode(draws) == if err.None? then Some(code) else None
  {
    code := "";
    var i := 0;
    while i < CodeLength
      invariant 0 <= i <= CodeLength
      invariant CodeOf(draws[..i]) == Some(code)
    {
      assert draws[..i + 1][..i] == draws[..i];
      if draws[i].ReadFailed? {
        CodeOfShape(draws[..CodeLength]);
        assert draws[..CodeLength][i] == draws[i];
        return "", Some(EntropyReadFailed);
      }
      code := code + [Decimal.DigitChar(draws[i].digit)];
      i := i + 1;
    }
    err := None;
    assert draws[..i] == draws[..CodeLength];
    CodeOfShape(draws[..CodeLength]);
    assert forall k :: 0 <= k < CodeLength ==> draws[..CodeLength][k] == draws[k];
  }
}
