/** The "predictable" second-factor code both login controllers derive from a
    hash of the user name: Math.Abs(hash % 9999).ToString("D4"). The hash
    (string.GetHashCode, randomised per process) is an input. */
module TwoFactorCode {
  import opened Text

  const Modulus: int := 9999

  /** C#'s `/` on int: division truncated toward zero. */
  function CSharpQuot(a: int, b: int): int
    requires b > 0
  {
    if a >= 0 then a / b else -((-a) / b)
  }

  /** C#'s `%` on int: the remainder of the division truncated toward zero,
      so it takes the sign of the dividend. */
  function CSharpRem(a: int, b: int): (r: int)
    requires b > 0
    ensures -b < r < b
    ensures a >= 0 ==> r >= 0
    ensures a < 0 ==> r <= 0
    ensures a == b * CSharpQuot(a, b) + r
  {
    if a >= 0 then a % b
    else
      var q := (-a) / b;
      assert -a == b * q + (-a) % b;
      assert b * -q == -(b * q);
      -((-a) % b)
  }

  function Abs(x: int): (r: nat)
    ensures r == x || r == -x
  {
    if x < 0 then -x else x
  }

  /** The code for a user whose name hashes to `hash`. */
  function PredictableCode(hash: int): (code: string)
    ensures |code| == 4 && AllDigits(code)
    ensures DigitsValue(code) == Abs(CSharpRem(hash, Modulus))
    ensures DigitsValue(code) <= 9998
  {
    FormatD4(Abs(CSharpRem(hash, Modulus)))
  }

  /** GeneratePredictableCode(username) of both login controllers, for the
      name hash `hashOf`. */
  function ExpectedCode(username: string, hashOf: string -> int): (code: string)
    ensures |code| == 4 && AllDigits(code) && DigitsValue(code) <= 9998
    ensures DigitsValue(code) == Abs(CSharpRem(hashOf(username), Modulus))
  {
    PredictableCode(hashOf(username))
  }

  /** Whatever the hash, the code is four decimal digits between 0000 and
      9998: "9999" is never produced. */
  lemma {:induction false} CodeNeverAllNines(hash: int)
    ensures PredictableCode(hash) != "9999"
  {
    AllNinesValue();
  }

  lemma AllNinesValue()
    ensures DigitsValue("9999") == 9999
  {
    assert "9999"[..3] == "999" && "999"[..2] == "99" && "99"[..1] == "9" && "9"[..0] == "";
  }

  /** A hash and its negation give the same code. */
  lemma {:induction false} CodeIgnoresSign(hash: int)
    ensures PredictableCode(-hash) == PredictableCode(hash)
  {
    if hash > 0 {
      assert CSharpRem(-hash, Modulus) == -CSharpRem(hash, Modulus);
    } else if hash < 0 {
      assert CSharpRem(hash, Modulus) == -CSharpRem(-hash, Modulus);
    }
  }

  /** Hashes 9999 apart on the same side of zero give the same code. */
  lemma {:induction false} CodePeriodic(hash: nat)
    ensures PredictableCode(hash + Modulus) == PredictableCode(hash)
  {
    assert (hash + Modulus) % Modulus == hash % Modulus;
  }
}
