/**
 `Number.prototype.toString(2)` on non-negative integers, `padStart` with a
 fill character, and the decoding of a binary digit string back to a number.
 */
module Binary {

  predicate IsBits(s: string)
  {
    forall i :: 0 <= i < |s| ==> s[i] == '0' || s[i] == '1'
  }

  function BitValue(c: char): nat
  {
    if c == '1' then 1 else 0
  }

  /** `n.toString(2)`: base-2 digits, most significant first, no leading zeros. */
  function ToBinary(n: nat): (s: string)
    ensures |s| >= 1 && IsBits(s)
    ensures n > 0 ==> s[0] == '1'
  {
    if n < 2 then [if n == 0 then '0' else '1']
    else ToBinary(n / 2) + [if n % 2 == 0 then '0' else '1']
  }

  /** The number a string of binary digits denotes. */
  function FromBinary(s: string): nat
  {
    if |s| == 0 then 0
    else 2 * FromBinary(s[..|s| - 1]) + BitValue(s[|s| - 1])
  }

  /** Decoding the binary rendering gives back the number. */
  lemma {:induction false} FromToBinary(n: nat)
    ensures FromBinary(ToBinary(n)) == n
  {
    if n >= 2 {
      FromToBinary(n / 2);
      var s := ToBinary(n);
      assert s[..|s| - 1] == ToBinary(n / 2);
    }
  }

  function Pow2(k: nat): (r: nat)
    ensures r >= 1
  {
    if k == 0 then 1 else 2 * Pow2(k - 1)
  }

  /** A number below 2^k has at most k binary digits (k >= 1). */
  lemma {:induction false} ToBinaryLength(n: nat, k: nat)
    requires k >= 1 && n < Pow2(k)
    ensures |ToBinary(n)| <= k
  {
    if n >= 2 {
      assert k >= 2;
      ToBinaryLength(n / 2, k - 1);
    }
  }

  /** `s.padStart(len, c)`: `s` prefixed with copies of `c` up to length `len`. */
  function PadStart(s: string, len: nat, c: char): (r: string)
    ensures |s| >= len ==> r == s
    ensures |s| < len ==> |r| == len
    ensures r[|r| - |s|..] == s
    ensures forall i :: 0 <= i < |r| - |s| ==> r[i] == c
  {
    if |s| >= len then s else seq(len - |s|, _ => c) + s
  }

  /** Leading zeros do not change the value. */
  lemma {:induction false} LeadingZero(s: string)
    ensures FromBinary("0" + s) == FromBinary(s)
  {
    if |s| > 0 {
      var t := "0" + s;
      assert t[..|t| - 1] == "0" + s[..|s| - 1];
      LeadingZero(s[..|s| - 1]);
    }
  }

  lemma {:induction false} LeadingZeros(z: string, s: string)
    requires forall i :: 0 <= i < |z| ==> z[i] == '0'
    ensures FromBinary(z + s) == FromBinary(s)
  {
    if |z| > 0 {
      LeadingZeros(z[1..], s);
      assert z + s == "0" + (z[1..] + s);
      LeadingZero(z[1..] + s);
    } else {
      assert z + s == s;
    }
  }

  /** Zero-padding a binary rendering keeps it a bit string with the same value. */
  lemma PaddedBinary(n: nat, len: nat)
    ensures IsBits(PadStart(ToBinary(n), len, '0'))
    ensures FromBinary(PadStart(ToBinary(n), len, '0')) == n
  {
    var s := ToBinary(n);
    var r := PadStart(s, len, '0');
    FromToBinary(n);
    if |s| < len {
      assert r == r[..|r| - |s|] + s;
      LeadingZeros(r[..|r| - |s|], s);
    }
  }
}
