/**
 * randomString(l): a string of `l` characters, each drawn uniformly from the
 * 62 ASCII letters and digits.
 */
module RandomText {
  import opened Engine

  /** The `chars` constant of randomString, in the source's order: lower case, upper case, digits. */
  const Alphabet: string := Lower + Upper + Digits
  const Lower: string := "abcdefghijklmnopqrstuvwxyz"
  const Upper: string := "ABCDEFGHIJKLMNOPQRSTUVWXYZ"
  const Digits: string := "0123456789"

  /** An ASCII letter or digit. */
  predicate IsAlnum(c: char)
  {
    'a' <= c <= 'z' || 'A' <= c <= 'Z' || '0' <= c <= '9'
  }

  lemma LowerRun()
    ensures |Lower| == 26 && forall k :: 0 <= k < 26 ==> Lower[k] == ('a' as int + k) as char
  {}

  lemma UpperRun()
    ensures |Upper| == 26 && forall k :: 0 <= k < 26 ==> Upper[k] == ('A' as int + k) as char
  {}

  lemma DigitRun()
    ensures |Digits| == 10 && forall k :: 0 <= k < 10 ==> Digits[k] == ('0' as int + k) as char
  {}

  /** The alphabet holds 62 characters, and they are exactly the ASCII letters and digits. */
  lemma AlphabetIsAlnum()
    ensures |Alphabet| == 62
    ensures forall k :: 0 <= k < |Alphabet| ==> IsAlnum(Alphabet[k])
    ensures forall c :: IsAlnum(c) ==> c in Alphabet
  {
    LowerRun();
    UpperRun();
    DigitRun();
    forall c | IsAlnum(c) ensures c in Alphabet {
      if 'a' <= c <= 'z' {
        assert Alphabet[c as int - 'a' as int] == c;
      } else if 'A' <= c <= 'Z' {
        assert Alphabet[26 + c as int - 'A' as int] == c;
      } else {
        assert Alphabet[52 + c as int - '0' as int] == c;
      }
    }
  }

  /** The string randomString(l) builds when the random stream is read from position `from`. */
  function RandomChars(source: nat -> nat, from: nat, l: nat): (s: string)
    ensures |s| == l
    ensures forall k :: 0 <= k < l ==> IsAlnum(s[k])
  {
    AlphabetIsAlnum();
    seq(l, k requires 0 <= k < l => Alphabet[source(from + k) % |Alphabet|])
  }

  /** randomString: fills a fresh buffer of `l` bytes, one random draw per byte. */
  method RandomString(rng: Rand, l: nat) returns (s: string)
    modifies rng
    ensures s == RandomChars(rng.source, old(rng.drawn), l)
    ensures rng.drawn == old(rng.drawn) + l
  {
    var b := new char[l];
    for i := 0 to l
      invariant rng.drawn == old(rng.drawn) + i
      invariant forall k :: 0 <= k < i ==> b[k] == Alphabet[rng.source(old(rng.drawn) + k) % |Alphabet|]
    {
      var r := rng.Intn(|Alphabet|);
      b[i] := Alphabet[r];
    }
    s := b[..];
  }
}
