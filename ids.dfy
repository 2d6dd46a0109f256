/** The identity generator. The source draws seven random base-36 characters;
    the model replaces randomness by a counter and renders the counter in
    base 36, which makes freshness provable: distinct counters give distinct
    ids. */
module Ids {

  predicate IsBase36Digit(c: char)
  {
    '0' <= c <= '9' || 'a' <= c <= 'z'
  }

  function Digit(d: nat): (c: char)
    requires d < 36
    ensures IsBase36Digit(c)
  {
    if d < 10 then ('0' as int + d) as char else ('a' as int + d - 10) as char
  }

  function DigitValue(c: char): (d: nat)
    ensures IsBase36Digit(c) ==> d < 36 && Digit(d) == c
  {
    if '0' <= c <= '9' then c as int - '0' as int
    else if 'a' <= c <= 'z' then c as int - 'a' as int + 10
    else 0
  }

  /** The id generated from counter value n: its base-36 numeral. */
  function MakeId(n: nat): (s: string)
    ensures |s| > 0
    ensures forall i :: 0 <= i < |s| ==> IsBase36Digit(s[i])
    decreases n
  {
    if n < 36 then [Digit(n)] else MakeId(n / 36) + [Digit(n % 36)]
  }

  /** Reads a base-36 numeral back into the counter value. */
  function ParseId(s: string): nat
  {
    if s == [] then 0 else ParseId(s[..|s| - 1]) * 36 + DigitValue(s[|s| - 1])
  }

  lemma DigitRoundTrip(d: nat)
    requires d < 36
    ensures DigitValue(Digit(d)) == d
  {
  }

  /** Parsing a generated id gives back its counter value. */
  lemma {:induction false} ParseMakeId(n: nat)
    ensures ParseId(MakeId(n)) == n
    decreases n
  {
    var s := MakeId(n);
    if n < 36 {
      DigitRoundTrip(n);
      assert s[..|s| - 1] == [];
    } else {
      ParseMakeId(n / 36);
      DigitRoundTrip(n % 36);
      assert s[..|s| - 1] == MakeId(n / 36);
    }
  }

  /** Freshness: two generated ids are equal only when their counters are. */
  lemma MakeIdInjective(m: nat, n: nat)
    ensures MakeId(m) == MakeId(n) <==> m == n
  {
    ParseMakeId(m);
    ParseMakeId(n);
  }

  /** A generated id differs from any string holding a character that is not
      a base-36 digit, such as the fixed ids "class_human" and "class_location"
      of the default document. */
  lemma MakeIdAvoids(n: nat, s: string, k: nat)
    requires k < |s| && !IsBase36Digit(s[k])
    ensures MakeId(n) != s
  {
    var t := MakeId(n);
    if |t| == |s| {
      assert IsBase36Digit(t[k]);
    }
  }
}
