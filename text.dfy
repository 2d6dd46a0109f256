/** String helpers standing in for the JavaScript string operations the
    story bible relies on: `toLowerCase`, `includes`, truthiness of an
    optional string, `x || fallback` and template-literal rendering. */
module Text {

  datatype Option<+T> = None | Some(value: T)

  /** ASCII lower-casing of one character (letters outside A-Z are kept). */
  function LowerChar(c: char): (r: char)
    ensures 'A' <= c <= 'Z' ==> 'a' <= r <= 'z' && r as int == c as int + 32
    ensures !('A' <= c <= 'Z') ==> r == c
  {
    if 'A' <= c <= 'Z' then (c as int + 32) as char else c
  }

  /** `s.toLowerCase()`, restricted to ASCII letters. */
  function Lower(s: string): (r: string)
    ensures |r| == |s|
    ensures forall i :: 0 <= i < |s| ==> r[i] == LowerChar(s[i])
  {
    if s == [] then [] else [LowerChar(s[0])] + Lower(s[1..])
  }

  /** Lower-casing is idempotent, so comparing lowered names is stable. */
  lemma LowerIdempotent(s: string)
    ensures Lower(Lower(s)) == Lower(s)
  {
    var l := Lower(s);
    assert forall i :: 0 <= i < |l| ==> LowerChar(l[i]) == l[i];
  }

  /** Case-insensitive equality, as `a.toLowerCase() === b.toLowerCase()`. */
  predicate SameFolded(a: string, b: string)
  {
    Lower(a) == Lower(b)
  }

  /** `hay.includes(needle)`: needle occurs as a contiguous slice of hay. */
  predicate Contains(hay: string, needle: string)
    decreases |hay|
  {
    needle <= hay || (hay != [] && Contains(hay[1..], needle))
  }

  /** needle occurs in hay starting at position i. */
  predicate OccursAt(hay: string, needle: string, i: int)
  {
    0 <= i && i + |needle| <= |hay| && hay[i..i + |needle|] == needle
  }

  /** Contains agrees with the slice definition of substring occurrence. */
  lemma {:induction false} ContainsIffOccurs(hay: string, needle: string)
    ensures Contains(hay, needle) <==> exists i :: OccursAt(hay, needle, i)
    decreases |hay|
  {
    if hay == [] {
      if needle == [] {
        assert OccursAt(hay, needle, 0);
      } else {
        assert forall i :: !OccursAt(hay, needle, i);
      }
    } else {
      ContainsIffOccurs(hay[1..], needle);
      if needle <= hay {
        assert OccursAt(hay, needle, 0);
      }
      if Contains(hay[1..], needle) {
        var i :| OccursAt(hay[1..], needle, i);
        OccursShiftUp(hay, needle, i);
      }
      if exists i :: OccursAt(hay, needle, i) {
        var i :| OccursAt(hay, needle, i);
        if i == 0 {
          OccursAtStart(hay, needle);
        } else {
          OccursShiftDown(hay, needle, i);
        }
      }
    }
  }

  /** An occurrence at position 0 is a prefix. */
  lemma OccursAtStart(hay: string, needle: string)
    requires OccursAt(hay, needle, 0)
    ensures needle <= hay
  {
    assert hay[0..|needle|] == hay[..|needle|];
  }

  /** An occurrence in the tail is an occurrence one position later in the whole. */
  lemma OccursShiftUp(hay: string, needle: string, i: int)
    requires hay != [] && OccursAt(hay[1..], needle, i)
    ensures OccursAt(hay, needle, i + 1)
  {
    assert hay[i + 1..i + 1 + |needle|] == hay[1..][i..i + |needle|];
  }

  /** An occurrence past the start is an occurrence one position earlier in the tail. */
  lemma OccursShiftDown(hay: string, needle: string, i: int)
    requires hay != [] && 0 < i && OccursAt(hay, needle, i)
    ensures OccursAt(hay[1..], needle, i - 1)
  {
    assert hay[i..i + |needle|] == hay[1..][i - 1..i - 1 + |needle|];
  }

  /** The empty string is contained in every string (so a missing hint matches the first candidate). */
  lemma ContainsEmpty(hay: string)
    ensures Contains(hay, "")
  {
  }

  /** JavaScript truthiness of an optional string argument. */
  predicate Truthy(o: Option<string>)
  {
    o.Some? && o.value != ""
  }

  /** `o || fallback` for an optional string. */
  function OrElse(o: Option<string>, fallback: string): (r: string)
    ensures Truthy(o) ==> r == o.value
    ensures !Truthy(o) ==> r == fallback
  {
    if Truthy(o) then o.value else fallback
  }

  /** How a template literal renders an optional string: `${undefined}` is "undefined". */
  function Show(o: Option<string>): (r: string)
    ensures o.Some? ==> r == o.value
    ensures o.None? ==> r == "undefined"
  {
    match o
    case Some(v) => v
    case None => "undefined"
  }
}
