/** The string hash shared by the placeholder-image picker and the tag colouring:
    `hash = code + ((hash << 5) - hash)` over the characters, then `Math.abs(hash) % n`.
    The shift converts its operand to a signed 32-bit integer and wraps; the subtraction and the
    addition are on numbers, which the model keeps as unbounded integers. */
module TextHash {
  import opened Strings

  const TwoTo31: int := 0x8000_0000
  const TwoTo32: int := 0x1_0000_0000
  /** The largest code unit `charCodeAt` returns. */
  const MaxUnit: int := 0xFFFF

  /** ECMAScript ToInt32 of an integral number: the representative of `x` modulo 2^32 in
      [-2^31, 2^31). */
  function ToInt32(x: int): (r: int)
    ensures -TwoTo31 <= r < TwoTo31
    ensures (x - r) % TwoTo32 == 0
  {
    var m := x % TwoTo32;
    if m >= TwoTo31 then m - TwoTo32 else m
  }

  /** `(h << 5)` for an integral `h`: the 32-bit wrap of `h * 32`. */
  function ShiftLeft5(h: int): (r: int)
    ensures -TwoTo31 <= r < TwoTo31
    ensures (h * 32 - r) % TwoTo32 == 0
  {
    ToInt32(h * 32)
  }

  /** One step of the loop, on the code unit `charCodeAt(i)` reads. */
  function Step(h: int, unit: CodeUnit): int {
    unit + (ShiftLeft5(h) - h)
  }

  /** The steps from 0 over a sequence of code units, left to right. */
  function HashOfUnits(u: seq<CodeUnit>): int {
    if u == [] then 0 else Step(HashOfUnits(u[..|u| - 1]), u[|u| - 1])
  }

  /** The hash of a string: one step per UTF-16 code unit, so a character above U+FFFF takes
      two steps, one per surrogate. */
  function HashOf(s: string): int {
    HashOfUnits(Utf16(s))
  }

  /** The hash loop, `i` running over the code units of `s`. */
  method Hash(s: string) returns (hash: int)
    ensures hash == HashOf(s)
  {
    var units := Utf16(s);
    hash := 0;
    for i := 0 to |units|
      invariant hash == HashOfUnits(units[..i])
    {
      hash := units[i] + (ShiftLeft5(hash) - hash);
      assert units[..i + 1][..i] == units[..i];
    }
    assert units[..|units|] == units;
  }

  function Abs(x: int): nat {
    if x < 0 then -x else x
  }

  /** `Math.abs(hash) % n`, a valid index into a list of `n` entries. */
  function Bucket(s: string, n: nat): (r: nat)
    requires n > 0
    ensures r < n
  {
    Abs(HashOf(s)) % n
  }

  /** Each step moves the value by less than 2^31 plus a code unit, so the magnitude grows at
      most linearly with the number of code units. */
  lemma {:induction false} HashBound(u: seq<CodeUnit>)
    ensures Abs(HashOfUnits(u)) <= |u| * (TwoTo31 + MaxUnit)
  {
    if u != [] {
      HashBound(u[..|u| - 1]);
      var h := HashOfUnits(u[..|u| - 1]);
      assert Abs(Step(h, u[|u| - 1])) <= Abs(h) + TwoTo31 + MaxUnit;
    }
  }

  /** For any string of fewer than 2^20 characters (2^21 code units at most) every intermediate
      value is an integer below 2^53 in magnitude, where double-precision arithmetic is exact, so
      the unbounded integers of the model compute what the source computes. */
  lemma HashExact(s: string)
    requires |s| < 0x10_0000
    ensures Abs(HashOf(s)) < 0x20_0000_0000_0000
  {
    HashBound(Utf16(s));
  }

  /** For text of the Basic Multilingual Plane the hash is one step per character. */
  lemma {:induction false} HashOfBmp(s: string)
    requires forall i :: 0 <= i < |s| ==> s[i] as int < 0x1_0000
    requires s != []
    ensures HashOf(s) == Step(HashOf(s[..|s| - 1]), s[|s| - 1] as int)
  {
    var init := s[..|s| - 1];
    assert s == init + [s[|s| - 1]];
    Utf16Append(init, [s[|s| - 1]]);
    assert Utf16([s[|s| - 1]]) == [s[|s| - 1] as int];
    assert Utf16(s)[..|Utf16(s)| - 1] == Utf16(init);
  }

  /** Two more code units take two more steps. */
  lemma HashOfUnitsPair(w: seq<CodeUnit>, x: CodeUnit, y: CodeUnit)
    ensures HashOfUnits(w + [x, y]) == Step(Step(HashOfUnits(w), x), y)
  {
    var u := w + [x, y];
    assert u[..|u| - 1] == w + [x];
    assert (w + [x])[..|w|] == w;
  }

  /** A character above U+FFFF takes two steps, its high surrogate then its low one. */
  lemma {:induction false} HashOfAstral(s: string, c: char)
    requires c as int >= 0x1_0000
    ensures HashOf(s + [c]) == Step(Step(HashOf(s), CharUnits(c)[0]), CharUnits(c)[1])
  {
    Utf16Append(s, [c]);
    var cu := CharUnits(c);
    assert Utf16([c]) == cu by {
      assert [c][1..] == [];
    }
    assert cu == [cu[0], cu[1]];
    HashOfUnitsPair(Utf16(s), cu[0], cu[1]);
  }
}
