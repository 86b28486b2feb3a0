/** BSON ObjectIds as the lead store hands them out: `str(oid)` renders the
    96-bit value as 24 lower-case hex digits and `ObjectId(s)` parses such a
    string back, raising InvalidId on anything else. */
module ObjectIds {
  import opened Wrappers

  const HexAlphabet: string := "0123456789abcdef"

  /** The number of hex digits of an ObjectId (12 bytes). */
  const IdDigits: nat := 24

  function Pow16(n: nat): (r: nat)
    ensures r >= 1
  {
    if n == 0 then 1 else 16 * Pow16(n - 1)
  }

  /** The value of one hex digit; `bytes.fromhex` accepts either case. */
  function DigitValue(c: char): Option<nat> {
    if '0' <= c <= '9' then Some(c as int - '0' as int)
    else if 'a' <= c <= 'f' then Some(c as int - 'a' as int + 10)
    else if 'A' <= c <= 'F' then Some(c as int - 'A' as int + 10)
    else None
  }

  predicate IsHex(s: string) {
    forall i :: 0 <= i < |s| ==> DigitValue(s[i]).Some?
  }

  /** The `w` low-order hex digits of `n`, most significant first. */
  function FixedHex(n: nat, w: nat): (r: string)
    ensures |r| == w
    ensures forall i :: 0 <= i < |r| ==> r[i] in HexAlphabet
  {
    if w == 0 then "" else FixedHex(n / 16, w - 1) + [HexAlphabet[n % 16]]
  }

  function HexValue(s: string): nat
    requires IsHex(s)
  {
    if |s| == 0 then 0 else HexValue(s[..|s| - 1]) * 16 + DigitValue(s[|s| - 1]).value
  }

  /** `str(oid)`: always 24 lower-case hex digits. */
  function Text(id: nat): (r: string)
    ensures |r| == IdDigits
    ensures forall i :: 0 <= i < |r| ==> r[i] in HexAlphabet
  {
    FixedHex(id, IdDigits)
  }

  /** `ObjectId(s)` for a string argument: accepted exactly when `s` has 24
      hex digits, and then the value is below 16^24. */
  function Parse(s: string): (r: Option<nat>)
    ensures r.Some? <==> |s| == IdDigits && IsHex(s)
    ensures r.Some? ==> r.value < Pow16(IdDigits)
  {
    if |s| == IdDigits && IsHex(s) then
      HexValueBound(s);
      Some(HexValue(s))
    else None
  }

  lemma {:induction false} HexValueBound(s: string)
    requires IsHex(s)
    ensures HexValue(s) < Pow16(|s|)
  {
    if |s| > 0 {
      HexValueBound(s[..|s| - 1]);
    }
  }

  lemma AlphabetDigit(d: nat)
    requires d < 16
    ensures DigitValue(HexAlphabet[d]) == Some(d)
  {
  }

  lemma {:induction false} FixedHexValue(n: nat, w: nat)
    requires n < Pow16(w)
    ensures IsHex(FixedHex(n, w))
    ensures HexValue(FixedHex(n, w)) == n
  {
    if w > 0 {
      var s := FixedHex(n, w);
      assert n / 16 < Pow16(w - 1);
      FixedHexValue(n / 16, w - 1);
      AlphabetDigit(n % 16);
      assert s[..|s| - 1] == FixedHex(n / 16, w - 1);
      assert IsHex(s) by {
        forall i | 0 <= i < |s| ensures DigitValue(s[i]).Some? {
          if i < |s| - 1 { assert s[i] == FixedHex(n / 16, w - 1)[i]; }
        }
      }
    }
  }

  /** Parsing the text of an ObjectId gives the ObjectId back. */
  lemma ParseText(id: nat)
    requires id < Pow16(IdDigits)
    ensures Parse(Text(id)) == Some(id)
  {
    FixedHexValue(id, IdDigits);
  }

  /** Distinct ObjectIds have distinct texts. */
  lemma TextInjective(a: nat, b: nat)
    requires a < Pow16(IdDigits) && b < Pow16(IdDigits)
    requires Text(a) == Text(b)
    ensures a == b
  {
    ParseText(a);
    ParseText(b);
  }
}
