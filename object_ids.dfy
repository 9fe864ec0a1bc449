/** Document identifiers. A route receives an id as text and Mongoose casts it
    to an ObjectId; text that is not 24 hexadecimal digits fails the cast. */
module ObjectIds {
  import opened Wrappers

  /** The number behind an ObjectId. */
  datatype ObjectId = ObjectId(value: nat)

  const IdTextLength: nat := 24

  predicate IsHexDigit(c: char) {
    '0' <= c <= '9' || 'a' <= c <= 'f' || 'A' <= c <= 'F'
  }

  function HexDigitValue(c: char): (d: nat)
    requires IsHexDigit(c)
    ensures d < 16
  {
    if '0' <= c <= '9' then c as nat - '0' as nat
    else if 'a' <= c <= 'f' then c as nat - 'a' as nat + 10
    else c as nat - 'A' as nat + 10
  }

  function HexDigit(d: nat): (c: char)
    requires d < 16
    ensures IsHexDigit(c) && HexDigitValue(c) == d
  {
    if d < 10 then ('0' as nat + d) as char else ('a' as nat + d - 10) as char
  }

  predicate IsHexText(s: string) {
    forall i :: 0 <= i < |s| ==> IsHexDigit(s[i])
  }

  /** The number a string of hexadecimal digits denotes, most significant first. */
  function HexValue(s: string): nat
    requires IsHexText(s)
  {
    if s == [] then 0 else 16 * HexValue(s[..|s| - 1]) + HexDigitValue(s[|s| - 1])
  }

  function Pow16(n: nat): (p: nat)
    ensures p > 0
  {
    if n == 0 then 1 else 16 * Pow16(n - 1)
  }

  /** The cast of request text to an ObjectId; None is Mongoose's CastError. */
  function ParseObjectId(s: string): (r: Option<ObjectId>)
    ensures r.Some? <==> |s| == IdTextLength && IsHexText(s)
  {
    if |s| == IdTextLength && IsHexText(s) then Some(ObjectId(HexValue(s))) else None
  }

  /** Every id a cast yields is below 16^24. */
  lemma ParsedIdBound(s: string)
    requires ParseObjectId(s).Some?
    ensures ParseObjectId(s).value.value < Pow16(IdTextLength)
  {
    HexValueBound(s);
  }

  lemma {:induction false} HexValueBound(s: string)
    requires IsHexText(s)
    ensures HexValue(s) < Pow16(|s|)
  {
    if s != [] {
      HexValueBound(s[..|s| - 1]);
    }
  }

  /** The width-digit lower-case hexadecimal text of n (how an id is printed in JSON). */
  function HexText(n: nat, width: nat): (s: string)
    ensures |s| == width && IsHexText(s)
  {
    if width == 0 then [] else HexText(n / 16, width - 1) + [HexDigit(n % 16)]
  }

  /** The text of an id as it appears in a reply and in a later request path. */
  function IdText(id: ObjectId): string {
    HexText(id.value, IdTextLength)
  }

  lemma {:induction false} HexValueOfHexText(n: nat, width: nat)
    requires n < Pow16(width)
    ensures HexValue(HexText(n, width)) == n
  {
    if width > 0 {
      var s := HexText(n, width);
      assert s[..|s| - 1] == HexText(n / 16, width - 1);
      assert s[|s| - 1] == HexDigit(n % 16);
      assert n / 16 < Pow16(width - 1) by {
        assert 16 * (n / 16) <= n < 16 * Pow16(width - 1);
      }
      HexValueOfHexText(n / 16, width - 1);
      assert HexValue(s) == 16 * (n / 16) + n % 16;
    }
  }

  /** An id printed in a reply and sent back in a request casts to the same id. */
  lemma IdTextRoundTrip(id: ObjectId)
    requires id.value < Pow16(IdTextLength)
    ensures ParseObjectId(IdText(id)) == Some(id)
  {
    HexValueOfHexText(id.value, IdTextLength);
  }
}
