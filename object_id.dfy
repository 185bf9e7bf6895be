/** MongoDB ObjectIds: `ObjectId.isValid`, `new ObjectId(s)` and `toString()`. */
module ObjectIds {
  import opened Wrappers
  import Text

  /** The message of the `BSONError` that `new ObjectId(s)` throws for an invalid string. */
  const INVALID_ID_MESSAGE := "input must be a 24 character hex string, 12 byte Uint8Array, or an integer"

  /** An ObjectId, kept as its canonical 24-digit lower-case hexadecimal text. */
  datatype ObjectId = ObjectId(hex: string) {
    function ToString(): string { hex }
  }

  predicate IsHexDigit(c: char) {
    ('0' <= c <= '9') || ('a' <= c <= 'f') || ('A' <= c <= 'F')
  }

  /** `ObjectId.isValid(s)` for a string: 24 hexadecimal digits, either case. */
  predicate IsValid(s: string) {
    |s| == 24 && forall i :: 0 <= i < |s| ==> IsHexDigit(s[i])
  }

  /** A well-formed ObjectId: lower-case hexadecimal of the right length. */
  predicate Canonical(id: ObjectId) {
    |id.hex| == 24 && forall i :: 0 <= i < 24 ==> ('0' <= id.hex[i] <= '9') || ('a' <= id.hex[i] <= 'f')
  }

  /** `new ObjectId(s)`: fails (throws) on an invalid string, reads hex digits case-insensitively. */
  function Parse(s: string): (r: Option<ObjectId>)
    ensures r.Some? <==> IsValid(s)
    ensures r.Some? ==> Canonical(r.value) && r.value.hex == Text.Lower(s)
  {
    if IsValid(s) then Some(ObjectId(Text.Lower(s))) else None
  }

  /** The text of a well-formed ObjectId is valid and parses back to it. */
  lemma ParseToString(id: ObjectId)
    requires Canonical(id)
    ensures IsValid(id.ToString())
    ensures Parse(id.ToString()) == Some(id)
  {
    assert Text.Lower(id.hex) == id.hex;
  }
}
