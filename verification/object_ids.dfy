/** BSON ObjectIds as the backend handles them: `str(oid)` renders the 12 bytes as
    24 lower-case hexadecimal digits, and `ObjectId(text)` accepts a 24-character
    hexadecimal string (either case) and raises `InvalidId` on anything else. */
module ObjectIds {
  import opened Common
  import Strings

  type Nibble = x: int | 0 <= x < 16

  /** An ObjectId's 12 bytes, held as their 24 hexadecimal digits. */
  type ObjectId = s: seq<Nibble> | |s| == 24 witness seq(24, _ => 0)

  const HexDigits: string := "0123456789abcdef"

  predicate IsHexChar(c: char) {
    '0' <= c <= '9' || 'a' <= c <= 'f' || 'A' <= c <= 'F'
  }

  function HexChar(n: Nibble): (c: char)
    ensures IsHexChar(c) && !Strings.IsAsciiUpper(c)
  {
    HexDigits[n]
  }

  function HexValue(c: char): (n: Nibble)
    requires IsHexChar(c)
  {
    if '0' <= c <= '9' then c as int - '0' as int
    else if 'a' <= c <= 'f' then c as int - 'a' as int + 10
    else c as int - 'A' as int + 10
  }

  /** Each digit reads back as the value it was written for. */
  lemma HexValueOfHexChar(n: Nibble)
    ensures HexValue(HexChar(n)) == n
  {
  }

  /** `str(oid)`. */
  function IdText(id: ObjectId): (r: string)
    ensures |r| == 24
    ensures forall i :: 0 <= i < 24 ==> IsHexChar(r[i]) && !Strings.IsAsciiUpper(r[i])
  {
    seq(24, i requires 0 <= i < 24 => HexChar(id[i]))
  }

  predicate IsIdText(text: string) {
    |text| == 24 && forall i :: 0 <= i < |text| ==> IsHexChar(text[i])
  }

  /** `ObjectId(text)`: `None` stands for the `InvalidId` exception. */
  function ParseId(text: string): (r: Option<ObjectId>)
    ensures r.Some? <==> IsIdText(text)
  {
    if IsIdText(text) then Some(seq(24, i requires 0 <= i < 24 => HexValue(text[i])))
    else None
  }

  /** Round trip: the text of an id parses back to that id. */
  lemma ParseIdText(id: ObjectId)
    ensures ParseId(IdText(id)) == Some(id)
  {
    var t := IdText(id);
    assert IsIdText(t);
    forall i | 0 <= i < 24 ensures ParseId(t).value[i] == id[i] {
      HexValueOfHexChar(id[i]);
    }
    assert ParseId(t).value == id;
  }

  /** Round trip the other way: a parsed text renders back as its lower-case form. */
  lemma IdTextOfParse(text: string)
    requires ParseId(text).Some?
    ensures IdText(ParseId(text).value) == Strings.LowerAscii(text)
  {
    var id := ParseId(text).value;
    forall i | 0 <= i < 24 ensures IdText(id)[i] == Strings.LowerAscii(text)[i] {
      assert id[i] == HexValue(text[i]);
    }
  }

  /** Distinct ids have distinct texts, so string ids identify records as well as ObjectIds do. */
  lemma IdTextInjective(a: ObjectId, b: ObjectId)
    requires IdText(a) == IdText(b)
    ensures a == b
  {
    ParseIdText(a);
    ParseIdText(b);
  }
}
