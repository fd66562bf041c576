/**
 * RFC 4122 identifiers as the repository uses them: a 16-byte value (Go's uuid.UUID), its
 * lower-case hyphenated text (uuid.UUID.String, MySQL's BIN_TO_UUID), the parser that reads the
 * hyphenated text back (uuid.Parse), and MySQL's more lenient UUID_TO_BIN.
 */
module Uuids {
  import opened Errors

  type Byte = x: int | 0 <= x < 256
  type Uuid = b: seq<Byte> | |b| == 16 witness seq(16, _ => 0)

  const HexDigits := "0123456789abcdef"

  /** The value of one hexadecimal digit, in either case. */
  function DigitValue(c: char): (d: Option<int>)
    ensures d.Some? ==> 0 <= d.value < 16
  {
    if '0' <= c <= '9' then Some(c as int - '0' as int)
    else if 'a' <= c <= 'f' then Some(c as int - 'a' as int + 10)
    else if 'A' <= c <= 'F' then Some(c as int - 'A' as int + 10)
    else None
  }

  function Hex(bs: seq<Byte>): (s: string)
    ensures |s| == 2 * |bs|
  {
    if bs == [] then [] else [HexDigits[bs[0] / 16], HexDigits[bs[0] % 16]] + Hex(bs[1..])
  }

  /** The byte written as two hexadecimal digits, high digit first. */
  function PairValue(hi: char, lo: char): (b: Option<Byte>)
    ensures b.Some? <==> DigitValue(hi).Some? && DigitValue(lo).Some?
    ensures b.Some? ==> b.value == 16 * DigitValue(hi).value + DigitValue(lo).value
  {
    match (DigitValue(hi), DigitValue(lo))
    case (Some(h), Some(l)) => Some(16 * h + l)
    case _ => None
  }

  /** Reads pairs of hexadecimal digits into bytes; None if any character is not a digit. */
  function Unhex(s: string): Option<seq<Byte>>
    decreases |s|
  {
    if |s| < 2 then (if |s| == 0 then Some([]) else None)
    else
      var b, rest := PairValue(s[0], s[1]), Unhex(s[2..]);
      if b.None? || rest.None? then None else Some([b.value] + rest.value)
  }

  lemma {:induction false} UnhexHex(bs: seq<Byte>)
    ensures Unhex(Hex(bs)) == Some(bs)
  {
    if bs != [] {
      var b := bs[0];
      var hi, lo := HexDigits[b / 16], HexDigits[b % 16];
      assert Hex(bs) == [hi, lo] + Hex(bs[1..]);
      HexPair(b);
      UnhexPair(hi, lo, Hex(bs[1..]));
      UnhexHex(bs[1..]);
      assert [b] + bs[1..] == bs;
    }
  }

  /** The two digits Hex writes for a byte read back as that byte. */
  lemma HexPair(b: Byte)
    ensures PairValue(HexDigits[b / 16], HexDigits[b % 16]) == Some(b)
  {
    DigitOfHex(b / 16);
    DigitOfHex(b % 16);
  }

  /** Two digits in front of t add their byte in front of t's bytes. */
  lemma UnhexPair(hi: char, lo: char, t: string)
    ensures Unhex([hi, lo] + t)
         == if PairValue(hi, lo).None? || Unhex(t).None? then None else Some([PairValue(hi, lo).value] + Unhex(t).value)
  {
    var s := [hi, lo] + t;
    assert s[0] == hi && s[1] == lo && s[2..] == t;
  }

  lemma DigitOfHex(d: int)
    requires 0 <= d < 16
    ensures DigitValue(HexDigits[d]) == Some(d)
  {
  }

  lemma {:induction false} HexAppend(a: seq<Byte>, b: seq<Byte>)
    ensures Hex(a + b) == Hex(a) + Hex(b)
  {
    if a != [] {
      assert (a + b)[1..] == a[1..] + b;
      HexAppend(a[1..], b);
    } else {
      assert a + b == b;
    }
  }

  /** The characters of s other than hyphens, in order. */
  function DropHyphens(s: string): (r: string)
    ensures |r| <= |s|
  {
    if s == [] then [] else (if s[0] == '-' then [] else [s[0]]) + DropHyphens(s[1..])
  }

  lemma {:induction false} DropHyphensAppend(a: string, b: string)
    ensures DropHyphens(a + b) == DropHyphens(a) + DropHyphens(b)
  {
    if a == [] {
      assert a + b == b;
    } else {
      assert (a + b)[0] == a[0] && (a + b)[1..] == a[1..] + b;
      DropHyphensAppend(a[1..], b);
    }
  }

  /** Hexadecimal text has no hyphen to drop. */
  lemma {:induction false} DropHyphensHex(bs: seq<Byte>)
    ensures DropHyphens(Hex(bs)) == Hex(bs)
  {
    if bs != [] {
      var s := Hex(bs);
      var pair := [HexDigits[bs[0] / 16], HexDigits[bs[0] % 16]];
      assert s == pair + Hex(bs[1..]);
      assert DropHyphens(pair) == pair by {
        assert pair[1..] == [pair[1]] && [pair[1]][1..] == [];
      }
      DropHyphensAppend(pair, Hex(bs[1..]));
      DropHyphensHex(bs[1..]);
    }
  }

  predicate Hyphenated(s: string) {
    |s| == 36 && s[8] == '-' && s[13] == '-' && s[18] == '-' && s[23] == '-'
  }

  /** uuid.UUID.String: xxxxxxxx-xxxx-xxxx-xxxx-xxxxxxxxxxxx in lower case. */
  function Format(u: Uuid): (s: string)
    ensures Hyphenated(s)
  {
    Hex(u[0..4]) + "-" + Hex(u[4..6]) + "-" + Hex(u[6..8]) + "-" + Hex(u[8..10]) + "-" + Hex(u[10..16])
  }

  /**
   * uuid.Parse restricted to the hyphenated form of RFC 4122: 36 characters with hyphens at
   * positions 8, 13, 18 and 23 and 32 hexadecimal digits around them.
   */
  function Parse(s: string): (r: Result<Uuid>)
    ensures r.Ok? ==> Hyphenated(s)
    ensures r.Err? ==> r.error == InvalidUuid
  {
    if !Hyphenated(s) then Err(InvalidUuid)
    else match Unhex(DropHyphens(s))
      case Some(bs) => if |bs| == 16 then Ok(bs) else Err(InvalidUuid)
      case None => Err(InvalidUuid)
  }

  lemma DropHyphenJoin(x: string, y: string)
    ensures DropHyphens(x + "-" + y) == DropHyphens(x) + DropHyphens(y)
  {
    assert DropHyphens("-") == [] by {
      assert "-"[1..] == [];
    }
    DropHyphensAppend(x, "-");
    DropHyphensAppend(x + "-", y);
    assert DropHyphens(x) + [] == DropHyphens(x);
  }

  /** Dropping the next hyphen-separated group of u's text extends the digits by that group's bytes. */
  lemma JoinGroup(u: Uuid, text: string, i: nat, j: nat)
    requires i <= j <= 16 && DropHyphens(text) == Hex(u[..i])
    ensures DropHyphens(text + "-" + Hex(u[i..j])) == Hex(u[..j])
  {
    DropHyphenJoin(text, Hex(u[i..j]));
    DropHyphensHex(u[i..j]);
    HexAppend(u[..i], u[i..j]);
    assert u[..i] + u[i..j] == u[..j];
  }

  lemma FormatDigits(u: Uuid)
    ensures DropHyphens(Format(u)) == Hex(u)
  {
    var t0 := Hex(u[0..4]);
    assert u[0..4] == u[..4];
    DropHyphensHex(u[..4]);
    var t1 := t0 + "-" + Hex(u[4..6]);
    JoinGroup(u, t0, 4, 6);
    var t2 := t1 + "-" + Hex(u[6..8]);
    JoinGroup(u, t1, 6, 8);
    var t3 := t2 + "-" + Hex(u[8..10]);
    JoinGroup(u, t2, 8, 10);
    JoinGroup(u, t3, 10, 16);
    assert Format(u) == t3 + "-" + Hex(u[10..16]);
    assert u[..16] == u;
  }

  /** Parsing the text of an identifier gives the identifier back (UUID_TO_BIN(BIN_TO_UUID(x)) == x). */
  lemma ParseFormat(u: Uuid)
    ensures Parse(Format(u)) == Ok(u)
  {
    FormatDigits(u);
    UnhexHex(u);
  }

  /**
   * MySQL's UUID_TO_BIN: 32 hexadecimal digits written bare, in the hyphenated grouping, or in that
   * grouping between braces, either letter case; None where MySQL reports an incorrect string value.
   */
  function UuidToBin(s: string): (r: Option<Uuid>)
    ensures Parse(s).Ok? ==> r == Some(Parse(s).value)
    ensures r.Some? && |s| != 32 ==> Hyphenated(s) || (|s| == 38 && s[0] == '{' && s[37] == '}' && Hyphenated(s[1..37]))
  {
    if |s| == 32 then
      match Unhex(s)
      case Some(bs) => if |bs| == 16 then Some(bs) else None
      case None => None
    else if |s| == 38 && s[0] == '{' && s[37] == '}' then
      match Parse(s[1..37])
      case Ok(u) => Some(u)
      case Err(_) => None
    else
      match Parse(s)
      case Ok(u) => Some(u)
      case Err(_) => None
  }

  /** UUID_TO_BIN reads the canonical text of an identifier back (UUID_TO_BIN(BIN_TO_UUID(x)) == x). */
  lemma UuidToBinFormat(u: Uuid)
    ensures UuidToBin(Format(u)) == Some(u)
  {
    ParseFormat(u);
  }

  /** UUID_TO_BIN also reads the canonical text between braces, which uuid.Parse here refuses. */
  lemma UuidToBinBraced(u: Uuid)
    ensures UuidToBin("{" + Format(u) + "}") == Some(u)
    ensures Parse("{" + Format(u) + "}").Err?
  {
    var s := "{" + Format(u) + "}";
    assert s[1..37] == Format(u);
    ParseFormat(u);
  }

  /** UUID_TO_BIN also reads the 32 digits without hyphens, which uuid.Parse here refuses. */
  lemma UuidToBinBare(u: Uuid)
    ensures UuidToBin(Hex(u)) == Some(u)
    ensures Parse(Hex(u)).Err?
  {
    UnhexHex(u);
  }
}
