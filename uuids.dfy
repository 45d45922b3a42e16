/**
 * The part of the `uuid` crate the program relies on: a UUID is sixteen
 * octets, and `Uuid::to_string()` writes them as 32 lower-case hexadecimal
 * digits in the groups 8-4-4-4-12, separated by hyphens.
 *
 * `Parse` accepts exactly the strings `ToString` produces; it is the partner
 * that makes `ToString` provably injective, which is what lets a string-keyed
 * document store tell two lists apart.
 */
module Uuids {
  import opened Wrappers

  /** An octet. */
  type Byte = b: int | 0 <= b < 256

  /** A UUID, as the sixteen octets the crate stores. */
  type Uuid = s: seq<Byte> | |s| == 16 witness [0, 0, 0, 0, 0, 0, 0, 0, 0, 0, 0, 0, 0, 0, 0, 0]

  predicate IsHexDigit(c: char) {
    '0' <= c <= '9' || 'a' <= c <= 'f'
  }

  function HexValue(c: char): (n: int)
    requires IsHexDigit(c)
    ensures 0 <= n < 16
  {
    if '0' <= c <= '9' then c as int - '0' as int else c as int - 'a' as int + 10
  }

  /** The lower-case digit for a nibble; `HexValue` undoes it. */
  function HexDigit(n: int): (c: char)
    requires 0 <= n < 16
    ensures IsHexDigit(c) && HexValue(c) == n
  {
    if n < 10 then ('0' as int + n) as char else ('a' as int + n - 10) as char
  }

  /** Two digits per octet, high nibble first. */
  function Hex(bs: seq<Byte>): (s: string)
    ensures |s| == 2 * |bs|
    ensures forall i :: 0 <= i < |s| ==> IsHexDigit(s[i])
  {
    if bs == [] then [] else [HexDigit(bs[0] / 16), HexDigit(bs[0] % 16)] + Hex(bs[1..])
  }

  /** Reads pairs of hexadecimal digits back into octets. */
  function UnHex(s: string): (r: Option<seq<Byte>>)
    ensures r.Some? ==> 2 * |r.value| == |s|
  {
    if |s| == 0 then Some([])
    else if |s| == 1 || !IsHexDigit(s[0]) || !IsHexDigit(s[1]) then None
    else match UnHex(s[2..])
      case None => None
      case Some(rest) => Some([16 * HexValue(s[0]) + HexValue(s[1])] + rest)
  }

  lemma {:induction false} UnHexHex(bs: seq<Byte>)
    ensures UnHex(Hex(bs)) == Some(bs)
  {
    if bs != [] {
      var s := Hex(bs);
      assert s[2..] == Hex(bs[1..]);
      UnHexHex(bs[1..]);
      var hi, lo := bs[0] / 16, bs[0] % 16;
      assert HexValue(s[0]) == hi && HexValue(s[1]) == lo;
      assert 16 * hi + lo == bs[0];
      assert [bs[0]] + bs[1..] == bs;
    }
  }

  /** `Uuid::to_string()`: the hyphenated form. */
  function ToString(u: Uuid): (s: string)
    ensures |s| == 36
    ensures s[8] == '-' && s[13] == '-' && s[18] == '-' && s[23] == '-'
  {
    var h := Hex(u);
    h[..8] + "-" + h[8..12] + "-" + h[12..16] + "-" + h[16..20] + "-" + h[20..]
  }

  /** Strict parse of the hyphenated form; `None` for anything else. */
  function Parse(s: string): (r: Option<Uuid>)
  {
    if |s| != 36 || s[8] != '-' || s[13] != '-' || s[18] != '-' || s[23] != '-' then None
    else match UnHex(s[..8] + s[9..13] + s[14..18] + s[19..23] + s[24..])
      case None => None
      case Some(bs) => Some(bs)
  }

  lemma ParseToString(u: Uuid)
    ensures Parse(ToString(u)) == Some(u)
  {
    var h := Hex(u);
    var s := ToString(u);
    assert s[..8] == h[..8];
    assert s[9..13] == h[8..12];
    assert s[14..18] == h[12..16];
    assert s[19..23] == h[16..20];
    assert s[24..] == h[20..];
    assert h[..8] + h[8..12] + h[12..16] + h[16..20] + h[20..] == h;
    UnHexHex(u);
  }

  /** Distinct UUIDs have distinct string forms. */
  lemma ToStringInjective(a: Uuid, b: Uuid)
    requires a != b
    ensures ToString(a) != ToString(b)
  {
    ParseToString(a);
    ParseToString(b);
  }
}
