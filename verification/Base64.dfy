/** Base64 with padding, section 4 of RFC 4648, and the canonical decoder built on it. */
module Base64 {
  import opened Basics

  function Symbol(v: nat): (c: char)
    requires v < 64
    ensures IsSymbol(c)
  {
    if v < 26 then ('A' as int + v) as char
    else if v < 52 then ('a' as int + (v - 26)) as char
    else if v < 62 then ('0' as int + (v - 52)) as char
    else if v == 62 then '+'
    else '/'
  }

  predicate IsSymbol(c: char) {
    'A' <= c <= 'Z' || 'a' <= c <= 'z' || '0' <= c <= '9' || c == '+' || c == '/'
  }

  function Value(c: char): (v: nat)
    requires IsSymbol(c)
    ensures v < 64
  {
    if 'A' <= c <= 'Z' then c as int - 'A' as int
    else if 'a' <= c <= 'z' then c as int - 'a' as int + 26
    else if '0' <= c <= '9' then c as int - '0' as int + 52
    else if c == '+' then 62
    else 63
  }

  lemma SymbolValue(v: nat)
    requires v < 64
    ensures Value(Symbol(v)) == v
  {
  }

  predicate IsBase64Text(s: string) {
    forall i :: 0 <= i < |s| ==> IsSymbol(s[i]) || s[i] == '='
  }

  /** Three bytes as four six-bit values. */
  function Quad(a: Byte, b: Byte, c: Byte): (s: string)
    ensures |s| == 4 && forall i :: 0 <= i < 4 ==> IsSymbol(s[i])
  {
    var x, y, z := a as int, b as int, c as int;
    [Symbol(x / 4), Symbol(x % 4 * 16 + y / 16), Symbol(y % 16 * 4 + z / 64), Symbol(z % 64)]
  }

  function Encode(bytes: Bytes): (s: string)
    ensures IsBase64Text(s)
    ensures |s| == (|bytes| + 2) / 3 * 4
  {
    if |bytes| == 0 then ""
    else if |bytes| == 1 then Quad(bytes[0], 0, 0)[..2] + "=="
    else if |bytes| == 2 then Quad(bytes[0], bytes[1], 0)[..3] + "="
    else Quad(bytes[0], bytes[1], bytes[2]) + Encode(bytes[3..])
  }

  function Triple(s: string): (r: Option<Bytes>)
    requires |s| == 4
  {
    if !(IsSymbol(s[0]) && IsSymbol(s[1])) then None
    else
      var p, q := Value(s[0]), Value(s[1]);
      var first := (p * 4 + q / 16) as Byte;
      if s[2] == '=' then if s[3] == '=' then Some([first]) else None
      else if !IsSymbol(s[2]) then None
      else
        var r := Value(s[2]);
        var second := (q % 16 * 16 + r / 4) as Byte;
        if s[3] == '=' then Some([first, second])
        else if !IsSymbol(s[3]) then None
        else Some([first, second, (r % 4 * 64 + Value(s[3])) as Byte])
  }

  function Decode(s: string): Option<Bytes> {
    if s == "" then Some([])
    else if |s| < 4 then None
    else
      var head := Triple(s[..4]);
      if head.None? then None
      else if |s| == 4 then head
      else if |head.value| != 3 then None
      else
        var tail := Decode(s[4..]);
        if tail.None? then None else Some(head.value + tail.value)
  }

  /** fromCanonicalBase64: non-empty text that its own decoding encodes back to. */
  function FromCanonical(s: string): Option<Bytes> {
    var decoded := Decode(s);
    if s != "" && decoded.Some? && Encode(decoded.value) == s then decoded else None
  }

  lemma Regroup(x: nat, y: nat, z: nat)
    requires x < 256 && y < 256 && z < 256
    ensures x / 4 * 4 + (x % 4 * 16 + y / 16) / 16 == x
    ensures (x % 4 * 16 + y / 16) % 16 * 16 + (y % 16 * 4 + z / 64) / 4 == y
    ensures (y % 16 * 4 + z / 64) % 4 * 64 + z % 64 == z
  {
  }

  lemma QuadTriple(a: Byte, b: Byte, c: Byte)
    ensures Triple(Quad(a, b, c)) == Some([a, b, c])
  {
    hide Symbol, Value;
    var x, y, z := a as int, b as int, c as int;
    var p, q, r, t := x / 4, x % 4 * 16 + y / 16, y % 16 * 4 + z / 64, z % 64;
    SymbolValue(p);
    SymbolValue(q);
    SymbolValue(r);
    SymbolValue(t);
    Regroup(x, y, z);
    assert p * 4 + q / 16 == x && q % 16 * 16 + r / 4 == y && r % 4 * 64 + t == z;
    var s := Quad(a, b, c);
    assert s == [Symbol(p), Symbol(q), Symbol(r), Symbol(t)];
  }

  lemma PaddedPair(a: Byte, b: Byte)
    ensures Triple(Quad(a, b, 0)[..3] + "=") == Some([a, b])
  {
    hide Symbol, Value;
    var x, y := a as int, b as int;
    var p, q, r := x / 4, x % 4 * 16 + y / 16, y % 16 * 4;
    SymbolValue(p);
    SymbolValue(q);
    SymbolValue(r);
    Regroup(x, y, 0);
    assert p * 4 + q / 16 == x && q % 16 * 16 + r / 4 == y;
    assert Quad(a, b, 0)[..3] + "=" == [Symbol(p), Symbol(q), Symbol(r), '='];
  }

  lemma PaddedByte(a: Byte)
    ensures Triple(Quad(a, 0, 0)[..2] + "==") == Some([a])
  {
    hide Symbol, Value;
    var x := a as int;
    SymbolValue(x / 4);
    SymbolValue(x % 4 * 16);
  }

  lemma DecodeShort(bytes: Bytes)
    requires |bytes| < 3
    ensures Decode(Encode(bytes)) == Some(bytes)
  {
    hide Quad, Triple;
    var s := Encode(bytes);
    if |bytes| == 1 {
      PaddedByte(bytes[0]);
      assert s[..4] == s && bytes == [bytes[0]];
    } else if |bytes| == 2 {
      PaddedPair(bytes[0], bytes[1]);
      assert s[..4] == s && bytes == [bytes[0], bytes[1]];
    }
  }

  lemma DecodeGroup(head: string, tail: string)
    requires |head| == 4 && Triple(head).Some? && |Triple(head).value| == 3
    ensures Decode(head + tail) == if Decode(tail).None? then None else Some(Triple(head).value + Decode(tail).value)
  {
    var s := head + tail;
    assert s[..4] == head && s[4..] == tail;
    if tail == "" {
      assert Triple(head).value + [] == Triple(head).value;
    }
  }

  /** Decoding undoes encoding, for every byte string. */
  lemma {:induction false} DecodeEncode(bytes: Bytes)
    ensures Decode(Encode(bytes)) == Some(bytes)
  {
    hide Quad, Triple;
    if |bytes| < 3 {
      DecodeShort(bytes);
    } else {
      QuadTriple(bytes[0], bytes[1], bytes[2]);
      DecodeEncode(bytes[3..]);
      DecodeGroup(Quad(bytes[0], bytes[1], bytes[2]), Encode(bytes[3..]));
      assert bytes == [bytes[0], bytes[1], bytes[2]] + bytes[3..];
    }
  }

  /** The canonical decoder accepts exactly the encodings of non-empty byte strings. */
  lemma CanonicalIffEncoding(s: string, bytes: Bytes)
    ensures FromCanonical(s) == Some(bytes) <==> bytes != [] && s == Encode(bytes)
  {
    DecodeEncode(bytes);
  }

  /** Test vectors of section 10 of RFC 4648, and one with both symbols beyond letters and digits. */
  lemma TestVectors()
    ensures Encode([]) == "" && Encode([102]) == "Zg==" && Encode([102, 111]) == "Zm8=" && Encode([102, 111, 111]) == "Zm9v"
    ensures Encode([251, 239, 190]) == "++++" && Encode([255, 255, 255]) == "////"
  {
    assert Quad(102, 111, 111) == "Zm9v" && Quad(251, 239, 190) == "++++" && Quad(255, 255, 255) == "////";
    assert Quad(102, 0, 0) == "ZgAA" && Quad(102, 111, 0) == "Zm8A";
    assert [102, 111, 111][3..] == [] && [251, 239, 190][3..] == [] && [255, 255, 255][3..] == [];
  }
}
