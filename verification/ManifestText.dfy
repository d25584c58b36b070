/** Text and bytes: decimal numerals, ASCII, and splitting at a separator. */
module Encoding {
  import opened Basics

  predicate IsDigit(c: char) { '0' <= c <= '9' }

  function Digit(d: nat): (c: char)
    requires d < 10
    ensures IsDigit(c)
  {
    "0123456789"[d]
  }

  /** String(n) for a non-negative integer. */
  function Decimal(n: nat): (s: string)
    ensures s != "" && forall c :: c in s ==> IsDigit(c)
  {
    if n < 10 then [Digit(n)] else Decimal(n / 10) + [Digit(n % 10)]
  }

  lemma DigitInjective(a: nat, b: nat)
    requires a < 10 && b < 10 && Digit(a) == Digit(b)
    ensures a == b
  {
  }

  /** Different numbers have different numerals. */
  lemma {:induction false} DecimalInjective(a: nat, b: nat)
    requires Decimal(a) == Decimal(b)
    ensures a == b
  {
    var x, y := Decimal(a), Decimal(b);
    if a < 10 || b < 10 {
      assert |x| == 1;
      DigitInjective(a, b);
    } else {
      assert x[..|x| - 1] == Decimal(a / 10) && y[..|y| - 1] == Decimal(b / 10);
      assert x[|x| - 1] == Digit(a % 10) && y[|y| - 1] == Digit(b % 10);
      DigitInjective(a % 10, b % 10);
      DecimalInjective(a / 10, b / 10);
    }
  }

  /** Where a separator occurs in neither head, the heads and the tails agree. */
  lemma SplitUnique(separator: char, x: string, rest: string, y: string, other: string)
    requires separator !in x && separator !in y
    requires x + [separator] + rest == y + [separator] + other
    ensures x == y && rest == other
  {
    var whole := x + [separator] + rest;
    assert whole == y + [separator] + other;
    assert forall i :: 0 <= i < |x| ==> whole[i] == x[i] && x[i] in x;
    assert forall i :: 0 <= i < |y| ==> whole[i] == y[i] && y[i] in y;
    assert whole[|x|] == separator && whole[|y|] == separator;
    assert |x| == |y|;
    assert x == whole[..|x|] && y == whole[..|y|];
    assert rest == whole[|x| + 1..] && other == whole[|y| + 1..];
  }

  predicate IsAscii(s: string) { forall c :: c in s ==> c as int < 128 }

  /** UTF-8 of ASCII text: one byte a character. */
  function Utf8(s: string): (b: Bytes)
    requires IsAscii(s)
    ensures |b| == |s| && forall i :: 0 <= i < |s| ==> b[i] as int == s[i] as int
  {
    seq(|s|, i requires 0 <= i < |s| => assert s[i] in s; (s[i] as int) as Byte)
  }
}

/**
 The canonical text both sides hash to name a list of encrypted chunks: one line a chunk,
 `index:length:hash:nonce`, ordered by index.
 */
module ManifestText {
  import opened Basics
  import opened Encoding

  datatype Descriptor = Descriptor(chunkIndex: nat, cipherLength: nat, cipherHash: string, nonce: string)

  function Line(d: Descriptor): string {
    Decimal(d.chunkIndex) + ":" + Decimal(d.cipherLength) + ":" + d.cipherHash + ":" + d.nonce + "\n"
  }

  function Lines(ds: seq<Descriptor>): string {
    if ds == [] then "" else Line(ds[0]) + Lines(ds[1..])
  }

  /** What is hashed, on an example: index, length, hash and nonce, a line a chunk. */
  lemma LinesRead()
    ensures Lines([Descriptor(0, 66, "ab", "cd"), Descriptor(10, 9, "ef", "gh")]) == "0:66:ab:cd\n10:9:ef:gh\n"
  {
    hide Decimal, Line;
    var a, b := Descriptor(0, 66, "ab", "cd"), Descriptor(10, 9, "ef", "gh");
    FirstLineReads();
    SecondLineReads();
    assert [a, b][1..] == [b] && [b][1..] == [];
    assert Lines([b]) == Line(b) + Lines([]) == Line(b);
  }

  lemma DecimalsRead()
    ensures Decimal(0) == "0" && Decimal(9) == "9" && Decimal(10) == "10" && Decimal(66) == "66"
  {
    assert Decimal(6) == "6" && Decimal(1) == "1";
    assert Decimal(66) == Decimal(6) + "6" && Decimal(10) == Decimal(1) + "0";
  }

  lemma FirstLineReads()
    ensures Line(Descriptor(0, 66, "ab", "cd")) == "0:66:ab:cd\n"
  {
    hide Decimal;
    DecimalsRead();
  }

  lemma SecondLineReads()
    ensures Line(Descriptor(10, 9, "ef", "gh")) == "10:9:ef:gh\n"
  {
    hide Decimal;
    DecimalsRead();
  }

  /** The hash field holds no separator and the nonce no line break: hex and Base64 text. */
  predicate Clean(d: Descriptor) {
    ':' !in d.cipherHash && '\n' !in d.cipherHash && '\n' !in d.nonce
  }

  predicate AllClean(ds: seq<Descriptor>) { forall i :: 0 <= i < |ds| ==> Clean(ds[i]) }

  function Body(d: Descriptor): string {
    Decimal(d.chunkIndex) + ":" + (Decimal(d.cipherLength) + ":" + (d.cipherHash + ":" + d.nonce))
  }

  lemma LineIsBody(d: Descriptor)
    ensures Line(d) == Body(d) + "\n"
    ensures Clean(d) ==> '\n' !in Body(d)
  {
  }

  lemma BodyInjective(a: Descriptor, b: Descriptor)
    requires Clean(a) && Clean(b) && Body(a) == Body(b)
    ensures a == b
  {
    var ra, rb := a.cipherHash + ":" + a.nonce, b.cipherHash + ":" + b.nonce;
    SplitUnique(':', Decimal(a.chunkIndex), Decimal(a.cipherLength) + ":" + ra, Decimal(b.chunkIndex), Decimal(b.cipherLength) + ":" + rb);
    SplitUnique(':', Decimal(a.cipherLength), ra, Decimal(b.cipherLength), rb);
    SplitUnique(':', a.cipherHash, a.nonce, b.cipherHash, b.nonce);
    DecimalInjective(a.chunkIndex, b.chunkIndex);
    DecimalInjective(a.cipherLength, b.cipherLength);
  }

  lemma LinesEmpty(ds: seq<Descriptor>)
    ensures Lines(ds) == "" <==> ds == []
  {
  }

  /** The text determines the list. */
  lemma {:induction false} LinesInjective(a: seq<Descriptor>, b: seq<Descriptor>)
    requires AllClean(a) && AllClean(b) && Lines(a) == Lines(b)
    ensures a == b
  {
    if a == [] || b == [] {
      LinesEmpty(a);
      LinesEmpty(b);
    } else {
      LineIsBody(a[0]);
      LineIsBody(b[0]);
      assert Lines(a) == Body(a[0]) + ['\n'] + Lines(a[1..]);
      assert Lines(b) == Body(b[0]) + ['\n'] + Lines(b[1..]);
      SplitUnique('\n', Body(a[0]), Lines(a[1..]), Body(b[0]), Lines(b[1..]));
      BodyInjective(a[0], b[0]);
      LinesInjective(a[1..], b[1..]);
      assert a == [a[0]] + a[1..] && b == [b[0]] + b[1..];
    }
  }

  function Prefix(d: Descriptor): string {
    Decimal(d.chunkIndex) + ":" + Decimal(d.cipherLength) + ":" + d.cipherHash + ":"
  }

  ghost predicate SameTextDifferentLists(a: seq<Descriptor>, b: seq<Descriptor>) {
    && |a| == |b| && a != b && Lines(a) == Lines(b)
    && (forall i :: 0 <= i < |a| ==> a[i].chunkIndex == i && b[i].chunkIndex == i)
  }

  /**
   A nonce that carried a line break could forge a second line: the condition on nonces is
   what makes the text unambiguous.
   */
  lemma LineBreakInNonceIsAmbiguous()
    ensures exists a, b :: SameTextDifferentLists(a, b)
  {
    var p0, p1 := Prefix(Descriptor(0, 1, "h", "")), Prefix(Descriptor(1, 1, "h", ""));
    var a := [Descriptor(0, 1, "h", Forged("x", p1, "y")), Descriptor(1, 1, "h", "z")];
    var b := [Descriptor(0, 1, "h", "x"), Descriptor(1, 1, "h", Forged("y", p1, "z"))];
    TwoLines(a, p0, p1);
    TwoLines(b, p0, p1);
    ForgedLine(p0, p1, "x", "y", "z");
    assert |a[0].nonce| > |b[0].nonce|;
    assert SameTextDifferentLists(a, b);
  }

  function Forged(nonce: string, prefix: string, next: string): string { nonce + "\n" + prefix + next }

  lemma ForgedLine(p0: string, p1: string, x: string, y: string, z: string)
    ensures p0 + Forged(x, p1, y) + "\n" + (p1 + z + "\n") == p0 + x + "\n" + (p1 + Forged(y, p1, z) + "\n")
  {
  }

  lemma TwoLines(ds: seq<Descriptor>, p0: string, p1: string)
    requires |ds| == 2 && Prefix(ds[0]) == p0 && Prefix(ds[1]) == p1
    ensures Lines(ds) == p0 + ds[0].nonce + "\n" + (p1 + ds[1].nonce + "\n")
  {
    assert Lines(ds[1..]) == Line(ds[1]) + Lines(ds[1..][1..]);
  }
}
