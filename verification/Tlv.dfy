/** Type-Length-Value encoding, after the section of that name in the NDN Packet Format
    Specification: numbers, blocks and names. */
module Tlv {
  import opened Bytes
  import opened Names
  import opened Optional

  // ------------------------------------------------------------------ big-endian integers

  /** 256 to the power of `width`. */
  function Range(width: nat): nat { if width == 0 then 1 else 256 * Range(width - 1) }

  lemma Ranges()
    ensures Range(1) == 0x100 && Range(2) == 0x1_0000 && Range(4) == 0x1_0000_0000
    ensures Range(8) == 0x1_0000_0000_0000_0000
  {
    assert Range(1) == 256 * Range(0);
    assert Range(2) == 256 * Range(1);
    assert Range(3) == 256 * Range(2);
    assert Range(4) == 256 * Range(3);
    assert Range(5) == 256 * Range(4);
    assert Range(6) == 256 * Range(5);
    assert Range(7) == 256 * Range(6);
    assert Range(8) == 256 * Range(7);
  }

  function BigEndian(n: nat, width: nat): (s: Octets)
    requires n < Range(width)
    ensures |s| == width
  {
    if width == 0 then [] else BigEndian(n / 256, width - 1) + [n % 256]
  }

  function ReadBigEndian(s: Octets): nat {
    if s == [] then 0 else 256 * ReadBigEndian(s[..|s| - 1]) + s[|s| - 1]
  }

  lemma {:induction false} BigEndianRoundTrip(n: nat, width: nat)
    requires n < Range(width)
    ensures ReadBigEndian(BigEndian(n, width)) == n
    decreases width
  {
    if width > 0 {
      BigEndianRoundTrip(n / 256, width - 1);
      var s := BigEndian(n, width);
      assert s[..|s| - 1] == BigEndian(n / 256, width - 1);
    }
  }

  // ------------------------------------------------------------------ variable-size numbers

  const MAX_NUMBER := 0x1_0000_0000_0000_0000

  type Number = n: nat | n < MAX_NUMBER

  /** Numbers are 64 bits wide. */
  function VarNumber(n: nat): (s: Octets)
    ensures s != []
  {
    Ranges();
    if n < 253 then [n]
    else if n < 0x1_0000 then [253] + BigEndian(n, 2)
    else if n < 0x1_0000_0000 then [254] + BigEndian(n, 4)
    else [255] + BigEndian(n % MAX_NUMBER, 8)
  }

  /** A number and what follows it. */
  function ReadVarNumber(s: Octets): Option<(nat, Octets)> {
    if s == [] then None
    else if s[0] < 253 then Some((s[0], s[1..]))
    else
      var width := if s[0] == 253 then 2 else if s[0] == 254 then 4 else 8;
      if |s| < 1 + width then None else Some((ReadBigEndian(s[1..1 + width]), s[1 + width..]))
  }

  lemma VarNumberRoundTrip(n: Number, rest: Octets)
    ensures ReadVarNumber(VarNumber(n) + rest) == Some((n, rest))
  {
    Ranges();
    if n >= 253 {
      var width := if n < 0x1_0000 then 2 else if n < 0x1_0000_0000 then 4 else 8;
      BigEndianRoundTrip(n, width);
      var s := VarNumber(n) + rest;
      assert s[1..1 + width] == BigEndian(n, width) && s[1 + width..] == rest;
    } else {
      assert (VarNumber(n) + rest)[1..] == rest;
    }
  }

  // ------------------------------------------------------------------ non-negative integers

  function NonNegativeInteger(n: Number): Octets {
    Ranges();
    if n < 0x100 then BigEndian(n, 1)
    else if n < 0x1_0000 then BigEndian(n, 2)
    else if n < 0x1_0000_0000 then BigEndian(n, 4)
    else BigEndian(n, 8)
  }

  function ReadNonNegativeInteger(s: Octets): Option<nat> {
    if |s| in {1, 2, 4, 8} then Some(ReadBigEndian(s)) else None
  }

  lemma NonNegativeIntegerRoundTrip(n: Number)
    ensures ReadNonNegativeInteger(NonNegativeInteger(n)) == Some(n)
  {
    Ranges();
    BigEndianRoundTrip(n, if n < 0x100 then 1 else if n < 0x1_0000 then 2 else if n < 0x1_0000_0000 then 4 else 8);
  }

  // ------------------------------------------------------------------ the shortest form

  /** The most significant octet comes first: it weighs a power of 256 for each octet after it. */
  lemma {:induction false} LeadingOctet(h: byte, rest: Octets)
    ensures ReadBigEndian([h] + rest) == h * Range(|rest|) + ReadBigEndian(rest)
    decreases |rest|
  {
    var s := [h] + rest;
    if rest == [] {
      assert s[..0] == [];
      assert ReadBigEndian(s) == 256 * ReadBigEndian(s[..0]) + h;
    } else {
      var front := rest[..|rest| - 1];
      LeadingOctet(h, front);
      assert s[..|s| - 1] == [h] + front;
      assert s[|s| - 1] == rest[|rest| - 1];
      OneMoreOctet(h, Range(|front|));
    }
  }

  lemma OneMoreOctet(h: nat, m: nat)
    ensures 256 * (h * m) == h * (256 * m)
  {
  }

  lemma {:induction false} BigEndianBound(s: Octets)
    ensures ReadBigEndian(s) < Range(|s|)
    decreases |s|
  {
    if s != [] {
      BigEndianBound(s[..|s| - 1]);
    }
  }

  /** No octets that read as the number are fewer. */
  lemma VarNumberIsShortest(n: Number, s: Octets)
    requires ReadVarNumber(s) == Some((n, []))
    ensures |VarNumber(n)| <= |s|
  {
    Ranges();
    if s[0] >= 253 {
      var width := if s[0] == 253 then 2 else if s[0] == 254 then 4 else 8;
      BigEndianBound(s[1..1 + width]);
    }
  }

  lemma NonNegativeIntegerIsShortest(n: Number, s: Octets)
    requires ReadNonNegativeInteger(s) == Some(n)
    ensures |NonNegativeInteger(n)| <= |s|
  {
    Ranges();
    BigEndianBound(s);
  }

  /** Numbers of at most 252 take one octet; of larger ones the first octet says how many follow. */
  lemma VarNumberForm(n: Number)
    ensures var s := VarNumber(n);
            if n <= 252 then s == [n]
            else if n <= 65535 then |s| == 3 && s[0] == 253 && s[1] == n / 256 && s[2] == n % 256
            else if n <= 4294967295 then |s| == 5 && s[0] == 254
            else |s| == 9 && s[0] == 255
  {
    Ranges();
    if 253 <= n <= 65535 {
      assert BigEndian(n / 256, 1) == [n / 256];
    }
  }

  // ------------------------------------------------------------------ blocks

  datatype Block = Block(ty: nat, value: Octets)
  {
    predicate Encodable() { ty < MAX_NUMBER && |value| < MAX_NUMBER }
  }

  function Wire(b: Block): (s: Octets)
    ensures |s| > |b.value|
  {
    VarNumber(b.ty) + VarNumber(|b.value|) + b.value
  }

  /** A block and what follows it. */
  function ReadBlock(s: Octets): (r: Option<(Block, Octets)>)
    ensures r.Some? ==> |r.value.1| < |s|
  {
    match ReadVarNumber(s)
    case None => None
    case Some((ty, s1)) =>
      match ReadVarNumber(s1)
      case None => None
      case Some((length, s2)) =>
        if |s2| < length then None else Some((Block(ty, s2[..length]), s2[length..]))
  }

  lemma ReadBlockRoundTrip(b: Block, rest: Octets)
    requires b.Encodable()
    ensures ReadBlock(Wire(b) + rest) == Some((b, rest))
  {
    var tail := VarNumber(|b.value|) + b.value + rest;
    VarNumberRoundTrip(b.ty, tail);
    VarNumberRoundTrip(|b.value|, b.value + rest);
    assert Wire(b) + rest == VarNumber(b.ty) + tail;
    assert tail == VarNumber(|b.value|) + (b.value + rest);
  }

  ghost predicate AllEncodable(blocks: seq<Block>) { forall i :: 0 <= i < |blocks| ==> blocks[i].Encodable() }

  function Wires(blocks: seq<Block>): Octets {
    if blocks == [] then [] else Wire(blocks[0]) + Wires(blocks[1..])
  }

  /** The elements that a value consists of. */
  function Parse(s: Octets): Option<seq<Block>>
    decreases |s|
  {
    if s == [] then Some([])
    else
      match ReadBlock(s)
      case None => None
      case Some((b, rest)) =>
        match Parse(rest)
        case None => None
        case Some(more) => Some([b] + more)
  }

  lemma {:induction false} ParseRoundTrip(blocks: seq<Block>)
    requires AllEncodable(blocks)
    ensures Parse(Wires(blocks)) == Some(blocks)
    decreases |blocks|
  {
    hide ReadBlock, Wire;
    if blocks != [] {
      ReadBlockRoundTrip(blocks[0], Wires(blocks[1..]));
      ParseRoundTrip(blocks[1..]);
      assert [blocks[0]] + blocks[1..] == blocks;
    }
  }

  lemma {:induction false} WiresAppend(a: seq<Block>, b: seq<Block>)
    ensures Wires(a + b) == Wires(a) + Wires(b)
    decreases |a|
  {
    hide Wire;
    if a == [] {
      assert a + b == b;
    } else {
      WiresAppend(a[1..], b);
      assert (a + b)[0] == a[0] && (a + b)[1..] == a[1..] + b;
      assert Wire(a[0]) + (Wires(a[1..]) + Wires(b)) == Wire(a[0]) + Wires(a[1..]) + Wires(b);
    }
  }

  /** Exactly one block. */
  function OnlyBlock(s: Octets): Option<Block> {
    match ReadBlock(s)
    case Some((b, rest)) => if rest == [] then Some(b) else None
    case None => None
  }

  lemma OnlyBlockRoundTrip(b: Block)
    requires b.Encodable()
    ensures OnlyBlock(Wire(b)) == Some(b)
  {
    ReadBlockRoundTrip(b, []);
    assert Wire(b) + [] == Wire(b);
  }

  // ------------------------------------------------------------------ blocks of blocks

  /** A block whose value is made up of elements. */
  function Nested(ty: nat, elements: seq<Block>): Block { Block(ty, Wires(elements)) }

  /** The elements of a block of the given type. */
  function Elements(b: Block, ty: nat): Option<seq<Block>> { if b.ty == ty then Parse(b.value) else None }

  /** Elements of an encodable block are encodable. */
  lemma {:induction false} ElementsAreEncodable(elements: seq<Block>)
    requires |Wires(elements)| < MAX_NUMBER && forall i :: 0 <= i < |elements| ==> elements[i].ty < MAX_NUMBER
    ensures AllEncodable(elements)
    decreases |elements|
  {
    if elements != [] {
      ElementsAreEncodable(elements[1..]);
      assert forall i :: 0 < i < |elements| ==> elements[i] == elements[1..][i - 1];
    }
  }

  lemma NestedRoundTrip(ty: nat, elements: seq<Block>)
    requires Nested(ty, elements).Encodable() && forall i :: 0 <= i < |elements| ==> elements[i].ty < MAX_NUMBER
    ensures Elements(Nested(ty, elements), ty) == Some(elements) && AllEncodable(elements)
  {
    ElementsAreEncodable(elements);
    ParseRoundTrip(elements);
  }

  // ------------------------------------------------------------------ names

  const NAME := 7
  const NAME_COMPONENT := 8

  function ComponentBlocks(n: Name): (r: seq<Block>)
    ensures |r| == |n| && forall i :: 0 <= i < |r| ==> r[i] == Block(NAME_COMPONENT, n[i])
  {
    seq(|n|, i requires 0 <= i < |n| => Block(NAME_COMPONENT, n[i]))
  }

  function EncodeName(n: Name): Block { Nested(NAME, ComponentBlocks(n)) }

  function ComponentsOf(e: seq<Block>): (n: Name)
    ensures |n| == |e| && forall i :: 0 <= i < |e| ==> n[i] == e[i].value
  {
    seq(|e|, i requires 0 <= i < |e| => e[i].value)
  }

  function DecodeName(b: Block): Option<Name> {
    match Elements(b, NAME)
    case None => None
    case Some(e) =>
      if forall i :: 0 <= i < |e| ==> e[i].ty == NAME_COMPONENT then Some(ComponentsOf(e)) else None
  }

  lemma NameRoundTrip(n: Name)
    requires EncodeName(n).Encodable()
    ensures DecodeName(EncodeName(n)) == Some(n)
  {
    NestedRoundTrip(NAME, ComponentBlocks(n));
    assert ComponentsOf(ComponentBlocks(n)) == n;
  }
}
