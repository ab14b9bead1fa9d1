/** The fixed-width unsigned integers of the C++ code, as ranges of the
    mathematical integers, and the truncation that storing into them performs. */
module Widths {
  type uint16 = x: int | 0 <= x < 0x1_0000
  type uint32 = x: int | 0 <= x < 0x1_0000_0000

  const MAX_UINT16: uint16 := 0xFFFF
  const MAX_UINT32: uint32 := 0xFFFF_FFFF

  function Wrap16(x: int): uint16 {
    x % 0x1_0000
  }

  function Wrap32(x: int): uint32 {
    x % 0x1_0000_0000
  }

  lemma NoWrap32(x: int)
    requires 0 <= x < 0x1_0000_0000
    ensures Wrap32(x) == x
  {}

  lemma Turns16(x: int) returns (k: int)
    ensures x == Wrap16(x) + 0x1_0000 * k
  {
    k := x / 0x1_0000;
  }

  lemma SameWrap16(x: int, y: int, k: int)
    requires x == y + 0x1_0000 * k
    ensures Wrap16(x) == Wrap16(y)
  {}

  lemma Turns32(x: int) returns (k: int)
    ensures x == Wrap32(x) + 0x1_0000_0000 * k
  {
    k := x / 0x1_0000_0000;
  }

  lemma SameWrap32(x: int, y: int, k: int)
    requires x == y + 0x1_0000_0000 * k
    ensures Wrap32(x) == Wrap32(y)
  {}

  lemma WrapDistance16(a: int, x: int, b: int)
    ensures Wrap16(Wrap16(a) + (Wrap16(x) - Wrap16(b))) == Wrap16(a + (x - b))
  {
    var i := Turns16(a);
    var j := Turns16(x);
    var k := Turns16(b);
    SameWrap16(a + (x - b), Wrap16(a) + (Wrap16(x) - Wrap16(b)), i + j - k);
  }

  lemma WrapDistance32(a: int, x: int, b: int)
    ensures Wrap32(Wrap32(a) + (Wrap32(x) - Wrap32(b))) == Wrap32(a + (x - b))
  {
    var i := Turns32(a);
    var j := Turns32(x);
    var k := Turns32(b);
    SameWrap32(a + (x - b), Wrap32(a) + (Wrap32(x) - Wrap32(b)), i + j - k);
  }

  lemma WrapOffset16(a: uint16, x: int, y: int)
    ensures Wrap16(Wrap16(a + (Wrap16(y) - MAX_UINT16)) - Wrap16(a + (Wrap16(x) - MAX_UINT16))) == Wrap16(y - x)
  {
    var i := Turns16(x);
    var j := Turns16(y);
    var k := Turns16(a + (Wrap16(x) - MAX_UINT16));
    var l := Turns16(a + (Wrap16(y) - MAX_UINT16));
    SameWrap16(Wrap16(a + (Wrap16(y) - MAX_UINT16)) - Wrap16(a + (Wrap16(x) - MAX_UINT16)), y - x, i - j + k - l);
  }

  lemma WrapSum32(a: int, b: int)
    ensures Wrap32(Wrap32(a) + b) == Wrap32(a + b)
  {
    var k := Turns32(a);
    SameWrap32(a + b, Wrap32(a) + b, k);
  }
}
