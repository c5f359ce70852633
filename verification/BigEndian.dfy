/** Fixed-width big-endian integers, as the struct layouts of cursors and invitation codes pack them. */
module BigEndian {
  import opened Base64Url

  function Power(n: nat): (p: nat)
    ensures p > 0
  {
    if n == 0 then 1 else 256 * Power(n - 1)
  }

  function Pack(x: nat, n: nat): seq<Octet>
    requires x < Power(n)
  {
    if n == 0 then [] else Pack(x / 256, n - 1) + [x % 256]
  }

  function Unpack(b: seq<Octet>): nat {
    if b == [] then 0 else 256 * Unpack(b[..|b| - 1]) + b[|b| - 1]
  }

  lemma {:induction false} PackedLength(x: nat, n: nat)
    requires x < Power(n)
    ensures |Pack(x, n)| == n
  {
    if n > 0 { PackedLength(x / 256, n - 1); }
  }

  lemma {:induction false} UnpackPacked(x: nat, n: nat)
    requires x < Power(n)
    ensures Unpack(Pack(x, n)) == x
  {
    if n > 0 {
      var init := Pack(x / 256, n - 1);
      UnpackPacked(x / 256, n - 1);
      assert Pack(x, n)[..|init|] == init;
    }
  }

  lemma {:induction false} PackUnpacked(b: seq<Octet>)
    ensures Unpack(b) < Power(|b|) && Pack(Unpack(b), |b|) == b
  {
    if b != [] {
      var init, last := b[..|b| - 1], b[|b| - 1];
      PackUnpacked(init);
      assert (256 * Unpack(init) + last) / 256 == Unpack(init) && (256 * Unpack(init) + last) % 256 == last;
      assert b == init + [last];
    }
  }

  const TWO_32: nat := 4_294_967_296
  const TWO_63: int := 9_223_372_036_854_775_808
  const TWO_64: nat := 18_446_744_073_709_551_616

  lemma Widths()
    ensures Power(1) == 256 && Power(4) == TWO_32 && Power(8) == TWO_64
  {
    assert Power(2) == 65_536;
    assert Power(3) == 16_777_216;
    assert Power(5) == 256 * TWO_32;
    assert Power(6) == 65_536 * TWO_32;
    assert Power(7) == 16_777_216 * TWO_32;
  }

  /** Two's complement in eight octets. */
  function PackSigned(x: int): seq<Octet>
    requires -TWO_63 <= x < TWO_63
  {
    Widths();
    Pack(if x < 0 then x + TWO_64 else x, 8)
  }

  function UnpackSigned(b: seq<Octet>): int
    requires |b| == 8
  {
    var x := Unpack(b);
    if x >= TWO_63 then x - TWO_64 else x
  }

  /** Eight octets and the signed integers of 64 bits correspond one to one. */
  lemma SignedIsInverse(x: int, b: seq<Octet>)
    requires |b| == 8
    ensures -TWO_63 <= UnpackSigned(b) < TWO_63 && PackSigned(UnpackSigned(b)) == b
    ensures -TWO_63 <= x < TWO_63 ==> |PackSigned(x)| == 8 && UnpackSigned(PackSigned(x)) == x
  {
    Widths();
    PackUnpacked(b);
    if -TWO_63 <= x < TWO_63 {
      var y := if x < 0 then x + TWO_64 else x;
      PackedLength(y, 8);
      UnpackPacked(y, 8);
    }
  }
}
