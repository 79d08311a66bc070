/** Big-endian numbers on the wire (the stream_put* and stream_get* functions of lib/stream.c). */
module Octets {
  type Octet = n: nat | n < 256

  function PutW(x: nat): (b: seq<Octet>)
    ensures |b| == 2
  {
    [x / 256 % 256, x % 256]
  }

  function PutL(x: nat): (b: seq<Octet>)
    ensures |b| == 4
  {
    PutW(x / 65536) + PutW(x)
  }

  function GetW(b: seq<Octet>): (x: nat)
    requires |b| >= 2
    ensures x < 65536
  {
    var high: nat, low: nat := b[0], b[1];
    high * 256 + low
  }

  function GetL(b: seq<Octet>): (x: nat)
    requires |b| >= 4
    ensures x < 0x1_0000_0000
  {
    GetW(b) * 65536 + GetW(b[2..])
  }

  lemma WordSplit(x: nat)
    ensures x / 256 % 256 * 256 + x % 256 == x % 65536
  {
    var q := x / 65536;
    var r := x % 65536;
    assert x == q * 65536 + r;
    assert x / 256 == q * 256 + r / 256;
    assert x / 256 % 256 == r / 256;
  }

  lemma GetPutW(x: nat, rest: seq<Octet>)
    ensures GetW(PutW(x) + rest) == x % 65536
  {
    assert (PutW(x) + rest)[0] == x / 256 % 256 && (PutW(x) + rest)[1] == x % 256;
    WordSplit(x);
  }

  lemma GetPutL(x: nat, rest: seq<Octet>)
    requires x < 0x1_0000_0000
    ensures GetL(PutL(x) + rest) == x
  {
    var b := PutL(x) + rest;
    assert b == PutW(x / 65536) + (PutW(x) + rest);
    assert b[2..] == PutW(x) + rest;
    GetPutW(x / 65536, PutW(x) + rest);
    GetPutW(x, rest);
  }

  lemma PutGetW(b: seq<Octet>)
    requires |b| == 2
    ensures PutW(GetW(b)) == b
  {
    var high: nat, low: nat := b[0], b[1];
    assert (high * 256 + low) / 256 == high;
  }

  lemma LowWord(high: nat, low: nat)
    requires low < 65536
    ensures PutW(high * 65536 + low) == PutW(low)
  {
    var x := high * 65536 + low;
    assert x == (high * 256) * 256 + low;
    assert x / 256 == high * 256 + low / 256;
  }

  lemma PutGetL(b: seq<Octet>)
    requires |b| == 4
    ensures PutL(GetL(b)) == b
  {
    var high, low := GetW(b), GetW(b[2..]);
    assert (high * 65536 + low) / 65536 == high;
    assert PutW(high) == b[..2] by { PutGetW(b[..2]); }
    assert PutW(low) == b[2..] by { PutGetW(b[2..]); }
    LowWord(high, low);
    assert b == b[..2] + b[2..];
  }

  /** The most significant octet comes first. */
  lemma BigEndian(a: Octet, b: Octet, c: Octet, d: Octet)
    ensures PutW(a * 256 + b) == [a, b] && GetW([a, b]) == a * 256 + b
    ensures var x := a * 0x100_0000 + b * 0x1_0000 + c * 0x100 + d; PutL(x) == [a, b, c, d] && GetL([a, b, c, d]) == x
  {
    var l := [a, b, c, d];
    assert l[2..] == [c, d];
    var h: nat, m: nat := a, b;
    assert GetW(l) == h * 256 + m;
    assert GetL(l) == GetW(l) * 65536 + GetW(l[2..]);
    PutGetL(l);
    PutGetW([a, b]);
  }
}
