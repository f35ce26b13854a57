/** Bytes and the big-endian 32-bit integers that Node's Buffer.writeUInt32BE writes. */
module Wire {

  /** One octet of a Node `Buffer`. */
  type byte = x: int | 0 <= x < 256

  const U32_LIMIT: int := 0x1_0000_0000

  /** The four bytes `Buffer.writeUInt32BE(v, pos)` stores, most significant first. */
  function U32BE(v: nat): (r: seq<byte>)
    requires v < U32_LIMIT
    ensures |r| == 4
    ensures r[0] == v / 0x100_0000 && r[3] == v % 0x100
  {
    [v / 0x100_0000, (v / 0x1_0000) % 0x100, (v / 0x100) % 0x100, v % 0x100]
  }

  /** The value `Buffer.readUInt32BE(at)` returns. */
  function ReadU32BE(s: seq<byte>, at: nat): (v: nat)
    requires at + 4 <= |s|
    ensures v < U32_LIMIT
  {
    var b0: int, b1: int, b2: int, b3: int := s[at], s[at + 1], s[at + 2], s[at + 3];
    b0 * 0x100_0000 + b1 * 0x1_0000 + b2 * 0x100 + b3
  }

  /** Reading back what was written gives the value that was written. */
  lemma {:induction false} U32RoundTrip(v: nat)
    requires v < U32_LIMIT
    ensures ReadU32BE(U32BE(v), 0) == v
  {
    var a, b, c, d := v / 0x100_0000, (v / 0x1_0000) % 0x100, (v / 0x100) % 0x100, v % 0x100;
    assert v / 0x1_0000 == a * 0x100 + b;
    assert v / 0x100 == (v / 0x1_0000) * 0x100 + c;
    assert v == (v / 0x100) * 0x100 + d;
  }

  /** `Buffer.writeUInt32BE(v, pos)` on a buffer: four bytes change, nothing else does. */
  method WriteU32BE(buf: array<byte>, v: nat, pos: nat)
    requires v < U32_LIMIT
    requires pos + 4 <= buf.Length
    modifies buf
    ensures buf[..] == old(buf[..pos]) + U32BE(v) + old(buf[pos + 4..])
  {
    var bytes := U32BE(v);
    buf[pos] := bytes[0];
    buf[pos + 1] := bytes[1];
    buf[pos + 2] := bytes[2];
    buf[pos + 3] := bytes[3];
    assert buf[..] == old(buf[..pos]) + bytes + old(buf[pos + 4..]);
  }
}
