/** Big-endian integers in byte buffers (driver/src/scsi/scsi_response.cpp). */
module BigEndian {
  import opened Protocol

  function Pow256(n: nat): (p: nat)
    ensures p > 0
  {
    if n == 0 then 1 else 256 * Pow256(n - 1)
  }

  /** The number a big-endian byte string denotes. */
  function Value(bytes: seq<Byte>): (v: nat)
    ensures v < Pow256(|bytes|)
  {
    if bytes == [] then 0
    else
      var front := Value(bytes[..|bytes| - 1]);
      front * 256 + bytes[|bytes| - 1]
  }

  /** The n low-order bytes of a value, most significant first. */
  function Bytes(value: nat, n: nat): (b: seq<Byte>)
    ensures |b| == n
  {
    if n == 0 then [] else Bytes(value / 256, n - 1) + [value % 256]
  }

  lemma {:induction false} ValueOfBytes(value: nat, n: nat)
    requires value < Pow256(n)
    ensures Value(Bytes(value, n)) == value
  {
    if n > 0 {
      ValueOfBytes(value / 256, n - 1);
      var b := Bytes(value, n);
      assert b[..n - 1] == Bytes(value / 256, n - 1);
    }
  }

  lemma {:induction false} BytesOfValue(bytes: seq<Byte>)
    ensures Bytes(Value(bytes), |bytes|) == bytes
  {
    if bytes != [] {
      var n := |bytes| - 1;
      BytesOfValue(bytes[..n]);
      assert bytes == bytes[..n] + [bytes[n]];
    }
  }

  function Join4(b0: int, b1: int, b2: int, b3: int): int {
    b0 * 0x100_0000 + b1 * 0x1_0000 + b2 * 0x100 + b3
  }

  function ReadBigEndian32(value: seq<Byte>): (v: nat)
    requires |value| == 4
    ensures v == Value(value)
  {
    Value4(value);
    Join4(value[0], value[1], value[2], value[3])
  }

  lemma Value4(b: seq<Byte>)
    requires |b| == 4
    ensures Value(b) == Join4(b[0], b[1], b[2], b[3])
  {
    assert b[..3][..2] == b[..2] && b[..2][..1] == b[..1] && b[..1][..0] == [];
    assert Value(b[..1]) == b[0];
    assert Value(b[..2]) == Join4(0, 0, b[0], b[1]);
    assert Value(b[..3]) == Join4(0, b[0], b[1], b[2]);
  }

  /** The loop of ReadBigEndian64, on the eight bytes at `at`. */
  method ReadBigEndian64(a: array<Byte>, at: nat) returns (result: nat)
    requires at + 8 <= a.Length
    ensures result == Value(a[at..at + 8]) < U64_LIMIT
  {
    result := 0;
    for index := 0 to 8
      invariant result == Value(a[at..at + index])
    {
      assert a[at..at + index + 1][..index] == a[at..at + index];
      result := result * 256 + a[at + index];
    }
    assert Pow256(8) == U64_LIMIT by { Powers(); }
  }

  method WriteBigEndian16(a: array<Byte>, at: nat, value: nat)
    requires at + 2 <= a.Length && value < 0x1_0000
    modifies a
    ensures a[..] == old(a[..at]) + Bytes(value, 2) + old(a[at + 2..])
  {
    a[at] := value / 256;
    a[at + 1] := value % 256;
    assert Bytes(value, 2) == Bytes(value / 256, 1) + [value % 256] && Bytes(value / 256, 1) == [] + [value / 256];
  }

  method WriteBigEndian32(a: array<Byte>, at: nat, value: nat)
    requires at + 4 <= a.Length && value < U32_LIMIT
    modifies a
    ensures a[..] == old(a[..at]) + Bytes(value, 4) + old(a[at + 4..])
  {
    a[at] := value / 0x100_0000;
    a[at + 1] := value / 0x1_0000 % 256;
    a[at + 2] := value / 0x100 % 256;
    a[at + 3] := value % 256;
    assert Bytes(value, 4) == a[at..at + 4] by {
      assert value / 256 / 256 == value / 0x1_0000;
      assert value / 256 / 256 / 256 == value / 0x100_0000;
      assert Bytes(value / 0x1_0000, 2) == Bytes(value / 0x100_0000, 1) + [value / 0x1_0000 % 256];
      assert Bytes(value / 0x100_0000, 1) == Bytes(value / 0x100_0000 / 256, 0) + [value / 0x100_0000 % 256];
    }
  }

  /** The loop of WriteBigEndian64, last byte first. */
  method WriteBigEndian64(a: array<Byte>, at: nat, value: nat)
    requires at + 8 <= a.Length
    modifies a
    ensures a[..] == old(a[..at]) + Bytes(value, 8) + old(a[at + 8..])
  {
    var rest := value;
    var index := 8;
    while index > 0
      invariant 0 <= index <= 8
      invariant Bytes(value, 8) == Bytes(rest, index) + a[at + index..at + 8]
      invariant forall k :: 0 <= k < a.Length && !(at + index <= k < at + 8) ==> a[k] == old(a[k])
    {
      index := index - 1;
      a[at + index] := rest % 256;
      rest := rest / 256;
    }
  }

  lemma Powers()
    ensures Pow256(2) == 0x1_0000 && Pow256(4) == U32_LIMIT && Pow256(8) == U64_LIMIT
  {
  }
}
