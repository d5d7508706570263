/** The little-endian wire structures shared by client and driver: a message is a list of
    unsigned fields of given widths, laid out without padding. */
module Wire {
  import opened Protocol
  import opened BigEndian
  import opened Scsi

  function Little(value: nat, n: nat): (b: seq<Byte>)
    ensures |b| == n
  {
    if n == 0 then [] else [value % 256] + Little(value / 256, n - 1)
  }

  function Number(bytes: seq<Byte>): (v: nat)
    ensures v < Pow256(|bytes|)
  {
    if bytes == [] then 0
    else
      var rest := Number(bytes[1..]);
      bytes[0] + 256 * rest
  }

  lemma {:induction false} NumberOfLittle(value: nat, n: nat)
    requires value < Pow256(n)
    ensures Number(Little(value, n)) == value
  {
    if n > 0 {
      NumberOfLittle(value / 256, n - 1);
      assert Little(value, n)[1..] == Little(value / 256, n - 1);
    }
  }

  lemma Little4(value: nat)
    ensures Little(value, 4) == [value % 256, value / 256 % 256, value / 256 / 256 % 256, value / 256 / 256 / 256 % 256]
  {
    var v1 := value / 256;
    var v2 := v1 / 256;
    var v3 := v2 / 256;
    assert Little(v3, 1) == [v3 % 256] + Little(v3 / 256, 0);
    assert Little(v2, 2) == [v2 % 256] + Little(v3, 1);
    assert Little(v1, 3) == [v1 % 256] + Little(v2, 2);
  }

  /** The bytes of a structure with these field widths. */
  function Size(widths: seq<nat>): nat {
    if widths == [] then 0 else widths[0] + Size(widths[1..])
  }

  predicate Fits(widths: seq<nat>, values: seq<nat>) {
    |values| == |widths| && forall i :: 0 <= i < |values| ==> values[i] < Pow256(widths[i])
  }

  function Pack(widths: seq<nat>, values: seq<nat>): (b: seq<Byte>)
    requires |values| == |widths|
    ensures |b| == Size(widths)
  {
    if widths == [] then [] else Little(values[0], widths[0]) + Pack(widths[1..], values[1..])
  }

  function Unpack(widths: seq<nat>, bytes: seq<Byte>): (values: seq<nat>)
    requires Size(widths) <= |bytes|
    ensures |values| == |widths|
  {
    if widths == [] then []
    else [Number(bytes[..widths[0]])] + Unpack(widths[1..], bytes[widths[0]..])
  }

  /** A structure at the front of a buffer reads back as it was written. */
  lemma {:induction false} UnpackPack(widths: seq<nat>, values: seq<nat>, rest: seq<Byte>)
    requires Fits(widths, values)
    ensures Unpack(widths, Pack(widths, values) + rest) == values
  {
    if widths != [] {
      var first, later := Little(values[0], widths[0]), Pack(widths[1..], values[1..]);
      var bytes := Pack(widths, values) + rest;
      assert bytes == first + (later + rest);
      assert bytes[..widths[0]] == first && bytes[widths[0]..] == later + rest;
      NumberOfLittle(values[0], widths[0]);
      UnpackPack(widths[1..], values[1..], rest);
    }
  }

  function Field(bytes: seq<Byte>, at: nat, n: nat): (v: nat)
    requires at + n <= |bytes|
    ensures v < Pow256(n)
  {
    Number(bytes[at..at + n])
  }

  function SetField(bytes: seq<Byte>, at: nat, n: nat, value: nat): (b: seq<Byte>)
    requires at + n <= |bytes|
    ensures |b| == |bytes|
  {
    Overwrite(bytes, at, Little(value, n))
  }

  lemma FieldAfterSet(bytes: seq<Byte>, at: nat, n: nat, value: nat)
    requires at + n <= |bytes| && value < Pow256(n)
    ensures Field(SetField(bytes, at, n, value), at, n) == value
  {
    NumberOfLittle(value, n);
    assert SetField(bytes, at, n, value)[at..at + n] == Little(value, n);
  }

  /** Writing elsewhere changes nothing here. */
  lemma OverwriteElsewhere(bytes: seq<Byte>, at: nat, data: seq<Byte>, lo: nat, hi: nat)
    requires at + |data| <= |bytes| && lo <= hi <= |bytes| && (hi <= at || at + |data| <= lo)
    ensures Overwrite(bytes, at, data)[lo..hi] == bytes[lo..hi]
  {
  }
}
