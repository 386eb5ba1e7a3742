/**
 Configuring an EDID image: a template is copied, its HDMI port number patched, and the
 checksum of every 128-byte block renewed.
 */
module HdmiEdid {
  import opened Basics

  const HDMIEDID_SIZE := 256
  const PORT_PREFIX: seq<byte> := [0x03, 0x0c, 0x00]
  const PORT_NUMBER: seq<byte> := [0x10, 0x20, 0x30, 0x40]

  /** The first digit of the physical address: port 1 for the first. */
  lemma PortNumbers(port: nat)
    requires port < 4
    ensures PORT_NUMBER[port] == (port + 1) * 0x10
  {
  }

  function Sum(data: seq<byte>, lo: int, hi: int): nat
    requires 0 <= lo <= hi <= |data|
    decreases hi
  {
    if lo == hi then 0 else Sum(data, lo, hi - 1) + data[hi - 1]
  }

  /** The byte that brings a sum to 0 modulo 256, as the two's complement of 32 bits. */
  function Checksum(sum: nat): (r: byte)
    requires sum < 0x1_0000_0000
    ensures (sum + r) % 256 == 0
  {
    ((0xFFFF_FFFF - sum) + 1) % 0x1_0000_0000 % 256
  }

  predicate PrefixAt(data: seq<byte>, i: int) {
    0 <= i && i + 3 <= |data| && data[i..i + 3] == PORT_PREFIX
  }

  /** The first place of the prefix among those searched. */
  function FirstPrefix(data: seq<byte>, i: nat): (r: Option<nat>)
    requires |data| >= 4 && i <= |data| - 4
    ensures r.Some? ==> i <= r.value < |data| - 4 && PrefixAt(data, r.value)
    ensures forall k :: i <= k < (if r.Some? then r.value else |data| - 4) ==> !PrefixAt(data, k)
    decreases |data| - i
  {
    if i == |data| - 4 then None
    else if PrefixAt(data, i) then Some(i)
    else FirstPrefix(data, i + 1)
  }

  /** The template with its port number replaced. */
  function Patched(template: seq<byte>, modifyPort: bool, port: nat): seq<byte>
    requires |template| >= 4 && port < 4
  {
    if modifyPort && FirstPrefix(template, 0).Some? then template[FirstPrefix(template, 0).value + 3 :=
        PORT_NUMBER[port]]
    else template
  }

  lemma {:induction false} SumBound(data: seq<byte>, lo: int, hi: int)
    requires 0 <= lo <= hi <= |data|
    ensures Sum(data, lo, hi) <= 255 * (hi - lo)
    decreases hi
  {
    if lo < hi {
      SumBound(data, lo, hi - 1);
    }
  }

  lemma {:induction false} SumSame(x: seq<byte>, y: seq<byte>, lo: int, hi: int)
    requires 0 <= lo <= hi <= |x| && hi <= |y|
    requires forall i :: lo <= i < hi ==> x[i] == y[i]
    ensures Sum(x, lo, hi) == Sum(y, lo, hi)
    decreases hi
  {
    if lo < hi {
      SumSame(x, y, lo, hi - 1);
    }
  }

  /** A kind of EDID: its template and whether its port number is to be patched. */
  datatype Kind = Kind(template: seq<byte>, modifyPort: bool)

  class Edid {
    const edidData: array<byte>
    var edidSize: nat

    constructor ()
      ensures fresh(edidData) && edidData.Length == HDMIEDID_SIZE && edidSize == 0
    {
      edidData := new byte[HDMIEDID_SIZE](_ => 0);
      edidSize := 0;
    }

    /** ntv2_hdmiedid_configure, for a template of whole blocks: every block sums to 0 modulo
        256, and the image is the template but for the last byte of each block and, when the
        port is patched, the byte after the first prefix. */
    method Configure(kind: Option<Kind>, port: int) returns (ok: bool)
      requires edidData.Length == HDMIEDID_SIZE
      requires kind.Some? ==> |kind.value.template| >= 128 && |kind.value.template| % 128 == 0
      modifies this, edidData
      ensures ok <==> kind.Some? && |kind.value.template| <= HDMIEDID_SIZE && 0 <= port < 4
      ensures !ok ==> edidData[..] == old(edidData[..]) && edidSize == old(edidSize)
      ensures ok ==> edidSize == |kind.value.template|
      ensures ok ==> forall i {:trigger edidData[i]} :: 0 <= i < edidSize && i % 128 != 127 ==>
        edidData[i] == Patched(kind.value.template, kind.value.modifyPort, port)[i]
      ensures ok ==> forall b :: 0 <= b < edidSize / 128 ==> Sum(edidData[..], 128 * b, 128 * b + 128) % 256 == 0
      ensures forall i :: (if ok then edidSize else 0) <= i < HDMIEDID_SIZE ==> edidData[i] == old(edidData[i])
    {
      if kind.None? {
        return false;
      }
      var template := kind.value.template;
      if |template| > HDMIEDID_SIZE {
        return false;
      }
      if port < 0 || port >= 4 {
        return false;
      }
      CopyTemplate(template);
      edidSize := |template|;
      if kind.value.modifyPort {
        ModifyPort(template, port);
      }
      assert edidData[..|template|] == Patched(template, kind.value.modifyPort, port);
      ComputeChecksums();
      ok := true;
    }

    method CopyTemplate(template: seq<byte>)
      requires edidData.Length == HDMIEDID_SIZE && |template| <= HDMIEDID_SIZE
      modifies edidData
      ensures edidData[..] == template + old(edidData[|template|..])
    {
      forall i | 0 <= i < |template| {
        edidData[i] := template[i];
      }
    }

    /** Locate and modify the port number. */
    method ModifyPort(template: seq<byte>, port: nat)
      requires edidData.Length == HDMIEDID_SIZE && 4 <= |template| <= HDMIEDID_SIZE && port < 4
      requires edidData[..|template|] == template
      modifies edidData
      ensures edidData[..] == Patched(template, true, port) + old(edidData[|template|..])
    {
      ghost var was := edidData[..];
      ghost var goal := FirstPrefix(template, 0);
      var last := |template| - 3 - 1;
      var i := 0;
      while i < last
        invariant 0 <= i <= last && edidData[..] == was
        invariant FirstPrefix(template, i) == goal
      {
        var j := 0;
        while j < 3
          invariant 0 <= j <= 3
          invariant forall k :: 0 <= k < j ==> edidData[i + k] == PORT_PREFIX[k]
        {
          if PORT_PREFIX[j] != edidData[i + j] {
            break;
          }
          j := j + 1;
        }
        assert template[i..i + 3] == [template[i], template[i + 1], template[i + 2]];
        assert edidData[i] == template[i] && edidData[i + 1] == template[i + 1] && edidData[i + 2] == template[i + 2];
        if j == 3 {
          assert PrefixAt(template, i);
          edidData[i + 3] := PORT_NUMBER[port];
          return;
        }
        assert !PrefixAt(template, i);
        i := i + 1;
      }
    }

    method ComputeChecksums()
      requires edidData.Length == HDMIEDID_SIZE && edidSize <= HDMIEDID_SIZE && edidSize % 128 == 0
      modifies edidData
      ensures forall i {:trigger edidData[i]} :: 0 <= i < HDMIEDID_SIZE && (i % 128 != 127 || i >= edidSize) ==>
        edidData[i] == old(edidData[i])
      ensures forall b :: 0 <= b < edidSize / 128 ==> Sum(edidData[..], 128 * b, 128 * b + 128) % 256 == 0
    {
      var count := edidSize / 128;
      var i := 0;
      while i < count
        invariant 0 <= i <= count
        invariant forall k {:trigger edidData[k]} :: 0 <= k < HDMIEDID_SIZE && (k % 128 != 127 || k >= 128 * i) ==>
          edidData[k] == old(edidData[k])
        invariant forall b :: 0 <= b < i ==> Sum(edidData[..], 128 * b, 128 * b + 128) % 256 == 0
      {
        ghost var was := edidData[..];
        RenewChecksum(i);
        forall b | 0 <= b < i ensures Sum(edidData[..], 128 * b, 128 * b + 128) % 256 == 0 {
          SumSame(was, edidData[..], 128 * b, 128 * b + 128);
        }
        i := i + 1;
      }
    }

    method RenewChecksum(i: nat)
      requires 128 * i + 128 <= edidData.Length == HDMIEDID_SIZE
      modifies edidData
      ensures forall k {:trigger edidData[k]} :: 0 <= k < HDMIEDID_SIZE && k != 128 * i + 127 ==>
        edidData[k] == old(edidData[k])
      ensures Sum(edidData[..], 128 * i, 128 * i + 128) % 256 == 0
    {
      ghost var was := edidData[..];
      var start := i * 128;
      var sum := SumBlock(start);
      var end := start + 127;
      edidData[end] := Checksum(sum);
      SumSame(was, edidData[..], start, end);
    }

    /** The sum of the first 127 bytes of a block. */
    method SumBlock(start: nat) returns (sum: nat)
      requires start + 127 <= edidData.Length
      ensures sum == Sum(edidData[..], start, start + 127) <= 255 * 127
    {
      sum := 0;
      var j := start;
      while j < start + 127
        invariant start <= j <= start + 127
        invariant sum == Sum(edidData[..], start, j)
      {
        sum := sum + edidData[j];
        j := j + 1;
      }
      SumBound(edidData[..], start, start + 127);
    }
  }

  /** The choice of port shows in the image exactly when the patched byte does not end a
      block, where the checksum goes. */
  lemma PortMattersIff(template: seq<byte>, p: nat, q: nat)
    requires |template| >= 4 && p < 4 && q < 4 && FirstPrefix(template, 0).Some?
    ensures (forall i :: 0 <= i < |template| && i % 128 != 127 ==>
        Patched(template, true, p)[i] == Patched(template, true, q)[i])
      <==> (p == q || (FirstPrefix(template, 0).value + 3) % 128 == 127)
  {
    var at := FirstPrefix(template, 0).value + 3;
    assert Patched(template, true, p)[at] == PORT_NUMBER[p] && Patched(template, true, q)[at] == PORT_NUMBER[q];
  }
}
