/**
 The two templates whose port number is patched, and where the patch falls.
 */
module EdidTemplates {
  import opened Basics
  import opened HdmiEdid

  /** A template, sixteen bytes a row. */
  function Flat(rows: seq<seq<byte>>): seq<byte> {
    if rows == [] then [] else rows[0] + Flat(rows[1..])
  }

  predicate Sixteens(rows: seq<seq<byte>>) {
    forall i :: 0 <= i < |rows| ==> |rows[i]| == 16
  }

  lemma {:induction false} FlatAt(rows: seq<seq<byte>>, k: nat)
    requires Sixteens(rows)
    ensures |Flat(rows)| == 16 * |rows|
    ensures k < 16 * |rows| ==> Flat(rows)[k] == rows[k / 16][k % 16]
    decreases |rows|
  {
    if rows != [] {
      FlatAt(rows[1..], if k >= 16 then k - 16 else 0);
      if k >= 16 {
        assert (k - 16) / 16 == k / 16 - 1 && (k - 16) % 16 == k % 16;
      }
    }
  }

  const KONAHDMI_20: seq<seq<byte>> := [
    [0x00, 0xFF, 0xFF, 0xFF, 0xFF, 0xFF, 0xFF, 0x00, 0x05, 0x41, 0x2E, 0x00, 0x01, 0x01, 0x01, 0x01],
    [0x0F, 0x1C, 0x01, 0x03, 0x80, 0xA0, 0x5A, 0x78, 0x0A, 0xEE, 0x91, 0xA3, 0x54, 0x4C, 0x99, 0x26],
    [0x0F, 0x50, 0x54, 0x00, 0x00, 0x00, 0x01, 0x01, 0x01, 0x01, 0x01, 0x01, 0x01, 0x01, 0x01, 0x01],
    [0x01, 0x01, 0x01, 0x01, 0x01, 0x01, 0x08, 0xE8, 0x00, 0x30, 0xF2, 0x70, 0x5A, 0x80, 0xB0, 0x58],
    [0x8A, 0x00, 0x20, 0xC2, 0x31, 0x00, 0x00, 0x1E, 0x02, 0x3A, 0x80, 0x18, 0x71, 0x38, 0x2D, 0x40],
    [0x58, 0x2C, 0x45, 0x00, 0x20, 0xC2, 0x31, 0x00, 0x00, 0x1E, 0x00, 0x00, 0x00, 0xFD, 0x00, 0x17],
    [0x3D, 0x0F, 0x88, 0x3C, 0x00, 0x0A, 0x20, 0x20, 0x20, 0x20, 0x20, 0x20, 0x00, 0x00, 0x00, 0xFC],
    [0x00, 0x4B, 0x6F, 0x6E, 0x61, 0x20, 0x48, 0x44, 0x4D, 0x49, 0x0A, 0x20, 0x20, 0x20, 0x01, 0xFC],
    [0x02, 0x03, 0x5D, 0x51, 0x57, 0x61, 0x60, 0x5F, 0x5E, 0x5D, 0x66, 0x65, 0x64, 0x63, 0x62, 0x10],
    [0x1F, 0x22, 0x21, 0x20, 0x05, 0x14, 0x04, 0x13, 0x06, 0x15, 0x07, 0x16, 0x23, 0x0F, 0x07, 0x07],
    [0x83, 0x4F, 0x00, 0x00, 0x70, 0x03, 0x0C, 0x00, 0x10, 0x00, 0x30, 0x3C, 0x20, 0xA0, 0x82, 0x01],
    [0x02, 0x03, 0x04, 0x01, 0x41, 0x67, 0xD8, 0x5D, 0xC4, 0x01, 0x78, 0x80, 0x03, 0xE2, 0x00, 0x73],
    [0xE3, 0x05, 0xE0, 0x00, 0xE5, 0x0F, 0x63, 0x00, 0x00, 0x00, 0xE3, 0x06, 0x3F, 0x01, 0xEE, 0x01],
    [0x46, 0xD0, 0x00, 0x24, 0x0F, 0x8B, 0x00, 0xA8, 0x53, 0x4B, 0x9D, 0x27, 0x0B, 0x01, 0x1D, 0x00],
    [0xBE, 0x82, 0x38, 0x2D, 0x40, 0x7E, 0x2C, 0x45, 0x80, 0x20, 0xC2, 0x31, 0x00, 0x00, 0x1E, 0x00],
    [0x00, 0x00, 0x00, 0x00, 0x00, 0x00, 0x00, 0x00, 0x00, 0x00, 0x00, 0x00, 0x00, 0x00, 0x00, 0x1E]
  ]

  const KONAHDMI_13: seq<seq<byte>> := [
    [0x00, 0xFF, 0xFF, 0xFF, 0xFF, 0xFF, 0xFF, 0x00, 0x05, 0x41, 0x2E, 0x00, 0x01, 0x01, 0x01, 0x01],
    [0x0F, 0x1C, 0x01, 0x03, 0x80, 0xA0, 0x5A, 0x78, 0x0A, 0xEE, 0x91, 0xA3, 0x54, 0x4C, 0x99, 0x26],
    [0x0F, 0x50, 0x54, 0x00, 0x00, 0x00, 0x01, 0x01, 0x01, 0x01, 0x01, 0x01, 0x01, 0x01, 0x01, 0x01],
    [0x01, 0x01, 0x01, 0x01, 0x01, 0x01, 0x02, 0x3A, 0x80, 0x18, 0x71, 0x38, 0x2D, 0x40, 0x58, 0x2C],
    [0x45, 0x00, 0x20, 0xC2, 0x31, 0x00, 0x00, 0x1E, 0x00, 0x00, 0x00, 0xFF, 0x00, 0x30, 0x30, 0x30],
    [0x30, 0x30, 0x30, 0x30, 0x30, 0x30, 0x30, 0x30, 0x30, 0x30, 0x00, 0x00, 0x00, 0xFD, 0x00, 0x17],
    [0x3D, 0x0F, 0x44, 0x1E, 0x00, 0x0A, 0x20, 0x20, 0x20, 0x20, 0x20, 0x20, 0x00, 0x00, 0x00, 0xFC],
    [0x00, 0x4B, 0x6F, 0x6E, 0x61, 0x20, 0x48, 0x44, 0x4D, 0x49, 0x0A, 0x20, 0x20, 0x20, 0x01, 0x0E],
    [0x02, 0x03, 0x3C, 0x51, 0x4D, 0x10, 0x1F, 0x22, 0x21, 0x20, 0x05, 0x14, 0x04, 0x13, 0x06, 0x15],
    [0x07, 0x16, 0x23, 0x0F, 0x07, 0x07, 0x83, 0x4F, 0x00, 0x00, 0x67, 0x03, 0x0C, 0x00, 0x10, 0x00],
    [0x30, 0x3C, 0xE2, 0x00, 0x73, 0xE3, 0x05, 0xE0, 0x00, 0xE3, 0x06, 0x3F, 0x01, 0xEE, 0x01, 0x46],
    [0xD0, 0x00, 0x24, 0x0F, 0x8B, 0x00, 0xA8, 0x53, 0x4B, 0x9D, 0x27, 0x0B, 0x01, 0x1D, 0x00, 0xBE],
    [0x82, 0x38, 0x2D, 0x40, 0x7E, 0x2C, 0x45, 0x80, 0x20, 0xC2, 0x31, 0x00, 0x00, 0x1E, 0x00, 0x00],
    [0x00, 0x00, 0x00, 0x00, 0x00, 0x00, 0x00, 0x00, 0x00, 0x00, 0x00, 0x00, 0x00, 0x00, 0x00, 0x00],
    [0x00, 0x00, 0x00, 0x00, 0x00, 0x00, 0x00, 0x00, 0x00, 0x00, 0x00, 0x00, 0x00, 0x00, 0x00, 0x00],
    [0x00, 0x00, 0x00, 0x00, 0x00, 0x00, 0x00, 0x00, 0x00, 0x00, 0x00, 0x00, 0x00, 0x00, 0x00, 0x62]
  ]

  /** Where the byte 3 stands up to the prefix. */
  lemma ThreesIn20(i: nat, j: nat)
    requires i < 11 && j < 16 && KONAHDMI_20[i][j] == 3
    ensures (i == 1 && j == 3) || (i == 8 && j == 1) || (i == 10 && j == 5)
  {
  }

  lemma ThreesIn13(i: nat, j: nat)
    requires i < 10 && j < 16 && KONAHDMI_13[i][j] == 3
    ensures (i == 1 && j == 3) || (i == 8 && j == 1) || (i == 9 && j == 11)
  {
  }

  function ByteAt(rows: seq<seq<byte>>, k: nat): byte
    requires Sixteens(rows) && k < 16 * |rows|
  {
    rows[k / 16][k % 16]
  }

  /** The prefix stands at `at` and nowhere before. */
  predicate PrefixFirstAt(rows: seq<seq<byte>>, at: nat) {
    && Sixteens(rows) && |rows| == 16 && at < 252
    && ByteAt(rows, at) == 3 && ByteAt(rows, at + 1) == 0x0c && ByteAt(rows, at + 2) == 0
    && forall k {:trigger ByteAt(rows, k)} :: 0 <= k < at && ByteAt(rows, k) == 3 ==>
      rows[(k + 1) / 16][(k + 1) % 16] != 0x0c
  }

  lemma PrefixIsFound(rows: seq<seq<byte>>, at: nat)
    requires PrefixFirstAt(rows, at)
    ensures |Flat(rows)| == 256 && FirstPrefix(Flat(rows), 0) == Some(at)
  {
    var data := Flat(rows);
    FlatAt(rows, at);
    FlatAt(rows, at + 1);
    FlatAt(rows, at + 2);
    assert ByteAt(rows, at) == 3 && ByteAt(rows, at + 1) == 0x0c;
    assert data[at..at + 3] == PORT_PREFIX;
    assert PrefixAt(data, at);
    forall k | 0 <= k < at ensures !PrefixAt(data, k) {
      FlatAt(rows, k);
      FlatAt(rows, k + 1);
      assert ByteAt(rows, k) == data[k];
      assert data[k..k + 3][0] == data[k] && data[k..k + 3][1] == data[k + 1];
    }
  }

  lemma PrefixIn20()
    ensures PrefixFirstAt(KONAHDMI_20, 165)
  {
    forall k {:trigger ByteAt(KONAHDMI_20, k)} | 0 <= k < 165 && ByteAt(KONAHDMI_20, k) == 3
      ensures KONAHDMI_20[(k + 1) / 16][(k + 1) % 16] != 0x0c
    {
      ThreesIn20(k / 16, k % 16);
      assert k == 19 || k == 129;
    }
  }

  lemma PrefixIn13()
    ensures PrefixFirstAt(KONAHDMI_13, 155)
  {
    forall k {:trigger ByteAt(KONAHDMI_13, k)} | 0 <= k < 155 && ByteAt(KONAHDMI_13, k) == 3
      ensures KONAHDMI_13[(k + 1) / 16][(k + 1) % 16] != 0x0c
    {
      ThreesIn13(k / 16, k % 16);
      assert k == 19 || k == 129;
    }
  }

  /** The image configured from a template, as far as Edid.Configure promises it. */
  ghost predicate MadeFrom(image: seq<byte>, rows: seq<seq<byte>>, port: nat)
    requires port < 4
  {
    && |image| == 256 == |Flat(rows)|
    && forall i {:trigger image[i]} :: 0 <= i < 256 && i % 128 != 127 ==> image[i] == Patched(Flat(rows), true, port)[i]
  }

  lemma PortStandsAt(image: seq<byte>, rows: seq<seq<byte>>, at: nat, port: nat)
    requires port < 4 && MadeFrom(image, rows, port) && PrefixFirstAt(rows, at) && (at + 3) % 128 != 127
    ensures image[at + 3] == PORT_NUMBER[port]
  {
    PrefixIsFound(rows, at);
  }

  /** In the image made from either template the chosen port stands: no checksum covers it. */
  lemma PortStandsIn20(image: seq<byte>, port: nat)
    requires |image| == 256 && port < 4
    ensures MadeFrom(image, KONAHDMI_20, port) ==> image[168] == PORT_NUMBER[port]
  {
    PrefixIn20();
    if MadeFrom(image, KONAHDMI_20, port) {
      PortStandsAt(image, KONAHDMI_20, 165, port);
    }
  }

  lemma PortStandsIn13(image: seq<byte>, port: nat)
    requires |image| == 256 && port < 4
    ensures MadeFrom(image, KONAHDMI_13, port) ==> image[158] == PORT_NUMBER[port]
  {
    PrefixIn13();
    if MadeFrom(image, KONAHDMI_13, port) {
      PortStandsAt(image, KONAHDMI_13, 155, port);
    }
  }
}
