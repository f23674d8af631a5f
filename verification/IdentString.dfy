/** The identification string of a node, as fields and as the 14 bytes that are flashed. */
module IdentString {
  import opened Crc

  /** W is the type of a 16-bit word. */
  datatype Ident<W> = Ident(nodeAddress: W, groupAddress: W, mac_15_0: W, mac_31_16: W, mac_47_32: W)

  const SONOMA_IS_VERSION: Octet := 0x41

  /** The twelve bytes before the checksum. The group address gets its six high bits set. */
  function Fields(id: Ident<bv16>): seq<Octet> {
    [SONOMA_IS_VERSION, 0xff,
     High(id.nodeAddress), Low(id.nodeAddress),
     High(id.groupAddress) | 0xfc, Low(id.groupAddress),
     High(id.mac_15_0), Low(id.mac_15_0),
     High(id.mac_31_16), Low(id.mac_31_16),
     High(id.mac_47_32), Low(id.mac_47_32)]
  }

  function Word(high: Octet, low: Octet): bv16 {
    (high << 8) | low
  }

  /** What a node reads out of its identification string. */
  function Read(data: seq<Octet>): Ident<bv16>
    requires |data| == 14
  {
    Ident(Word(data[2], data[3]), Word(data[4], data[5]), Word(data[6], data[7]), Word(data[8], data[9]),
          Word(data[10], data[11]))
  }

  lemma WordBack(w: bv16)
    ensures Word(High(w), Low(w)) == w
    ensures Word(High(w) | 0xfc, Low(w)) == w | 0xfc00
  {
  }

  method PutPair(data: array<Octet>, i: nat, high: Octet, low: Octet)
    requires i + 1 < data.Length
    modifies data
    ensures data[i] == high && data[i + 1] == low
    ensures forall k | 0 <= k < data.Length && k != i && k != i + 1 :: data[k] == old(data[k])
  {
    data[i] := high;
    data[i + 1] := low;
  }

  method PutMac(id: Ident<bv16>, data: array<Octet>, ghost f: seq<Octet>)
    requires data.Length >= 14 && f == Fields(id) && data[..6] == f[..6]
    modifies data
    ensures data[..12] == f && data[14..] == old(data[14..])
  {
    PutPair(data, 6, High(id.mac_15_0), Low(id.mac_15_0));
    PutPair(data, 8, High(id.mac_31_16), Low(id.mac_31_16));
    PutPair(data, 10, High(id.mac_47_32), Low(id.mac_47_32));
    assert forall k | 0 <= k < 6 :: f[..6][k] == f[k];
  }

  method PutFields(id: Ident<bv16>, data: array<Octet>)
    requires data.Length >= 14
    modifies data
    ensures data[..12] == Fields(id) && data[14..] == old(data[14..])
  {
    ghost var f := Fields(id);
    PutPair(data, 0, SONOMA_IS_VERSION, 0xff);
    PutPair(data, 2, High(id.nodeAddress), Low(id.nodeAddress));
    PutPair(data, 4, High(id.groupAddress) | 0xfc, Low(id.groupAddress));
    assert data[..6] == f[..6];
    PutMac(id, data, f);
  }

  lemma ReadFields(id: Ident<bv16>, data: seq<Octet>)
    requires |data| == 14 && data[..12] == Fields(id)
    ensures Read(data) == id.(groupAddress := id.groupAddress | 0xfc00)
  {
    var f := Fields(id);
    assert forall i | 0 <= i < 12 :: data[i] == f[i];
    WordBack(id.nodeAddress);
    WordBack(id.groupAddress);
    WordBack(id.mac_15_0);
    WordBack(id.mac_31_16);
    WordBack(id.mac_47_32);
  }

  function Joined(first: bv16, second: bv16): bv16 {
    (first << 8) | second
  }

  /** A word stands there, most significant byte first. */
  predicate WordAt(data: seq<Octet>, i: nat, w: bv16)
    requires i + 1 < |data|
  {
    Joined(data[i], data[i + 1]) == w
  }

  lemma Layout(id: Ident<bv16>, data: seq<Octet>)
    requires |data| >= 12 && data[..12] == Fields(id)
    ensures data[0] == 0x41 && data[1] == 0xff
    ensures WordAt(data, 2, id.nodeAddress) && WordAt(data, 4, id.groupAddress | 0xfc00)
    ensures WordAt(data, 6, id.mac_15_0) && WordAt(data, 8, id.mac_31_16) && WordAt(data, 10, id.mac_47_32)
  {
    var f := Fields(id);
    assert forall i | 0 <= i < 12 :: data[i] == f[i];
    WordBack(id.nodeAddress);
    WordBack(id.groupAddress);
    WordBack(id.mac_15_0);
    WordBack(id.mac_31_16);
    WordBack(id.mac_47_32);
  }

  lemma LowFirst(crc: bv16)
    ensures Joined(High(crc), Low(crc)) == crc
  {
  }

  /** BuildIdentString: the words stand most significant byte first and the checksum least significant byte first;
      the bytes check to zero, and a node reads the fields back from them. */
  method BuildIdentString(id: Ident<bv16>, data: array<Octet>) returns (size: nat)
    requires data.Length >= 14
    modifies data
    ensures size == 14 && data[14..] == old(data[14..])
    ensures data[..12] == Fields(id)
    ensures data[0] == 0x41 && data[1] == 0xff
    ensures WordAt(data[..], 2, id.nodeAddress) && WordAt(data[..], 4, id.groupAddress | 0xfc00)
    ensures WordAt(data[..], 6, id.mac_15_0) && WordAt(data[..], 8, id.mac_31_16)
    ensures WordAt(data[..], 10, id.mac_47_32)
    ensures Joined(data[13], data[12]) == Checksum(data[..12], 0) && Checksum(data[..14], 0) == 0
    ensures Read(data[..14]) == id.(groupAddress := id.groupAddress | 0xfc00)
  {
    PutFields(id, data);
    var crc := CalcCCITT16(data, 12, 0);
    data[12] := Low(crc);
    data[13] := High(crc);
    size := 14;
    assert data[..14] == data[..12] + [Low(crc), High(crc)];
    SelfCheck(data[..12], 0);
    ReadFields(id, data[..14]);
    assert data[..][..12] == data[..12];
    Layout(id, data[..]);
    LowFirst(crc);
  }
}
