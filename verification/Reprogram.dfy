/** The choice of new identities for nodes whose node or MAC addresses collide. */
module Reprogram {
  // The whole run consists of rounds in which one node at a time is flashed.

  import opened Sets
  import opened CStrings
  import opened Crc
  import opened IdentString

  type Word = n: int | 0 <= n < 0x1_0000

  const MAC_END := 0x1_0000_0000_0000

  datatype Signature = Signature(nodePos: Word, nodeAddress: Word, groupAddress: Word,
                                 mac_47_32: Word, mac_31_16: Word, mac_15_0: Word, diagnosisId: Word)

  /** TranslateMacAddressToInt. */
  function Mac(s: Signature): (m: int)
    ensures 0 <= m < MAC_END
  {
    s.mac_47_32 * 0x1_0000_0000 + s.mac_31_16 * 0x1_0000 + s.mac_15_0
  }

  function IdentMac(id: Ident<Word>): (m: int)
    ensures 0 <= m < MAC_END
  {
    id.mac_47_32 * 0x1_0000_0000 + id.mac_31_16 * 0x1_0000 + id.mac_15_0
  }

  // ---- conflicts ----

  predicate AddressUsed(nodes: seq<Signature>, i: nat, address: int) {
    exists j | 0 <= j < |nodes| :: j != i && nodes[j].nodeAddress == address
  }

  predicate MacUsed(nodes: seq<Signature>, i: nat, mac: int) {
    mac != 0 && exists j | 0 <= j < |nodes| :: j != i && Mac(nodes[j]) == mac
  }

  predicate AddressConflict(nodes: seq<Signature>, i: nat)
    requires i < |nodes|
  {
    AddressUsed(nodes, i, nodes[i].nodeAddress)
  }

  predicate MacConflict(nodes: seq<Signature>, i: nat)
    requires i < |nodes|
  {
    MacUsed(nodes, i, Mac(nodes[i]))
  }

  predicate Conflict(nodes: seq<Signature>, i: nat)
    requires i < |nodes|
  {
    AddressConflict(nodes, i) || MacConflict(nodes, i)
  }

  method HasNodeAddressConflict(address: Word, i: nat, nodes: seq<Signature>) returns (b: bool)
    ensures b == AddressUsed(nodes, i, address)
  {
    b := false;
    var j := 0;
    while j < |nodes|
      invariant 0 <= j <= |nodes| && !b
      invariant forall k | 0 <= k < j :: k != i ==> nodes[k].nodeAddress != address
    {
      if j != i && address == nodes[j].nodeAddress {
        return true;
      }
      j := j + 1;
    }
  }

  method HasMacAddressConflict(mac: int, i: nat, nodes: seq<Signature>) returns (b: bool)
    ensures b == MacUsed(nodes, i, mac)
  {
    b := false;
    if mac == 0 {
      return;
    }
    var j := 0;
    while j < |nodes|
      invariant 0 <= j <= |nodes| && !b
      invariant forall k | 0 <= k < j :: k != i ==> Mac(nodes[k]) != mac
    {
      if j != i && mac == Mac(nodes[j]) {
        return true;
      }
      j := j + 1;
    }
  }

  // ---- the search for a free address ends ----

  function Nth(start: Word, k: nat): Word {
    (start + k) % 0x1_0000
  }

  lemma NthIs(start: Word, k: nat)
    requires k < 0x1_0000
    ensures Nth(start, k) == if start + k < 0x1_0000 then start + k else start + k - 0x1_0000
  {
  }

  /** The addresses tried in the first n steps. */
  function Tried(start: Word, n: nat): set<int> {
    set k | 0 <= k < n :: Nth(start, k)
  }

  lemma {:induction false} TriedCard(start: Word, n: nat)
    requires n <= 0x1_0000
    ensures |Tried(start, n)| == n
  {
    if n > 0 {
      TriedCard(start, n - 1);
      assert Tried(start, n) == Tried(start, n - 1) + {Nth(start, n - 1)};
      forall k | 0 <= k < n - 1 ensures Nth(start, k) != Nth(start, n - 1) {
        NthIs(start, k);
        NthIs(start, n - 1);
      }
    } else {
      assert Tried(start, 0) == {};
    }
  }

  /** The addresses of the first n nodes, without the i-th. */
  function Others(nodes: seq<Signature>, i: nat, n: nat): set<int>
    requires n <= |nodes|
  {
    set j | 0 <= j < n && j != i :: nodes[j].nodeAddress
  }

  lemma {:induction false} OthersCard(nodes: seq<Signature>, i: nat, n: nat)
    requires n <= |nodes|
    ensures |Others(nodes, i, n)| <= if i < n then n - 1 else n
  {
    if n > 0 {
      OthersCard(nodes, i, n - 1);
      if i == n - 1 {
        assert Others(nodes, i, n) == Others(nodes, i, n - 1);
      } else {
        assert Others(nodes, i, n) == Others(nodes, i, n - 1) + {nodes[n - 1].nodeAddress};
      }
    } else {
      assert Others(nodes, i, 0) == {};
    }
  }

  /** Among as many candidates as there are nodes one is not used by any other node. */
  lemma SomeFree(nodes: seq<Signature>, i: nat, start: Word) returns (k: nat)
    requires i < |nodes| <= 0x1_0000
    ensures k < |nodes| && !AddressUsed(nodes, i, Nth(start, k))
  {
    if forall m | 0 <= m < |nodes| :: AddressUsed(nodes, i, Nth(start, m)) {
      var tried, others := Tried(start, |nodes|), Others(nodes, i, |nodes|);
      forall a | a in tried ensures a in others {
        var m :| 0 <= m < |nodes| && Nth(start, m) == a;
        assert AddressUsed(nodes, i, Nth(start, m));
      }
      SubsetCard(tried, others);
      TriedCard(start, |nodes|);
      OthersCard(nodes, i, |nodes|);
      assert false;
    }
    k :| 0 <= k < |nodes| && !AddressUsed(nodes, i, Nth(start, k));
  }

  /** address is the first one from start on, modulo 2^16, that no other node uses. */
  ghost predicate FirstFree(nodes: seq<Signature>, i: nat, start: Word, address: Word) {
    exists k: nat :: k < |nodes| && address == Nth(start, k) && !AddressUsed(nodes, i, address)
                  && forall m: nat | m < k :: AddressUsed(nodes, i, Nth(start, m))
  }

  method FindAddress(nodes: seq<Signature>, i: nat, start: Word) returns (node: Word)
    requires i < |nodes| <= 0x1_0000
    ensures FirstFree(nodes, i, start, node)
  {
    node := start;
    ghost var free := SomeFree(nodes, i, start);
    ghost var k: nat := 0;
    var used := HasNodeAddressConflict(node, i, nodes);
    while used
      invariant node == Nth(start, k) && k <= free && used == AddressUsed(nodes, i, node)
      invariant forall m: nat | m < k :: AddressUsed(nodes, i, Nth(start, m))
      decreases free - k, used
    {
      k := k + 1;
      node := (node + 1) % 0x1_0000;
      used := HasNodeAddressConflict(node, i, nodes);
    }
  }

  /** mac is the first one after start that no other node uses; 2^48 is always free. */
  ghost predicate FirstFreeMac(nodes: seq<Signature>, i: nat, start: int, mac: int) {
    start < mac <= MAC_END && !MacUsed(nodes, i, mac) && forall m | start < m < mac :: MacUsed(nodes, i, m)
  }

  method FindMac(nodes: seq<Signature>, i: nat, start: int) returns (mac: int)
    requires 0 < start < MAC_END
    ensures FirstFreeMac(nodes, i, start, mac)
  {
    mac := (start + 1) % 0x1_0000_0000_0000_0000;
    var used := HasMacAddressConflict(mac, i, nodes);
    while used
      invariant start < mac <= MAC_END && used == MacUsed(nodes, i, mac)
      invariant forall m | start < m < mac :: MacUsed(nodes, i, m)
      decreases MAC_END - mac, used
    {
      mac := (mac + 1) % 0x1_0000_0000_0000_0000;
      used := HasMacAddressConflict(mac, i, nodes);
    }
  }

  // ---- one round ----

  const UNSET: Word := 0xcccc

  /** The search starts at the diagnosis identifier, or at the address itself when there is none. */
  function Start(s: Signature): Word {
    if s.diagnosisId != 0 then s.diagnosisId else s.nodeAddress
  }

  /** The i-th node is the first one with a conflict, and id gives it an address and a MAC without one.
      When only the MAC collides the address is 0xcccc, whether that is used or not. */
  ghost predicate Fixes(nodes: seq<Signature>, i: nat, id: Ident<Word>) {
    && i < |nodes| && Conflict(nodes, i) && (forall j | 0 <= j < i :: !Conflict(nodes, j))
    && id.groupAddress == nodes[i].groupAddress
    && (if AddressConflict(nodes, i) then FirstFree(nodes, i, Start(nodes[i]), id.nodeAddress)
        else id.nodeAddress == UNSET)
    && (if MacConflict(nodes, i) then
          exists mac :: FirstFreeMac(nodes, i, Mac(nodes[i]), mac) && IdentMac(id) == mac % MAC_END
        else IdentMac(id) == Mac(nodes[i]))
  }

  lemma WordsOf(mac: nat)
    ensures mac / 0x1_0000_0000 % 0x1_0000 * 0x1_0000_0000 + mac / 0x1_0000 % 0x1_0000 * 0x1_0000 + mac % 0x1_0000
         == mac % MAC_END
  {
    var q1, q2, q3 := mac / 0x1_0000, mac / 0x1_0000_0000, mac / MAC_END;
    assert q2 == q1 / 0x1_0000 && q3 == q2 / 0x1_0000;
    assert mac == q1 * 0x1_0000 + mac % 0x1_0000;
    assert q1 == q2 * 0x1_0000 + q1 % 0x1_0000;
    assert q2 == q3 * 0x1_0000 + q2 % 0x1_0000;
  }

  function Words(node: Word, group: Word, mac: int): (id: Ident<Word>)
    requires 0 <= mac
    ensures IdentMac(id) == mac % MAC_END && id.nodeAddress == node && id.groupAddress == group
  {
    WordsOf(mac);
    Ident(node, group, mac % 0x1_0000, mac / 0x1_0000 % 0x1_0000, mac / 0x1_0000_0000 % 0x1_0000)
  }

  lemma FixesHere(nodes: seq<Signature>, i: nat, newNode: Option<Word>, newMac: Option<int>)
    requires i < |nodes| && forall j | 0 <= j < i :: !Conflict(nodes, j)
    requires newNode.Some? <==> AddressConflict(nodes, i)
    requires newNode.Some? ==> FirstFree(nodes, i, Start(nodes[i]), newNode.value)
    requires newMac.Some? <==> MacConflict(nodes, i)
    requires newMac.Some? ==> FirstFreeMac(nodes, i, Mac(nodes[i]), newMac.value)
    requires newNode.Some? || newMac.Some?
    ensures Fixes(nodes, i, Words(if newNode.Some? then newNode.value else UNSET, nodes[i].groupAddress,
                                  if newMac.Some? then newMac.value else Mac(nodes[i])))
  {
    var mac := if newMac.Some? then newMac.value else Mac(nodes[i]);
    var id := Words(if newNode.Some? then newNode.value else UNSET, nodes[i].groupAddress, mac);
    assert IdentMac(id) == mac % MAC_END;
  }

  /** The node address check of one round. */
  method NewAddress(nodes: seq<Signature>, i: nat) returns (node: Option<Word>)
    requires i < |nodes| <= 0x1_0000
    ensures node.Some? <==> AddressConflict(nodes, i)
    ensures node.Some? ==> FirstFree(nodes, i, Start(nodes[i]), node.value)
  {
    node := None;
    var used := HasNodeAddressConflict(nodes[i].nodeAddress, i, nodes);
    if used {
      var start := nodes[i].diagnosisId;
      if start == 0 {
        start := nodes[i].nodeAddress;
      }
      var address := FindAddress(nodes, i, start);
      node := Some(address);
    }
  }

  /** The MAC address check of one round. */
  method NewMac(nodes: seq<Signature>, i: nat) returns (mac: Option<int>)
    requires i < |nodes|
    ensures mac.Some? <==> MacConflict(nodes, i)
    ensures mac.Some? ==> FirstFreeMac(nodes, i, Mac(nodes[i]), mac.value)
  {
    mac := None;
    var used := HasMacAddressConflict(Mac(nodes[i]), i, nodes);
    if used {
      var free := FindMac(nodes, i, Mac(nodes[i]));
      mac := Some(free);
    }
  }

  // ---- the new identity in terms of the fields ----

  predicate SharesAddress(nodes: seq<Signature>, i: nat, address: int) {
    exists j | 0 <= j < |nodes| :: j != i && nodes[j].nodeAddress == address
  }

  /** What comes k places behind a number of so many values. */
  function Behind(number: int, k: nat, values: nat): int
    requires values > 0
  {
    (number + k) % values
  }

  /** The first of start, start + 1, and so on in 16 bits that no other node has. */
  ghost predicate CountedUp(nodes: seq<Signature>, i: nat, start: int, address: int) {
    exists k: nat :: address == Behind(start, k, 0x1_0000) && !SharesAddress(nodes, i, address)
                  && forall m: nat | m < k :: SharesAddress(nodes, i, Behind(start, m, 0x1_0000))
  }

  /** Another node has that MAC address, most significant word first; a MAC address of zero is none. */
  predicate SharesMac(nodes: seq<Signature>, i: nat, mac: int) {
    && mac != 0
    && exists j | 0 <= j < |nodes| ::
         j != i && mac == nodes[j].mac_47_32 * 0x1_0000_0000 + nodes[j].mac_31_16 * 0x1_0000 + nodes[j].mac_15_0
  }

  /** The first one behind mac in 48 bits that no other node has. */
  ghost predicate CountedOn(nodes: seq<Signature>, i: nat, mac: int, next: int) {
    exists k: nat :: k > 0 && next == Behind(mac, k, 0x1_0000_0000_0000) && !SharesMac(nodes, i, next)
                  && forall m: nat | 0 < m < k :: SharesMac(nodes, i, Behind(mac, m, 0x1_0000_0000_0000))
  }

  /** A shared address is replaced by the diagnosis identifier, or by what comes next if others have that; without a
      diagnosis identifier by what comes next to the address itself. A shared MAC address is replaced by the next
      one. What is not shared is kept, except that the address becomes 0xcccc. */
  ghost predicate Gives(nodes: seq<Signature>, i: nat, id: Ident<Word>) {
    && i < |nodes| && id.groupAddress == nodes[i].groupAddress
    && var own := nodes[i].mac_47_32 * 0x1_0000_0000 + nodes[i].mac_31_16 * 0x1_0000 + nodes[i].mac_15_0;
    && var given := id.mac_47_32 * 0x1_0000_0000 + id.mac_31_16 * 0x1_0000 + id.mac_15_0;
    && (if !SharesAddress(nodes, i, nodes[i].nodeAddress) then id.nodeAddress == 0xcccc
        else if nodes[i].diagnosisId == 0 then CountedUp(nodes, i, nodes[i].nodeAddress, id.nodeAddress)
        else CountedUp(nodes, i, nodes[i].diagnosisId, id.nodeAddress))
    && (if SharesMac(nodes, i, own) then CountedOn(nodes, i, own, given) else given == own)
  }

  lemma FirstIsCountedUp(nodes: seq<Signature>, i: nat, start: Word, address: Word)
    requires FirstFree(nodes, i, start, address)
    ensures CountedUp(nodes, i, start, address)
  {
    var k: nat :| k < |nodes| && address == Nth(start, k) && !AddressUsed(nodes, i, address)
      && forall m: nat | m < k :: AddressUsed(nodes, i, Nth(start, m));
    forall m: nat | m < k ensures SharesAddress(nodes, i, Behind(start, m, 0x1_0000)) {
      assert AddressUsed(nodes, i, Nth(start, m));
    }
    assert address == Behind(start, k, 0x1_0000);
  }

  lemma Wrapped(mac: int)
    requires 0 <= mac <= MAC_END
    ensures mac % MAC_END == if mac == MAC_END then 0 else mac
  {
  }

  lemma SameMac(nodes: seq<Signature>, i: nat, mac: int)
    ensures SharesMac(nodes, i, mac) <==> MacUsed(nodes, i, mac)
  {
    if j :| 0 <= j < |nodes| && j != i && Mac(nodes[j]) == mac {
      assert nodes[j].mac_47_32 * 0x1_0000_0000 + nodes[j].mac_31_16 * 0x1_0000 + nodes[j].mac_15_0 == mac;
    }
  }

  lemma FirstIsCountedOn(nodes: seq<Signature>, i: nat, start: nat, mac: int)
    requires FirstFreeMac(nodes, i, start, mac) && start < MAC_END
    ensures CountedOn(nodes, i, start, mac % MAC_END)
  {
    var k := mac - start;
    Wrapped(mac);
    forall m: nat | 0 < m < k ensures SharesMac(nodes, i, Behind(start, m, 0x1_0000_0000_0000)) {
      Wrapped(start + m);
      SameMac(nodes, i, start + m);
    }
    SameMac(nodes, i, mac % MAC_END);
    SameMac(nodes, i, mac);
    assert mac % MAC_END == Behind(start, k, 0x1_0000_0000_0000);
  }

  lemma FixesGives(nodes: seq<Signature>, i: nat, id: Ident<Word>)
    requires Fixes(nodes, i, id)
    ensures Gives(nodes, i, id)
  {
    if AddressConflict(nodes, i) {
      FirstIsCountedUp(nodes, i, Start(nodes[i]), id.nodeAddress);
    }
    SameMac(nodes, i, Mac(nodes[i]));
    if MacConflict(nodes, i) {
      var mac :| FirstFreeMac(nodes, i, Mac(nodes[i]), mac) && IdentMac(id) == mac % MAC_END;
      FirstIsCountedOn(nodes, i, Mac(nodes[i]), mac);
    }
  }

  /** A diagnosis identifier that nobody uses is taken as it is. */
  lemma DiagnosisIdTaken(nodes: seq<Signature>, i: nat, id: Ident<Word>)
    requires Gives(nodes, i, id) && SharesAddress(nodes, i, nodes[i].nodeAddress)
    requires nodes[i].diagnosisId != 0 && !SharesAddress(nodes, i, nodes[i].diagnosisId)
    ensures id.nodeAddress == nodes[i].diagnosisId
  {
    var start := nodes[i].diagnosisId;
    var k: nat :| id.nodeAddress == Behind(start, k, 0x1_0000)
      && forall m: nat | m < k :: SharesAddress(nodes, i, Behind(start, m, 0x1_0000));
    assert Behind(start, 0, 0x1_0000) == start;
    assert k == 0;
  }

  /** UCSI_CB_OnProgrammingModeDeviceDiscovery: None exactly when there is nothing to compare or no conflict left. */
  method Discover(nodes: seq<Signature>) returns (found: Option<nat>, id: Ident<Word>)
    requires |nodes| <= 0x1_0000
    ensures found.None? <==> |nodes| < 2 || forall i | 0 <= i < |nodes| :: !Conflict(nodes, i)
    ensures found.Some? ==> Fixes(nodes, found.value, id) && Gives(nodes, found.value, id)
  {
    var node, group, mac := UNSET, UNSET, 0xcccc_cccc_cccc_cccc;
    id := Words(node, group, mac);
    found := None;
    if |nodes| < 2 {
      return;
    }
    var needToProgram := false;
    var i := 0;
    while i < |nodes| && !needToProgram
      invariant 0 <= i <= |nodes| && mac >= 0
      invariant !needToProgram ==> found.None? && node == UNSET && forall j | 0 <= j < i :: !Conflict(nodes, j)
      invariant needToProgram ==> found.Some? && Fixes(nodes, found.value, Words(node, group, mac))
    {
      group := nodes[i].groupAddress;
      var newNode := NewAddress(nodes, i);
      var newMac := NewMac(nodes, i);
      if newNode.Some? {
        node := newNode.value;
      }
      mac := if newMac.Some? then newMac.value else Mac(nodes[i]);
      needToProgram := newNode.Some? || newMac.Some?;
      if needToProgram {
        found := Some(i);
        FixesHere(nodes, i, newNode, newMac);
      }
      i := i + 1;
    }
    id := Words(node, group, mac);
    if found.Some? {
      FixesGives(nodes, found.value, id);
    }
  }

  // ---- a flashed node ----

  /** The node takes over what was flashed; the group address has its six high bits set. */
  function Flashed(s: Signature, id: Ident<Word>): Signature {
    s.(nodeAddress := id.nodeAddress, groupAddress := ((id.groupAddress as bv16) | 0xfc00) as int,
       mac_47_32 := id.mac_47_32, mac_31_16 := id.mac_31_16, mac_15_0 := id.mac_15_0)
  }

  /** The same fields as numbers. */
  function ToWords(id: Ident<bv16>): Ident<Word> {
    Ident(id.nodeAddress as int, id.groupAddress as int, id.mac_15_0 as int, id.mac_31_16 as int, id.mac_47_32 as int)
  }

  lemma SameBits(g: bv16, w: Word)
    requires g as int == w
    ensures w as bv16 == g
  {
  }

  /** The identity that a node reads from the string built for id is the one that it has once it is flashed. */
  lemma FlashedIsRead(s: Signature, id: Ident<bv16>, data: seq<Octet>)
    requires |data| == 14 && data[..12] == Fields(id)
    ensures var t := Flashed(s, ToWords(id));
      && ToWords(Read(data)) == Ident(t.nodeAddress, t.groupAddress, t.mac_15_0, t.mac_31_16, t.mac_47_32)
      && t.nodePos == s.nodePos && t.diagnosisId == s.diagnosisId
  {
    ReadFields(id, data);
    SameBits(id.groupAddress, ToWords(id).groupAddress);
  }

  function Programmed(nodes: seq<Signature>, i: nat, id: Ident<Word>): seq<Signature>
    requires i < |nodes|
  {
    nodes[i := Flashed(nodes[i], id)]
  }

  /** What the other nodes use is not changed. */
  lemma OthersKept(nodes: seq<Signature>, i: nat, id: Ident<Word>)
    requires i < |nodes|
    ensures forall a :: AddressUsed(Programmed(nodes, i, id), i, a) <==> AddressUsed(nodes, i, a)
    ensures forall m :: MacUsed(Programmed(nodes, i, id), i, m) <==> MacUsed(nodes, i, m)
  {
    var next := Programmed(nodes, i, id);
    forall a ensures AddressUsed(next, i, a) <==> AddressUsed(nodes, i, a) {
      if j :| 0 <= j < |nodes| && j != i && nodes[j].nodeAddress == a {
        assert next[j] == nodes[j];
      }
    }
    forall m ensures MacUsed(next, i, m) <==> MacUsed(nodes, i, m) {
      if j :| 0 <= j < |nodes| && j != i && Mac(nodes[j]) == m {
        assert next[j] == nodes[j];
      }
    }
  }

  /** No other node uses the new MAC address. */
  lemma NewMacFree(nodes: seq<Signature>, i: nat, id: Ident<Word>)
    requires Fixes(nodes, i, id) && MacConflict(nodes, i)
    ensures !MacUsed(nodes, i, IdentMac(id))
  {
    var mac :| FirstFreeMac(nodes, i, Mac(nodes[i]), mac) && IdentMac(id) == mac % MAC_END;
    Wrapped(mac);
  }

  /** The flashed node has lost the conflicts that it had. It is in conflict afterwards exactly if only its MAC
      address collided and another node uses address 0xcccc. */
  lemma ConflictsGone(nodes: seq<Signature>, i: nat, id: Ident<Word>)
    requires Fixes(nodes, i, id)
    ensures var next := Programmed(nodes, i, id);
      && !MacConflict(next, i)
      && (AddressConflict(next, i) <==> !AddressConflict(nodes, i) && AddressUsed(nodes, i, UNSET))
  {
    var next := Programmed(nodes, i, id);
    OthersKept(nodes, i, id);
    assert Mac(next[i]) == IdentMac(id);
    if MacConflict(nodes, i) {
      NewMacFree(nodes, i, id);
    }
  }

  /** Pairs of nodes with the same address, and with the same MAC other than 0. */
  function AddressPairs(nodes: seq<Signature>): set<(int, int)> {
    set j, k | 0 <= j < k < |nodes| && nodes[j].nodeAddress == nodes[k].nodeAddress :: (j, k)
  }

  function MacPairs(nodes: seq<Signature>): set<(int, int)> {
    set j, k | 0 <= j < k < |nodes| && Mac(nodes[j]) == Mac(nodes[k]) != 0 :: (j, k)
  }

  /** Without pairs there is no conflict, and the other way round. */
  lemma PairsAreConflicts(nodes: seq<Signature>)
    ensures (forall i | 0 <= i < |nodes| :: !Conflict(nodes, i)) <==> AddressPairs(nodes) == {} && MacPairs(nodes) == {}
  {
    if i :| 0 <= i < |nodes| && Conflict(nodes, i) {
      if AddressConflict(nodes, i) {
        var j :| 0 <= j < |nodes| && j != i && nodes[j].nodeAddress == nodes[i].nodeAddress;
        assert (if i < j then (i, j) else (j, i)) in AddressPairs(nodes);
      } else {
        var j :| 0 <= j < |nodes| && j != i && Mac(nodes[j]) == Mac(nodes[i]);
        assert (if i < j then (i, j) else (j, i)) in MacPairs(nodes);
      }
    }
    if AddressPairs(nodes) != {} {
      var p :| p in AddressPairs(nodes);
      assert nodes[p.1].nodeAddress == nodes[p.0].nodeAddress && p.1 != p.0;
      assert AddressConflict(nodes, p.0) && Conflict(nodes, p.0);
    }
    if MacPairs(nodes) != {} {
      var p :| p in MacPairs(nodes);
      assert Mac(nodes[p.1]) == Mac(nodes[p.0]) && p.1 != p.0;
      assert MacConflict(nodes, p.0) && Conflict(nodes, p.0);
    }
  }

  /** A new address removes pairs and makes none. */
  lemma AddressFixed(nodes: seq<Signature>, i: nat, id: Ident<Word>)
    requires i < |nodes| && AddressConflict(nodes, i) && !AddressUsed(nodes, i, id.nodeAddress)
    ensures |AddressPairs(Programmed(nodes, i, id))| < |AddressPairs(nodes)|
  {
    var next := Programmed(nodes, i, id);
    var j :| 0 <= j < |nodes| && j != i && nodes[j].nodeAddress == nodes[i].nodeAddress;
    var p := if i < j then (i, j) else (j, i);
    assert p in AddressPairs(nodes) && p !in AddressPairs(next);
    assert AddressPairs(next) <= AddressPairs(nodes);
    ProperCard(AddressPairs(next), AddressPairs(nodes), p);
  }

  lemma MacFixed(nodes: seq<Signature>, i: nat, id: Ident<Word>)
    requires i < |nodes| && MacConflict(nodes, i) && !MacUsed(nodes, i, IdentMac(id))
    ensures |MacPairs(Programmed(nodes, i, id))| < |MacPairs(nodes)|
  {
    var next := Programmed(nodes, i, id);
    assert Mac(next[i]) == IdentMac(id);
    var j :| 0 <= j < |nodes| && j != i && Mac(nodes[j]) == Mac(nodes[i]);
    var p := if i < j then (i, j) else (j, i);
    assert p in MacPairs(nodes) && p !in MacPairs(next);
    assert MacPairs(next) <= MacPairs(nodes);
    ProperCard(MacPairs(next), MacPairs(nodes), p);
  }

  /** Lexicographic descent, also when a MAC conflict alone writes the address 0xcccc. */
  ghost predicate Below(a: seq<Signature>, b: seq<Signature>) {
    || |MacPairs(a)| < |MacPairs(b)|
    || (|MacPairs(a)| == |MacPairs(b)| && |AddressPairs(a)| < |AddressPairs(b)|)
  }

  lemma RoundDescends(nodes: seq<Signature>, i: nat, id: Ident<Word>)
    requires Fixes(nodes, i, id)
    ensures Below(Programmed(nodes, i, id), nodes)
  {
    var next := Programmed(nodes, i, id);
    if MacConflict(nodes, i) {
      NewMacFree(nodes, i, id);
      MacFixed(nodes, i, id);
    } else {
      assert Mac(next[i]) == Mac(nodes[i]);
      assert MacPairs(next) == MacPairs(nodes);
      AddressFixed(nodes, i, id);
    }
  }

  // ---- the whole run ----

  ghost predicate Round(a: seq<Signature>, b: seq<Signature>) {
    exists i, id :: Fixes(a, i, id) && b == Programmed(a, i, id)
  }

  ghost predicate IsRun(s: seq<seq<Signature>>) {
    s != [] && forall k | 0 <= k < |s| - 1 :: Round(s[k], s[k + 1])
  }

  /** The pairs of m positions with a later one. */
  function Row(n: nat, m: nat): (r: set<(int, int)>)
    ensures forall p :: p in r <==> 0 <= p.0 < m && p.1 == n
    ensures |r| == m
  {
    if m == 0 then {} else Row(n, m - 1) + {(m - 1, n)}
  }

  function PairCount(n: nat): (c: nat)
    ensures 2 * c == n * (n - 1)
  {
    if n == 0 then 0
    else
      assert n * (n - 1) == (n - 1) * (n - 2) + 2 * (n - 1);
      PairCount(n - 1) + n - 1
  }

  /** All pairs of n positions. */
  function AllPairs(n: nat): (r: set<(int, int)>)
    ensures forall p :: p in r <==> 0 <= p.0 < p.1 < n
    ensures |r| == PairCount(n)
  {
    if n == 0 then {} else AllPairs(n - 1) + Row(n - 1, n - 1)
  }

  lemma AddressPairsCard(nodes: seq<Signature>)
    ensures |AddressPairs(nodes)| <= PairCount(|nodes|)
  {
    var a, b := AddressPairs(nodes), AllPairs(|nodes|);
    assert a <= b;
    assert b == a + (b - a);
  }

  /** A bound on the number of rounds. */
  function Rounds(nodes: seq<Signature>): nat {
    |MacPairs(nodes)| * (PairCount(|nodes|) + 1) + |AddressPairs(nodes)|
  }

  lemma LexBound(m: nat, a: nat, m1: nat, a1: nat, p: nat)
    requires a1 <= p && (m1 < m || (m1 == m && a1 < a))
    ensures m1 * (p + 1) + a1 < m * (p + 1) + a
  {
    if m1 < m {
      assert (m1 + 1) * (p + 1) <= m * (p + 1);
    }
  }

  lemma RoundCounts(a: seq<Signature>, b: seq<Signature>)
    requires Round(a, b)
    ensures |b| == |a| && Rounds(b) < Rounds(a)
  {
    var i, id :| Fixes(a, i, id) && b == Programmed(a, i, id);
    RoundDescends(a, i, id);
    AddressPairsCard(b);
    LexBound(|MacPairs(a)|, |AddressPairs(a)|, |MacPairs(b)|, |AddressPairs(b)|, PairCount(|a|));
  }

  /** Every run is finite: it has no more rounds than the bound of its first state. */
  lemma {:induction false} RunsEnd(s: seq<seq<Signature>>)
    requires IsRun(s)
    ensures |s| - 1 <= Rounds(s[0])
  {
    if |s| > 1 {
      assert Round(s[0], s[1]);
      RoundCounts(s[0], s[1]);
      assert IsRun(s[1..]) by {
        forall k | 0 <= k < |s[1..]| - 1 ensures Round(s[1..][k], s[1..][k + 1]) {
          assert Round(s[k + 1], s[k + 2]);
        }
      }
      RunsEnd(s[1..]);
    }
  }

  /** The run: as long as a node is returned it is flashed and all are compared again. At the end no two
      nodes share an address or a MAC other than 0. */
  method Run(nodes: seq<Signature>) returns (end: seq<Signature>, ghost states: seq<seq<Signature>>)
    requires |nodes| <= 0x1_0000
    ensures IsRun(states) && states[0] == nodes && states[|states| - 1] == end && |states| - 1 <= Rounds(nodes)
    ensures AddressPairs(end) == {} && MacPairs(end) == {}
  {
    end, states := nodes, [nodes];
    var found, id := Discover(end);
    while found.Some?
      invariant IsRun(states) && states[0] == nodes && states[|states| - 1] == end && |end| == |nodes|
      invariant found.Some? ==> Fixes(end, found.value, id)
      invariant found.None? ==> |end| < 2 || forall i | 0 <= i < |end| :: !Conflict(end, i)
      decreases Rounds(end), found.Some?
    {
      ghost var was := end;
      end := Programmed(end, found.value, id);
      assert Round(was, end);
      RoundCounts(was, end);
      states := states + [end];
      found, id := Discover(end);
    }
    RunsEnd(states);
    PairsAreConflicts(end);
    if |end| < 2 {
      assert AddressPairs(end) == {} && MacPairs(end) == {};
    }
  }
}
