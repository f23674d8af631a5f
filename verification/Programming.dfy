/** Collecting the signatures of the discovered nodes until programming can start. */
module Programming {
  import opened IdentString
  import opened Reprogram

  const MAX_NODES := 32
  const NODE_START_ADDR := 0x401

  /** What a new signature leads to: nothing because its position is out of range, waiting for more
      signatures, flashing one node, giving up because the command queue is full, or leaving the programming mode,
      with the command for it in the queue or not. */
  datatype Outcome = Rejected | Waiting | Program(node: nat, id: Ident<Word>) | GivenUp | Leave(queued: bool)

  class Collector {
    const nodes: array<Signature>
    const signatureValid: array<bool>
    var allowProgramming: bool
    var triggerNodeCount: int

    /** UCSI_Init: no signatures yet. */
    constructor ()
      ensures Valid() && Counts(0) && !allowProgramming && triggerNodeCount == 0
      ensures fresh(nodes) && fresh(signatureValid)
    {
      nodes := new Signature[MAX_NODES](_ => Signature(0, 0, 0, 0, 0, 0, 0));
      signatureValid := new bool[MAX_NODES](_ => false);
      allowProgramming, triggerNodeCount := false, 0;
    }

    /** The arrays are never sized anew. */
    ghost predicate Valid()
      reads this
    {
      nodes.Length == MAX_NODES && signatureValid.Length == MAX_NODES && 0 <= triggerNodeCount < 256
    }

    /** The leading run of valid entries. */
    ghost predicate Counts(n: int)
      requires Valid()
      reads this, signatureValid
    {
      && 0 <= n <= MAX_NODES && (forall i | 0 <= i < n :: signatureValid[i])
      && (n < MAX_NODES ==> !signatureValid[n])
    }

    /** ProgrammingGetNodeCount. */
    method GetNodeCount() returns (n: int)
      requires Valid()
      ensures Counts(n)
    {
      n := 0;
      while n < MAX_NODES && signatureValid[n]
        invariant 0 <= n <= MAX_NODES && forall i | 0 <= i < n :: signatureValid[i]
      {
        n := n + 1;
      }
    }

    /** ProgrammingSetFoundNodeCount, in programming mode. */
    method SetFoundNodeCount(nodeCount: int)
      requires Valid() && 0 <= nodeCount < 256
      modifies this`allowProgramming
      ensures Valid()
      ensures allowProgramming ==
        if 0 < nodeCount <= 64 then nodeCount - 1 == triggerNodeCount else old(allowProgramming)
    {
      if nodeCount == 0 || nodeCount > 64 {
        return;
      }
      allowProgramming := nodeCount - 1 == triggerNodeCount;
    }

    /** A new scan forgets all signatures. */
    method ScanNew()
      requires Valid()
      modifies signatureValid
      ensures Valid() && Counts(0)
    {
      forall i | 0 <= i < signatureValid.Length {
        signatureValid[i] := false;
      }
    }

    /** ProgrammingStoreSignature. The check runs on the first triggerNodeCount signatures and only when
        exactly these have come in without a gap; room says whether the command queue has room. */
    method StoreSignature(signature: Signature, room: bool) returns (r: Outcome)
      requires Valid()
      modifies nodes, signatureValid
      ensures Valid()
      ensures var pos := signature.nodePos - NODE_START_ADDR;
        if 0 <= pos < MAX_NODES then
          && nodes[..] == old(nodes[..])[pos := signature]
          && signatureValid[..] == old(signatureValid[..])[pos := true]
          && (r == Waiting <==> !allowProgramming || triggerNodeCount == 0 || !Counts(triggerNodeCount))
          && (r != Waiting ==> triggerNodeCount <= MAX_NODES)
          && (r.Program? ==> room && Fixes(nodes[..triggerNodeCount], r.node, r.id))
          && (r.GivenUp? ==> !room && exists i :: 0 <= i < triggerNodeCount && Conflict(nodes[..triggerNodeCount], i))
          && (r.Leave? ==> r.queued == room)
          && (r.Leave? && triggerNodeCount >= 2 ==>
               forall i | 0 <= i < triggerNodeCount :: !Conflict(nodes[..triggerNodeCount], i))
          && r != Rejected
        else r == Rejected && nodes[..] == old(nodes[..]) && signatureValid[..] == old(signatureValid[..])
    {
      if signature.nodePos < NODE_START_ADDR || signature.nodePos > NODE_START_ADDR + MAX_NODES - 1 {
        return Rejected;
      }
      var pos := signature.nodePos - NODE_START_ADDR;
      nodes[pos] := signature;
      signatureValid[pos] := true;
      var count := GetNodeCount();
      if allowProgramming && triggerNodeCount != 0 && count == triggerNodeCount {
        var found, id := Discover(nodes[..triggerNodeCount]);
        if found.None? {
          r := Leave(room);
        } else if room {
          r := Program(found.value, id);
        } else {
          r := GivenUp;
        }
      } else {
        r := Waiting;
      }
    }
  }
}
