/**
 * The client library's input queue: packets the library has received and
 * reassembled but that no caller has retrieved yet. Each record carries the
 * packet bytes, the transport address of the sender and a flag telling
 * whether every fragment of the packet has arrived.
 *
 * Only the part of the queue's interface that ZCheckIfNotice uses is modelled:
 * draining the transport into the queue, walking the complete records in
 * queue order, and removing one record.
 */
module InputQueue {
  type byte = bv8

  /** An IPv4 transport address (the host and port of a sockaddr_in). */
  datatype Addr = Addr(host: bv32, port: bv16)

  /** One queued packet. */
  datatype Record = Record(packet: seq<byte>, from: Addr, complete: bool)

  datatype Option<T> = None | Some(value: T)

  /**
   * The library's status codes (Code_t). ZERR_NONE is success, ZERR_NONOTICE
   * reports that no queued notice was selected and ENOMEM a failed allocation;
   * every other code (a malformed packet, a failed read, ...) is Other.
   */
  datatype Code = ZErrNone | ZErrNoNotice | ENoMem | Other(value: int)

  /** The index of the first complete record at position i or later, if any. */
  function FirstCompleteFrom(rs: seq<Record>, i: nat): (r: Option<nat>)
    decreases |rs| - i
    ensures r.Some? ==> i <= r.value < |rs| && rs[r.value].complete
    ensures forall k :: i <= k < |rs| && (r.None? || k < r.value) ==> !rs[k].complete
  {
    if i >= |rs| then None
    else if rs[i].complete then Some(i)
    else FirstCompleteFrom(rs, i + 1)
  }

  /** The queue with record j taken out and the others kept in order. */
  function RemoveAt(rs: seq<Record>, j: nat): (r: seq<Record>)
    requires j < |rs|
    ensures |r| == |rs| - 1
    ensures forall k :: 0 <= k < j ==> r[k] == rs[k]
    ensures forall k :: j <= k < |r| ==> r[k] == rs[k + 1]
  {
    rs[..j] + rs[j + 1..]
  }

  /** Removal takes out one copy of record j and nothing else. */
  lemma RemoveAtTakesOne(rs: seq<Record>, j: nat)
    requires j < |rs|
    ensures multiset(RemoveAt(rs, j)) + multiset{rs[j]} == multiset(rs)
  {
    assert rs == rs[..j] + [rs[j]] + rs[j + 1..];
  }

  /** Removing an old record and appending new ones commute. */
  lemma RemoveAtAppend(rs: seq<Record>, more: seq<Record>, j: nat)
    requires j < |rs|
    ensures RemoveAt(rs + more, j) == RemoveAt(rs, j) + more
  {
    assert (rs + more)[..j] == rs[..j];
    assert (rs + more)[j + 1..] == rs[j + 1..] + more;
  }

  /** The queue itself; records are kept in arrival order. */
  class Queue {
    var records: seq<Record>

    constructor ()
      ensures records == []
    {
      records := [];
    }

    /**
     * Z_ReadEnqueue: drains whatever the transport has delivered into the
     * queue. The packets that arrive and the status of the drain come from
     * the environment and are parameters here.
     */
    method ReadEnqueue(arrived: seq<Record>, status: Code) returns (retval: Code)
      modifies this
      ensures records == old(records) + arrived
      ensures retval == status
    {
      records := records + arrived;
      retval := status;
    }

    /** Walks forward from position start to the first complete record. */
    method FindComplete(start: nat) returns (r: Option<nat>)
      ensures r == FirstCompleteFrom(records, start)
    {
      var i := start;
      while i < |records| && !records[i].complete
        invariant start <= i
        invariant FirstCompleteFrom(records, i) == FirstCompleteFrom(records, start)
        decreases |records| - i
      {
        i := i + 1;
      }
      r := if i < |records| then Some(i) else None;
    }

    /** Z_GetFirstComplete: the oldest complete record, if any. */
    method FirstComplete() returns (r: Option<nat>)
      ensures r == FirstCompleteFrom(records, 0)
    {
      r := FindComplete(0);
    }

    /** Z_GetNextComplete: the next complete record after record i, if any. */
    method NextComplete(i: nat) returns (r: Option<nat>)
      requires i < |records|
      ensures r == FirstCompleteFrom(records, i + 1)
    {
      r := FindComplete(i + 1);
    }

    /** Z_RemQueue: detaches record i; the others keep their order. */
    method RemQueue(i: nat) returns (retval: Code)
      requires i < |records|
      modifies this
      ensures records == RemoveAt(old(records), i)
      ensures retval == ZErrNone
    {
      records := records[..i] + records[i + 1..];
      retval := ZErrNone;
    }
  }
}
