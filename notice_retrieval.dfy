/**
 * ZCheckIfNotice (lib/ZCkIfNot.c): drain pending input into the queue, then
 * walk the complete records in queue order, parse each one into a scratch
 * notice and ask the caller's predicate about it. The first record the
 * predicate accepts is copied into a fresh buffer, its sender is reported,
 * the copy is parsed into the caller's notice and the record is removed.
 *
 * ZParseNotice is an uninterpreted function from packet bytes to a status
 * code and a notice, the predicate (with its argument block) a function on
 * notices, and whether malloc succeeds a parameter.
 */
module NoticeRetrieval {
  import opened InputQueue

  /** What ZParseNotice reports: its status code and the notice it filled in. */
  datatype Parsed<N> = Parsed(code: Code, notice: N)

  /** Where the walk over the queue stops. */
  datatype Stop<N> =
    | ParseFailed(at: nat, code: Code)
    | Matched(at: nat, notice: N)
    | Exhausted

  /** The result of one call: status, caller's notice, reported sender, queue. */
  datatype Outcome<N> = Outcome(code: Code, notice: Option<N>, sender: Option<Addr>, queue: seq<Record>)

  /** A record that parses and that the predicate turns down. */
  ghost predicate Declined<N>(r: Record, parse: seq<byte> -> Parsed<N>, pred: N -> bool)
  {
    parse(r.packet).code == ZErrNone && !pred(parse(r.packet).notice)
  }

  /** Every complete record at positions lo until hi is declined. */
  ghost predicate AllDeclined<N>(rs: seq<Record>, parse: seq<byte> -> Parsed<N>, pred: N -> bool, lo: nat, hi: nat)
  {
    forall k :: lo <= k < hi && k < |rs| && rs[k].complete ==> Declined(rs[k], parse, pred)
  }

  /**
   * The walk of lines 37-56 from position lo: visit the complete records in
   * order, stop at the first one that fails to parse or that the predicate
   * accepts.
   */
  function Scan<N>(rs: seq<Record>, lo: nat, parse: seq<byte> -> Parsed<N>, pred: N -> bool): (s: Stop<N>)
    decreases |rs| - lo
    ensures s.ParseFailed? ==>
      && lo <= s.at < |rs| && rs[s.at].complete
      && s.code == parse(rs[s.at].packet).code && s.code != ZErrNone
      && AllDeclined(rs, parse, pred, lo, s.at)
    ensures s.Matched? ==>
      && lo <= s.at < |rs| && rs[s.at].complete
      && parse(rs[s.at].packet) == Parsed(ZErrNone, s.notice) && pred(s.notice)
      && AllDeclined(rs, parse, pred, lo, s.at)
    ensures s.Exhausted? ==> AllDeclined(rs, parse, pred, lo, |rs|)
  {
    match FirstCompleteFrom(rs, lo)
    case None => Exhausted
    case Some(j) =>
      var p := parse(rs[j].packet);
      if p.code != ZErrNone then ParseFailed(j, p.code)
      else if pred(p.notice) then Matched(j, p.notice)
      else Scan(rs, j + 1, parse, pred)
  }

  /**
   * Lines 44-54 once the predicate has accepted record j: allocate the copy
   * buffer, report the sender, parse the copy (with result reparsed) and, when
   * that parse succeeds, remove the record.
   */
  function Deliver<N>(rs: seq<Record>, j: nat, allocOk: bool, wantFrom: bool, reparsed: Parsed<N>): (o: Outcome<N>)
    requires j < |rs|
    ensures o.queue == rs || o.queue == RemoveAt(rs, j)
  {
    if !allocOk then Outcome(ENoMem, None, None, rs)
    else
      var sender := if wantFrom then Some(rs[j].from) else None;
      if reparsed.code != ZErrNone then Outcome(reparsed.code, Some(reparsed.notice), sender, rs)
      else Outcome(ZErrNone, Some(reparsed.notice), sender, RemoveAt(rs, j))
  }

  /**
   * The whole call on a queue holding rs, when the drain delivers arrived and
   * reports readStatus; wantFrom says whether the caller passed a sender
   * out-parameter.
   */
  function Retrieve<N>(rs: seq<Record>, arrived: seq<Record>, readStatus: Code,
                       parse: seq<byte> -> Parsed<N>, pred: N -> bool,
                       allocOk: bool, wantFrom: bool): Outcome<N>
  {
    var q := rs + arrived;
    if readStatus != ZErrNone then Outcome(readStatus, None, None, q)
    else match Scan(q, 0, parse, pred)
      case ParseFailed(_, c) => Outcome(c, None, None, q)
      case Exhausted => Outcome(ZErrNoNotice, None, None, q)
      case Matched(j, _) => Deliver(q, j, allocOk, wantFrom, parse(q[j].packet))
  }

  /** The caller's `struct sockaddr_in *from`. */
  class AddrCell {
    var addr: Addr

    constructor (a: Addr)
      ensures addr == a
    {
      addr := a;
    }
  }

  /**
   * ZCheckIfNotice. The returned notice is the content of `*notice` when the
   * call wrote it; `*from` is written only when from is not null.
   */
  method CheckIfNotice<N>(q: Queue, from: AddrCell?, parse: seq<byte> -> Parsed<N>, pred: N -> bool,
                          arrived: seq<Record>, readStatus: Code, allocOk: bool)
    returns (retval: Code, notice: Option<N>)
    modifies q, from
    ensures var o := Retrieve(old(q.records), arrived, readStatus, parse, pred, allocOk, from != null);
      && retval == o.code && notice == o.notice && q.records == o.queue
      && (from != null ==> from.addr == (if o.sender.Some? then o.sender.value else old(from.addr)))
  {
    retval := q.ReadEnqueue(arrived, readStatus);
    if retval != ZErrNone {
      return retval, None;
    }
    var qptr := q.FirstComplete();
    ghost var lo := 0;
    while qptr.Some?
      invariant q.records == old(q.records) + arrived
      invariant from != null ==> from.addr == old(from.addr)
      invariant lo <= |q.records|
      invariant qptr == FirstCompleteFrom(q.records, lo)
      invariant Scan(q.records, lo, parse, pred) == Scan(q.records, 0, parse, pred)
      decreases |q.records| - lo
    {
      var j := qptr.value;
      var scratch := parse(q.records[j].packet);
      if scratch.code != ZErrNone {
        return scratch.code, None;
      }
      if pred(scratch.notice) {
        if !allocOk {
          return ENoMem, None;
        }
        var buffer := q.records[j].packet;
        if from != null {
          from.addr := q.records[j].from;
        }
        var parsed := parse(buffer);
        notice := Some(parsed.notice);
        if parsed.code != ZErrNone {
          retval := parsed.code;
          return;
        }
        retval := q.RemQueue(j);
        return;
      }
      qptr := q.NextComplete(j);
      lo := j + 1;
    }
    return ZErrNoNotice, None;
  }
}
