/** What a ZCheckIfNotice call promises, stated over the model of it. */
module RetrievalFacts {
  import opened InputQueue
  import opened NoticeRetrieval

  /**
   * The walk stops at the first complete record that fails to parse or that
   * the predicate accepts: the converse of what Scan ensures. Scan's contract
   * leaves no other result possible.
   */
  lemma ScanStopsAtFirst<N>(rs: seq<Record>, lo: nat, j: nat, parse: seq<byte> -> Parsed<N>, pred: N -> bool)
    requires lo <= j < |rs| && rs[j].complete
    requires !Declined(rs[j], parse, pred)
    requires AllDeclined(rs, parse, pred, lo, j)
    ensures Scan(rs, lo, parse, pred) ==
      if parse(rs[j].packet).code != ZErrNone then ParseFailed(j, parse(rs[j].packet).code)
      else Matched(j, parse(rs[j].packet).notice)
  {
  }

  /** When every complete record from lo on is declined, the walk runs out. */
  lemma ScanRunsOut<N>(rs: seq<Record>, lo: nat, parse: seq<byte> -> Parsed<N>, pred: N -> bool)
    requires AllDeclined(rs, parse, pred, lo, |rs|)
    ensures Scan(rs, lo, parse, pred) == Exhausted
  {
  }

  /**
   * The queue changes only when a call succeeds, and then it loses exactly
   * one complete record, whose notice the predicate accepted and is returned;
   * a sender is reported only to a caller that asked for it.
   */
  lemma RemovesOnlyOnSuccess<N>(rs: seq<Record>, arrived: seq<Record>, readStatus: Code,
                                parse: seq<byte> -> Parsed<N>, pred: N -> bool, allocOk: bool, wantFrom: bool)
    ensures var o := Retrieve(rs, arrived, readStatus, parse, pred, allocOk, wantFrom);
      && (o.sender.Some? ==> wantFrom)
      && (o.queue != rs + arrived ==>
            && o.code == ZErrNone && o.notice.Some? && pred(o.notice.value)
            && exists j :: 0 <= j < |rs + arrived| && (rs + arrived)[j].complete
                 && o.queue == RemoveAt(rs + arrived, j)
                 && o.notice.value == parse((rs + arrived)[j].packet).notice
                 && multiset(o.queue) + multiset{(rs + arrived)[j]} == multiset(rs + arrived))
  {
    var q := rs + arrived;
    var s := Scan(q, 0, parse, pred);
    if readStatus == ZErrNone && s.Matched? {
      RemoveAtTakesOne(q, s.at);
    }
  }

  /** A failed drain is returned as it is; nothing is parsed or removed. */
  lemma ReadFailureReturned<N>(rs: seq<Record>, arrived: seq<Record>, readStatus: Code,
                               parse: seq<byte> -> Parsed<N>, pred: N -> bool, allocOk: bool, wantFrom: bool)
    requires readStatus != ZErrNone
    ensures Retrieve(rs, arrived, readStatus, parse, pred, allocOk, wantFrom) ==
      Outcome(readStatus, None, None, rs + arrived)
  {
  }

  /**
   * A parse failure on a visited record ends the call with that failure; the
   * queue keeps every record and nothing is written to the caller.
   */
  lemma ParseFailureAborts<N>(rs: seq<Record>, arrived: seq<Record>, j: nat,
                              parse: seq<byte> -> Parsed<N>, pred: N -> bool, allocOk: bool, wantFrom: bool)
    requires j < |rs + arrived| && (rs + arrived)[j].complete
    requires parse((rs + arrived)[j].packet).code != ZErrNone
    requires AllDeclined(rs + arrived, parse, pred, 0, j)
    ensures Retrieve(rs, arrived, ZErrNone, parse, pred, allocOk, wantFrom) ==
      Outcome(parse((rs + arrived)[j].packet).code, None, None, rs + arrived)
  {
    ScanStopsAtFirst(rs + arrived, 0, j, parse, pred);
  }

  /**
   * First match wins: the call acts on the earliest complete record whose
   * notice the predicate accepts. When the copy buffer cannot be allocated it
   * reports ENOMEM and keeps the record; otherwise it returns that record's
   * notice, reports its sender if asked to, and removes exactly that record.
   */
  lemma FirstMatchWins<N>(rs: seq<Record>, arrived: seq<Record>, j: nat,
                          parse: seq<byte> -> Parsed<N>, pred: N -> bool, allocOk: bool, wantFrom: bool)
    requires j < |rs + arrived| && (rs + arrived)[j].complete
    requires parse((rs + arrived)[j].packet).code == ZErrNone && pred(parse((rs + arrived)[j].packet).notice)
    requires AllDeclined(rs + arrived, parse, pred, 0, j)
    ensures var q := rs + arrived;
      Retrieve(rs, arrived, ZErrNone, parse, pred, allocOk, wantFrom) ==
        if !allocOk then Outcome(ENoMem, None, None, q)
        else Outcome(ZErrNone, Some(parse(q[j].packet).notice),
                     if wantFrom then Some(q[j].from) else None, RemoveAt(q, j))
  {
    ScanStopsAtFirst(rs + arrived, 0, j, parse, pred);
  }

  /** When no complete record is accepted the call reports ZERR_NONOTICE and changes nothing. */
  lemma NoMatchIsNoNotice<N>(rs: seq<Record>, arrived: seq<Record>,
                             parse: seq<byte> -> Parsed<N>, pred: N -> bool, allocOk: bool, wantFrom: bool)
    requires AllDeclined(rs + arrived, parse, pred, 0, |rs + arrived|)
    ensures Retrieve(rs, arrived, ZErrNone, parse, pred, allocOk, wantFrom) ==
      Outcome(ZErrNoNotice, None, None, rs + arrived)
  {
    ScanRunsOut(rs + arrived, 0, parse, pred);
  }

  /**
   * If the parse of the private copy fails, the failure is returned, the
   * sender has already been reported and the record stays in the queue.
   */
  lemma CopyParseFailureKeepsRecord<N>(rs: seq<Record>, j: nat, wantFrom: bool, reparsed: Parsed<N>)
    requires j < |rs|
    requires reparsed.code != ZErrNone
    ensures Deliver(rs, j, true, wantFrom, reparsed) ==
      Outcome(reparsed.code, Some(reparsed.notice), if wantFrom then Some(rs[j].from) else None, rs)
  {
  }

  /**
   * The copy holds the same bytes as the record, so its parse repeats the one
   * the predicate accepted: the failing branch of lines 49-53 is never taken.
   */
  lemma CopyParseSucceeds<N>(rs: seq<Record>, arrived: seq<Record>,
                             parse: seq<byte> -> Parsed<N>, pred: N -> bool, allocOk: bool, wantFrom: bool)
    ensures var o := Retrieve(rs, arrived, ZErrNone, parse, pred, allocOk, wantFrom);
      o.notice.Some? ==> o.code == ZErrNone && o.queue != rs + arrived
  {
    var q := rs + arrived;
    var s := Scan(q, 0, parse, pred);
    if s.Matched? {
      assert |RemoveAt(q, s.at)| != |q|;
    }
  }

  /**
   * At-most-once delivery: when every complete record parses and the
   * predicate accepts exactly one of them, a first call returns it and
   * removes it, and a second call with nothing new arriving reports
   * ZERR_NONOTICE.
   */
  lemma AtMostOnce<N>(rs: seq<Record>, j: nat, parse: seq<byte> -> Parsed<N>, pred: N -> bool,
                      wantFrom1: bool, allocOk2: bool, wantFrom2: bool)
    requires j < |rs| && rs[j].complete
    requires parse(rs[j].packet).code == ZErrNone && pred(parse(rs[j].packet).notice)
    requires forall k :: 0 <= k < |rs| && k != j && rs[k].complete ==> Declined(rs[k], parse, pred)
    ensures var o1 := Retrieve(rs, [], ZErrNone, parse, pred, true, wantFrom1);
      && o1.code == ZErrNone && o1.notice == Some(parse(rs[j].packet).notice)
      && o1.queue == RemoveAt(rs, j)
      && Retrieve(o1.queue, [], ZErrNone, parse, pred, allocOk2, wantFrom2) ==
         Outcome(ZErrNoNotice, None, None, o1.queue)
  {
    assert rs + [] == rs;
    FirstMatchWins(rs, [], j, parse, pred, true, wantFrom1);
    var rest := RemoveAt(rs, j);
    assert rest + [] == rest;
    forall k | 0 <= k < |rest| && rest[k].complete
      ensures Declined(rest[k], parse, pred)
    {
      if k < j {
        assert rest[k] == rs[k];
      } else {
        assert rest[k] == rs[k + 1];
      }
    }
    NoMatchIsNoNotice(rest, [], parse, pred, allocOk2, wantFrom2);
  }

  /** Appending records leaves the first complete record of the old queue first. */
  lemma {:induction false} FirstCompleteAppend(rs: seq<Record>, more: seq<Record>, i: nat)
    requires FirstCompleteFrom(rs, i).Some?
    ensures FirstCompleteFrom(rs + more, i) == FirstCompleteFrom(rs, i)
    decreases |rs| - i
  {
    if !rs[i].complete {
      FirstCompleteAppend(rs, more, i + 1);
    }
  }

  /** Appending records does not change a walk that stopped inside the old queue. */
  lemma {:induction false} ScanAppend<N>(rs: seq<Record>, more: seq<Record>, lo: nat,
                                         parse: seq<byte> -> Parsed<N>, pred: N -> bool)
    requires !Scan(rs, lo, parse, pred).Exhausted?
    ensures Scan(rs + more, lo, parse, pred) == Scan(rs, lo, parse, pred)
    decreases |rs| - lo
  {
    FirstCompleteAppend(rs, more, lo);
    var j := FirstCompleteFrom(rs, lo).value;
    assert (rs + more)[j] == rs[j];
    var p := parse(rs[j].packet);
    if p.code == ZErrNone && !pred(p.notice) {
      ScanAppend(rs, more, j + 1, parse, pred);
    }
  }

  /**
   * Records that arrive after the ones a call already settles on do not
   * change its result; they only stay queued behind the others.
   */
  lemma LaterArrivalsDoNotOverride<N>(rs: seq<Record>, arrived: seq<Record>, later: seq<Record>, readStatus: Code,
                                      parse: seq<byte> -> Parsed<N>, pred: N -> bool, allocOk: bool, wantFrom: bool)
    requires !Scan(rs + arrived, 0, parse, pred).Exhausted?
    ensures var o := Retrieve(rs, arrived, readStatus, parse, pred, allocOk, wantFrom);
      Retrieve(rs, arrived + later, readStatus, parse, pred, allocOk, wantFrom) == o.(queue := o.queue + later)
  {
    var q := rs + arrived;
    assert rs + (arrived + later) == q + later;
    ScanAppend(q, later, 0, parse, pred);
    var s := Scan(q, 0, parse, pred);
    if s.Matched? {
      assert (q + later)[s.at] == q[s.at];
      RemoveAtAppend(q, later, s.at);
    }
  }
}
