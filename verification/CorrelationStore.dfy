/** The correlation store when whole operations do not overlap: a map of maps that refines "endpoint to last event". */
module CorrelationStore {
  import opened Strings
  import opened CorrelationMachine

  // ---------- the simple form ----------

  /** Endpoints with the no-type correlation of their last event. */
  type Events = map<EndpointId, Correlation>

  /** `ReapOp` is a whole pass of the reaper, `ForgetOp` one deletion of it. */
  datatype Operation =
    | UpdateOp(endpoint: Endpoint, state: string, observer: string, now: int)
    | GetOp(receiver: ReceiverId, endpointId: EndpointId)
    | ReapOp(now: int)
    | ForgetOp(gone: EndpointId)

  predicate Expired(c: Correlation, now: int, ttl: int) {
    c.lastState == REMOVED && now - c.lastUpdated > ttl
  }

  function Apply(events: Events, op: Operation, ttl: int): Events {
    match op
    case UpdateOp(ep, state, observer, now) => events[ep.id := Correlation(state, now, ep, NO_TYPE, observer)]
    case GetOp(_, e) => if e in events then events else events[e := NEW_CORRELATION]
    case ReapOp(now) => map e | e in events && !Expired(events[e], now, ttl) :: events[e]
    case ForgetOp(gone) => events - {gone}
  }

  /** What an operation returns: for GetOrCreate, the endpoint's last event tagged with the receiver. */
  function Answer(events: Events, op: Operation): Option<Correlation> {
    if op.GetOp? then
      Some((if op.endpointId in events then events[op.endpointId] else NEW_CORRELATION).(receiverId := op.receiver))
    else None
  }

  function ApplyAll(events: Events, ops: seq<Operation>, ttl: int): Events
    decreases |ops|
  {
    if ops == [] then events else ApplyAll(Apply(events, ops[0], ttl), ops[1..], ttl)
  }

  function Answers(events: Events, ops: seq<Operation>, ttl: int): (r: seq<Option<Correlation>>)
    ensures |r| == |ops|
    decreases |ops|
  {
    if ops == [] then [] else [Answer(events, ops[0])] + Answers(Apply(events, ops[0], ttl), ops[1..], ttl)
  }

  // ---------- the store ----------

  type Receivers = map<ReceiverId, Correlation>

  /** There is a no-type entry, and the other entries differ from it only in the receiver they name. */
  ghost predicate Agree(receivers: Receivers) {
    NO_TYPE in receivers &&
    forall r :: r in receivers ==> receivers[r] == receivers[NO_TYPE].(receiverId := r)
  }

  ghost predicate AllAgree(correlations: map<EndpointId, Receivers>) {
    forall e :: e in correlations ==> Agree(correlations[e])
  }

  ghost function EventsOf(correlations: map<EndpointId, Receivers>): Events
    requires AllAgree(correlations)
  {
    map e | e in correlations :: correlations[e][NO_TYPE]
  }

  lemma SetReceivers(correlations: map<EndpointId, Receivers>, e: EndpointId, receivers: Receivers)
    requires AllAgree(correlations) && Agree(receivers)
    ensures AllAgree(correlations[e := receivers])
    ensures EventsOf(correlations[e := receivers]) == EventsOf(correlations)[e := receivers[NO_TYPE]]
  {
  }

  /** The endpoints of `before` but for those looked at, not in `left`, that have expired. */
  ghost predicate Reaped(before: map<EndpointId, Receivers>, after: map<EndpointId, Receivers>, left: set<EndpointId>,
                         now: int, ttl: int)
  {
    && AllAgree(before) && after.Keys <= before.Keys && (forall e :: e in after ==> after[e] == before[e])
    && (forall e :: e in before ==>
          (e in after <==> e in left || !(NO_TYPE in before[e] && Expired(before[e][NO_TYPE], now, ttl))))
  }

  lemma NoTypeThere(correlations: map<EndpointId, Receivers>, left: set<EndpointId>)
    requires AllAgree(correlations)
    ensures forall e :: e in left && e in correlations ==> NO_TYPE in correlations[e]
  {
  }

  lemma ReapedAll(before: map<EndpointId, Receivers>, after: map<EndpointId, Receivers>, now: int, ttl: int)
    requires Reaped(before, after, {}, now, ttl)
    ensures AllAgree(after)
    ensures EventsOf(after) == Apply(EventsOf(before), ReapOp(now), ttl)
  {
    hide Expired;
    NoTypeThere(before, before.Keys);
  }

  class CorrelationMap {
    var correlations: map<EndpointId, Receivers>
    const ttl: int

    constructor (ttl: int)
      ensures Valid() && this.ttl == ttl && correlations == map[]
    {
      this.ttl := ttl;
      correlations := map[];
    }

    ghost predicate Valid()
      reads this
    {
      AllAgree(correlations)
    }

    ghost function Abstract(): Events
      requires Valid()
      reads this
    {
      EventsOf(correlations)
    }

    method UpdateEndpoint(endpoint: Endpoint, state: string, observer: string, now: int)
      requires Valid()
      modifies this
      ensures Valid() && Abstract() == Apply(old(Abstract()), UpdateOp(endpoint, state, observer, now), ttl)
      ensures forall e :: e in old(correlations) ==>
        e in correlations && correlations[e].Keys == old(correlations[e].Keys)
    {
      var unknown := endpoint.id !in correlations;
      var receivers := if unknown then map[] else correlations[endpoint.id];
      if unknown {
        receivers := receivers[NO_TYPE := Correlation(state, now, endpoint, NO_TYPE, observer)];
      } else {
        ghost var before := receivers;
        var left := receivers.Keys;
        while left != {}
          invariant left <= receivers.Keys == before.Keys
          invariant forall r :: r in receivers ==>
            receivers[r] == if r in left then before[r] else Correlation(state, now, endpoint, r, observer)
        {
          var r :| r in left;
          var c := receivers[r];
          c := c.(endpoint := endpoint);
          c := c.(observerId := observer);
          c := c.(lastUpdated := now);
          c := c.(lastState := state);
          receivers := receivers[r := c];
          left := left - {r};
        }
      }
      SetReceivers(correlations, endpoint.id, receivers);
      correlations := correlations[endpoint.id := receivers];
    }

    method GetOrCreate(receiver: ReceiverId, endpointId: EndpointId) returns (c: Correlation)
      requires Valid()
      modifies this
      ensures Valid() && Abstract() == Apply(old(Abstract()), GetOp(receiver, endpointId), ttl)
      ensures Some(c) == Answer(old(Abstract()), GetOp(receiver, endpointId))
      ensures endpointId in correlations && receiver in correlations[endpointId]
      ensures correlations[endpointId][receiver] == c
    {
      var receivers := if endpointId in correlations then correlations[endpointId] else map[NO_TYPE := NEW_CORRELATION];
      if receiver in receivers {
        c := receivers[receiver];
      } else {
        c := receivers[NO_TYPE].(receiverId := receiver);
        receivers := receivers[receiver := c];
      }
      SetReceivers(correlations, endpointId, receivers);
      assert endpointId in Abstract() ==> Abstract()[endpointId := Abstract()[endpointId]] == Abstract();
      correlations := correlations[endpointId := receivers];
    }

    method Reap(now: int)
      requires Valid()
      modifies this
      ensures Valid() && Abstract() == Apply(old(Abstract()), ReapOp(now), ttl)
    {
      hide Agree;
      var left := correlations.Keys;
      ghost var before := correlations;
      while left != {}
        invariant left <= correlations.Keys
        invariant Reaped(before, correlations, left, now, ttl)
      {
        NoTypeThere(before, left);
        var e :| e in left;
        left := left - {e};
        if NO_TYPE in correlations[e] {
          var c := correlations[e][NO_TYPE];
          if c.lastState == REMOVED && now - c.lastUpdated > ttl { correlations := correlations - {e}; }
        }
      }
      ReapedAll(before, correlations, now, ttl);
    }

    method Forget(gone: EndpointId)
      requires Valid()
      modifies this
      ensures Valid() && Abstract() == Apply(old(Abstract()), ForgetOp(gone), ttl)
    {
      hide Agree;
      NoTypeThere(correlations, correlations.Keys);
      correlations := correlations - {gone};
    }

    method RunOne(op: Operation) returns (result: Option<Correlation>)
      requires Valid()
      modifies this
      ensures Valid() && Abstract() == Apply(old(Abstract()), op, ttl) && result == Answer(old(Abstract()), op)
    {
      result := None;
      match op
      case UpdateOp(ep, state, observer, now) => UpdateEndpoint(ep, state, observer, now);
      case GetOp(r, e) =>
        var c := GetOrCreate(r, e);
        result := Some(c);
      case ReapOp(now) => Reap(now);
      case ForgetOp(gone) => Forget(gone);
    }

    /** Any sequence of operations, one after the other, does to the store what it does to the simple form, and every
        GetOrCreate returns what the simple form answers. */
    method RunAll(ops: seq<Operation>) returns (results: seq<Option<Correlation>>)
      requires Valid()
      modifies this
      ensures Valid() && Abstract() == ApplyAll(old(Abstract()), ops, ttl)
      ensures results == Answers(old(Abstract()), ops, ttl)
    {
      hide AllAgree, EventsOf, Apply, Answer;
      results := [];
      ghost var start := Abstract();
      assert ops[0..] == ops;
      for i := 0 to |ops|
        invariant Valid() && ApplyAll(Abstract(), ops[i..], ttl) == ApplyAll(start, ops, ttl)
        invariant results + Answers(Abstract(), ops[i..], ttl) == Answers(start, ops, ttl)
      {
        assert ops[i..][1..] == ops[i + 1..];
        var result := RunOne(ops[i]);
        results := results + [result];
      }
      assert ops[|ops|..] == [];
    }
  }

  // ---------- what the simple form means ----------

  /** The last event of an endpoint, read off the operations that concern it. */
  function LastEvent(ops: seq<Operation>, e: EndpointId, ttl: int): Option<Correlation> {
    if ops == [] then None else
      var before := LastEvent(ops[..|ops| - 1], e, ttl);
      match ops[|ops| - 1]
      case UpdateOp(ep, state, observer, now) =>
        if ep.id == e then Some(Correlation(state, now, ep, NO_TYPE, observer)) else before
      case GetOp(_, e') => if e' == e && before.None? then Some(NEW_CORRELATION) else before
      case ReapOp(now) => if before.Some? && Expired(before.value, now, ttl) then None else before
      case ForgetOp(gone) => if gone == e then None else before
  }

  lemma {:induction false} ApplyAllSnoc(events: Events, ops: seq<Operation>, op: Operation, ttl: int)
    ensures ApplyAll(events, ops + [op], ttl) == Apply(ApplyAll(events, ops, ttl), op, ttl)
    decreases |ops|
  {
    if ops == [] {
      assert (ops + [op])[1..] == [];
    } else {
      assert (ops + [op])[1..] == ops[1..] + [op];
      ApplyAllSnoc(Apply(events, ops[0], ttl), ops[1..], op, ttl);
    }
  }

  /** Over any sequence of operations on an empty store, what is known of an endpoint is its last event, whatever
      happened to other endpoints in between. */
  lemma {:induction false} LastEventWins(ops: seq<Operation>, e: EndpointId, ttl: int)
    ensures (e in ApplyAll(map[], ops, ttl)) == LastEvent(ops, e, ttl).Some?
    ensures e in ApplyAll(map[], ops, ttl) ==> ApplyAll(map[], ops, ttl)[e] == LastEvent(ops, e, ttl).value
    decreases |ops|
  {
    if ops != [] {
      var front, op := ops[..|ops| - 1], ops[|ops| - 1];
      assert ops == front + [op];
      LastEventWins(front, e, ttl);
      ApplyAllSnoc(map[], front, op, ttl);
    }
  }

  lemma {:induction false} AnswerAt(events: Events, ops: seq<Operation>, i: nat, ttl: int)
    requires i < |ops|
    ensures Answers(events, ops, ttl)[i] == Answer(ApplyAll(events, ops[..i], ttl), ops[i])
    decreases |ops|
  {
    hide Apply, Answer;
    if i > 0 {
      AnswerAt(Apply(events, ops[0], ttl), ops[1..], i - 1, ttl);
      assert ops[..i][0] == ops[0] && ops[..i][1..] == ops[1..][..i - 1];
    }
  }

  /** Every GetOrCreate of a sequence of operations on an empty store answers with the endpoint's last event before it,
      or with a new correlation if there was none, tagged with the receiver. */
  lemma AnswersAreLastEvents(ops: seq<Operation>, i: nat, ttl: int)
    requires i < |ops| && ops[i].GetOp?
    ensures
      var event := LastEvent(ops[..i], ops[i].endpointId, ttl);
      Answers(map[], ops, ttl)[i] ==
        Some((if event.Some? then event.value else NEW_CORRELATION).(receiverId := ops[i].receiver))
  {
    hide ApplyAll, LastEvent, Answers;
    AnswerAt(map[], ops, i, ttl);
    LastEventWins(ops[..i], ops[i].endpointId, ttl);
  }
}
