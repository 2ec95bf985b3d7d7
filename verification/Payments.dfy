/** The life of a payment request: build, submit the signature, broadcast, confirm, cancel. */
module Payments {
  import opened Common

  type Id = nat
  type HoldingId = nat

  datatype Status = Draft | AwaitingSignature | AwaitingBroadcast | Broadcast | Confirmed | Failed | Expired | Cancelled

  datatype Request = Request(holding: HoldingId, status: Status, psbt: Option<string>, signedHex: Option<string>,
                             broadcastTxid: Option<string>, entry: Option<Id>)

  datatype AttemptStatus = Submitted | Accepted | Rejected

  datatype Attempt = Attempt(request: Id, hex: string, txid: string, status: AttemptStatus)

  datatype Bank = Bank(requests: map<Id, Request>, attempts: map<Id, Attempt>)

  /** What the node answers to `sendrawtransaction`. */
  datatype NodeReply = Sent(txid: string) | RpcError | Unreachable

  datatype Outcome = Ok | NotFound | WrongStatus | InFlightExists | BankingError | BroadcastRejected | Ambiguous

  predicate InFlight(status: Status)
  {
    status == Draft || status == AwaitingSignature || status == AwaitingBroadcast || status == Broadcast
  }

  predicate HasInFlight(b: Bank, h: HoldingId)
  {
    exists r :: r in b.requests && b.requests[r].holding == h && InFlight(b.requests[r].status)
  }

  /////////////////////////////////////////////////////////////////////////////
  // Operations; what the wallet library and the node return is an argument
  /////////////////////////////////////////////////////////////////////////////

  datatype Op =
    | Build(id: Id, holding: HoldingId, built: Option<string>)
    | Submit(id: Id, signed: Option<string>, psbt: Option<string>)
    | Send(id: Id, attempt: Id, txid: string, reply: NodeReply)
    | Confirm(txid: string, entry: Id)
    | Cancel(id: Id)

  /** Generated ids are fresh. */
  predicate Fresh(b: Bank, op: Op)
  {
    (op.Build? ==> op.id !in b.requests) && (op.Send? ==> op.attempt !in b.attempts)
  }

  function RequestsWithTxid(b: Bank, txid: string): set<Id>
  {
    set r | r in b.requests && b.requests[r].broadcastTxid == Some(txid)
  }

  function OutcomeOf(b: Bank, op: Op): Outcome
  {
    match op
    case Build(_, h, built) =>
      if HasInFlight(b, h) then InFlightExists else if built.None? then BankingError else Ok
    case Submit(id, signed, _) =>
      if id !in b.requests then NotFound
      else if b.requests[id].status != AwaitingSignature then WrongStatus
      else if b.requests[id].psbt.None? || signed.None? then BankingError
      else Ok
    case Send(id, _, _, reply) =>
      if id !in b.requests then NotFound
      else if b.requests[id].status != AwaitingBroadcast then WrongStatus
      else if b.requests[id].signedHex.None? then BankingError
      else if reply.RpcError? then BroadcastRejected
      else if reply.Unreachable? then BankingError
      else Ok
    case Confirm(txid, _) =>
      var matching := RequestsWithTxid(b, txid);
      if matching == {} then NotFound
      else if |matching| > 1 then Ambiguous
      else if forall r :: r in matching ==> b.requests[r].status == Broadcast then Ok
      else WrongStatus
    case Cancel(id) =>
      if id !in b.requests then NotFound
      else if b.requests[id].status in {Draft, AwaitingSignature, AwaitingBroadcast} then Ok
      else WrongStatus
  }

  /** The attempt is on record whatever the node answers; only its acceptance touches the request. */
  function Sending(b: Bank, id: Id, attempt: Id, txid: string, reply: NodeReply): Bank
  {
    if id !in b.requests || b.requests[id].status != AwaitingBroadcast || b.requests[id].signedHex.None? then b
    else
      var hex := b.requests[id].signedHex.value;
      match reply
      case RpcError => b.(attempts := b.attempts[attempt := Attempt(id, hex, txid, Rejected)])
      case Unreachable => b.(attempts := b.attempts[attempt := Attempt(id, hex, txid, Submitted)])
      case Sent(sent) =>
        b.(attempts := b.attempts[attempt := Attempt(id, hex, txid, Accepted)],
           requests := b.requests[id := b.requests[id].(broadcastTxid := Some(sent), status := Broadcast)])
  }

  function Apply(b: Bank, op: Op): Bank
  {
    var outcome := OutcomeOf(b, op);
    match op
    case Build(id, h, built) =>
      if outcome != Ok then b
      else b.(requests := b.requests[id := Request(h, AwaitingSignature, built, None, None, None)])
    case Submit(id, signed, psbt) =>
      if outcome != Ok then b
      else
        var r := b.requests[id];
        var signedPsbt := if psbt.Some? then psbt else r.psbt;
        b.(requests := b.requests[id := r.(signedHex := signed, psbt := signedPsbt, status := AwaitingBroadcast)])
    case Send(id, attempt, txid, reply) => Sending(b, id, attempt, txid, reply)
    case Confirm(txid, entry) =>
      if outcome != Ok then b
      else
        b.(requests := map r | r in b.requests ::
             if b.requests[r].broadcastTxid == Some(txid)
             then b.requests[r].(entry := Some(entry), status := Confirmed) else b.requests[r])
    case Cancel(id) =>
      if outcome != Ok then b
      else b.(requests := b.requests[id := b.requests[id].(status := Cancelled)])
  }

  /////////////////////////////////////////////////////////////////////////////
  // What each operation writes, on the columns
  /////////////////////////////////////////////////////////////////////////////

  /** Refused exactly while another request of the holding is in flight; otherwise the request is stored as built. */
  lemma BuildStores(b: Bank, id: Id, h: HoldingId, built: Option<string>)
    ensures OutcomeOf(b, Build(id, h, built)) == InFlightExists <==>
            exists r :: r in b.requests && b.requests[r].holding == h &&
                        b.requests[r].status in {Draft, AwaitingSignature, AwaitingBroadcast, Broadcast}
    ensures OutcomeOf(b, Build(id, h, built)) == Ok ==> built.Some?
    ensures OutcomeOf(b, Build(id, h, built)) in {InFlightExists, BankingError, Ok}
    ensures OutcomeOf(b, Build(id, h, built)) != Ok ==> Apply(b, Build(id, h, built)) == b
    ensures OutcomeOf(b, Build(id, h, built)) == Ok ==>
              Apply(b, Build(id, h, built)) ==
              Bank(b.requests[id := Request(h, AwaitingSignature, built, None, None, None)], b.attempts)
  {
  }

  /** The signed hex is stored as submitted, the PSBT only when one was submitted, nothing else changes. */
  lemma SubmitStores(b: Bank, id: Id, signed: Option<string>, psbt: Option<string>)
    ensures OutcomeOf(b, Submit(id, signed, psbt)) == Ok <==>
            && id in b.requests && b.requests[id].status == AwaitingSignature
            && b.requests[id].psbt.Some? && signed.Some?
    ensures OutcomeOf(b, Submit(id, signed, psbt)) == NotFound <==> id !in b.requests
    ensures OutcomeOf(b, Submit(id, signed, psbt)) == WrongStatus <==>
            id in b.requests && b.requests[id].status != AwaitingSignature
    ensures OutcomeOf(b, Submit(id, signed, psbt)) in {NotFound, WrongStatus, BankingError, Ok}
    ensures OutcomeOf(b, Submit(id, signed, psbt)) != Ok ==> Apply(b, Submit(id, signed, psbt)) == b
    ensures OutcomeOf(b, Submit(id, signed, psbt)) == Ok ==>
              var b' := Apply(b, Submit(id, signed, psbt));
              && b' == Bank(b.requests[id := b'.requests[id]], b.attempts)
              && b'.requests[id].signedHex == signed && b'.requests[id].status == AwaitingBroadcast
              && b'.requests[id].psbt == (if psbt == None then b.requests[id].psbt else psbt)
              && b'.requests[id].holding == b.requests[id].holding
              && b'.requests[id].broadcastTxid == b.requests[id].broadcastTxid
              && b'.requests[id].entry == b.requests[id].entry
  {
  }

  /** One attempt with the stored hex and the txid, marked by the answer; only an acceptance marks the request. */
  lemma SendRecords(b: Bank, id: Id, attempt: Id, txid: string, reply: NodeReply)
    ensures var b' := Apply(b, Send(id, attempt, txid, reply));
            if id in b.requests && b.requests[id].status == AwaitingBroadcast && b.requests[id].signedHex.Some? then
              && b'.attempts == b.attempts[attempt := b'.attempts[attempt]]
              && b'.attempts[attempt].request == id && b'.attempts[attempt].txid == txid
              && Some(b'.attempts[attempt].hex) == b.requests[id].signedHex
              && (b'.attempts[attempt].status == Accepted <==> reply.Sent?)
              && (b'.attempts[attempt].status == Rejected <==> reply.RpcError?)
              && (!reply.Sent? ==> b'.requests == b.requests)
              && (reply.Sent? ==>
                    var row := b.requests[id].(broadcastTxid := Some(reply.txid), status := Broadcast);
                    b'.requests == b.requests[id := row])
            else b' == b
  {
  }

  /** What the caller of a broadcast is told. */
  lemma SendReports(b: Bank, id: Id, attempt: Id, txid: string, reply: NodeReply)
    ensures OutcomeOf(b, Send(id, attempt, txid, reply)) ==
            if id !in b.requests then NotFound
            else if b.requests[id].status != AwaitingBroadcast then WrongStatus
            else if b.requests[id].signedHex == None then BankingError
            else match reply case Sent(_) => Ok case RpcError => BroadcastRejected case Unreachable => BankingError
  {
  }

  /** Cancelling changes the status of a request that was not broadcast, and nothing else. */
  lemma CancelMarks(b: Bank, id: Id)
    ensures var b' := Apply(b, Cancel(id));
            if id in b.requests && b.requests[id].status in {Draft, AwaitingSignature, AwaitingBroadcast} then
              && b' == Bank(b.requests[id := b.requests[id].(status := Cancelled)], b.attempts)
              && OutcomeOf(b, Cancel(id)) == Ok
            else
              && b' == b
              && OutcomeOf(b, Cancel(id)) == if id in b.requests then WrongStatus else NotFound
  {
  }

  /////////////////////////////////////////////////////////////////////////////
  // The invariant
  /////////////////////////////////////////////////////////////////////////////

  function AcceptedFor(b: Bank, r: Id): set<Id>
  {
    set a | a in b.attempts && b.attempts[a].request == r && b.attempts[a].status == Accepted
  }

  ghost predicate OneInFlight(b: Bank)
  {
    var inFlight := {Draft, AwaitingSignature, AwaitingBroadcast, Broadcast};
    forall r, q ::
      (r in b.requests && q in b.requests && b.requests[r].holding == b.requests[q].holding
       && b.requests[r].status in inFlight && b.requests[q].status in inFlight) ==> r == q
  }

  /** Status and fields go together. */
  ghost predicate FieldsCoupled(q: Request)
  {
    && (q.broadcastTxid.Some? <==> q.status == Broadcast || q.status == Confirmed)
    && (q.status in {AwaitingBroadcast, Broadcast, Confirmed} ==> q.signedHex.Some?)
    && (q.status == AwaitingSignature ==> q.signedHex.None?)
    && (q.entry.Some? <==> q.status == Confirmed)
    && q.status in {AwaitingSignature, AwaitingBroadcast, Broadcast, Confirmed, Cancelled}
    && q.psbt.Some?
  }

  /** One attempt was accepted exactly when the txid is set. */
  ghost predicate Coupled(b: Bank, r: Id)
    requires r in b.requests
  {
    && FieldsCoupled(b.requests[r])
    && |AcceptedFor(b, r)| == if b.requests[r].broadcastTxid.Some? then 1 else 0
  }

  ghost predicate Valid(b: Bank)
  {
    && OneInFlight(b)
    && (forall r :: r in b.requests ==> Coupled(b, r))
    && (forall a :: a in b.attempts ==> b.attempts[a].request in b.requests)
  }

  /** What is in flight afterwards was in flight before, or has just been built for a holding with nothing in flight. */
  lemma InFlightStep(b: Bank, op: Op, r: Id)
    requires Fresh(b, op) && r in Apply(b, op).requests && InFlight(Apply(b, op).requests[r].status)
    ensures if op.Build? && op.id == r then !HasInFlight(b, Apply(b, op).requests[r].holding)
            else r in b.requests && InFlight(b.requests[r].status) &&
                 b.requests[r].holding == Apply(b, op).requests[r].holding
  {
  }

  lemma ApplyKeepsOneInFlight(b: Bank, op: Op)
    requires OneInFlight(b) && Fresh(b, op)
    ensures OneInFlight(Apply(b, op))
  {
    var after := Apply(b, op).requests;
    forall r, q | r in after && q in after && after[r].holding == after[q].holding && InFlight(after[r].status)
        && InFlight(after[q].status)
      ensures r == q
    {
      InFlightStep(b, op, r);
      InFlightStep(b, op, q);
    }
  }

  lemma ApplyKeepsReferences(b: Bank, op: Op)
    requires Valid(b) && Fresh(b, op)
    ensures forall a :: a in Apply(b, op).attempts ==> Apply(b, op).attempts[a].request in Apply(b, op).requests
    ensures forall r :: r in b.requests ==> r in Apply(b, op).requests
  {
  }

  /** Only an accepted broadcast changes the accepted attempts, and only those of its request. */
  lemma AcceptedAfter(b: Bank, op: Op, r: Id)
    requires Fresh(b, op)
    ensures AcceptedFor(Apply(b, op), r) ==
            if op.Send? && op.id == r && OutcomeOf(b, op) == Ok then AcceptedFor(b, r) + {op.attempt}
            else AcceptedFor(b, r)
  {
    var b' := Apply(b, op);
    if !op.Send? {
      assert b'.attempts == b.attempts;
    } else if b'.attempts != b.attempts {
      assert b'.attempts == b.attempts[op.attempt := b'.attempts[op.attempt]];
    }
  }

  lemma FieldsStep(b: Bank, op: Op, r: Id)
    requires Fresh(b, op) && r in Apply(b, op).requests
    requires r in b.requests ==> FieldsCoupled(b.requests[r])
    ensures FieldsCoupled(Apply(b, op).requests[r])
  {
  }

  /** Only an accepted broadcast gives a request a txid. */
  lemma TxidStep(b: Bank, op: Op, r: Id)
    requires Fresh(b, op) && r in Apply(b, op).requests
    ensures op.Send? && op.id == r && OutcomeOf(b, op) == Ok ==>
              r in b.requests && b.requests[r].status == AwaitingBroadcast
                  && Apply(b, op).requests[r].broadcastTxid.Some?
    ensures !(op.Send? && op.id == r && OutcomeOf(b, op) == Ok) ==>
              Apply(b, op).requests[r].broadcastTxid == if r in b.requests then b.requests[r].broadcastTxid else None
  {
  }

  lemma ApplyKeepsCoupled(b: Bank, op: Op, r: Id)
    requires Valid(b) && Fresh(b, op) && r in Apply(b, op).requests
    ensures Coupled(Apply(b, op), r)
  {
    if r in b.requests {
      assert Coupled(b, r);
    } else {
      assert AcceptedFor(b, r) == {};
    }
    FieldsStep(b, op, r);
    TxidStep(b, op, r);
    AcceptedAfter(b, op, r);
    if op.Send? && op.id == r && OutcomeOf(b, op) == Ok {
      assert AcceptedFor(b, r) == {};
      assert AcceptedFor(b, r) + {op.attempt} == {op.attempt};
    }
  }

  lemma ApplyKeepsValid(b: Bank, op: Op)
    requires Valid(b) && Fresh(b, op)
    ensures Valid(Apply(b, op))
  {
    ApplyKeepsOneInFlight(b, op);
    ApplyKeepsReferences(b, op);
    forall r | r in Apply(b, op).requests ensures Coupled(Apply(b, op), r) {
      ApplyKeepsCoupled(b, op, r);
    }
  }

  ghost predicate Possible(b: Bank, ops: seq<Op>)
    decreases ops
  {
    ops == [] || (Fresh(b, ops[0]) && Possible(Apply(b, ops[0]), ops[1..]))
  }

  ghost function After(b: Bank, ops: seq<Op>): Bank
    decreases ops
  {
    if ops == [] then b else After(Apply(b, ops[0]), ops[1..])
  }

  /** Over every serial run: one request in flight per holding, and status coupled to fields and attempts. */
  lemma {:induction false} LifecycleSafe(ops: seq<Op>, b: Bank)
    requires Valid(b) && Possible(b, ops)
    ensures Valid(After(b, ops))
    decreases ops
  {
    if ops != [] {
      ApplyKeepsValid(b, ops[0]);
      LifecycleSafe(ops[1..], Apply(b, ops[0]));
    }
  }

  function AttemptsFor(b: Bank, r: Id): set<Id>
  {
    set a | a in b.attempts && b.attempts[a].request == r
  }

  ghost predicate SameBroadcast(b: Bank, b': Bank, r: Id)
    requires r in b.requests
  {
    && r in b'.requests
    && b'.requests[r].broadcastTxid == b.requests[r].broadcastTxid
    && b'.requests[r].signedHex == b.requests[r].signedHex
    && AttemptsFor(b', r) == AttemptsFor(b, r)
    && AcceptedFor(b', r) == AcceptedFor(b, r)
  }

  /** Only a request that awaits its broadcast gets an attempt. */
  lemma AttemptsKept(b: Bank, op: Op, r: Id)
    requires Fresh(b, op) && r in b.requests && b.requests[r].status != AwaitingBroadcast
    ensures AttemptsFor(Apply(b, op), r) == AttemptsFor(b, r)
  {
    var b' := Apply(b, op);
    if op.Send? && b'.attempts != b.attempts {
      assert b'.attempts == b.attempts[op.attempt := b'.attempts[op.attempt]];
    }
  }

  /** Only a submission writes the signature, and only while it is awaited. */
  lemma SignatureKept(b: Bank, op: Op, r: Id)
    requires Fresh(b, op) && r in b.requests && b.requests[r].status != AwaitingSignature
    ensures r in Apply(b, op).requests && Apply(b, op).requests[r].signedHex == b.requests[r].signedHex
  {
  }

  lemma BroadcastStep(b: Bank, op: Op, r: Id)
    requires Valid(b) && Fresh(b, op) && r in b.requests && b.requests[r].broadcastTxid.Some?
    ensures SameBroadcast(b, Apply(b, op), r)
  {
    assert Coupled(b, r);
    SignatureKept(b, op, r);
    TxidStep(b, op, r);
    AttemptsKept(b, op, r);
    AcceptedAfter(b, op, r);
  }

  /**
   Once the node has accepted it, a payment keeps its txid, its signature and its one accepted
   attempt, and no further attempt is made.
   */
  lemma {:induction false} BroadcastIsFinal(ops: seq<Op>, b: Bank, r: Id)
    requires Valid(b) && Possible(b, ops)
    requires r in b.requests && b.requests[r].broadcastTxid.Some?
    ensures SameBroadcast(b, After(b, ops), r)
    decreases ops
  {
    if ops != [] {
      BroadcastStep(b, ops[0], r);
      ApplyKeepsValid(b, ops[0]);
      BroadcastIsFinal(ops[1..], Apply(b, ops[0]), r);
    }
  }

  /////////////////////////////////////////////////////////////////////////////
  // The service
  /////////////////////////////////////////////////////////////////////////////

  class BankingService {
    var requests: map<Id, Request>
    var attempts: map<Id, Attempt>

    constructor ()
      ensures View() == Bank(map[], map[]) && Valid(View())
    {
      requests, attempts := map[], map[];
    }

    function View(): Bank
      reads this
    {
      Bank(requests, attempts)
    }

    method BuildPaymentRequest(id: Id, h: HoldingId, built: Option<string>) returns (outcome: Outcome)
      requires Valid(View()) && id !in requests
      modifies this`requests
      ensures outcome == OutcomeOf(old(View()), Build(id, h, built))
              && View() == Apply(old(View()), Build(id, h, built))
      ensures Valid(View())
    {
      ApplyKeepsValid(View(), Build(id, h, built));
      if HasInFlight(View(), h) { return InFlightExists; }
      if built.None? { return BankingError; }
      requests := requests[id := Request(h, AwaitingSignature, built, None, None, None)];
      return Ok;
    }

    /** `signed` is the hex obtained from the submission, None when the library rejects it. */
    method SubmitSigned(id: Id, signed: Option<string>, psbt: Option<string>) returns (outcome: Outcome)
      requires Valid(View())
      modifies this`requests
      ensures outcome == OutcomeOf(old(View()), Submit(id, signed, psbt))
              && View() == Apply(old(View()), Submit(id, signed, psbt))
      ensures Valid(View())
    {
      ApplyKeepsValid(View(), Submit(id, signed, psbt));
      if id !in requests { return NotFound; }
      var r := requests[id];
      if r.status != AwaitingSignature { return WrongStatus; }
      if r.psbt.None? || signed.None? { return BankingError; }
      r := r.(signedHex := signed);
      if psbt.Some? {
        r := r.(psbt := psbt);
      }
      requests := requests[id := r.(status := AwaitingBroadcast)];
      return Ok;
    }

    /** The attempt row is written before the node is called and updated with its answer. */
    method BroadcastRequest(id: Id, attempt: Id, txid: string, reply: NodeReply) returns (outcome: Outcome)
      requires Valid(View()) && attempt !in attempts
      modifies this
      ensures outcome == OutcomeOf(old(View()), Send(id, attempt, txid, reply))
              && View() == Apply(old(View()), Send(id, attempt, txid, reply))
      ensures Valid(View())
    {
      ApplyKeepsValid(View(), Send(id, attempt, txid, reply));
      if id !in requests { return NotFound; }
      if requests[id].status != AwaitingBroadcast { return WrongStatus; }
      if requests[id].signedHex.None? { return BankingError; }
      CallNode(id, attempt, requests[id].signedHex.value, txid, reply);
      outcome := match reply case RpcError => BroadcastRejected case Unreachable => BankingError case Sent(_) => Ok;
    }

    /** Writes the attempt, calls the node, and records its answer. */
    method CallNode(id: Id, attempt: Id, hex: string, txid: string, reply: NodeReply)
      requires id in requests && requests[id].status == AwaitingBroadcast && requests[id].signedHex == Some(hex)
      modifies this
      ensures View() == Sending(old(View()), id, attempt, txid, reply)
    {
      attempts := attempts[attempt := Attempt(id, hex, txid, Submitted)];
      match reply
      case RpcError =>
        attempts := attempts[attempt := attempts[attempt].(status := Rejected)];
      case Unreachable =>
      case Sent(sent) =>
        attempts := attempts[attempt := attempts[attempt].(status := Accepted)];
        requests := requests[id := requests[id].(broadcastTxid := Some(sent), status := Broadcast)];
    }

    /** A confirmed transaction flips the one request that broadcast it. */
    method ConfirmByTxid(txid: string, entry: Id) returns (outcome: Outcome)
      requires Valid(View())
      modifies this`requests
      ensures outcome == OutcomeOf(old(View()), Confirm(txid, entry))
              && View() == Apply(old(View()), Confirm(txid, entry))
      ensures Valid(View())
    {
      ApplyKeepsValid(View(), Confirm(txid, entry));
      var matching := RequestsWithTxid(View(), txid);
      if matching == {} { return NotFound; }
      if |matching| > 1 { return Ambiguous; }
      var id :| id in matching;
      OnlyMember(matching, id);
      ConfirmOne(View(), txid, entry, id);
      if requests[id].status != Broadcast { return WrongStatus; }
      requests := requests[id := requests[id].(entry := Some(entry), status := Confirmed)];
      return Ok;
    }

    method CancelRequest(id: Id) returns (outcome: Outcome)
      requires Valid(View())
      modifies this`requests
      ensures outcome == OutcomeOf(old(View()), Cancel(id)) && View() == Apply(old(View()), Cancel(id))
      ensures Valid(View())
    {
      ApplyKeepsValid(View(), Cancel(id));
      if id !in requests { return NotFound; }
      var status := requests[id].status;
      if status != Draft && status != AwaitingSignature && status != AwaitingBroadcast { return WrongStatus; }
      requests := requests[id := requests[id].(status := Cancelled)];
      return Ok;
    }
  }

  /** With one matching request, confirming looks at that request only. */
  lemma ConfirmOne(b: Bank, txid: string, entry: Id, id: Id)
    requires RequestsWithTxid(b, txid) == {id}
    ensures id in b.requests
    ensures OutcomeOf(b, Confirm(txid, entry)) == if b.requests[id].status == Broadcast then Ok else WrongStatus
    ensures b.requests[id].status == Broadcast ==>
              Apply(b, Confirm(txid, entry)) ==
              b.(requests := b.requests[id := b.requests[id].(entry := Some(entry), status := Confirmed)])
  {
    assert id in RequestsWithTxid(b, txid);
    forall r | r in b.requests ensures b.requests[r].broadcastTxid == Some(txid) <==> r == id {
      assert r in RequestsWithTxid(b, txid) <==> r in {id};
    }
    if b.requests[id].status == Broadcast {
      assert Apply(b, Confirm(txid, entry)).requests ==
             b.requests[id := b.requests[id].(entry := Some(entry), status := Confirmed)];
    }
  }

  lemma OnlyMember(s: set<Id>, x: Id)
    requires x in s && |s| == 1
    ensures s == {x}
  {
    assert |s - {x}| == 0;
  }
}
