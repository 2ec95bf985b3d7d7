/** Invoices and the receive address each open invoice reserves. */
module Invoices {
  import opened Common

  type Id = nat

  datatype Address = Address(descriptor: Id, isChange: bool, index: nat, firstSeenHeight: Option<nat>)

  datatype InvoiceStatus = Open | Paid | Overpaid | Expired | Cancelled

  datatype Invoice = Invoice(holding: Id, status: InvoiceStatus, address: Option<Id>, entry: Option<Id>)

  datatype Desk = Desk(addresses: map<Id, Address>, invoices: map<Id, Invoice>)

  /** Branch and index identify an address of a descriptor (a unique constraint of the table). */
  ghost predicate UniqueIndex(addresses: map<Id, Address>)
  {
    forall a, b :: (a in addresses && b in addresses && addresses[a].descriptor == addresses[b].descriptor
                    && addresses[a].isChange == addresses[b].isChange && addresses[a].index == addresses[b].index) ==>
                     a == b
  }

  predicate Reserved(d: Desk, a: Id)
  {
    exists i :: i in d.invoices && d.invoices[i].status == Open && d.invoices[i].address == Some(a)
  }

  /** An address of the branch that was never seen on chain and that no open invoice holds. */
  predicate Unused(d: Desk, descriptor: Id, isChange: bool, a: Id)
  {
    && a in d.addresses
    && d.addresses[a].descriptor == descriptor && d.addresses[a].isChange == isChange
    && d.addresses[a].firstSeenHeight.None?
    && !Reserved(d, a)
  }

  ghost predicate LowestUnused(d: Desk, descriptor: Id, isChange: bool, a: Id)
  {
    && Unused(d, descriptor, isChange, a)
    && forall b :: Unused(d, descriptor, isChange, b) ==> d.addresses[a].index <= d.addresses[b].index
  }

  /** The reservation is determined: the lowest unused address is unique. */
  lemma LowestUnusedUnique(d: Desk, descriptor: Id, isChange: bool, a: Id, b: Id)
    requires UniqueIndex(d.addresses) && LowestUnused(d, descriptor, isChange, a)
             && LowestUnused(d, descriptor, isChange, b)
    ensures a == b
  {
    assert d.addresses[a].index == d.addresses[b].index;
  }

  datatype Op =
    | Create(id: Id, holding: Id, descriptor: Id)
    | MarkPaid(id: Id, entry: Id, overpaid: bool)
    | Cancel(id: Id)

  /** The desk after an operation; an invoice is created only when an unused address exists. */
  ghost predicate Step(d: Desk, op: Op, d': Desk)
  {
    match op
    case Create(id, holding, descriptor) =>
      && id !in d.invoices
      && if exists a :: Unused(d, descriptor, false, a) then
           exists a :: LowestUnused(d, descriptor, false, a)
               && d' == d.(invoices := d.invoices[id := Invoice(holding, Open, Some(a), None)])
         else d' == d
    case MarkPaid(id, entry, overpaid) =>
      d' == if id in d.invoices
            then
              var row := d.invoices[id].(entry := Some(entry), status := if overpaid then Overpaid else Paid);
              d.(invoices := d.invoices[id := row])
            else d
    case Cancel(id) =>
      d' == if id in d.invoices && d.invoices[id].status == Open
            then d.(invoices := d.invoices[id := d.invoices[id].(status := Cancelled)])
            else d
  }

  /** No address is held by two open invoices. */
  ghost predicate Exclusive(d: Desk)
  {
    forall i, j :: (i in d.invoices && j in d.invoices && d.invoices[i].status == Open && d.invoices[j].status == Open
                    && d.invoices[i].address.Some? && d.invoices[i].address == d.invoices[j].address) ==> i == j
  }

  lemma StepKeepsExclusive(d: Desk, op: Op, d': Desk)
    requires Exclusive(d) && Step(d, op, d')
    ensures Exclusive(d')
  {
    if op.Create? && d' != d {
      var a: Id :| LowestUnused(d, op.descriptor, false, a)
          && d' == d.(invoices := d.invoices[op.id := Invoice(op.holding, Open, Some(a), None)]);
      assert forall i :: i in d.invoices && d.invoices[i].status == Open ==> d.invoices[i].address != Some(a);
    }
  }

  /** `states` is a run: one state before and after each operation. */
  ghost predicate Run(states: seq<Desk>, ops: seq<Op>)
  {
    |states| == |ops| + 1 && forall k :: 0 <= k < |ops| ==> Step(states[k], ops[k], states[k + 1])
  }

  /** Over every serial run, in every state, open invoices hold different addresses. */
  lemma {:induction false} ReservationExclusive(states: seq<Desk>, ops: seq<Op>, k: nat)
    requires Run(states, ops) && Exclusive(states[0]) && k <= |ops|
    ensures Exclusive(states[k])
  {
    if k > 0 {
      ReservationExclusive(states, ops, k - 1);
      StepKeepsExclusive(states[k - 1], ops[k - 1], states[k]);
    }
  }

  /** An address of the same branch with a lower index, never seen. */
  predicate LowerUnseen(d: Desk, a: Id, b: Id)
    requires a in d.addresses
  {
    && b in d.addresses && d.addresses[b].descriptor == d.addresses[a].descriptor
    && d.addresses[b].isChange == d.addresses[a].isChange && d.addresses[b].index < d.addresses[a].index
    && d.addresses[b].firstSeenHeight == None
  }

  /** The lowest unused address of a branch, on the columns. */
  lemma LowestUnusedSpelled(d: Desk, descriptor: Id, isChange: bool, a: Id)
    requires LowestUnused(d, descriptor, isChange, a)
    ensures a in d.addresses && d.addresses[a].descriptor == descriptor && d.addresses[a].isChange == isChange
    ensures d.addresses[a].firstSeenHeight == None
    ensures forall i :: i in d.invoices && d.invoices[i].status == Open ==> d.invoices[i].address != Some(a)
    ensures forall b: Id :: LowerUnseen(d, a, b) ==>
              exists i :: i in d.invoices && d.invoices[i].status == Open && d.invoices[i].address == Some(b)
  {
    forall b: Id | LowerUnseen(d, a, b)
      ensures exists i :: i in d.invoices && d.invoices[i].status == Open && d.invoices[i].address == Some(b)
    {
      assert !Unused(d, descriptor, isChange, b);
    }
  }

  /** Nothing ever records that an address was seen: over every run the address rows stay as they were. */
  lemma {:induction false} AddressesNeverSeen(states: seq<Desk>, ops: seq<Op>, k: nat)
    requires Run(states, ops) && k <= |ops|
    ensures states[k].addresses == states[0].addresses
  {
    if k > 0 {
      AddressesNeverSeen(states, ops, k - 1);
      assert Step(states[k - 1], ops[k - 1], states[k]);
    }
  }

  /** Paying or cancelling the only new invoice frees what it reserved and nothing else. */
  lemma ReleaseUndoesReservation(d: Desk, id: Id, released: Invoice, a: Id)
    requires id !in d.invoices && released.status != Open
    ensures Reserved(d.(invoices := d.invoices[id := released]), a) <==> Reserved(d, a)
  {
    var d' := d.(invoices := d.invoices[id := released]);
    if Reserved(d, a) {
      var i :| i in d.invoices && d.invoices[i].status == Open && d.invoices[i].address == Some(a);
      assert d'.invoices[i] == d.invoices[i];
    }
    if Reserved(d', a) {
      var i :| i in d'.invoices && d'.invoices[i].status == Open && d'.invoices[i].address == Some(a);
      assert d.invoices[i] == d'.invoices[i];
    }
  }

  lemma SameLowest(d: Desk, id: Id, released: Invoice, descriptor: Id, a: Id)
    requires id !in d.invoices && released.status != Open && LowestUnused(d, descriptor, false, a)
    ensures LowestUnused(d.(invoices := d.invoices[id := released]), descriptor, false, a)
  {
    var d' := d.(invoices := d.invoices[id := released]);
    forall b ensures Unused(d', descriptor, false, b) <==> Unused(d, descriptor, false, b) {
      ReleaseUndoesReservation(d, id, released, b);
    }
  }

  /** Creation reserves the lowest unused address. */
  lemma CreateReserves(d: Desk, id: Id, holding: Id, descriptor: Id, d': Desk, a: Id)
    requires UniqueIndex(d.addresses) && Step(d, Create(id, holding, descriptor), d')
    requires LowestUnused(d, descriptor, false, a)
    ensures d' == d.(invoices := d.invoices[id := Invoice(holding, Open, Some(a), None)])
  {
    var b: Id :| LowestUnused(d, descriptor, false, b)
                 && d' == d.(invoices := d.invoices[id := Invoice(holding, Open, Some(b), None)]);
    LowestUnusedUnique(d, descriptor, false, a, b);
  }

  lemma ReleaseCloses(d: Desk, d1: Desk, d2: Desk, id: Id, release: Op)
    requires id in d1.invoices && d1.invoices[id].status == Open
    requires d1 == d.(invoices := d.invoices[id := d1.invoices[id]])
    requires (release.MarkPaid? || release.Cancel?) && release.id == id && Step(d1, release, d2)
    ensures id in d2.invoices && d2.invoices[id].status != Open
    ensures d2 == d.(invoices := d.invoices[id := d2.invoices[id]])
  {
  }

  /** A paid or cancelled invoice gives its address to the next invoice on the descriptor. */
  lemma ReleasedAddressReturns(d: Desk, d1: Desk, d2: Desk, d3: Desk, i: Id, j: Id, holding: Id, other: Id,
                               descriptor: Id, release: Op)
    requires UniqueIndex(d.addresses) && exists a :: Unused(d, descriptor, false, a)
    requires Step(d, Create(i, holding, descriptor), d1)
    requires (release.MarkPaid? || release.Cancel?) && release.id == i && Step(d1, release, d2)
    requires Step(d2, Create(j, other, descriptor), d3)
    ensures i in d1.invoices && j in d3.invoices && d1.invoices[i].address.Some?
    ensures d3.invoices[j].address == d1.invoices[i].address
  {
    var a: Id :| LowestUnused(d, descriptor, false, a)
                 && d1 == d.(invoices := d.invoices[i := Invoice(holding, Open, Some(a), None)]);
    ReleaseCloses(d, d1, d2, i, release);
    SameLowest(d, i, d2.invoices[i], descriptor, a);
    CreateReserves(d2, j, other, descriptor, d3, a);
  }

  class InvoiceDesk {
    var addresses: map<Id, Address>
    var invoices: map<Id, Invoice>

    constructor (rows: map<Id, Address>)
      ensures View() == Desk(rows, map[])
    {
      addresses, invoices := rows, map[];
    }

    function View(): Desk
      reads this
    {
      Desk(addresses, invoices)
    }

    /** The lowest-index unused address, None exactly when every address is seen or reserved. */
    method NextUnusedAddress(descriptor: Id, isChange: bool) returns (r: Option<Id>)
      ensures r.Some? ==> LowestUnused(View(), descriptor, isChange, r.value)
      ensures r.None? <==> forall a :: !Unused(View(), descriptor, isChange, a)
      ensures r.Some? ==>
                && r.value in addresses && addresses[r.value].descriptor == descriptor
                && addresses[r.value].isChange == isChange && addresses[r.value].firstSeenHeight == None
                && forall i :: i in invoices && invoices[i].status == Open ==> invoices[i].address != Some(r.value)
    {
      var left := set a | a in addresses && Unused(View(), descriptor, isChange, a);
      ghost var all := left;
      r := None;
      while left != {}
        invariant left <= all
        invariant r.None? ==> left == all
        invariant r.Some? ==>
                    && r.value in all
                    && forall b :: b in all && b !in left ==> addresses[r.value].index <= addresses[b].index
      {
        var a :| a in left;
        left := left - {a};
        if r.None? || addresses[a].index < addresses[r.value].index {
          r := Some(a);
        }
      }
      assert forall a :: Unused(View(), descriptor, isChange, a) <==> a in all;
    }

    /** Reserves the next unused external address; None when there is none. */
    method CreateInvoice(id: Id, holding: Id, descriptor: Id) returns (address: Option<Id>)
      requires id !in invoices && Exclusive(View())
      modifies this`invoices
      ensures Step(old(View()), Create(id, holding, descriptor), View()) && Exclusive(View())
      ensures address.None? <==> forall a :: !Unused(old(View()), descriptor, false, a)
      ensures address.Some? ==> LowestUnused(old(View()), descriptor, false, address.value)
                                && invoices == old(invoices)[id := Invoice(holding, Open, address, None)]
    {
      address := NextUnusedAddress(descriptor, false);
      if address.Some? {
        invoices := invoices[id := Invoice(holding, Open, address, None)];
      }
      StepKeepsExclusive(old(View()), Create(id, holding, descriptor), View());
    }

    method MarkInvoicePaid(id: Id, entry: Id, overpaid: bool) returns (found: bool)
      requires Exclusive(View())
      modifies this`invoices
      ensures Step(old(View()), MarkPaid(id, entry, overpaid), View()) && Exclusive(View())
      ensures found <==> id in old(invoices)
      ensures found ==> invoices == old(invoices)[id := invoices[id]]
      ensures found ==>
                && invoices[id].status == (if overpaid then Overpaid else Paid) && invoices[id].entry == Some(entry)
                && invoices[id].holding == old(invoices)[id].holding
                && invoices[id].address == old(invoices)[id].address
      ensures !found ==> invoices == old(invoices)
    {
      found := id in invoices;
      if found {
        var row := invoices[id].(entry := Some(entry));
        invoices := invoices[id := row.(status := if overpaid then Overpaid else Paid)];
      }
      StepKeepsExclusive(old(View()), MarkPaid(id, entry, overpaid), View());
    }

    /** Refused unless the invoice is open. */
    method CancelInvoice(id: Id) returns (ok: bool)
      requires Exclusive(View())
      modifies this`invoices
      ensures Step(old(View()), Cancel(id), View()) && Exclusive(View())
      ensures ok <==> id in old(invoices) && old(invoices)[id].status == Open
      ensures ok ==> invoices == old(invoices)[id := old(invoices)[id].(status := Cancelled)]
      ensures !ok ==> invoices == old(invoices)
    {
      ok := id in invoices && invoices[id].status == Open;
      if ok {
        invoices := invoices[id := invoices[id].(status := Cancelled)];
      }
      StepKeepsExclusive(old(View()), Cancel(id), View());
    }
  }
}
