/**
 The direction of a ledger entry against the two rules the specification gives for it: Internal
 means entirely user-owned, and an Internal entry concerns at least two holdings.
 */
module ChainDirection {
  import opened Common
  import opened ChainModel
  import opened ChainRows
  import opened ChainBalance
  import opened ReuseIndex
  import opened ChainHistory
  import opened ChainRuns
  import opened ChainLimits

  ghost predicate KnownOwners(w: Watch, s: State)
  {
    forall o :: o in s.utxos ==> s.utxos[o].descriptor in w.descriptors
  }

  /////////////////////////////////////////////////////////////////////////////
  // Entirely user-owned
  /////////////////////////////////////////////////////////////////////////////

  ghost predicate Watched(w: Watch, out: TxOut)
  {
    exists a :: Pays(w, out, a)
  }

  /** Every input spends a recorded output and every output pays a watched address. */
  ghost predicate EntirelyOurs(w: Watch, s: State, tx: Tx)
  {
    && (forall i :: 0 <= i < |tx.vin| ==> Known(s.utxos, tx.vin[i]))
    && forall i :: 0 <= i < |tx.vout| ==> Watched(w, tx.vout[i])
  }

  /** Internal exactly for what is entirely ours, otherwise by the sign of the net effect. */
  ghost predicate Documented(w: Watch, s: State, tx: Tx, found: seq<Found>, direction: Direction)
  {
    var net := ReceivedTotal(found) - SpentTotal(s.utxos, tx.vin);
    && (direction == Internal <==> EntirelyOurs(w, s, tx))
    && (!EntirelyOurs(w, s, tx) && net > 0 ==> direction == Incoming)
    && (!EntirelyOurs(w, s, tx) && net < 0 ==> direction == Outgoing)
  }

  /**
   The code infers the documented direction if and only if a transaction that is entirely ours
   moves value on both sides, and any other transaction on one side at most.
   */
  lemma DocumentedExactly(w: Watch, s: State, tx: Tx, found: seq<Found>)
    requires KnownOwners(w, s)
    ensures var spent, received := SpentTotal(s.utxos, tx.vin), ReceivedTotal(found);
            Documented(w, s, tx, found, DirectionOf(w, s, tx, found)) <==>
            if EntirelyOurs(w, s, tx) then spent > 0 && received > 0 else spent == 0 || received == 0
  {
    DirectionExactly(w, s, tx, found);
  }

  lemma {:induction false} InputWithinTotal(utxos: map<Outpoint, Utxo>, vin: seq<TxIn>, i: nat)
    requires i < |vin| && Known(utxos, vin[i])
    ensures SpentTotal(utxos, vin) >= utxos[vin[i].outpoint].value
  {
    if i < |vin| - 1 {
      InputWithinTotal(utxos, vin[..|vin| - 1], i);
    }
  }

  lemma {:induction false} FoundWithinTotal(found: seq<Found>, k: nat)
    requires k < |found|
    ensures ReceivedTotal(found) >= found[k].value
  {
    if k < |found| - 1 {
      FoundWithinTotal(found[..|found| - 1], k);
    }
  }

  lemma OutputWithinTotal(w: Watch, vout: seq<TxOut>, rows: seq<AddressId>, j: nat, a: AddressId)
    requires RowOrder(w, vout, rows) && j < |vout| && Pays(w, vout[j], a)
    ensures ReceivedTotal(Discover(w, vout, rows)) >= vout[j].value
  {
    var found := Discover(w, vout, rows);
    DiscoverMember(w, vout, rows, FoundOf(w, vout[j], a));
    var k :| 0 <= k < |found| && found[k] == FoundOf(w, vout[j], a);
    FoundWithinTotal(found, k);
  }

  /** Any payment out of our own funds, with change back to us, is Internal although it pays a stranger. */
  lemma PaymentWithChange(w: Watch, s: State, tx: Tx, rows: seq<AddressId>, i: nat, j: nat, a: AddressId, k: nat)
    requires KnownOwners(w, s) && RowOrder(w, tx.vout, rows)
    requires i < |tx.vin| && Known(s.utxos, tx.vin[i]) && s.utxos[tx.vin[i].outpoint].value > 0
    requires j < |tx.vout| && Pays(w, tx.vout[j], a) && tx.vout[j].value > 0
    requires k < |tx.vout| && forall b :: !Pays(w, tx.vout[k], b)
    ensures var found := Discover(w, tx.vout, rows);
            DirectionOf(w, s, tx, found) == Internal && !Documented(w, s, tx, found, Internal)
  {
    InputWithinTotal(s.utxos, tx.vin, i);
    OutputWithinTotal(w, tx.vout, rows, j, a);
    DirectionExactly(w, s, tx, Discover(w, tx.vout, rows));
    assert !EntirelyOurs(w, s, tx) by { StrangerIsNotOurs(w, s, tx, k); }
  }

  lemma StrangerIsNotOurs(w: Watch, s: State, tx: Tx, k: nat)
    requires k < |tx.vout| && forall b :: !Pays(w, tx.vout[k], b)
    ensures !EntirelyOurs(w, s, tx)
  {
    assert !Watched(w, tx.vout[k]);
  }

  /////////////////////////////////////////////////////////////////////////////
  // At least two holdings
  /////////////////////////////////////////////////////////////////////////////

  /** The entries of a transaction link two holdings; each entry by itself links one. */
  ghost predicate LinksTwo(ledger: seq<Posting>, txid: TxId)
  {
    exists g, h :: g != h && AlreadyLinked(ledger, txid, g) && AlreadyLinked(ledger, txid, h)
  }

  /** Wherever the transaction has an Internal entry, its entries link two holdings. */
  ghost predicate InternalLinksTwo(ledger: seq<Posting>, txid: TxId)
  {
    forall p :: p in ledger && p.reference == txid && p.direction == Internal ==> LinksTwo(ledger, txid)
  }

  ghost predicate OwesTwo(w: Watch, utxos: map<Outpoint, Utxo>, tx: Tx)
  {
    exists g, h :: g != h && Owes(w, utxos, tx, g) && Owes(w, utxos, tx, h)
  }

  lemma {:induction false} SomeoneIsCharged(w: Watch, utxos: map<Outpoint, Utxo>, vin: seq<TxIn>) returns (h: HoldingId)
    requires forall o :: o in utxos ==> utxos[o].descriptor in w.descriptors
    requires SpentTotal(utxos, vin) > 0
    ensures SpentFor(w, utxos, vin, h) > 0
  {
    var input := vin[|vin| - 1];
    if Known(utxos, input) && utxos[input.outpoint].value > 0 {
      h := w.descriptors[utxos[input.outpoint].descriptor];
    } else {
      h := SomeoneIsCharged(w, utxos, vin[..|vin| - 1]);
    }
  }

  /** A transaction not posted before is linked exactly to the holdings it owes, all in one direction. */
  lemma FirstPosting(w: Watch, s: State, d: Delivery)
    requires KnownOwners(w, s) && Deliverable(w, s, d)
    requires forall h :: !AlreadyLinked(s.ledger, d.tx.txid, h)
    ensures var ledger, found := Delivered(w, s, d).ledger, Discover(w, d.tx.vout, d.rows);
            && (forall h :: AlreadyLinked(ledger, d.tx.txid, h) <==> Owes(w, s.utxos, d.tx, h))
            && (forall p :: p in ledger && p.reference == d.tx.txid ==> p.direction == DirectionOf(w, s, d.tx, found))
  {
    var ledger := Delivered(w, s, d).ledger;
    ProcessPosts(w, s, d.tx, d.height, d.rows, d.order);
    RecordedDirection(w, s, d.tx, d.rows);
    forall p | p in ledger && p.reference == d.tx.txid
      ensures p == ReferencePosting(w, s.utxos, d.tx, p.holding) && Owes(w, s.utxos, d.tx, p.holding)
    {
      if p in s.ledger {
        var i :| 0 <= i < |s.ledger| && s.ledger[i] == p;
        assert AlreadyLinked(s.ledger, d.tx.txid, p.holding);
      }
    }
    forall h | AlreadyLinked(ledger, d.tx.txid, h) ensures Owes(w, s.utxos, d.tx, h) {
      var i :| 0 <= i < |ledger| && ledger[i].reference == d.tx.txid && ledger[i].holding == h;
      assert ledger[i] in ledger;
    }
  }

  /**
   The entries of a transaction delivered for the first time keep the rule if and only if it moves
   value of ours on one side at most, or owes an entry to two holdings.
   */
  lemma InternalLinksTwoExactly(w: Watch, s: State, d: Delivery)
    requires KnownOwners(w, s) && Deliverable(w, s, d)
    requires forall h :: !AlreadyLinked(s.ledger, d.tx.txid, h)
    ensures var spent, received := SpentTotal(s.utxos, d.tx.vin), ReceivedTotal(Discover(w, d.tx.vout, d.rows));
            InternalLinksTwo(Delivered(w, s, d).ledger, d.tx.txid) <==>
            spent == 0 || received == 0 || OwesTwo(w, s.utxos, d.tx)
  {
    var ledger, found := Delivered(w, s, d).ledger, Discover(w, d.tx.vout, d.rows);
    FirstPosting(w, s, d);
    DirectionExactly(w, s, d.tx, found);
    LinksAreOwed(w, s, d, ledger);
    if SpentTotal(s.utxos, d.tx.vin) > 0 {
      var h := SomeoneIsCharged(w, s.utxos, d.tx.vin);
      assert Owes(w, s.utxos, d.tx, h);
      var i :| 0 <= i < |ledger| && ledger[i].reference == d.tx.txid && ledger[i].holding == h;
      assert ledger[i] in ledger;
    }
  }

  lemma LinksAreOwed(w: Watch, s: State, d: Delivery, ledger: seq<Posting>)
    requires forall h :: AlreadyLinked(ledger, d.tx.txid, h) <==> Owes(w, s.utxos, d.tx, h)
    ensures LinksTwo(ledger, d.tx.txid) <==> OwesTwo(w, s.utxos, d.tx)
  {
    if LinksTwo(ledger, d.tx.txid) {
      var g, h :| g != h && AlreadyLinked(ledger, d.tx.txid, g) && AlreadyLinked(ledger, d.tx.txid, h);
      assert Owes(w, s.utxos, d.tx, g) && Owes(w, s.utxos, d.tx, h);
    }
    if OwesTwo(w, s.utxos, d.tx) {
      var g, h :| g != h && Owes(w, s.utxos, d.tx, g) && Owes(w, s.utxos, d.tx, h);
      assert AlreadyLinked(ledger, d.tx.txid, g) && AlreadyLinked(ledger, d.tx.txid, h);
    }
  }

  /////////////////////////////////////////////////////////////////////////////
  // One transaction that breaks both rules
  /////////////////////////////////////////////////////////////////////////////

  /** Spends the parent's output, pays a stranger and takes the change back. */
  ghost function Payment(address: string, change: nat, stranger: string, paid: nat): Delivery
  {
    Delivery(Tx("c", [Prevout(Outpoint("p", 0))], [TxOut(0, change, Some(address)), TxOut(1, paid, Some(stranger))]),
             None, [0], [0])
  }

  lemma PaymentFound(address: string, change: nat, stranger: string, paid: nat)
    requires stranger != address
    ensures var w, vout := OneWatch(address), Payment(address, change, stranger, paid).tx.vout;
            && RowOrder(w, vout, [0]) && Discover(w, vout, [0]) == [Found(0, change, 0, 0, 0)]
            && Pays(w, vout[0], 0) && forall b :: !Pays(w, vout[1], b)
  {
    var w, vout := OneWatch(address), Payment(address, change, stranger, paid).tx.vout;
    assert vout[..1] == [vout[0]] && [vout[0]][..0] == [] && [0][..0] == [];
    assert vout[0].address == Some(address);
    assert FoundAt(w, [vout[0]], 0) == [Found(0, change, 0, 0, 0)];
    assert FoundAt(w, vout, 0) == [Found(0, change, 0, 0, 0)];
    assert Discover(w, vout, [0][..0]) == [];
  }

  lemma PaymentDeliverable(address: string, change: nat, stranger: string, paid: nat, s: State)
    requires stranger != address
    ensures Deliverable(OneWatch(address), s, Payment(address, change, stranger, paid))
  {
    var w, d, found := OneWatch(address), Payment(address, change, stranger, paid), [Found(0, change, 0, 0, 0)];
    PaymentFound(address, change, stranger, paid);
    assert found[0].holding == 0;
    forall h | h in Touched(w, s, d.tx, found) ensures h == 0 {}
  }

  /** In the world of one holding nobody else is owed anything. */
  lemma PaymentOwesOne(address: string, change: nat, stranger: string, paid: nat, s: State)
    requires stranger != address
    ensures !OwesTwo(OneWatch(address), s.utxos, Payment(address, change, stranger, paid).tx)
  {
    var w, d := OneWatch(address), Payment(address, change, stranger, paid);
    PaymentFound(address, change, stranger, paid);
    forall h | h != 0 ensures !Owes(w, s.utxos, d.tx, h) {
      DiscoverOrderFree(w, d.tx.vout, d.rows, h);
      UntouchedHasNoReceipt(Discover(w, d.tx.vout, d.rows), h);
      UntouchedHasNoSpend(w, s.utxos, d.tx.vin, h);
    }
  }

  lemma OwnersOfExact(w: Watch, c: Chain, s: State)
    requires Exact(w, c, s)
    ensures KnownOwners(w, s)
  {
    forall o | o in s.utxos ensures s.utxos[o].descriptor in w.descriptors {
      assert PaidBy(w, c[o.txid], o, s.utxos[o]);
    }
  }

  /** After one deposit, a payment with change to the one holding: Internal, to a stranger, with one link. */
  lemma PaymentBreaksBothRules(address: string, value: nat, change: nat, stranger: string, paid: nat)
    requires value > 0 && change > 0 && stranger != address
    ensures var w, d := OneWatch(address), Payment(address, change, stranger, paid);
            var s := Run(w, [Parent(address, value)]);
            && Deliverable(w, s, d)
            && DirectionOf(w, s, d.tx, Discover(w, d.tx.vout, d.rows)) == Internal
            && !Documented(w, s, d.tx, Discover(w, d.tx.vout, d.rows), Internal)
            && !InternalLinksTwo(Delivered(w, s, d).ledger, d.tx.txid)
  {
    var w, d := OneWatch(address), Payment(address, change, stranger, paid);
    OneParent(address, value);
    RunOfOne(w, Parent(address, value));
    var c := map["p" := Parent(address, value).tx];
    PaymentAfter(address, change, stranger, paid, c, Run(w, [Parent(address, value)]));
  }

  lemma RunOfOne(w: Watch, d: Delivery)
    ensures Run(w, [d]) == Delivered(w, EMPTY, d)
  {
    assert [d][..0] == [];
  }

  lemma PaymentAfter(address: string, change: nat, stranger: string, paid: nat, c: Chain, s: State)
    requires change > 0 && stranger != address && Exact(OneWatch(address), c, s) && "c" !in c
    requires Outpoint("p", 0) in s.utxos && s.utxos[Outpoint("p", 0)].value > 0
    ensures var w, d := OneWatch(address), Payment(address, change, stranger, paid);
            && Deliverable(w, s, d)
            && DirectionOf(w, s, d.tx, Discover(w, d.tx.vout, d.rows)) == Internal
            && !Documented(w, s, d.tx, Discover(w, d.tx.vout, d.rows), Internal)
            && !InternalLinksTwo(Delivered(w, s, d).ledger, d.tx.txid)
  {
    var w, d := OneWatch(address), Payment(address, change, stranger, paid);
    OwnersOfExact(w, c, s);
    PaymentFound(address, change, stranger, paid);
    PaymentDeliverable(address, change, stranger, paid, s);
    PaymentWithChange(w, s, d.tx, d.rows, 0, 0, 0, 1);
    DirectionExactly(w, s, d.tx, Discover(w, d.tx.vout, d.rows));
    forall h ensures !AlreadyLinked(s.ledger, d.tx.txid, h) { OnlySeenIsLinked(w, c, s, d.tx.txid, h); }
    InternalLinksTwoExactly(w, s, d);
    PaymentOwesOne(address, change, stranger, paid, s);
  }
}
