/** What lies outside the conditions of conservation: deliveries that unbalance the books. */
module ChainLimits {
  import opened Common
  import opened ChainModel
  import opened ChainRows
  import opened ChainBalance
  import opened ReuseIndex
  import opened ChainHistory
  import opened ChainRuns

  /** A delivery of a well-formed transaction, with possible iteration orders. */
  ghost predicate Deliverable(w: Watch, s: State, d: Delivery)
  {
    && WellFormedTx(d.tx)
    && RowOrder(w, d.tx.vout, d.rows)
    && HoldingOrder(Touched(w, s, d.tx, Discover(w, d.tx.vout, d.rows)), d.order)
  }

  ghost function Delivered(w: Watch, s: State, d: Delivery): State
  {
    Process(w, s, d.tx, d.height, d.rows, d.order)
  }

  lemma {:induction false} NewlySpentWithin(w: Watch, u: map<Outpoint, Utxo>, vin: seq<TxIn>, h: HoldingId)
    ensures NewlySpent(w, u, vin, h) <= SpentFor(w, u, vin, h)
  {
    if vin != [] {
      NewlySpentWithin(w, u, vin[..|vin| - 1], h);
    }
  }

  /** An input counts as newly spent exactly when its row is not marked. */
  lemma {:induction false} InputContributes(w: Watch, u: map<Outpoint, Utxo>, vin: seq<TxIn>, o: Outpoint, h: HoldingId)
    requires o in Spends(vin) && o in u && OwnedBy(w, u[o], h)
    ensures u[o].isSpent ==> SpentFor(w, u, vin, h) >= NewlySpent(w, u, vin, h) + u[o].value
    ensures !u[o].isSpent ==> NewlySpent(w, u, vin, h) >= u[o].value
  {
    var init := vin[..|vin| - 1];
    SpendsLast(vin);
    NewlySpentWithin(w, u, init, h);
    if o in Spends(init) {
      InputContributes(w, u, init, o, h);
    }
  }

  ghost function DriftBy(w: Watch, s: State, d: Delivery, h: HoldingId): int
  {
    DriftOf(w, s, d.tx, Discover(w, d.tx.vout, d.rows), h)
  }

  lemma DriftDelivered(w: Watch, s: State, d: Delivery, h: HoldingId)
    requires Deliverable(w, s, d)
    ensures Drift(w, Delivered(w, s, d), h) == Drift(w, s, h) + DriftBy(w, s, d, h)
  {
    DriftStep(w, s, d.tx, d.height, d.rows, d.order, h);
  }

  lemma DriftUnbalances(w: Watch, s: State, d: Delivery, h: HoldingId)
    requires Deliverable(w, s, d) && Conserved(w, s) && DriftBy(w, s, d, h) != 0
    ensures !Conserved(w, Delivered(w, s, d))
  {
    DriftDelivered(w, s, d, h);
    assert LedgerTotal(s.ledger, h) == UnspentTotal(w, s.utxos, h);
    var after := Delivered(w, s, d);
    assert LedgerTotal(after.ledger, h) != UnspentTotal(w, after.utxos, h);
  }

  /** A transaction not seen before drifts up by outputs found twice and down by inputs spent before. */
  lemma NewTransactionDrift(w: Watch, c: Chain, s: State, d: Delivery, h: HoldingId)
    requires Exact(w, c, s) && d.tx.txid !in c
    ensures DriftBy(w, s, d, h) ==
            Repeats(Discover(w, d.tx.vout, d.rows), h)
            - (SpentFor(w, s.utxos, d.tx.vin, h) - NewlySpent(w, s.utxos, d.tx.vin, h))
  {
    var found := Discover(w, d.tx.vout, d.rows);
    OnlySeenIsLinked(w, c, s, d.tx.txid, h);
    forall f | f in found ensures Outpoint(d.tx.txid, f.vout) !in s.utxos {
      FoundRowsPresent(w, c, s.utxos, d.tx, d.rows, f);
    }
    OutputsAllOrNothing(s.utxos, d.tx.txid, found, h);
  }

  lemma NothingFoundTwice(w: Watch, s: State, d: Delivery, h: HoldingId)
    requires Deliverable(w, s, d) && !Shares(w, d.tx)
    ensures Repeats(Discover(w, d.tx.vout, d.rows), h) == 0
  {
    RepeatsExactly(w, d.tx, d.rows);
  }

  /** A transaction that spends, among anything else, an output already spent by another is charged for it again. */
  lemma SecondSpenderUnbalances(w: Watch, c: Chain, s: State, d: Delivery, o: Outpoint, h: HoldingId)
    requires Exact(w, c, s) && Conserved(w, s) && Deliverable(w, s, d) && !Shares(w, d.tx)
    requires d.tx.txid !in c && o in Spends(d.tx.vin)
    requires o in s.utxos && s.utxos[o].isSpent && OwnedBy(w, s.utxos[o], h) && s.utxos[o].value > 0
    ensures !Conserved(w, Delivered(w, s, d))
  {
    assert DriftBy(w, s, d, h) < 0 by {
      InputContributes(w, s.utxos, d.tx.vin, o, h);
      NothingFoundTwice(w, s, d, h);
      NewTransactionDrift(w, c, s, d, h);
    }
    DriftUnbalances(w, s, d, h);
  }

  /**
   Any new transaction that spends nothing contested and has an output of value at two address
   rows, of one holding or of two: the output is credited for each row and stored once.
   */
  lemma SharedAddressUnbalances(w: Watch, c: Chain, s: State, d: Delivery)
    requires Exact(w, c, s) && Conserved(w, s) && Deliverable(w, s, d) && Shares(w, d.tx)
    requires d.tx.txid !in c && forall t :: t in c ==> Spends(c[t].vin) !! Spends(d.tx.vin)
    ensures !Conserved(w, Delivered(w, s, d))
  {
    var h := SharedIsRepeated(w, d.tx, d.rows);
    NewTransactionDrift(w, c, s, d, h);
    UncontestedInputs(w, c, s.utxos, d.tx.vin, h);
    DriftUnbalances(w, s, d, h);
  }

  lemma LinkedDrift(w: Watch, s: State, d: Delivery, h: HoldingId)
    requires AlreadyLinked(s.ledger, d.tx.txid, h)
    requires forall f :: f in Discover(w, d.tx.vout, d.rows) ==> Outpoint(d.tx.txid, f.vout) in s.utxos
    ensures DriftBy(w, s, d, h) == NewlySpent(w, s.utxos, d.tx.vin, h)
  {
    OutputsAllOrNothing(s.utxos, d.tx.txid, Discover(w, d.tx.vout, d.rows), h);
  }

  /**
   A transaction posted before its parent arrived: delivered again, it marks the parent's output
   spent, but its posting is already linked and is not corrected.
   */
  lemma LateParentUnbalances(w: Watch, s: State, d: Delivery, o: Outpoint, h: HoldingId)
    requires Conserved(w, s) && Deliverable(w, s, d)
    requires AlreadyLinked(s.ledger, d.tx.txid, h)
    requires forall f :: f in Discover(w, d.tx.vout, d.rows) ==> Outpoint(d.tx.txid, f.vout) in s.utxos
    requires o in Spends(d.tx.vin) && o in s.utxos && !s.utxos[o].isSpent && OwnedBy(w, s.utxos[o], h)
             && s.utxos[o].value > 0
    ensures !Conserved(w, Delivered(w, s, d))
  {
    LinkedDrift(w, s, d, h);
    InputContributes(w, s.utxos, d.tx.vin, o, h);
    DriftUnbalances(w, s, d, h);
  }

  /////////////////////////////////////////////////////////////////////////////
  // The guards, exactly
  /////////////////////////////////////////////////////////////////////////////

  /** Some holding owns a recorded input of value that is marked as spent, or that is not. */
  ghost predicate OwnsInput(w: Watch, u: map<Outpoint, Utxo>, vin: seq<TxIn>, h: HoldingId, spent: bool)
  {
    exists o :: o in Spends(vin) && o in u && u[o].isSpent == spent && OwnedBy(w, u[o], h) && u[o].value > 0
  }

  /** Without marked inputs of value every charge is new; without unmarked ones none is. */
  lemma {:induction false} ChargesByMark(w: Watch, u: map<Outpoint, Utxo>, vin: seq<TxIn>, h: HoldingId)
    ensures !OwnsInput(w, u, vin, h, true) && DistinctInputs(vin) ==> NewlySpent(w, u, vin, h) == SpentFor(w, u, vin, h)
    ensures !OwnsInput(w, u, vin, h, false) ==> NewlySpent(w, u, vin, h) == 0
  {
    if vin != [] {
      var init, input := vin[..|vin| - 1], vin[|vin| - 1];
      SpendsLast(vin);
      ChargesByMark(w, u, init, h);
      forall spent | OwnsInput(w, u, init, h, spent) ensures OwnsInput(w, u, vin, h, spent) {
        var o :| o in Spends(init) && o in u && u[o].isSpent == spent && OwnedBy(w, u[o], h) && u[o].value > 0;
        assert o in Spends(vin);
      }
      if Known(u, input) {
        assert input.outpoint in Spends(vin);
        assert DistinctInputs(vin) ==> input.outpoint !in Spends(init);
      }
    }
  }

  /** A new transaction with no shared output keeps the balance iff none of our inputs of value was spent before. */
  lemma NewTransactionExactly(w: Watch, c: Chain, s: State, d: Delivery)
    requires Exact(w, c, s) && Conserved(w, s) && Deliverable(w, s, d) && !Shares(w, d.tx) && d.tx.txid !in c
    ensures Conserved(w, Delivered(w, s, d)) <==> forall h :: !OwnsInput(w, s.utxos, d.tx.vin, h, true)
  {
    if h :| OwnsInput(w, s.utxos, d.tx.vin, h, true) {
      var o :| o in Spends(d.tx.vin) && o in s.utxos && s.utxos[o].isSpent && OwnedBy(w, s.utxos[o], h)
               && s.utxos[o].value > 0;
      SecondSpenderUnbalances(w, c, s, d, o, h);
    } else {
      forall h ensures DriftBy(w, s, d, h) == 0 {
        NewTransactionDrift(w, c, s, d, h);
        NothingFoundTwice(w, s, d, h);
        ChargesByMark(w, s.utxos, d.tx.vin, h);
      }
      NoDriftKeepsBalance(w, s, d);
    }
  }

  /** The outputs found are recorded, and every holding with an amount is linked. */
  ghost predicate Posted(w: Watch, s: State, d: Delivery)
  {
    var found := Discover(w, d.tx.vout, d.rows);
    && (forall f :: f in found ==> Outpoint(d.tx.txid, f.vout) in s.utxos)
    && (forall h :: ReceivedFor(found, h) > 0 || SpentFor(w, s.utxos, d.tx.vin, h) > 0 ==>
          AlreadyLinked(s.ledger, d.tx.txid, h))
  }

  /** A redelivery of a posted transaction keeps the balance iff none of our inputs of value is still unspent. */
  lemma RedeliveryExactly(w: Watch, s: State, d: Delivery)
    requires Conserved(w, s) && Deliverable(w, s, d) && Posted(w, s, d)
    ensures Conserved(w, Delivered(w, s, d)) <==> forall h :: !OwnsInput(w, s.utxos, d.tx.vin, h, false)
  {
    if h :| OwnsInput(w, s.utxos, d.tx.vin, h, false) {
      var o :| o in Spends(d.tx.vin) && o in s.utxos && !s.utxos[o].isSpent && OwnedBy(w, s.utxos[o], h)
               && s.utxos[o].value > 0;
      InputContributes(w, s.utxos, d.tx.vin, o, h);
      NewlySpentWithin(w, s.utxos, d.tx.vin, h);
      LateParentUnbalances(w, s, d, o, h);
    } else {
      forall h ensures DriftBy(w, s, d, h) == 0 {
        PostedDrift(w, s, d, h);
      }
      NoDriftKeepsBalance(w, s, d);
    }
  }

  lemma PostedDrift(w: Watch, s: State, d: Delivery, h: HoldingId)
    requires Posted(w, s, d) && !OwnsInput(w, s.utxos, d.tx.vin, h, false)
    ensures DriftBy(w, s, d, h) == 0
  {
    ChargesByMark(w, s.utxos, d.tx.vin, h);
    OutputsAllOrNothing(s.utxos, d.tx.txid, Discover(w, d.tx.vout, d.rows), h);
  }

  /////////////////////////////////////////////////////////////////////////////
  // Child, parent, child again: a run that ends out of balance
  /////////////////////////////////////////////////////////////////////////////

  lemma NoDriftKeepsBalance(w: Watch, s: State, d: Delivery)
    requires Deliverable(w, s, d) && Conserved(w, s) && forall h :: DriftBy(w, s, d, h) == 0
    ensures Conserved(w, Delivered(w, s, d))
  {
    var after := Delivered(w, s, d);
    forall h ensures LedgerTotal(after.ledger, h) == UnspentTotal(w, after.utxos, h) {
      DriftDelivered(w, s, d, h);
      assert DriftBy(w, s, d, h) == 0;
      assert LedgerTotal(s.ledger, h) == UnspentTotal(w, s.utxos, h);
    }
  }

  lemma ChildExact(w: Watch, c: Chain, s: State, child: Delivery)
    requires Exact(w, c, s) && Conserved(w, s) && ProperDelivery(w, c, s, child) && !Shares(w, child.tx)
    ensures Exact(w, c[child.tx.txid := child.tx], Delivered(w, s, child)) && Conserved(w, Delivered(w, s, child))
  {
    ExactStep(w, c, s, child.tx, child.height, child.rows, child.order);
    forall h ensures DriftBy(w, s, child, h) == 0 {
      ProperDrift(w, c, s, child, h);
      NothingFoundTwice(w, s, child, h);
    }
    NoDriftKeepsBalance(w, s, child);
  }

  /** Inputs that no delivered transaction spends are all unspent. */
  lemma {:induction false} UncontestedInputs(w: Watch, c: Chain, u: map<Outpoint, Utxo>, vin: seq<TxIn>, h: HoldingId)
    requires SpendsExact(c, u) && DistinctInputs(vin) && forall t :: t in c ==> Spends(c[t].vin) !! Spends(vin)
    ensures NewlySpent(w, u, vin, h) == SpentFor(w, u, vin, h)
  {
    if vin != [] {
      SpendsLast(vin);
      UncontestedInputs(w, c, u, vin[..|vin| - 1], h);
      var input := vin[|vin| - 1];
      if Known(u, input) {
        assert input.outpoint !in Spends(vin[..|vin| - 1]);
        assert u[input.outpoint].spentIn.None?;
      }
    }
  }

  /** A parent that spends nothing contested keeps the balance, even when it comes late. */
  lemma ParentBalanced(w: Watch, c: Chain, s: State, parent: Delivery)
    requires Exact(w, c, s) && Conserved(w, s) && Deliverable(w, s, parent) && !Shares(w, parent.tx)
    requires parent.tx.txid !in c && forall t :: t in c ==> Spends(c[t].vin) !! Spends(parent.tx.vin)
    ensures Conserved(w, Delivered(w, s, parent))
  {
    forall h ensures DriftBy(w, s, parent, h) == 0 {
      NewTransactionDrift(w, c, s, parent, h);
      NothingFoundTwice(w, s, parent, h);
      UncontestedInputs(w, c, s.utxos, parent.tx.vin, h);
    }
    NoDriftKeepsBalance(w, s, parent);
  }

  /** Its outputs of value are recorded as unspent. */
  lemma ParentRow(w: Watch, c: Chain, s: State, parent: Delivery, f: Found)
    requires Exact(w, c, s) && Deliverable(w, s, parent) && !Shares(w, parent.tx) && parent.tx.txid !in c
    requires f in Discover(w, parent.tx.vout, parent.rows) && f.value > 0
    ensures var o, u := Outpoint(parent.tx.txid, f.vout), Delivered(w, s, parent).utxos;
            o in u && !u[o].isSpent && OwnedBy(w, u[o], f.holding) && u[o].value == f.value
  {
    var o, u := Outpoint(parent.tx.txid, f.vout), Delivered(w, s, parent).utxos;
    var found := Discover(w, parent.tx.vout, parent.rows);
    ProcessRows(w, s, parent.tx, parent.height, parent.rows, parent.order);
    FoundRowsPresent(w, c, s.utxos, parent.tx, parent.rows, f);
    assert FreshRow(u[o], o, parent.tx.txid, found);
    var i :| 0 <= i < |found| && found[i].vout == o.vout && CoinOf(u[o], found[i]);
    FoundOnce(w, parent.tx, parent.rows, f, found[i]);
    DiscoverAttributed(w, parent.tx.vout, parent.rows);
  }

  lemma FoundOnce(w: Watch, tx: Tx, rows: seq<AddressId>, f: Found, g: Found)
    requires DistinctIndices(tx.vout) && !Shares(w, tx) && f.value > 0 && f.vout == g.vout
    requires f in Discover(w, tx.vout, rows) && g in Discover(w, tx.vout, rows)
    ensures f == g
  {
    DiscoverMember(w, tx.vout, rows, f);
    DiscoverMember(w, tx.vout, rows, g);
    var i :| 0 <= i < |tx.vout| && Pays(w, tx.vout[i], f.address) && f == FoundOf(w, tx.vout[i], f.address);
    var j :| 0 <= j < |tx.vout| && Pays(w, tx.vout[j], g.address) && g == FoundOf(w, tx.vout[j], g.address);
    assert i == j;
  }

  /** What the child left behind is still there after the parent. */
  lemma ChildStays(w: Watch, s: State, child: Delivery, parent: Delivery, h: HoldingId)
    requires Deliverable(w, s, child) && CreditFor(w, child.tx.vout, h) > 0
    requires Deliverable(w, Delivered(w, s, child), parent)
    ensures var s2 := Delivered(w, Delivered(w, s, child), parent);
            && AlreadyLinked(s2.ledger, child.tx.txid, h)
            && forall f :: f in Discover(w, child.tx.vout, child.rows) ==> Outpoint(child.tx.txid, f.vout) in s2.utxos
  {
    var s1 := Delivered(w, s, child);
    ProcessPosts(w, s, child.tx, child.height, child.rows, child.order);
    assert Owes(w, s.utxos, child.tx, h);
    ProcessPosts(w, s1, parent.tx, parent.height, parent.rows, parent.order);
    LinkStays(s1.ledger, Delivered(w, s1, parent).ledger, child.tx.txid, h);
    ProcessRows(w, s, child.tx, child.height, child.rows, child.order);
    ProcessRows(w, s1, parent.tx, parent.height, parent.rows, parent.order);
  }

  lemma LinkStays(before: seq<Posting>, after: seq<Posting>, txid: TxId, h: HoldingId)
    requires before <= after && AlreadyLinked(before, txid, h)
    ensures AlreadyLinked(after, txid, h)
  {
    var i :| 0 <= i < |before| && before[i].reference == txid && before[i].holding == h;
    assert after[i] == before[i];
  }

  /**
   A transaction that pays holding `f.holding` is delivered before the parent whose found output
   `f` it spends; nothing else is contested.
   */
  ghost predicate LateParent(w: Watch, c: Chain, child: Tx, parent: Delivery, f: Found)
  {
    && Admissible(w, c, child) && CreditFor(w, child.vout, f.holding) > 0
    && parent.tx.txid != child.txid && parent.tx.txid !in c
    && (forall t :: t in c ==> Spends(c[t].vin) !! Spends(parent.tx.vin)) && Spends(child.vin) !! Spends(parent.tx.vin)
    && f in Discover(w, parent.tx.vout, parent.rows) && f.value > 0
    && Outpoint(parent.tx.txid, f.vout) in Spends(child.vin)
    && !Shares(w, child) && !Shares(w, parent.tx)
  }

  /**
   From any exact, balanced tables: a transaction is seen before its parent (in the mempool, say),
   then the parent arrives, then the transaction is delivered again (in a block). The books balance
   after each of the first two deliveries and not after the third.
   */
  lemma ChildParentChild(w: Watch, c: Chain, s: State, child: Delivery, parent: Delivery, again: Delivery, f: Found)
    requires Exact(w, c, s) && Conserved(w, s) && LateParent(w, c, child.tx, parent, f)
    requires Deliverable(w, s, child) && Deliverable(w, Delivered(w, s, child), parent)
    requires again.tx == child.tx && again.rows == child.rows
             && Deliverable(w, Delivered(w, Delivered(w, s, child), parent), again)
    ensures var s1 := Delivered(w, s, child);
            var s2 := Delivered(w, s1, parent);
            Conserved(w, s1) && Conserved(w, s2) && !Conserved(w, Delivered(w, s2, again))
  {
    var c1, s1 := c[child.tx.txid := child.tx], Delivered(w, s, child);
    var s2 := Delivered(w, s1, parent);
    ChildExact(w, c, s, child);
    ParentBalanced(w, c1, s1, parent);
    ParentRow(w, c1, s1, parent, f);
    ChildStays(w, s, child, parent, f.holding);
    LateParentUnbalances(w, s2, again, Outpoint(parent.tx.txid, f.vout), f.holding);
  }

  /////////////////////////////////////////////////////////////////////////////
  // Parent, child, rival child: another
  /////////////////////////////////////////////////////////////////////////////

  /** A delivery leaves the outputs it spends recorded, with their owner and value, and marked. */
  lemma ChildMarks(w: Watch, c: Chain, s: State, child: Delivery, o: Outpoint)
    requires SpendsExact(c, Delivered(w, s, child).utxos) && child.tx.txid in c && c[child.tx.txid] == child.tx
    requires o in Spends(child.tx.vin) && o in s.utxos
    ensures var u := Delivered(w, s, child).utxos;
            o in u && u[o].isSpent && u[o].descriptor == s.utxos[o].descriptor && u[o].value == s.utxos[o].value
  {
    ProcessRows(w, s, child.tx, child.height, child.rows, child.order);
    assert Delivered(w, s, child).utxos[o].spentIn == Some(child.tx.txid);
  }

  /** A transaction spends a recorded output, then another one spends it too: balanced after the first only. */
  lemma RivalChild(w: Watch, c: Chain, s: State, child: Delivery, rival: Delivery, o: Outpoint, h: HoldingId)
    requires Exact(w, c, s) && Conserved(w, s) && !Shares(w, child.tx) && !Shares(w, rival.tx)
    requires ProperDelivery(w, c, s, child) && Deliverable(w, Delivered(w, s, child), rival)
    requires rival.tx.txid !in c && rival.tx.txid != child.tx.txid
    requires o in Spends(child.tx.vin) && o in Spends(rival.tx.vin)
    requires o in s.utxos && OwnedBy(w, s.utxos[o], h) && s.utxos[o].value > 0
    ensures var s1 := Delivered(w, s, child);
            Conserved(w, s1) && !Conserved(w, Delivered(w, s1, rival))
  {
    var c1, s1 := c[child.tx.txid := child.tx], Delivered(w, s, child);
    ChildExact(w, c, s, child);
    ChildMarks(w, c1, s, child, o);
    SecondSpenderUnbalances(w, c1, s1, rival, o, h);
  }

  /////////////////////////////////////////////////////////////////////////////
  // The smallest runs, from empty tables
  /////////////////////////////////////////////////////////////////////////////

  /** One holding that watches one address. */
  ghost function OneWatch(address: string): Watch
  {
    Watch(map[0 := AddressRow(address, 0, false, 0)], map[0 := 0])
  }

  ghost function Parent(address: string, value: nat): Delivery
  {
    Delivery(Tx("p", [], [TxOut(0, value, Some(address))]), None, [0], [0])
  }

  /** A transaction that spends the parent's output and pays change back. */
  ghost function Child(txid: TxId, address: string, change: nat): Delivery
  {
    Delivery(Tx(txid, [Prevout(Outpoint("p", 0))], [TxOut(0, change, Some(address))]), None, [0], [0])
  }

  lemma OneFound(address: string, value: nat)
    ensures Discover(OneWatch(address), [TxOut(0, value, Some(address))], [0]) == [Found(0, value, 0, 0, 0)]
    ensures RowOrder(OneWatch(address), [TxOut(0, value, Some(address))], [0])
    ensures CreditFor(OneWatch(address), [TxOut(0, value, Some(address))], 0) == value
  {
    var w, vout := OneWatch(address), [TxOut(0, value, Some(address))];
    assert vout[..0] == [] && [0][..0] == [] && vout[0].address == Some(address);
    assert FoundAt(w, vout, 0) == [Found(0, value, 0, 0, 0)];
    assert Discover(w, vout, [0][..0]) == [];
    assert RowOrder(w, vout, [0]);
    DiscoverOrderFree(w, vout, [0], 0);
    assert [Found(0, value, 0, 0, 0)][..0] == [];
  }

  /** Whatever the tables say, a delivery in this world touches at most the one holding. */
  lemma OneDeliverable(address: string, s: State, d: Delivery, value: nat)
    requires d == Parent(address, value) || (d.tx.txid != "p" && d == Child(d.tx.txid, address, value))
    ensures Deliverable(OneWatch(address), s, d) && !Shares(OneWatch(address), d.tx)
  {
    var w, found := OneWatch(address), [Found(0, value, 0, 0, 0)];
    OneFound(address, value);
    assert found[0].holding == 0;
    forall h | h in Touched(w, s, d.tx, found) ensures h == 0 {}
  }

  lemma EmptyIsExact(w: Watch)
    ensures Exact(w, map[], EMPTY) && Conserved(w, EMPTY)
  {
  }

  lemma RunOfThree(w: Watch, d1: Delivery, d2: Delivery, d3: Delivery)
    ensures Run(w, [d1, d2, d3]) == Delivered(w, Delivered(w, Delivered(w, EMPTY, d1), d2), d3)
  {
    assert [d1, d2, d3][..2] == [d1, d2] && [d1, d2][..1] == [d1] && [d1][..0] == [];
    assert Run(w, [d1, d2]) == Delivered(w, Run(w, [d1]), d2);
  }

  lemma OneLateParent(address: string, change: nat, value: nat)
    requires change > 0 && value > 0
    ensures LateParent(OneWatch(address), map[], Child("c", address, change).tx, Parent(address, value),
                       Found(0, value, 0, 0, 0))
  {
    OneFound(address, change);
    OneFound(address, value);
    OneDeliverable(address, EMPTY, Child("c", address, change), change);
    OneDeliverable(address, EMPTY, Parent(address, value), value);
    assert Child("c", address, change).tx.vin[0].Prevout?;
  }

  /** The child before its parent and again after it: the books are off by the parent's value. */
  lemma LateParentRun(address: string, change: nat, value: nat)
    requires change > 0 && value > 0
    ensures var w, child, parent := OneWatch(address), Child("c", address, change), Parent(address, value);
            SingleOwner(w) && !Conserved(w, Run(w, [child, parent, child]))
  {
    OneLateParent(address, change, value);
    var w, child, parent := OneWatch(address), Child("c", address, change), Parent(address, value);
    LateParentRunIn(w, address, child, parent, change, value);
  }

  lemma LateParentRunIn(w: Watch, address: string, child: Delivery, parent: Delivery, change: nat, value: nat)
    requires w == OneWatch(address) && child == Child("c", address, change) && parent == Parent(address, value)
    requires LateParent(w, map[], child.tx, parent, Found(0, value, 0, 0, 0))
    ensures !Conserved(w, Run(w, [child, parent, child]))
  {
    var s1 := Delivered(w, EMPTY, child);
    var s2 := Delivered(w, s1, parent);
    OneDeliverable(address, EMPTY, child, change);
    OneDeliverable(address, s1, parent, value);
    OneDeliverable(address, s2, child, change);
    EmptyIsExact(w);
    ChildParentChild(w, map[], EMPTY, child, parent, child, Found(0, value, 0, 0, 0));
    RunOfThree(w, child, parent, child);
  }

  lemma OneParent(address: string, value: nat)
    requires value > 0
    ensures var w, d := OneWatch(address), Parent(address, value);
            var s := Delivered(w, EMPTY, d);
            && Exact(w, map["p" := d.tx], s) && Conserved(w, s) && Outpoint("p", 0) in s.utxos
            && OwnedBy(w, s.utxos[Outpoint("p", 0)], 0) && s.utxos[Outpoint("p", 0)].value > 0
  {
    var w, d := OneWatch(address), Parent(address, value);
    OneDeliverable(address, EMPTY, d, value);
    OneFound(address, value);
    EmptyIsExact(w);
    ChildExact(w, map[], EMPTY, d);
    assert map[]["p" := d.tx] == map["p" := d.tx];
    ParentRow(w, map[], EMPTY, d, Found(0, value, 0, 0, 0));
  }

  lemma OneChildAdmissible(address: string, value: nat, change: nat)
    ensures Admissible(OneWatch(address), map["p" := Parent(address, value).tx], Child("c", address, change).tx)
  {
  }

  lemma OneRival(address: string, s: State, value: nat, change: nat, rivalChange: nat)
    ensures var w, child, rival := OneWatch(address), Child("c", address, change), Child("r", address, rivalChange);
            && ProperDelivery(w, map["p" := Parent(address, value).tx], s, child)
            && Deliverable(w, Delivered(w, s, child), rival) && !Shares(w, child.tx) && !Shares(w, rival.tx)
            && Outpoint("p", 0) in Spends(child.tx.vin) && Outpoint("p", 0) in Spends(rival.tx.vin)
  {
    var w, child, rival := OneWatch(address), Child("c", address, change), Child("r", address, rivalChange);
    OneDeliverable(address, s, child, change);
    OneDeliverable(address, Delivered(w, s, child), rival, rivalChange);
    OneChildAdmissible(address, value, change);
    assert child.tx.vin[0].Prevout? && rival.tx.vin[0].Prevout?;
  }

  /** The parent and two children that both spend its output: the books are off by the parent's value. */
  lemma SecondSpenderRun(address: string, value: nat, change: nat, rivalChange: nat)
    requires value > 0
    ensures var w, child, rival := OneWatch(address), Child("c", address, change), Child("r", address, rivalChange);
            SingleOwner(w) && !Conserved(w, Run(w, [Parent(address, value), child, rival]))
  {
    var w, parent := OneWatch(address), Parent(address, value);
    var child, rival := Child("c", address, change), Child("r", address, rivalChange);
    OneParent(address, value);
    OneRival(address, Delivered(w, EMPTY, parent), value, change, rivalChange);
    RivalRun(w, map["p" := parent.tx], parent, child, rival, Outpoint("p", 0));
  }

  lemma RivalRun(w: Watch, c: Chain, parent: Delivery, child: Delivery, rival: Delivery, o: Outpoint)
    requires var s := Delivered(w, EMPTY, parent);
             && Exact(w, c, s) && Conserved(w, s) && o in s.utxos && OwnedBy(w, s.utxos[o], 0) && s.utxos[o].value > 0
             && ProperDelivery(w, c, s, child) && Deliverable(w, Delivered(w, s, child), rival)
    requires !Shares(w, child.tx) && !Shares(w, rival.tx) && o in Spends(child.tx.vin) && o in Spends(rival.tx.vin)
    requires rival.tx.txid !in c && rival.tx.txid != child.tx.txid
    ensures !Conserved(w, Run(w, [parent, child, rival]))
  {
    RivalChild(w, c, Delivered(w, EMPTY, parent), child, rival, o, 0);
    RunOfThree(w, parent, child, rival);
  }

  /** Two address rows, of different holdings, with the same address string. */
  ghost function SharedWatch(address: string): Watch
  {
    Watch(map[0 := AddressRow(address, 0, false, 0), 1 := AddressRow(address, 1, false, 0)], map[0 := 0, 1 := 1])
  }

  /** One payment to an address that two holdings watch, whatever orders its handling uses. */
  lemma SharedAddressRun(address: string, txid: TxId, value: nat, d: Delivery)
    requires value > 0 && d.tx == Tx(txid, [], [TxOut(0, value, Some(address))])
    requires Deliverable(SharedWatch(address), EMPTY, d)
    ensures !Conserved(SharedWatch(address), Run(SharedWatch(address), [d]))
  {
    var w := SharedWatch(address);
    assert Pays(w, d.tx.vout[0], 0) && Pays(w, d.tx.vout[0], 1);
    EmptyIsExact(w);
    SharedAddressUnbalances(w, map[], EMPTY, d);
    assert [d][..0] == [];
  }

  /** Such orders exist. */
  lemma SharedAddressDeliverable(address: string, txid: TxId, value: nat) returns (d: Delivery)
    ensures d.tx == Tx(txid, [], [TxOut(0, value, Some(address))]) && Deliverable(SharedWatch(address), EMPTY, d)
  {
    var w, out := SharedWatch(address), TxOut(0, value, Some(address));
    d := Delivery(Tx(txid, [], [out]), None, [0, 1], [0, 1]);
    assert [out][..0] == [] && [0, 1][..1] == [0] && [0][..0] == [] && [out][0].address == Some(address);
    assert FoundAt(w, [out], 0) == [Found(0, value, 0, 0, 0)] && FoundAt(w, [out], 1) == [Found(0, value, 1, 1, 1)];
    assert Discover(w, [out], [0]) == [Found(0, value, 0, 0, 0)];
    var found := Discover(w, [out], [0, 1]);
    assert found == [Found(0, value, 0, 0, 0), Found(0, value, 1, 1, 1)];
    assert found[0].holding == 0 && found[1].holding == 1;
  }
}
