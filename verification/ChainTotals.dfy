/** The figures and lists a delivery reports, stated from the inputs, outputs and rows they come from. */
module ChainTotals {
  import opened Sums
  import opened ChainModel
  import opened ChainRows
  import opened ChainBalance
  import opened ChainHistory
  import opened ChainRuns

  /** The spent outpoints reported: every recorded input, each once if the inputs are distinct. */
  lemma {:induction false} KnownInputsListed(utxos: map<Outpoint, Utxo>, vin: seq<TxIn>)
    ensures forall o :: o in KnownInputs(utxos, vin) <==> o in Spends(vin) && o in utxos
    ensures DistinctInputs(vin) ==> NoDuplicates(KnownInputs(utxos, vin))
  {
    if vin != [] {
      KnownInputsListed(utxos, vin[..|vin| - 1]);
      SpendsLast(vin);
      var input := vin[|vin| - 1];
      assert input.Prevout? && DistinctInputs(vin) ==> input.outpoint !in Spends(vin[..|vin| - 1]);
    }
  }

  /** The holdings touched: those that own a recorded input and those a watched address is paid for. */
  lemma TouchedExactly(w: Watch, s: State, tx: Tx, rows: seq<AddressId>, h: HoldingId)
    requires RowOrder(w, tx.vout, rows)
    ensures h in Touched(w, s, tx, Discover(w, tx.vout, rows)) <==>
            || (exists o :: o in Spends(tx.vin) && o in s.utxos && OwnedBy(w, s.utxos[o], h))
            || (exists a, i :: 0 <= i < |tx.vout| && Pays(w, tx.vout[i], a)
                               && w.descriptors[w.addresses[a].descriptor] == h)
  {
    DiscoverOrderFree(w, tx.vout, rows, h);
    if h in SpentHoldings(w, s.utxos, tx.vin) {
      var i :| 0 <= i < |tx.vin| && Known(s.utxos, tx.vin[i]) && s.utxos[tx.vin[i].outpoint].descriptor in w.descriptors
               && h == w.descriptors[s.utxos[tx.vin[i].outpoint].descriptor];
      assert tx.vin[i].outpoint in Spends(tx.vin);
    }
    if o :| o in Spends(tx.vin) && o in s.utxos && OwnedBy(w, s.utxos[o], h) {
      var i :| 0 <= i < |tx.vin| && tx.vin[i].Prevout? && tx.vin[i].outpoint == o;
      assert Known(s.utxos, tx.vin[i]);
    }
  }

  /** An output pays a row when it names its address string and the row's descriptor has a holding. */
  lemma PaysSpelled(w: Watch, out: TxOut, a: AddressId)
    ensures Pays(w, out, a) <==>
            && out.address.Some? && a in w.addresses && w.addresses[a].address == out.address.value
            && w.addresses[a].descriptor in w.descriptors
  {
  }

  /////////////////////////////////////////////////////////////////////////////
  // Totals
  /////////////////////////////////////////////////////////////////////////////

  ghost function Charges(w: Watch, utxos: map<Outpoint, Utxo>, vin: seq<TxIn>): HoldingId -> int
  {
    (h: HoldingId) => SpentFor(w, utxos, vin, h) as int
  }

  ghost function Receipts(found: seq<Found>): HoldingId -> int
  {
    (h: HoldingId) => ReceivedFor(found, h) as int
  }

  lemma AddToOne(hs: set<HoldingId>, f: HoldingId -> int, g: HoldingId -> int, h: HoldingId, v: int)
    requires h in hs && g(h) == f(h) + v && forall x :: x in hs && x != h ==> g(x) == f(x)
    ensures SumOver(hs, g) == SumOver(hs, f) + v
  {
    SumRemove(hs, f, h);
    SumRemove(hs, g, h);
    SumCongruence(hs - {h}, f, g);
  }

  lemma {:induction false} SumOfZeros(hs: set<HoldingId>, f: HoldingId -> int)
    requires forall x :: x in hs ==> f(x) == 0
    ensures SumOver(hs, f) == 0
    decreases hs
  {
    if hs != {} {
      var h :| h in hs;
      SumRemove(hs, f, h);
      SumOfZeros(hs - {h}, f);
    }
  }

  lemma {:induction false} SpentTotalOver(w: Watch, utxos: map<Outpoint, Utxo>, vin: seq<TxIn>, hs: set<HoldingId>)
    requires forall o :: o in utxos ==> utxos[o].descriptor in w.descriptors
    requires SpentHoldings(w, utxos, vin) <= hs
    ensures SpentTotal(utxos, vin) == SumOver(hs, Charges(w, utxos, vin))
  {
    if vin == [] {
      SumOfZeros(hs, Charges(w, utxos, vin));
    } else {
      var init, input := vin[..|vin| - 1], vin[|vin| - 1];
      SpentHoldingsLast(w, utxos, vin);
      SpentTotalOver(w, utxos, init, hs);
      if Known(utxos, input) {
        var u := utxos[input.outpoint];
        AddToOne(hs, Charges(w, utxos, init), Charges(w, utxos, vin), w.descriptors[u.descriptor], u.value);
      } else {
        SumCongruence(hs, Charges(w, utxos, init), Charges(w, utxos, vin));
      }
    }
  }

  lemma {:induction false} ReceivedTotalOver(found: seq<Found>, hs: set<HoldingId>)
    requires FoundHoldings(found) <= hs
    ensures ReceivedTotal(found) == SumOver(hs, Receipts(found))
  {
    if found == [] {
      SumOfZeros(hs, Receipts(found));
    } else {
      var init, f := found[..|found| - 1], found[|found| - 1];
      FoundHoldingsLast(found);
      ReceivedTotalOver(init, hs);
      AddToOne(hs, Receipts(init), Receipts(found), f.holding, f.value);
    }
  }

  ghost function Net(w: Watch, s: State, tx: Tx, found: seq<Found>): HoldingId -> int
  {
    (h: HoldingId) => ReceivedFor(found, h) - SpentFor(w, s.utxos, tx.vin, h)
  }

  lemma {:induction false} SumOfDifferences(hs: set<HoldingId>, f: HoldingId -> int, g: HoldingId -> int,
                                            d: HoldingId -> int)
    requires forall x :: x in hs ==> d(x) == f(x) - g(x)
    ensures SumOver(hs, d) == SumOver(hs, f) - SumOver(hs, g)
    decreases hs
  {
    if hs != {} {
      var h :| h in hs;
      SumRemove(hs, f, h);
      SumRemove(hs, g, h);
      SumRemove(hs, d, h);
      SumOfDifferences(hs - {h}, f, g, d);
    }
  }

  /** The net amount reported is the sum of the net amounts of the touched holdings. */
  lemma NetIsSumOfHoldings(w: Watch, s: State, tx: Tx, found: seq<Found>)
    requires forall o :: o in s.utxos ==> s.utxos[o].descriptor in w.descriptors
    ensures ReceivedTotal(found) - SpentTotal(s.utxos, tx.vin) ==
            SumOver(Touched(w, s, tx, found), Net(w, s, tx, found))
  {
    var hs := Touched(w, s, tx, found);
    SpentTotalOver(w, s.utxos, tx.vin, hs);
    ReceivedTotalOver(found, hs);
    SumOfDifferences(hs, Receipts(found), Charges(w, s.utxos, tx.vin), Net(w, s, tx, found));
  }

  /** A holding that is owed an entry is touched. */
  lemma OwedIsTouched(w: Watch, s: State, tx: Tx, rows: seq<AddressId>, h: HoldingId)
    requires RowOrder(w, tx.vout, rows) && Owes(w, s.utxos, tx, h)
    ensures h in Touched(w, s, tx, Discover(w, tx.vout, rows))
  {
    var found := Discover(w, tx.vout, rows);
    DiscoverOrderFree(w, tx.vout, rows, h);
    if h !in SpentHoldings(w, s.utxos, tx.vin) { UntouchedHasNoSpend(w, s.utxos, tx.vin, h); }
    if h !in FoundHoldings(found) { UntouchedHasNoReceipt(found, h); }
  }

  lemma OwedAmounts(w: Watch, s: State, tx: Tx, rows: seq<AddressId>, h: HoldingId)
    requires RowOrder(w, tx.vout, rows)
    ensures var found, p := Discover(w, tx.vout, rows), ReferencePosting(w, s.utxos, tx, h);
            && p.reference == tx.txid && p.direction == DirectionOf(w, s, tx, found)
            && p.netAmount == p.linkAmount == ReceivedFor(found, h) - SpentFor(w, s.utxos, tx.vin, h)
  {
    RecordedDirection(w, s, tx, rows);
    DiscoverOrderFree(w, tx.vout, rows, h);
  }

  /** Every entry a delivery adds: its transaction, a touched holding, and received minus spent as both amounts. */
  lemma EntryFields(w: Watch, s: State, d: Delivery, p: Posting)
    requires NoSelfSpend(d.tx) && RowOrder(w, d.tx.vout, d.rows)
    requires HoldingOrder(Touched(w, s, d.tx, Discover(w, d.tx.vout, d.rows)), d.order)
    requires p in Process(w, s, d.tx, d.height, d.rows, d.order).ledger && p !in s.ledger
    ensures var found := Discover(w, d.tx.vout, d.rows);
            && p.reference == d.tx.txid && p.holding in Touched(w, s, d.tx, found)
            && p.direction == DirectionOf(w, s, d.tx, found)
            && p.netAmount == p.linkAmount == ReceivedFor(found, p.holding) - SpentFor(w, s.utxos, d.tx.vin, p.holding)
  {
    assert p == ReferencePosting(w, s.utxos, d.tx, p.holding) && Owes(w, s.utxos, d.tx, p.holding) by {
      ProcessPosts(w, s, d.tx, d.height, d.rows, d.order);
    }
    OwedIsTouched(w, s, d.tx, d.rows, p.holding);
    OwedAmounts(w, s, d.tx, d.rows, p.holding);
  }
}
