/** What marking inputs and recording outputs do to the output table, row by row. */
module ChainRows {
  import opened Common
  import opened ChainModel

  /** Marking keeps every row and, on a row not spent before, records exactly the inputs listed. */
  lemma {:induction false} MarkSpentRows(utxos: map<Outpoint, Utxo>, vin: seq<TxIn>, txid: TxId)
    ensures MarkSpent(utxos, vin, txid).Keys == utxos.Keys
    ensures forall o :: o in utxos ==>
              MarkSpent(utxos, vin, txid)[o] ==
              if o in Spends(vin) && !utxos[o].isSpent then utxos[o].(isSpent := true, spentIn := Some(txid))
              else utxos[o]
  {
    if vin != [] {
      var init := vin[..|vin| - 1];
      MarkSpentRows(utxos, init, txid);
      SpendsLast(vin);
    }
  }

  lemma SpendsLast(vin: seq<TxIn>)
    requires vin != []
    ensures Spends(vin) == Spends(vin[..|vin| - 1]) +
                           if vin[|vin| - 1].Prevout? then {vin[|vin| - 1].outpoint} else {}
  {
    var init := vin[..|vin| - 1];
    forall o | o in Spends(vin) ensures o in Spends(init) || vin[|vin| - 1] == Prevout(o) {
      var i :| 0 <= i < |vin| && vin[i].Prevout? && vin[i].outpoint == o;
      if i < |init| { assert init[i] == vin[i]; }
    }
    forall o | o in Spends(init) ensures o in Spends(vin) {
      var i :| 0 <= i < |init| && init[i].Prevout? && init[i].outpoint == o;
      assert vin[i] == init[i];
    }
  }

  /** An input list has a known input exactly when it spends a recorded outpoint. */
  lemma {:induction false} KnownInputsEmpty(utxos: map<Outpoint, Utxo>, vin: seq<TxIn>)
    ensures KnownInputs(utxos, vin) == [] <==> Spends(vin) !! utxos.Keys
  {
    if vin != [] {
      KnownInputsEmpty(utxos, vin[..|vin| - 1]);
      SpendsLast(vin);
    }
  }

  /** Two output tables that agree on value and owner of the spent outpoints charge the same amounts. */
  lemma {:induction false} SpentForAgrees(w: Watch, u1: map<Outpoint, Utxo>, u2: map<Outpoint, Utxo>, vin: seq<TxIn>,
                                          h: HoldingId)
    requires forall o :: o in Spends(vin) ==> (o in u1 <==> o in u2)
    requires forall o :: o in Spends(vin) && o in u1 ==>
               u1[o].value == u2[o].value && u1[o].descriptor == u2[o].descriptor
    ensures SpentFor(w, u1, vin, h) == SpentFor(w, u2, vin, h)
    ensures SpentTotal(u1, vin) == SpentTotal(u2, vin)
    ensures KnownInputs(u1, vin) == KnownInputs(u2, vin)
  {
    if vin != [] {
      SpendsLast(vin);
      SpentForAgrees(w, u1, u2, vin[..|vin| - 1], h);
    }
  }

  lemma SpentHoldingsAgree(w: Watch, u1: map<Outpoint, Utxo>, u2: map<Outpoint, Utxo>, vin: seq<TxIn>)
    requires forall o :: o in Spends(vin) ==> (o in u1 <==> o in u2)
    requires forall o :: o in Spends(vin) && o in u1 ==> u1[o].descriptor == u2[o].descriptor
    ensures SpentHoldings(w, u1, vin) == SpentHoldings(w, u2, vin)
  {
    forall i | 0 <= i < |vin| ensures vin[i].Prevout? ==> vin[i].outpoint in Spends(vin) {}
  }

  lemma SpentHoldingsLast(w: Watch, utxos: map<Outpoint, Utxo>, vin: seq<TxIn>)
    requires vin != []
    ensures var input := vin[|vin| - 1];
            SpentHoldings(w, utxos, vin) == SpentHoldings(w, utxos, vin[..|vin| - 1]) +
            if Known(utxos, input) && utxos[input.outpoint].descriptor in w.descriptors
            then {w.descriptors[utxos[input.outpoint].descriptor]} else {}
  {
    var init := vin[..|vin| - 1];
    forall h | h in SpentHoldings(w, utxos, init) ensures h in SpentHoldings(w, utxos, vin) {
      var i :| 0 <= i < |init| && Known(utxos, init[i]) && utxos[init[i].outpoint].descriptor in w.descriptors
               && h == w.descriptors[utxos[init[i].outpoint].descriptor];
      assert vin[i] == init[i];
    }
    forall h | h in SpentHoldings(w, utxos, vin)
      ensures h in SpentHoldings(w, utxos, init) ||
              (Known(utxos, vin[|init|]) && utxos[vin[|init|].outpoint].descriptor in w.descriptors
               && h == w.descriptors[utxos[vin[|init|].outpoint].descriptor])
    {
      var i :| 0 <= i < |vin| && Known(utxos, vin[i]) && utxos[vin[i].outpoint].descriptor in w.descriptors
               && h == w.descriptors[utxos[vin[i].outpoint].descriptor];
      if i < |init| { assert init[i] == vin[i]; }
    }
  }

  /** A holding that none of the inputs or outputs belongs to is neither charged nor credited. */
  lemma {:induction false} UntouchedHasNoSpend(w: Watch, utxos: map<Outpoint, Utxo>, vin: seq<TxIn>, h: HoldingId)
    requires h !in SpentHoldings(w, utxos, vin)
    ensures SpentFor(w, utxos, vin, h) == 0
  {
    if vin != [] {
      SpentHoldingsLast(w, utxos, vin);
      UntouchedHasNoSpend(w, utxos, vin[..|vin| - 1], h);
    }
  }

  lemma FoundHoldingsLast(found: seq<Found>)
    requires found != []
    ensures FoundHoldings(found) == FoundHoldings(found[..|found| - 1]) + {found[|found| - 1].holding}
  {
    var init := found[..|found| - 1];
    forall h | h in FoundHoldings(init) ensures h in FoundHoldings(found) {
      var i :| 0 <= i < |init| && init[i].holding == h;
      assert found[i] == init[i];
    }
    forall h | h in FoundHoldings(found) ensures h in FoundHoldings(init) || h == found[|found| - 1].holding {
      var i :| 0 <= i < |found| && found[i].holding == h;
      if i < |init| { assert init[i] == found[i]; }
    }
  }

  lemma {:induction false} UntouchedHasNoReceipt(found: seq<Found>, h: HoldingId)
    requires h !in FoundHoldings(found)
    ensures ReceivedFor(found, h) == 0
  {
    if found != [] {
      FoundHoldingsLast(found);
      UntouchedHasNoReceipt(found[..|found| - 1], h);
    }
  }

  /////////////////////////////////////////////////////////////////////////////
  // Sign safety
  /////////////////////////////////////////////////////////////////////////////

  lemma {:induction false} PartsWithinTotals(w: Watch, utxos: map<Outpoint, Utxo>, vin: seq<TxIn>, found: seq<Found>,
                                             h: HoldingId)
    ensures SpentFor(w, utxos, vin, h) <= SpentTotal(utxos, vin)
    ensures ReceivedFor(found, h) <= ReceivedTotal(found)
    decreases |vin| + |found|
  {
    if vin != [] {
      PartsWithinTotals(w, utxos, vin[..|vin| - 1], found, h);
    } else if found != [] {
      PartsWithinTotals(w, utxos, vin, found[..|found| - 1], h);
    }
  }

  lemma {:induction false} SpendingTouchesAHolding(w: Watch, utxos: map<Outpoint, Utxo>, vin: seq<TxIn>)
    requires forall o :: o in utxos ==> utxos[o].descriptor in w.descriptors
    requires SpentTotal(utxos, vin) > 0
    ensures SpentHoldings(w, utxos, vin) != {}
  {
    SpentHoldingsLast(w, utxos, vin);
    if !Known(utxos, vin[|vin| - 1]) {
      SpendingTouchesAHolding(w, utxos, vin[..|vin| - 1]);
    }
  }

  /**
   The transaction-wide direction never contradicts the net amount of a holding, however the
   inputs and outputs are split over holdings: the ledger entry constructor accepts every entry.
   */
  lemma SignSafety(w: Watch, s: State, tx: Tx, found: seq<Found>, h: HoldingId)
    requires forall o :: o in s.utxos ==> s.utxos[o].descriptor in w.descriptors
    ensures EntryAccepted(DirectionOf(w, s, tx, found), ReceivedFor(found, h) - SpentFor(w, s.utxos, tx.vin, h))
    ensures DirectionOf(w, s, tx, found) == Incoming ==> ReceivedFor(found, h) - SpentFor(w, s.utxos, tx.vin, h) >= 0
    ensures DirectionOf(w, s, tx, found) == Outgoing ==> ReceivedFor(found, h) - SpentFor(w, s.utxos, tx.vin, h) <= 0
  {
    PartsWithinTotals(w, s.utxos, tx.vin, found, h);
    if SpentTotal(s.utxos, tx.vin) > 0 && found != [] {
      SpendingTouchesAHolding(w, s.utxos, tx.vin);
      assert found[0].holding in FoundHoldings(found);
    }
  }

  /**
   The direction the code infers: Internal as soon as it spends and pays something of ours, so a
   payment with change is Internal and only a payment without change is Outgoing.
   */
  lemma DirectionExactly(w: Watch, s: State, tx: Tx, found: seq<Found>)
    requires forall o :: o in s.utxos ==> s.utxos[o].descriptor in w.descriptors
    ensures var spent, received := SpentTotal(s.utxos, tx.vin), ReceivedTotal(found);
            && (DirectionOf(w, s, tx, found) == Incoming <==> spent == 0)
            && (DirectionOf(w, s, tx, found) == Outgoing <==> spent > 0 && received == 0)
            && (DirectionOf(w, s, tx, found) == Internal <==> spent > 0 && received > 0)
  {
    if SpentTotal(s.utxos, tx.vin) > 0 && found != [] {
      SpendingTouchesAHolding(w, s.utxos, tx.vin);
      assert found[0].holding in FoundHoldings(found);
    }
  }

  /////////////////////////////////////////////////////////////////////////////
  // Outputs
  /////////////////////////////////////////////////////////////////////////////

  /** Recording keeps the amounts, owners and spends of the rows that were there. */
  lemma {:induction false} RecordAllKeeps(s: State, txid: TxId, found: seq<Found>, height: Option<nat>)
    ensures var s1 := RecordAll(s, txid, found, height);
            && s.utxos.Keys <= s1.utxos.Keys
            && (forall o :: o in s.utxos ==> SameCoin(s1.utxos[o], s.utxos[o]))
            && s1.ledger == s.ledger && s1.onchain == s.onchain
  {
    if found != [] {
      RecordAllKeeps(s, txid, found[..|found| - 1], height);
      RecordOutputRows(RecordAll(s, txid, found[..|found| - 1], height), txid, found[|found| - 1], height);
    }
  }

  /** The row is a fresh unspent output made from one of the found outputs. */
  ghost predicate FreshRow(u: Utxo, o: Outpoint, txid: TxId, found: seq<Found>)
  {
    && o.txid == txid && !u.isSpent && u.spentIn.None?
    && exists i :: 0 <= i < |found| && found[i].vout == o.vout && CoinOf(u, found[i])
  }

  lemma FreshRowExtends(u: Utxo, v: Utxo, o: Outpoint, txid: TxId, found: seq<Found>)
    requires found != [] && FreshRow(u, o, txid, found[..|found| - 1]) && SameCoin(v, u)
    ensures FreshRow(v, o, txid, found)
  {
    var init := found[..|found| - 1];
    var i :| 0 <= i < |init| && init[i].vout == o.vout && CoinOf(u, init[i]);
    assert found[i] == init[i];
  }

  /** Every found output ends up in the table, and every new row comes from a found output. */
  lemma {:induction false} RecordAllAdds(s: State, txid: TxId, found: seq<Found>, height: Option<nat>)
    ensures var u := RecordAll(s, txid, found, height).utxos;
            && (forall o :: o in u && o !in s.utxos ==> FreshRow(u[o], o, txid, found))
            && (forall f :: f in found ==> Outpoint(txid, f.vout) in u)
  {
    if found != [] {
      var init, f := found[..|found| - 1], found[|found| - 1];
      RecordAllAdds(s, txid, init, height);
      var before := RecordAll(s, txid, init, height);
      var u := RecordAll(s, txid, found, height).utxos;
      RecordOutputRows(before, txid, f, height);
      forall o | o in u && o !in s.utxos ensures FreshRow(u[o], o, txid, found) {
        if o in before.utxos {
          FreshRowExtends(before.utxos[o], u[o], o, txid, found);
        } else {
          assert found[|init|] == f;
        }
      }
    }
  }

  /** Equal except for the confirmation height and the reuse flag. */
  predicate SameCoin(u: Utxo, v: Utxo)
  {
    u == v.(height := u.height, addressReused := u.addressReused)
  }

  predicate CoinOf(u: Utxo, f: Found)
  {
    u.value == f.value && u.address == f.address && u.descriptor == f.descriptor
  }

  lemma RecordOutputRows(s: State, txid: TxId, f: Found, height: Option<nat>)
    ensures var u := RecordOutput(s, txid, f, height).utxos;
            && u.Keys == s.utxos.Keys + {Outpoint(txid, f.vout)}
            && (forall o :: o in s.utxos ==> SameCoin(u[o], s.utxos[o]))
            && (Outpoint(txid, f.vout) !in s.utxos ==>
                  var row := u[Outpoint(txid, f.vout)];
                  CoinOf(row, f) && !row.isSpent && row.spentIn.None?)
    ensures RecordOutput(s, txid, f, height).ledger == s.ledger
    ensures RecordOutput(s, txid, f, height).onchain == s.onchain
  {
  }

  /** Membership in the discovered list: an output and a row it pays. */
  lemma {:induction false} FoundAtMember(w: Watch, vout: seq<TxOut>, a: AddressId, f: Found)
    ensures f in FoundAt(w, vout, a) <==>
            exists i :: 0 <= i < |vout| && Pays(w, vout[i], a) && f == FoundOf(w, vout[i], a)
  {
    if vout != [] {
      var init := vout[..|vout| - 1];
      FoundAtMember(w, init, a, f);
      if f in FoundAt(w, init, a) {
        var i :| 0 <= i < |init| && Pays(w, init[i], a) && f == FoundOf(w, init[i], a);
        assert vout[i] == init[i];
      }
      forall i | 0 <= i < |init| ensures vout[i] == init[i] {}
    }
  }

  lemma {:induction false} DiscoverMember(w: Watch, vout: seq<TxOut>, rows: seq<AddressId>, f: Found)
    ensures f in Discover(w, vout, rows) <==>
            && f.address in rows
            && exists i :: 0 <= i < |vout| && Pays(w, vout[i], f.address) && f == FoundOf(w, vout[i], f.address)
  {
    if rows != [] {
      DiscoverMember(w, vout, rows[..|rows| - 1], f);
      FoundAtMember(w, vout, rows[|rows| - 1], f);
      assert forall a :: a in rows <==> a in rows[..|rows| - 1] || a == rows[|rows| - 1];
    }
  }
}
