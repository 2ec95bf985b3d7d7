/**
 How one delivery moves the two balances of a holding: the sum of its ledger postings and the
 value of its unspent outputs.
 */
module ChainBalance {
  import opened Common
  import opened Sums
  import opened ChainModel
  import opened ChainRows

  /////////////////////////////////////////////////////////////////////////////
  // The discovered outputs, whatever the row order
  /////////////////////////////////////////////////////////////////////////////

  ghost predicate DistinctVouts(found: seq<Found>)
  {
    forall i, j :: 0 <= i < j < |found| ==> found[i].vout != found[j].vout
  }

  lemma {:induction false} FoundAtDistinct(w: Watch, vout: seq<TxOut>, a: AddressId)
    requires DistinctIndices(vout)
    ensures DistinctVouts(FoundAt(w, vout, a))
  {
    if vout != [] {
      var init := vout[..|vout| - 1];
      FoundAtDistinct(w, init, a);
      forall f | f in FoundAt(w, init, a) ensures f.vout != vout[|vout| - 1].n {
        FoundAtMember(w, init, a, f);
      }
    }
  }

  /** The same output may be found at two addresses, but not twice at one. */
  ghost predicate DistinctPairs(found: seq<Found>)
  {
    forall i, j :: 0 <= i < j < |found| ==> found[i].vout != found[j].vout || found[i].address != found[j].address
  }

  lemma {:induction false} DiscoverDistinct(w: Watch, vout: seq<TxOut>, rows: seq<AddressId>)
    requires NoDuplicates(rows) && DistinctIndices(vout)
    ensures DistinctPairs(Discover(w, vout, rows))
  {
    if rows != [] {
      var init, a := rows[..|rows| - 1], rows[|rows| - 1];
      DiscoverDistinct(w, vout, init);
      FoundAtDistinct(w, vout, a);
      forall f, g | f in Discover(w, vout, init) && g in FoundAt(w, vout, a) ensures f.address != g.address {
        DiscoverMember(w, vout, init, f);
        FoundAtMember(w, vout, a, g);
      }
    }
  }

  ghost function RowSet(w: Watch, vout: seq<TxOut>): set<AddressId>
  {
    set a | a in w.addresses && exists i :: 0 <= i < |vout| && vout[i].address == Some(w.addresses[a].address)
  }

  ghost function RowCredit(w: Watch, vout: seq<TxOut>, h: HoldingId): AddressId -> int
  {
    (a: AddressId) => ReceivedFor(FoundAt(w, vout, a), h) as int
  }

  ghost function RowValue(w: Watch, vout: seq<TxOut>): AddressId -> int
  {
    (a: AddressId) => ReceivedTotal(FoundAt(w, vout, a)) as int
  }

  /** What the outputs pay the watched addresses of one holding. */
  ghost function CreditFor(w: Watch, vout: seq<TxOut>, h: HoldingId): int
  {
    SumOver(RowSet(w, vout), RowCredit(w, vout, h))
  }

  lemma {:induction false} ReceivedAppend(f: seq<Found>, g: seq<Found>, h: HoldingId)
    ensures ReceivedFor(f + g, h) == ReceivedFor(f, h) + ReceivedFor(g, h)
    ensures ReceivedTotal(f + g) == ReceivedTotal(f) + ReceivedTotal(g)
  {
    if g == [] {
      assert f + g == f;
    } else {
      assert (f + g)[..|f + g| - 1] == f + g[..|g| - 1];
      ReceivedAppend(f, g[..|g| - 1], h);
    }
  }

  lemma {:induction false} DiscoverSums(w: Watch, vout: seq<TxOut>, rows: seq<AddressId>, s: set<AddressId>,
                                        h: HoldingId)
    requires NoDuplicates(rows) && forall a :: a in s <==> a in rows
    ensures ReceivedFor(Discover(w, vout, rows), h) == SumOver(s, RowCredit(w, vout, h))
    ensures ReceivedTotal(Discover(w, vout, rows)) == SumOver(s, RowValue(w, vout))
  {
    if rows == [] {
      assert s == {};
    } else {
      var init, a := rows[..|rows| - 1], rows[|rows| - 1];
      ReceivedAppend(Discover(w, vout, init), FoundAt(w, vout, a), h);
      DiscoverSums(w, vout, init, s - {a}, h);
      SumRemove(s, RowCredit(w, vout, h), a);
      SumRemove(s, RowValue(w, vout), a);
    }
  }

  /** Credits, totals and touched holdings do not depend on the order the address rows came in. */
  lemma DiscoverOrderFree(w: Watch, vout: seq<TxOut>, rows: seq<AddressId>, h: HoldingId)
    requires RowOrder(w, vout, rows)
    ensures ReceivedFor(Discover(w, vout, rows), h) == CreditFor(w, vout, h)
    ensures ReceivedTotal(Discover(w, vout, rows)) == SumOver(RowSet(w, vout), RowValue(w, vout))
    ensures h in FoundHoldings(Discover(w, vout, rows)) <==>
            exists a, i :: 0 <= i < |vout| && Pays(w, vout[i], a) && w.descriptors[w.addresses[a].descriptor] == h
  {
    var found := Discover(w, vout, rows);
    DiscoverSums(w, vout, rows, RowSet(w, vout), h);
    if h in FoundHoldings(found) {
      var k :| 0 <= k < |found| && found[k].holding == h;
      DiscoverMember(w, vout, rows, found[k]);
    }
    forall a, i | 0 <= i < |vout| && Pays(w, vout[i], a) && w.descriptors[w.addresses[a].descriptor] == h
      ensures h in FoundHoldings(found)
    {
      DiscoverMember(w, vout, rows, FoundOf(w, vout[i], a));
      var k :| 0 <= k < |found| && found[k] == FoundOf(w, vout[i], a);
    }
  }

  /////////////////////////////////////////////////////////////////////////////
  // Outputs found twice
  /////////////////////////////////////////////////////////////////////////////

  lemma {:induction false} RepeatCounts(found: seq<Found>, p: nat, q: nat)
    requires p < q < |found| && found[p].vout == found[q].vout
    ensures Repeats(found, found[q].holding) >= found[q].value
  {
    var init := found[..|found| - 1];
    if q < |init| {
      RepeatCounts(init, p, q);
    } else {
      assert init[p].vout == found[q].vout;
    }
  }

  lemma {:induction false} RepeatWitness(found: seq<Found>, h: HoldingId) returns (p: nat, q: nat)
    requires Repeats(found, h) > 0
    ensures p < q < |found| && found[p].vout == found[q].vout && found[q].value > 0
  {
    var init, f := found[..|found| - 1], found[|found| - 1];
    if Repeats(init, h) > 0 {
      p, q := RepeatWitness(init, h);
    } else {
      p :| 0 <= p < |init| && init[p].vout == f.vout;
      q := |init|;
    }
  }

  lemma FoundTwice(found: seq<Found>, f: Found, g: Found) returns (h: HoldingId)
    requires f in found && g in found && f != g && f.vout == g.vout && f.value > 0 && g.value > 0
    ensures Repeats(found, h) > 0
  {
    var p :| 0 <= p < |found| && found[p] == f;
    var q :| 0 <= q < |found| && found[q] == g;
    if p < q {
      RepeatCounts(found, p, q);
      h := g.holding;
    } else {
      RepeatCounts(found, q, p);
      h := f.holding;
    }
  }

  lemma SharedIsRepeated(w: Watch, tx: Tx, rows: seq<AddressId>) returns (h: HoldingId)
    requires RowOrder(w, tx.vout, rows) && Shares(w, tx)
    ensures Repeats(Discover(w, tx.vout, rows), h) > 0
  {
    var i: int, a: AddressId, b: AddressId :|
      0 <= i < |tx.vout| && tx.vout[i].value > 0 && a != b && Pays(w, tx.vout[i], a) && Pays(w, tx.vout[i], b);
    var f, g := FoundOf(w, tx.vout[i], a), FoundOf(w, tx.vout[i], b);
    DiscoverMember(w, tx.vout, rows, f);
    DiscoverMember(w, tx.vout, rows, g);
    h := FoundTwice(Discover(w, tx.vout, rows), f, g);
  }

  /** Some holding is credited twice for an output exactly when an output of value pays two address rows. */
  lemma RepeatsExactly(w: Watch, tx: Tx, rows: seq<AddressId>)
    requires RowOrder(w, tx.vout, rows) && DistinctIndices(tx.vout)
    ensures (exists h :: Repeats(Discover(w, tx.vout, rows), h) > 0) <==> Shares(w, tx)
  {
    if h :| Repeats(Discover(w, tx.vout, rows), h) > 0 {
      var p, q := RepeatWitness(Discover(w, tx.vout, rows), h);
      RepeatShares(w, tx, rows, p, q);
    }
    if Shares(w, tx) {
      var h := SharedIsRepeated(w, tx, rows);
    }
  }

  lemma RepeatShares(w: Watch, tx: Tx, rows: seq<AddressId>, p: nat, q: nat)
    requires NoDuplicates(rows) && DistinctIndices(tx.vout)
    requires var found := Discover(w, tx.vout, rows);
             p < q < |found| && found[p].vout == found[q].vout && found[q].value > 0
    ensures Shares(w, tx)
  {
    var f, g := Discover(w, tx.vout, rows)[p], Discover(w, tx.vout, rows)[q];
    DiscoverDistinct(w, tx.vout, rows);
    DiscoverMember(w, tx.vout, rows, f);
    DiscoverMember(w, tx.vout, rows, g);
    var i :| 0 <= i < |tx.vout| && Pays(w, tx.vout[i], f.address) && f == FoundOf(w, tx.vout[i], f.address);
    var j :| 0 <= j < |tx.vout| && Pays(w, tx.vout[j], g.address) && g == FoundOf(w, tx.vout[j], g.address);
    assert i == j;
  }

  /////////////////////////////////////////////////////////////////////////////
  // Unspent balance
  /////////////////////////////////////////////////////////////////////////////

  lemma UnspentCongruence(w: Watch, u1: map<Outpoint, Utxo>, u2: map<Outpoint, Utxo>, h: HoldingId)
    requires u1.Keys == u2.Keys
    requires forall o :: o in u1 ==> Worth(w, u1[o], h) == Worth(w, u2[o], h)
    ensures UnspentTotal(w, u1, h) == UnspentTotal(w, u2, h)
  {
    SumCongruence(u1.Keys, WorthAt(w, u1, h), WorthAt(w, u2, h));
  }

  /** Writing one row changes the balance by the difference the row makes. */
  lemma UnspentUpdate(w: Watch, utxos: map<Outpoint, Utxo>, o: Outpoint, u: Utxo, h: HoldingId)
    ensures UnspentTotal(w, utxos[o := u], h) ==
            UnspentTotal(w, utxos, h) - WorthAt(w, utxos, h)(o) + Worth(w, u, h)
  {
    var after := utxos[o := u];
    var others := utxos.Keys - {o};
    SumRemove(after.Keys, WorthAt(w, after, h), o);
    assert after.Keys - {o} == others;
    SumCongruence(others, WorthAt(w, utxos, h), WorthAt(w, after, h));
    if o in utxos {
      SumRemove(utxos.Keys, WorthAt(w, utxos, h), o);
    } else {
      assert others == utxos.Keys;
    }
  }

  /** The part of the inputs not already recorded as spent, each outpoint once. */
  function NewlySpent(w: Watch, utxos: map<Outpoint, Utxo>, vin: seq<TxIn>, h: HoldingId): nat
  {
    if vin == [] then 0
    else
      var init, input := vin[..|vin| - 1], vin[|vin| - 1];
      NewlySpent(w, utxos, init, h) +
      if Known(utxos, input) && input.outpoint !in Spends(init) then Worth(w, utxos[input.outpoint], h) else 0
  }

  lemma {:induction false} MarkSpentBalance(w: Watch, utxos: map<Outpoint, Utxo>, vin: seq<TxIn>, txid: TxId,
                                            h: HoldingId)
    ensures UnspentTotal(w, MarkSpent(utxos, vin, txid), h) == UnspentTotal(w, utxos, h) - NewlySpent(w, utxos, vin, h)
  {
    if vin != [] {
      var init, input := vin[..|vin| - 1], vin[|vin| - 1];
      MarkSpentBalance(w, utxos, init, txid, h);
      MarkSpentRows(utxos, init, txid);
      if Known(utxos, input) {
        var marked := MarkSpent(utxos, init, txid);
        UnspentUpdate(w, marked, input.outpoint,
                      marked[input.outpoint].(isSpent := true, spentIn := Some(txid)), h);
      }
    }
  }

  predicate HasVout(found: seq<Found>, vout: int)
  {
    exists i :: 0 <= i < |found| && found[i].vout == vout
  }

  /**
   The part of the found outputs that has no row yet: an output found at two addresses gets one
   row, for the first.
   */
  function NewlyReceived(utxos: map<Outpoint, Utxo>, txid: TxId, found: seq<Found>, h: HoldingId): nat
  {
    if found == [] then 0
    else
      var init, f := found[..|found| - 1], found[|found| - 1];
      NewlyReceived(utxos, txid, init, h) +
      if f.holding == h && Outpoint(txid, f.vout) !in utxos && !HasVout(init, f.vout) then f.value else 0
  }

  /** What a holding is credited for outputs already found at another address. */
  function Repeats(found: seq<Found>, h: HoldingId): nat
  {
    if found == [] then 0
    else
      var init, f := found[..|found| - 1], found[|found| - 1];
      Repeats(init, h) + if f.holding == h && HasVout(init, f.vout) then f.value else 0
  }

  ghost predicate Attributed(w: Watch, found: seq<Found>)
  {
    forall f :: f in found ==> f.descriptor in w.descriptors && w.descriptors[f.descriptor] == f.holding
  }

  lemma DiscoverAttributed(w: Watch, vout: seq<TxOut>, rows: seq<AddressId>)
    ensures Attributed(w, Discover(w, vout, rows))
  {
    forall f | f in Discover(w, vout, rows)
      ensures f.descriptor in w.descriptors && w.descriptors[f.descriptor] == f.holding
    {
      DiscoverMember(w, vout, rows, f);
    }
  }

  lemma RecordOutputBalance(w: Watch, s: State, txid: TxId, f: Found, height: Option<nat>, h: HoldingId)
    requires f.descriptor in w.descriptors && w.descriptors[f.descriptor] == f.holding
    ensures UnspentTotal(w, RecordOutput(s, txid, f, height).utxos, h) ==
            UnspentTotal(w, s.utxos, h) +
            if f.holding == h && Outpoint(txid, f.vout) !in s.utxos then f.value else 0
  {
    var o := Outpoint(txid, f.vout);
    if o in s.utxos {
      UnspentCongruence(w, s.utxos, RecordOutput(s, txid, f, height).utxos, h);
    } else {
      var flag := OtherTxPays(s.utxos, f.address, txid);
      var siblings := if flag then FlagSiblings(s.utxos, f.address) else s.utxos;
      UnspentCongruence(w, s.utxos, siblings, h);
      UnspentUpdate(w, siblings, o, Utxo(f.descriptor, f.address, f.value, height, false, None, flag), h);
    }
  }

  lemma {:induction false} RecordAllBalance(w: Watch, s: State, txid: TxId, found: seq<Found>, height: Option<nat>,
                                            h: HoldingId)
    requires Attributed(w, found)
    ensures UnspentTotal(w, RecordAll(s, txid, found, height).utxos, h) ==
            UnspentTotal(w, s.utxos, h) + NewlyReceived(s.utxos, txid, found, h)
  {
    if found != [] {
      var init, f := found[..|found| - 1], found[|found| - 1];
      RecordAllBalance(w, s, txid, init, height, h);
      var before := RecordAll(s, txid, init, height);
      RecordAllKeeps(s, txid, init, height);
      RecordAllAdds(s, txid, init, height);
      assert Outpoint(txid, f.vout) in before.utxos <==> Outpoint(txid, f.vout) in s.utxos || HasVout(init, f.vout) by {
        if HasVout(init, f.vout) {
          var i :| 0 <= i < |init| && init[i].vout == f.vout;
          assert init[i] in init;
        }
      }
      RecordOutputBalance(w, before, txid, f, height, h);
    }
  }

  /////////////////////////////////////////////////////////////////////////////
  // Ledger balance
  /////////////////////////////////////////////////////////////////////////////

  ghost predicate Postable(w: Watch, utxos: map<Outpoint, Utxo>, tx: Tx, found: seq<Found>, h: HoldingId)
  {
    ReceivedFor(found, h) != 0 || SpentFor(w, utxos, tx.vin, h) != 0
  }

  /** After posting, a holding is linked if it was before, or if it is in the order and has an amount. */
  lemma {:induction false} PostAllLinks(w: Watch, utxos: map<Outpoint, Utxo>, tx: Tx, found: seq<Found>, dir: Direction,
                                        ledger: seq<Posting>, order: seq<HoldingId>, h: HoldingId)
    ensures AlreadyLinked(PostAll(w, utxos, tx, found, dir, ledger, order), tx.txid, h) <==>
            AlreadyLinked(ledger, tx.txid, h) || (h in order && Postable(w, utxos, tx, found, h))
  {
    if order != [] {
      var init, g := order[..|order| - 1], order[|order| - 1];
      PostAllLinks(w, utxos, tx, found, dir, ledger, init, h);
      var before := PostAll(w, utxos, tx, found, dir, ledger, init);
      var after := PostAll(w, utxos, tx, found, dir, ledger, order);
      assert before <= after;
      assert h in order <==> h in init || h == g;
      if AlreadyLinked(before, tx.txid, h) {
        var i :| 0 <= i < |before| && before[i].reference == tx.txid && before[i].holding == h;
        assert after[i] == before[i];
      } else if after != before {
        assert after[|before|].reference == tx.txid && after[|before|].holding == g;
      }
    }
  }

  lemma {:induction false} PostAllTotal(w: Watch, utxos: map<Outpoint, Utxo>, tx: Tx, found: seq<Found>, dir: Direction,
                                        ledger: seq<Posting>, order: seq<HoldingId>, h: HoldingId)
    requires NoDuplicates(order)
    ensures LedgerTotal(PostAll(w, utxos, tx, found, dir, ledger, order), h) ==
            LedgerTotal(ledger, h) +
            if h in order && !AlreadyLinked(ledger, tx.txid, h)
            then ReceivedFor(found, h) - SpentFor(w, utxos, tx.vin, h) else 0
  {
    if order != [] {
      var init, g := order[..|order| - 1], order[|order| - 1];
      PostAllTotal(w, utxos, tx, found, dir, ledger, init, h);
      PostAllLinks(w, utxos, tx, found, dir, ledger, init, g);
      assert h in order <==> h in init || h == g;
      var before := PostAll(w, utxos, tx, found, dir, ledger, init);
      var after := PostAll(w, utxos, tx, found, dir, ledger, order);
      if after != before {
        assert after[..|after| - 1] == before;
      }
    }
  }

  /////////////////////////////////////////////////////////////////////////////
  // Drift
  /////////////////////////////////////////////////////////////////////////////

  /** Ledger balance minus unspent balance of a holding. */
  ghost function Drift(w: Watch, s: State, h: HoldingId): int
  {
    LedgerTotal(s.ledger, h) - UnspentTotal(w, s.utxos, h)
  }

  /**
   The amount by which a delivery moves the drift, from the tables before the call: a linked
   holding drifts by what this delivery newly spends and newly receives, any other by what was
   recorded before without a posting.
   */
  ghost function DriftOf(w: Watch, s: State, tx: Tx, found: seq<Found>, h: HoldingId): int
  {
    var newIn := NewlySpent(w, s.utxos, tx.vin, h);
    var newOut := NewlyReceived(s.utxos, tx.txid, found, h);
    if AlreadyLinked(s.ledger, tx.txid, h) then newIn - newOut
    else (ReceivedFor(found, h) - newOut) - (SpentFor(w, s.utxos, tx.vin, h) - newIn)
  }

  /** The amounts charged are read after the outputs are recorded; they are those of the tables before. */
  lemma ChargesUnchanged(w: Watch, s: State, tx: Tx, found: seq<Found>, height: Option<nat>, h: HoldingId)
    requires NoSelfSpend(tx)
    ensures SpentFor(w, WithOutputs(s, tx, found, height).utxos, tx.vin, h) == SpentFor(w, s.utxos, tx.vin, h)
  {
    var s1 := s.(utxos := MarkSpent(s.utxos, tx.vin, tx.txid), onchain := UpsertTx(s.onchain, tx.txid, height));
    MarkSpentRows(s.utxos, tx.vin, tx.txid);
    RecordAllKeeps(s1, tx.txid, found, height);
    RecordAllAdds(s1, tx.txid, found, height);
    SpentForAgrees(w, WithOutputs(s, tx, found, height).utxos, s.utxos, tx.vin, h);
  }

  /** Nothing known and nothing found: every amount of the delivery is zero. */
  lemma {:induction false} UnconcernedIsZero(w: Watch, utxos: map<Outpoint, Utxo>, vin: seq<TxIn>, h: HoldingId)
    requires KnownInputs(utxos, vin) == []
    ensures SpentFor(w, utxos, vin, h) == 0 && NewlySpent(w, utxos, vin, h) == 0
  {
    if vin != [] {
      UnconcernedIsZero(w, utxos, vin[..|vin| - 1], h);
    }
  }

  /** For every watch set, every state and every transaction: the exact change of the drift. */
  lemma DriftStep(w: Watch, s: State, tx: Tx, height: Option<nat>, rows: seq<AddressId>, order: seq<HoldingId>,
                  h: HoldingId)
    requires NoSelfSpend(tx) && HoldingOrder(Touched(w, s, tx, Discover(w, tx.vout, rows)), order)
    ensures Drift(w, Process(w, s, tx, height, rows, order), h) ==
            Drift(w, s, h) + DriftOf(w, s, tx, Discover(w, tx.vout, rows), h)
  {
    var found := Discover(w, tx.vout, rows);
    if !Concerns(s, tx, found) {
      UnconcernedIsZero(w, s.utxos, tx.vin, h);
    } else {
      var s1 := s.(utxos := MarkSpent(s.utxos, tx.vin, tx.txid), onchain := UpsertTx(s.onchain, tx.txid, height));
      var s2 := WithOutputs(s, tx, found, height);
      DiscoverAttributed(w, tx.vout, rows);
      MarkSpentBalance(w, s.utxos, tx.vin, tx.txid, h);
      MarkSpentRows(s.utxos, tx.vin, tx.txid);
      NewlyReceivedAgrees(s.utxos, s1.utxos, tx.txid, found, h);
      RecordAllBalance(w, s1, tx.txid, found, height, h);
      RecordAllKeeps(s1, tx.txid, found, height);
      ChargesUnchanged(w, s, tx, found, height, h);
      PostAllTotal(w, s2.utxos, tx, found, DirectionOf(w, s, tx, found), s2.ledger, order, h);
      if h !in order {
        UntouchedHasNoSpend(w, s.utxos, tx.vin, h);
        UntouchedHasNoReceipt(found, h);
      }
    }
  }

  lemma {:induction false} NewlyReceivedAgrees(u1: map<Outpoint, Utxo>, u2: map<Outpoint, Utxo>, txid: TxId,
                                               found: seq<Found>, h: HoldingId)
    requires u1.Keys == u2.Keys
    ensures NewlyReceived(u1, txid, found, h) == NewlyReceived(u2, txid, found, h)
  {
    if found != [] {
      NewlyReceivedAgrees(u1, u2, txid, found[..|found| - 1], h);
    }
  }

  /** Every holding's postings add up to its unspent outputs. */
  ghost predicate Conserved(w: Watch, s: State)
  {
    forall h :: LedgerTotal(s.ledger, h) == UnspentTotal(w, s.utxos, h)
  }

  lemma ConservedIsNoDrift(w: Watch, s: State)
    ensures Conserved(w, s) <==> forall h :: Drift(w, s, h) == 0
  {
    if Conserved(w, s) {
      forall h ensures Drift(w, s, h) == 0 { assert LedgerTotal(s.ledger, h) == UnspentTotal(w, s.utxos, h); }
    } else {
      var h :| LedgerTotal(s.ledger, h) != UnspentTotal(w, s.utxos, h);
      assert Drift(w, s, h) != 0;
    }
  }

  /** Exactly when a delivery keeps the books balanced, as a check on the tables before the call. */
  lemma ConservationExactly(w: Watch, s: State, tx: Tx, height: Option<nat>, rows: seq<AddressId>,
                            order: seq<HoldingId>)
    requires NoSelfSpend(tx) && HoldingOrder(Touched(w, s, tx, Discover(w, tx.vout, rows)), order)
    requires Conserved(w, s)
    ensures Conserved(w, Process(w, s, tx, height, rows, order)) <==>
            forall h :: DriftOf(w, s, tx, Discover(w, tx.vout, rows), h) == 0
  {
    var s' := Process(w, s, tx, height, rows, order);
    ConservedIsNoDrift(w, s);
    ConservedIsNoDrift(w, s');
    if Conserved(w, s') {
      forall h ensures DriftOf(w, s, tx, Discover(w, tx.vout, rows), h) == 0 {
        DriftStep(w, s, tx, height, rows, order, h);
        assert Drift(w, s', h) == 0;
      }
    } else {
      var h :| Drift(w, s', h) != 0;
      DriftStep(w, s, tx, height, rows, order, h);
      assert DriftOf(w, s, tx, Discover(w, tx.vout, rows), h) != 0;
    }
  }
}
