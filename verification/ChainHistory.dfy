/**
 What the tables should hold, by a definition that mentions only the set of transactions
 delivered, and the proof that one delivery keeps it.
 */
module ChainHistory {
  import opened Common
  import opened Sums
  import opened ChainModel
  import opened ChainRows
  import opened ChainBalance
  import opened ReuseIndex

  /** The transactions delivered so far, by txid. */
  type Chain = map<TxId, Tx>

  /////////////////////////////////////////////////////////////////////////////
  // The reference definition
  /////////////////////////////////////////////////////////////////////////////

  /** The row describes an output of `tx` that pays the row's address. */
  ghost predicate PaidBy(w: Watch, tx: Tx, o: Outpoint, u: Utxo)
  {
    exists i :: 0 <= i < |tx.vout| && tx.vout[i].n == o.vout && Pays(w, tx.vout[i], u.address)
                && u.value == tx.vout[i].value && u.descriptor == w.addresses[u.address].descriptor
  }

  /** The output table lists exactly the outputs of the delivered transactions to watched addresses. */
  ghost predicate OutputsExact(w: Watch, c: Chain, utxos: map<Outpoint, Utxo>)
  {
    && (forall o :: o in utxos ==> o.txid in c && PaidBy(w, c[o.txid], o, utxos[o]))
    && (forall t, i, a :: t in c && 0 <= i < |c[t].vout| && Pays(w, c[t].vout[i], a) ==>
        Outpoint(t, c[t].vout[i].n) in utxos)
  }

  /** An output is spent, by `t`, exactly when the delivered transaction `t` has it as an input. */
  ghost predicate SpendsExact(c: Chain, utxos: map<Outpoint, Utxo>)
  {
    && (forall o :: o in utxos ==> (utxos[o].isSpent <==> utxos[o].spentIn.Some?))
    && (forall o, t :: o in utxos ==> (utxos[o].spentIn == Some(t) <==> t in c && o in Spends(c[t].vin)))
  }

  ghost function PaidHoldings(w: Watch, vout: seq<TxOut>): set<HoldingId>
  {
    set a, i | a in w.addresses && 0 <= i < |vout| && Pays(w, vout[i], a) :: w.descriptors[w.addresses[a].descriptor]
  }

  ghost function ReferenceDirection(w: Watch, utxos: map<Outpoint, Utxo>, tx: Tx): Direction
  {
    var credited := SumOver(RowSet(w, tx.vout), RowValue(w, tx.vout));
    InferDirection(SpentTotal(utxos, tx.vin), if credited < 0 then 0 else credited,
                   |SpentHoldings(w, utxos, tx.vin)|, |PaidHoldings(w, tx.vout)|)
  }

  /** The posting a transaction owes a holding: what it pays the holding minus what it takes. */
  ghost function ReferencePosting(w: Watch, utxos: map<Outpoint, Utxo>, tx: Tx, h: HoldingId): Posting
  {
    var net := CreditFor(w, tx.vout, h) - SpentFor(w, utxos, tx.vin, h);
    Posting(tx.txid, h, ReferenceDirection(w, utxos, tx), net, net)
  }

  ghost predicate Owes(w: Watch, utxos: map<Outpoint, Utxo>, tx: Tx, h: HoldingId)
  {
    CreditFor(w, tx.vout, h) != 0 || SpentFor(w, utxos, tx.vin, h) != 0
  }

  ghost predicate OnePerHolding(ledger: seq<Posting>)
  {
    forall i, j :: 0 <= i < j < |ledger| ==>
      ledger[i].reference != ledger[j].reference || ledger[i].holding != ledger[j].holding
  }

  /** The ledger holds exactly the owed postings, one per transaction and holding. */
  ghost predicate LedgerExact(w: Watch, c: Chain, utxos: map<Outpoint, Utxo>, ledger: seq<Posting>)
  {
    && (forall p :: p in ledger ==>
          && p.reference in c && Owes(w, utxos, c[p.reference], p.holding)
          && p == ReferencePosting(w, utxos, c[p.reference], p.holding))
    && (forall t, h :: t in c && Owes(w, utxos, c[t], h) ==> AlreadyLinked(ledger, t, h))
    && OnePerHolding(ledger)
  }

  ghost predicate ProperChain(c: Chain)
  {
    forall t :: t in c ==> c[t].txid == t && WellFormedTx(c[t])
  }

  ghost predicate Exact(w: Watch, c: Chain, s: State)
  {
    && ProperChain(c)
    && OutputsExact(w, c, s.utxos)
    && SpendsExact(c, s.utxos)
    && LedgerExact(w, c, s.utxos, s.ledger)
    && ReuseExact(s)
  }

  /////////////////////////////////////////////////////////////////////////////
  // Admissible deliveries
  /////////////////////////////////////////////////////////////////////////////

  /**
   A txid names one transaction; no two transactions spend the same outpoint; and a transaction
   is first seen before any transaction that spends one of its recorded outputs.
   */
  ghost predicate Admissible(w: Watch, c: Chain, tx: Tx)
  {
    && WellFormedTx(tx)
    && (tx.txid in c ==> c[tx.txid] == tx)
    && (forall t :: t in c && t != tx.txid ==> Spends(c[t].vin) !! Spends(tx.vin))
    && (tx.txid !in c ==>
          forall t, i, a :: t in c && 0 <= i < |tx.vout| && Pays(w, tx.vout[i], a) ==>
            Outpoint(tx.txid, tx.vout[i].n) !in Spends(c[t].vin))
  }

  /////////////////////////////////////////////////////////////////////////////
  // One delivery
  /////////////////////////////////////////////////////////////////////////////

  /** The row of an outpoint after the inputs of a transaction are marked. */
  ghost function MarkedRow(u: Utxo, o: Outpoint, tx: Tx): Utxo
  {
    if o in Spends(tx.vin) && !u.isSpent then u.(isSpent := true, spentIn := Some(tx.txid)) else u
  }

  /** What a delivery leaves in the output table, relative to the table before. */
  ghost predicate RowsAfter(u: map<Outpoint, Utxo>, u': map<Outpoint, Utxo>, tx: Tx, found: seq<Found>)
  {
    && u.Keys <= u'.Keys
    && (forall o :: o in u ==>
          SameCoin(u'[o], MarkedRow(u[o], o, tx)))
    && (forall o :: o in u' && o !in u ==> FreshRow(u'[o], o, tx.txid, found))
    && (forall f :: f in found ==> Outpoint(tx.txid, f.vout) in u')
  }

  lemma ProcessRows(w: Watch, s: State, tx: Tx, height: Option<nat>, rows: seq<AddressId>, order: seq<HoldingId>)
    ensures RowsAfter(s.utxos, Process(w, s, tx, height, rows, order).utxos, tx, Discover(w, tx.vout, rows))
  {
    var found := Discover(w, tx.vout, rows);
    KnownInputsEmpty(s.utxos, tx.vin);
    if Concerns(s, tx, found) {
      var s1 := s.(utxos := MarkSpent(s.utxos, tx.vin, tx.txid), onchain := UpsertTx(s.onchain, tx.txid, height));
      MarkSpentRows(s.utxos, tx.vin, tx.txid);
      RecordAllKeeps(s1, tx.txid, found, height);
      RecordAllAdds(s1, tx.txid, found, height);
    }
  }

  lemma FreshRowIsPaid(w: Watch, tx: Tx, rows: seq<AddressId>, o: Outpoint, u: Utxo)
    requires FreshRow(u, o, tx.txid, Discover(w, tx.vout, rows))
    ensures PaidBy(w, tx, o, u)
  {
    var found := Discover(w, tx.vout, rows);
    var k :| 0 <= k < |found| && found[k].vout == o.vout && CoinOf(u, found[k]);
    DiscoverMember(w, tx.vout, rows, found[k]);
  }

  lemma OutputsStep(w: Watch, c: Chain, u: map<Outpoint, Utxo>, u': map<Outpoint, Utxo>, tx: Tx, rows: seq<AddressId>)
    requires OutputsExact(w, c, u) && (tx.txid in c ==> c[tx.txid] == tx) && RowOrder(w, tx.vout, rows)
    requires RowsAfter(u, u', tx, Discover(w, tx.vout, rows))
    ensures OutputsExact(w, c[tx.txid := tx], u')
  {
    var c' := c[tx.txid := tx];
    forall o | o in u' ensures o.txid in c' && PaidBy(w, c'[o.txid], o, u'[o]) {
      if o in u {
        assert c'[o.txid] == c[o.txid] && PaidBy(w, c[o.txid], o, u[o]);
      } else {
        FreshRowIsPaid(w, tx, rows, o, u'[o]);
      }
    }
    forall t, i, a | t in c' && 0 <= i < |c'[t].vout| && Pays(w, c'[t].vout[i], a)
      ensures Outpoint(t, c'[t].vout[i].n) in u'
    {
      if t == tx.txid {
        DiscoverMember(w, tx.vout, rows, FoundOf(w, tx.vout[i], a));
      } else {
        assert Outpoint(t, c[t].vout[i].n) in u;
      }
    }
  }

  /** A recorded output of a first delivery is spent by no transaction delivered before. */
  lemma NewRowsUnspent(w: Watch, c: Chain, u: map<Outpoint, Utxo>, u': map<Outpoint, Utxo>, tx: Tx,
                       rows: seq<AddressId>, o: Outpoint, t: TxId)
    requires OutputsExact(w, c, u) && Admissible(w, c, tx) && RowOrder(w, tx.vout, rows)
    requires RowsAfter(u, u', tx, Discover(w, tx.vout, rows))
    requires o in u' && o !in u && t in c
    ensures tx.txid !in c
    ensures o !in Spends(c[t].vin)
  {
    FreshRowIsPaid(w, tx, rows, o, u'[o]);
  }

  lemma SpendsOfOldRow(c: Chain, u: map<Outpoint, Utxo>, tx: Tx, o: Outpoint, t: TxId)
    requires SpendsExact(c, u) && o in u
    requires tx.txid in c ==> c[tx.txid] == tx
    requires forall t :: t in c && t != tx.txid ==> Spends(c[t].vin) !! Spends(tx.vin)
    ensures var row := MarkedRow(u[o], o, tx);
            && (row.isSpent <==> row.spentIn.Some?)
            && (row.spentIn == Some(t) <==> t in c[tx.txid := tx] && o in Spends(c[tx.txid := tx][t].vin))
  {
    assert u[o].spentIn == Some(t) <==> t in c && o in Spends(c[t].vin);
    if o in Spends(tx.vin) && u[o].isSpent {
      var t0 := u[o].spentIn.value;
      assert t0 in c && o in Spends(c[t0].vin);
    }
  }

  ghost predicate SpendAgrees(c: Chain, row: Utxo, o: Outpoint, t: TxId)
  {
    (row.isSpent <==> row.spentIn.Some?) && (row.spentIn == Some(t) <==> t in c && o in Spends(c[t].vin))
  }

  lemma SpendsOfRow(w: Watch, c: Chain, u: map<Outpoint, Utxo>, u': map<Outpoint, Utxo>, tx: Tx, rows: seq<AddressId>,
                    o: Outpoint, t: TxId)
    requires OutputsExact(w, c, u) && SpendsExact(c, u) && Admissible(w, c, tx) && RowOrder(w, tx.vout, rows)
    requires RowsAfter(u, u', tx, Discover(w, tx.vout, rows)) && o in u'
    ensures SpendAgrees(c[tx.txid := tx], u'[o], o, t)
  {
    if o in u {
      SpendsOfOldRow(c, u, tx, o, t);
    } else {
      assert FreshRow(u'[o], o, tx.txid, Discover(w, tx.vout, rows));
      OwnOutputsUnspent(tx, o);
      if t in c { NewRowsUnspent(w, c, u, u', tx, rows, o, t); }
    }
  }

  lemma SpendsStep(w: Watch, c: Chain, u: map<Outpoint, Utxo>, u': map<Outpoint, Utxo>, tx: Tx, rows: seq<AddressId>)
    requires OutputsExact(w, c, u) && SpendsExact(c, u) && Admissible(w, c, tx) && RowOrder(w, tx.vout, rows)
    requires RowsAfter(u, u', tx, Discover(w, tx.vout, rows))
    ensures SpendsExact(c[tx.txid := tx], u')
  {
    var c' := c[tx.txid := tx];
    forall o | o in u' ensures u'[o].isSpent <==> u'[o].spentIn.Some? {
      SpendsOfRow(w, c, u, u', tx, rows, o, tx.txid);
    }
    forall o, t | o in u' ensures u'[o].spentIn == Some(t) <==> t in c' && o in Spends(c'[t].vin) {
      SpendsOfRow(w, c, u, u', tx, rows, o, t);
    }
  }

  lemma OwnOutputsUnspent(tx: Tx, o: Outpoint)
    requires NoSelfSpend(tx) && o.txid == tx.txid
    ensures o !in Spends(tx.vin)
  {
  }

  lemma SpentKeysStable(w: Watch, c: Chain, u: map<Outpoint, Utxo>, u': map<Outpoint, Utxo>, tx: Tx,
                        rows: seq<AddressId>, t: TxId, o: Outpoint)
    requires OutputsExact(w, c, u) && Admissible(w, c, tx) && RowOrder(w, tx.vout, rows)
    requires RowsAfter(u, u', tx, Discover(w, tx.vout, rows))
    requires t in c[tx.txid := tx] && o in Spends(c[tx.txid := tx][t].vin)
    ensures o in u <==> o in u'
  {
    if o in u' && o !in u {
      assert FreshRow(u'[o], o, tx.txid, Discover(w, tx.vout, rows));
      OwnOutputsUnspent(tx, o);
      NewRowsUnspent(w, c, u, u', tx, rows, o, t);
      assert false;
    }
  }

  /** Amounts owed by transactions delivered before do not change when a delivery adds rows. */
  lemma ChargesStable(w: Watch, c: Chain, u: map<Outpoint, Utxo>, u': map<Outpoint, Utxo>, tx: Tx,
                      rows: seq<AddressId>, t: TxId, h: HoldingId)
    requires OutputsExact(w, c, u) && Admissible(w, c, tx) && RowOrder(w, tx.vout, rows)
    requires RowsAfter(u, u', tx, Discover(w, tx.vout, rows))
    requires t in c[tx.txid := tx]
    ensures var seen := c[tx.txid := tx][t];
            && SpentFor(w, u', seen.vin, h) == SpentFor(w, u, seen.vin, h)
            && ReferencePosting(w, u', seen, h) == ReferencePosting(w, u, seen, h)
  {
    var seen := c[tx.txid := tx][t];
    forall o | o in Spends(seen.vin)
      ensures (o in u <==> o in u') && (o in u ==> u'[o].value == u[o].value && u'[o].descriptor == u[o].descriptor)
    {
      SpentKeysStable(w, c, u, u', tx, rows, t, o);
    }
    PostingsAgree(w, u', u, seen, h);
  }

  lemma PostingsAgree(w: Watch, u1: map<Outpoint, Utxo>, u2: map<Outpoint, Utxo>, tx: Tx, h: HoldingId)
    requires forall o :: o in Spends(tx.vin) ==> (o in u1 <==> o in u2)
    requires forall o :: o in Spends(tx.vin) && o in u1 ==>
               u1[o].value == u2[o].value && u1[o].descriptor == u2[o].descriptor
    ensures SpentFor(w, u1, tx.vin, h) == SpentFor(w, u2, tx.vin, h)
    ensures ReferencePosting(w, u1, tx, h) == ReferencePosting(w, u2, tx, h)
  {
    SpentForAgrees(w, u1, u2, tx.vin, h);
    SpentHoldingsAgree(w, u1, u2, tx.vin);
  }

  lemma {:induction false} RecordedDirection(w: Watch, s: State, tx: Tx, rows: seq<AddressId>)
    requires RowOrder(w, tx.vout, rows)
    ensures DirectionOf(w, s, tx, Discover(w, tx.vout, rows)) == ReferenceDirection(w, s.utxos, tx)
  {
    var found := Discover(w, tx.vout, rows);
    DiscoverOrderFree(w, tx.vout, rows, 0);
    forall h ensures h in FoundHoldings(found) <==> h in PaidHoldings(w, tx.vout) {
      DiscoverOrderFree(w, tx.vout, rows, h);
    }
    assert FoundHoldings(found) == PaidHoldings(w, tx.vout);
  }

  /** Each posting written is the one owed; none is written for a holding already linked. */
  ghost predicate PostedFrom(ledger: seq<Posting>, ledger': seq<Posting>, w: Watch, u: map<Outpoint, Utxo>, tx: Tx)
  {
    && ledger <= ledger'
    && (forall p :: p in ledger' ==>
          p in ledger || (p == ReferencePosting(w, u, tx, p.holding) && Owes(w, u, tx, p.holding)))
    && (OnePerHolding(ledger) ==> OnePerHolding(ledger'))
    && (forall h :: Owes(w, u, tx, h) ==> AlreadyLinked(ledger', tx.txid, h))
  }

  lemma PostExact(w: Watch, u: map<Outpoint, Utxo>, tx: Tx, dir: Direction, ledger: seq<Posting>, h: HoldingId,
                  received: nat)
    requires received == CreditFor(w, tx.vout, h) && dir == ReferenceDirection(w, u, tx)
    ensures var ledger' := Post(ledger, tx.txid, dir, h, received, SpentFor(w, u, tx.vin, h));
            && ledger <= ledger'
            && (forall p :: p in ledger' ==>
                  p in ledger || (p == ReferencePosting(w, u, tx, p.holding) && Owes(w, u, tx, p.holding)))
            && (OnePerHolding(ledger) ==> OnePerHolding(ledger'))
  {
  }

  lemma {:induction false} PostAllExact(w: Watch, u: map<Outpoint, Utxo>, tx: Tx, found: seq<Found>, dir: Direction,
                                        ledger: seq<Posting>, order: seq<HoldingId>)
    requires forall h :: ReceivedFor(found, h) == CreditFor(w, tx.vout, h)
    requires dir == ReferenceDirection(w, u, tx)
    ensures var ledger' := PostAll(w, u, tx, found, dir, ledger, order);
            && ledger <= ledger'
            && (forall p :: p in ledger' ==>
                  p in ledger || (p == ReferencePosting(w, u, tx, p.holding) && Owes(w, u, tx, p.holding)))
            && (OnePerHolding(ledger) ==> OnePerHolding(ledger'))
  {
    if order != [] {
      var h := order[|order| - 1];
      PostAllExact(w, u, tx, found, dir, ledger, order[..|order| - 1]);
      PostExact(w, u, tx, dir, PostAll(w, u, tx, found, dir, ledger, order[..|order| - 1]), h, ReceivedFor(found, h));
    }
  }

  lemma {:induction false} PostAllKeepsOnePerHolding(w: Watch, u: map<Outpoint, Utxo>, tx: Tx, found: seq<Found>,
                                                     dir: Direction, ledger: seq<Posting>, order: seq<HoldingId>)
    requires OnePerHolding(ledger)
    ensures OnePerHolding(PostAll(w, u, tx, found, dir, ledger, order))
  {
    if order != [] {
      PostAllKeepsOnePerHolding(w, u, tx, found, dir, ledger, order[..|order| - 1]);
    }
  }

  /** At most one posting per transaction and holding, after any delivery of any transaction. */
  lemma ProcessKeepsOnePerHolding(w: Watch, s: State, tx: Tx, height: Option<nat>, rows: seq<AddressId>,
                                  order: seq<HoldingId>)
    requires OnePerHolding(s.ledger)
    ensures OnePerHolding(Process(w, s, tx, height, rows, order).ledger)
  {
    var found := Discover(w, tx.vout, rows);
    var s1 := WithOutputs(s, tx, found, height);
    RecordAllKeeps(s.(utxos := MarkSpent(s.utxos, tx.vin, tx.txid), onchain := UpsertTx(s.onchain, tx.txid, height)),
                   tx.txid, found, height);
    PostAllKeepsOnePerHolding(w, s1.utxos, tx, found, DirectionOf(w, s, tx, found), s1.ledger, order);
  }

  lemma ProcessPosts(w: Watch, s: State, tx: Tx, height: Option<nat>, rows: seq<AddressId>, order: seq<HoldingId>)
    requires NoSelfSpend(tx) && RowOrder(w, tx.vout, rows)
    requires HoldingOrder(Touched(w, s, tx, Discover(w, tx.vout, rows)), order)
    ensures PostedFrom(s.ledger, Process(w, s, tx, height, rows, order).ledger, w, s.utxos, tx)
  {
    var found := Discover(w, tx.vout, rows);
    forall h ensures ReceivedFor(found, h) == CreditFor(w, tx.vout, h) {
      DiscoverOrderFree(w, tx.vout, rows, h);
    }
    if !Concerns(s, tx, found) {
      forall h ensures !Owes(w, s.utxos, tx, h) { UnconcernedIsZero(w, s.utxos, tx.vin, h); }
    } else {
      var s2 := WithOutputs(s, tx, found, height);
      RecordedDirection(w, s, tx, rows);
      RecordAllKeeps(s.(utxos := MarkSpent(s.utxos, tx.vin, tx.txid), onchain := UpsertTx(s.onchain, tx.txid, height)),
                     tx.txid, found, height);
      PostAllReadsBefore(w, s, s2.utxos, tx, found, DirectionOf(w, s, tx, found), s.ledger, order, height);
      PostAllExact(w, s.utxos, tx, found, DirectionOf(w, s, tx, found), s.ledger, order);
      forall h | Owes(w, s.utxos, tx, h)
        ensures AlreadyLinked(Process(w, s, tx, height, rows, order).ledger, tx.txid, h)
      {
        if h !in order {
          UntouchedHasNoSpend(w, s.utxos, tx.vin, h);
          UntouchedHasNoReceipt(found, h);
        }
        PostAllLinks(w, s.utxos, tx, found, DirectionOf(w, s, tx, found), s.ledger, order, h);
      }
    }
  }

  lemma {:induction false} PostAllReadsBefore(w: Watch, s: State, u: map<Outpoint, Utxo>, tx: Tx, found: seq<Found>,
                                              dir: Direction, ledger: seq<Posting>, order: seq<HoldingId>,
                                              height: Option<nat>)
    requires NoSelfSpend(tx) && u == WithOutputs(s, tx, found, height).utxos
    ensures PostAll(w, u, tx, found, dir, ledger, order) == PostAll(w, s.utxos, tx, found, dir, ledger, order)
  {
    if order != [] {
      PostAllReadsBefore(w, s, u, tx, found, dir, ledger, order[..|order| - 1], height);
      ChargesUnchanged(w, s, tx, found, height, order[|order| - 1]);
    }
  }

  lemma LedgerStep(w: Watch, c: Chain, u: map<Outpoint, Utxo>, u': map<Outpoint, Utxo>, tx: Tx, rows: seq<AddressId>,
                   ledger: seq<Posting>, ledger': seq<Posting>)
    requires ProperChain(c) && OutputsExact(w, c, u) && Admissible(w, c, tx) && RowOrder(w, tx.vout, rows)
    requires RowsAfter(u, u', tx, Discover(w, tx.vout, rows))
    requires LedgerExact(w, c, u, ledger) && PostedFrom(ledger, ledger', w, u, tx)
    ensures LedgerExact(w, c[tx.txid := tx], u', ledger')
  {
    var c' := c[tx.txid := tx];
    forall p | p in ledger'
      ensures p.reference in c' && Owes(w, u', c'[p.reference], p.holding)
              && p == ReferencePosting(w, u', c'[p.reference], p.holding)
    {
      assert p in ledger ==> c'[p.reference] == c[p.reference];
      ChargesStable(w, c, u, u', tx, rows, p.reference, p.holding);
    }
    forall t, h | t in c' && Owes(w, u', c'[t], h) ensures AlreadyLinked(ledger', t, h) {
      ChargesStable(w, c, u, u', tx, rows, t, h);
      if t != tx.txid {
        assert AlreadyLinked(ledger, t, h);
        var i :| 0 <= i < |ledger| && ledger[i].reference == t && ledger[i].holding == h;
        assert ledger'[i] == ledger[i];
      }
    }
  }

  /** Every admissible delivery keeps the tables exact for the enlarged set of transactions. */
  lemma ExactStep(w: Watch, c: Chain, s: State, tx: Tx, height: Option<nat>, rows: seq<AddressId>,
                  order: seq<HoldingId>)
    requires Exact(w, c, s) && Admissible(w, c, tx) && RowOrder(w, tx.vout, rows)
    requires HoldingOrder(Touched(w, s, tx, Discover(w, tx.vout, rows)), order)
    ensures Exact(w, c[tx.txid := tx], Process(w, s, tx, height, rows, order))
  {
    var s' := Process(w, s, tx, height, rows, order);
    assert ProperChain(c[tx.txid := tx]);
    ProcessRows(w, s, tx, height, rows, order);
    OutputsStep(w, c, s.utxos, s'.utxos, tx, rows);
    SpendsStep(w, c, s.utxos, s'.utxos, tx, rows);
    ProcessPosts(w, s, tx, height, rows, order);
    LedgerStep(w, c, s.utxos, s'.utxos, tx, rows, s.ledger, s'.ledger);
    ProcessKeepsReuseExact(w, s, tx, height, rows, order);
  }
}
