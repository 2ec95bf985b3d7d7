/** Theorems over every run of deliveries that starts from empty tables. */
module ChainRuns {
  import opened Common
  import opened ChainModel
  import opened ChainRows
  import opened ChainBalance
  import opened ReuseIndex
  import opened ChainHistory

  /** One delivery, with the two iteration orders its handling happened to use. */
  datatype Delivery = Delivery(tx: Tx, height: Option<nat>, rows: seq<AddressId>, order: seq<HoldingId>)

  /** The set of transactions delivered, repeats collapsed. */
  ghost function Collect(ds: seq<Delivery>): Chain
  {
    if ds == [] then map[] else Collect(ds[..|ds| - 1])[ds[|ds| - 1].tx.txid := ds[|ds| - 1].tx]
  }

  ghost function Run(w: Watch, ds: seq<Delivery>): State
  {
    if ds == [] then EMPTY
    else
      var d := ds[|ds| - 1];
      Process(w, Run(w, ds[..|ds| - 1]), d.tx, d.height, d.rows, d.order)
  }

  ghost predicate ProperDelivery(w: Watch, c: Chain, s: State, d: Delivery)
  {
    && Admissible(w, c, d.tx)
    && RowOrder(w, d.tx.vout, d.rows)
    && HoldingOrder(Touched(w, s, d.tx, Discover(w, d.tx.vout, d.rows)), d.order)
  }

  /** Any repeats and any order in which each transaction is first seen after its recorded parents. */
  ghost predicate Proper(w: Watch, ds: seq<Delivery>)
  {
    ds == [] ||
    (Proper(w, ds[..|ds| - 1]) && ProperDelivery(w, Collect(ds[..|ds| - 1]), Run(w, ds[..|ds| - 1]), ds[|ds| - 1]))
  }

  /** The incremental tables are a function of the set of transactions delivered. */
  lemma {:induction false} RunIsExact(w: Watch, ds: seq<Delivery>)
    requires Proper(w, ds)
    ensures Exact(w, Collect(ds), Run(w, ds))
  {
    if ds != [] {
      var d := ds[|ds| - 1];
      RunIsExact(w, ds[..|ds| - 1]);
      ExactStep(w, Collect(ds[..|ds| - 1]), Run(w, ds[..|ds| - 1]), d.tx, d.height, d.rows, d.order);
    }
  }

  /////////////////////////////////////////////////////////////////////////////
  // Conservation
  /////////////////////////////////////////////////////////////////////////////

  /** On a first delivery every known input is unspent; on a repeat every known input is spent. */
  lemma {:induction false} InputsAllOrNothing(w: Watch, c: Chain, u: map<Outpoint, Utxo>, tx: Tx, vin: seq<TxIn>,
                                              h: HoldingId)
    requires SpendsExact(c, u) && Admissible(w, c, tx) && Spends(vin) <= Spends(tx.vin) && DistinctInputs(vin)
    ensures NewlySpent(w, u, vin, h) == if tx.txid in c then 0 else SpentFor(w, u, vin, h)
  {
    if vin != [] {
      SpendsLast(vin);
      InputsAllOrNothing(w, c, u, tx, vin[..|vin| - 1], h);
      var input := vin[|vin| - 1];
      if Known(u, input) {
        var o := input.outpoint;
        assert o !in Spends(vin[..|vin| - 1]);
        assert u[o].spentIn == Some(tx.txid) <==> tx.txid in c && o in Spends(c[tx.txid].vin);
        if u[o].isSpent {
          var t := u[o].spentIn.value;
          assert t in c && o in Spends(c[t].vin);
        }
      }
    }
  }

  lemma {:induction false} OutputsAllOrNothing(u: map<Outpoint, Utxo>, txid: TxId, found: seq<Found>, h: HoldingId)
    ensures (forall f :: f in found ==> Outpoint(txid, f.vout) in u) ==> NewlyReceived(u, txid, found, h) == 0
    ensures (forall f :: f in found ==> Outpoint(txid, f.vout) !in u) ==>
              NewlyReceived(u, txid, found, h) == ReceivedFor(found, h) - Repeats(found, h)
  {
    if found != [] {
      assert found[|found| - 1] in found;
      OutputsAllOrNothing(u, txid, found[..|found| - 1], h);
    }
  }

  lemma OnlySeenIsLinked(w: Watch, c: Chain, s: State, t: TxId, h: HoldingId)
    requires LedgerExact(w, c, s.utxos, s.ledger)
    ensures AlreadyLinked(s.ledger, t, h) ==> t in c
  {
    if AlreadyLinked(s.ledger, t, h) {
      var i :| 0 <= i < |s.ledger| && s.ledger[i].reference == t && s.ledger[i].holding == h;
      assert s.ledger[i] in s.ledger;
    }
  }

  /** The found outputs have rows exactly when the transaction was delivered before. */
  lemma FoundRowsPresent(w: Watch, c: Chain, u: map<Outpoint, Utxo>, tx: Tx, rows: seq<AddressId>, f: Found)
    requires OutputsExact(w, c, u) && (tx.txid in c ==> c[tx.txid] == tx)
    requires f in Discover(w, tx.vout, rows)
    ensures Outpoint(tx.txid, f.vout) in u <==> tx.txid in c
  {
    DiscoverMember(w, tx.vout, rows, f);
  }

  /** A first delivery drifts by the outputs it finds twice, a repeat not at all. */
  lemma ProperDrift(w: Watch, c: Chain, s: State, d: Delivery, h: HoldingId)
    requires Exact(w, c, s) && ProperDelivery(w, c, s, d)
    ensures var found := Discover(w, d.tx.vout, d.rows);
            DriftOf(w, s, d.tx, found, h) == if d.tx.txid in c then 0 else Repeats(found, h)
  {
    var tx, found := d.tx, Discover(w, d.tx.vout, d.rows);
    assert NewlySpent(w, s.utxos, tx.vin, h) == if tx.txid in c then 0 else SpentFor(w, s.utxos, tx.vin, h) by {
      InputsAllOrNothing(w, c, s.utxos, tx, tx.vin, h);
    }
    assert NewlyReceived(s.utxos, tx.txid, found, h) ==
           if tx.txid in c then 0 else ReceivedFor(found, h) - Repeats(found, h) by {
      forall f | f in found ensures Outpoint(tx.txid, f.vout) in s.utxos <==> tx.txid in c {
        FoundRowsPresent(w, c, s.utxos, tx, d.rows, f);
      }
      OutputsAllOrNothing(s.utxos, tx.txid, found, h);
    }
    OnlySeenIsLinked(w, c, s, tx.txid, h);
    if !AlreadyLinked(s.ledger, tx.txid, h) && tx.txid in c {
      assert !Owes(w, s.utxos, c[tx.txid], h);
      DiscoverOrderFree(w, tx.vout, d.rows, h);
    }
  }

  /** Over a proper run the drift of a holding is never negative and never falls. */
  lemma {:induction false} DriftGrows(w: Watch, ds: seq<Delivery>, h: HoldingId)
    requires Proper(w, ds)
    ensures Drift(w, Run(w, ds), h) >= 0
    ensures ds != [] ==>
              var d := ds[|ds| - 1];
              Drift(w, Run(w, ds), h) == Drift(w, Run(w, ds[..|ds| - 1]), h) +
              if d.tx.txid in Collect(ds[..|ds| - 1]) then 0 else Repeats(Discover(w, d.tx.vout, d.rows), h)
  {
    if ds != [] {
      var init, d := ds[..|ds| - 1], ds[|ds| - 1];
      DriftGrows(w, init, h);
      RunIsExact(w, init);
      ProperDrift(w, Collect(init), Run(w, init), d, h);
      DriftStep(w, Run(w, init), d.tx, d.height, d.rows, d.order, h);
    }
  }

  /** Two drifts that never fall cannot make up for each other. */
  lemma BalanceSplits(w: Watch, s: State, s': State, found: seq<Found>)
    requires forall h :: Drift(w, s, h) >= 0
    requires forall h :: Drift(w, s', h) == Drift(w, s, h) + Repeats(found, h)
    ensures Conserved(w, s') <==> Conserved(w, s) && !exists h :: Repeats(found, h) > 0
  {
    ConservedIsNoDrift(w, s);
    ConservedIsNoDrift(w, s');
    if Conserved(w, s') {
      forall h ensures Drift(w, s, h) == 0 && Repeats(found, h) == 0 {
        assert Drift(w, s', h) == 0;
      }
    } else {
      var h :| Drift(w, s', h) != 0;
      assert Drift(w, s, h) != 0 || Repeats(found, h) > 0;
    }
  }

  /** The delivery that ends a run keeps the books balanced iff it repeats a transaction or shares no output. */
  lemma LastKeepsBalance(w: Watch, ds: seq<Delivery>)
    requires ds != [] && Proper(w, ds)
    ensures var init, tx := ds[..|ds| - 1], ds[|ds| - 1].tx;
            Conserved(w, Run(w, ds)) <==>
            Conserved(w, Run(w, init)) && (tx.txid in Collect(init) || !Shares(w, tx))
  {
    var init, d := ds[..|ds| - 1], ds[|ds| - 1];
    var found := if d.tx.txid in Collect(init) then [] else Discover(w, d.tx.vout, d.rows);
    var s, s' := Run(w, init), Run(w, ds);
    forall h ensures Drift(w, s, h) >= 0 && Drift(w, s', h) == Drift(w, s, h) + Repeats(found, h) {
      DriftGrows(w, init, h);
      DriftGrows(w, ds, h);
    }
    BalanceSplits(w, s, s', found);
    RepeatsExactly(w, d.tx, d.rows);
  }

  ghost predicate NoneShares(w: Watch, c: Chain)
  {
    forall t :: t in c ==> !Shares(w, c[t])
  }

  lemma NoneSharesNext(w: Watch, c: Chain, tx: Tx)
    requires tx.txid in c ==> c[tx.txid] == tx
    ensures NoneShares(w, c[tx.txid := tx]) <==> NoneShares(w, c) && (tx.txid in c || !Shares(w, tx))
  {
    var c' := c[tx.txid := tx];
    if NoneShares(w, c') {
      assert !Shares(w, c'[tx.txid]);
      forall t | t in c ensures !Shares(w, c[t]) { assert c'[t] == c[t]; }
    }
  }

  /**
   Conservation, exactly: over every proper run, whatever the watch set, the postings of every
   holding add up to the value of its unspent outputs if and only if no delivered transaction has
   an output of value that pays two address rows.
   */
  lemma {:induction false} ConservedRunsExactly(w: Watch, ds: seq<Delivery>)
    requires Proper(w, ds)
    ensures Conserved(w, Run(w, ds)) <==> NoneShares(w, Collect(ds))
  {
    if ds == [] {
      ConservedIsNoDrift(w, EMPTY);
    } else {
      ConservedRunsExactly(w, ds[..|ds| - 1]);
      LastKeepsBalance(w, ds);
      NoneSharesNext(w, Collect(ds[..|ds| - 1]), ds[|ds| - 1].tx);
    }
  }

  /**
   Conservation: when every address string belongs to one row, the books balance after every
   proper run, and no transaction is posted twice to a holding.
   */
  lemma Conservation(w: Watch, ds: seq<Delivery>)
    requires SingleOwner(w) && Proper(w, ds)
    ensures Conserved(w, Run(w, ds))
    ensures OnePerHolding(Run(w, ds).ledger)
  {
    RunIsExact(w, ds);
    ConservedRunsExactly(w, ds);
  }

  /////////////////////////////////////////////////////////////////////////////
  // Confluence
  /////////////////////////////////////////////////////////////////////////////

  /** Equal except for confirmation heights and the order of the ledger. */
  ghost predicate SameOutcome(s1: State, s2: State)
  {
    && s1.utxos.Keys == s2.utxos.Keys
    && (forall o :: o in s1.utxos ==> s1.utxos[o] == s2.utxos[o].(height := s1.utxos[o].height))
    && s1.reused == s2.reused
    && multiset(s1.ledger) == multiset(s2.ledger)
  }

  lemma SameKeys(w: Watch, c: Chain, u1: map<Outpoint, Utxo>, u2: map<Outpoint, Utxo>, o: Outpoint)
    requires OutputsExact(w, c, u1) && OutputsExact(w, c, u2) && o in u1
    ensures o in u2
  {
    var tx := c[o.txid];
    var i :| 0 <= i < |tx.vout| && tx.vout[i].n == o.vout && Pays(w, tx.vout[i], u1[o].address)
             && u1[o].value == tx.vout[i].value && u1[o].descriptor == w.addresses[u1[o].address].descriptor;
    assert Outpoint(o.txid, c[o.txid].vout[i].n) in u2;
  }

  ghost predicate NoneAmbiguous(w: Watch, c: Chain)
  {
    forall t :: t in c ==> !Ambiguous(w, c[t])
  }

  /** The transaction fixes what its outpoint holds: indices are distinct and each output pays one row. */
  lemma SamePayment(w: Watch, tx: Tx, o: Outpoint, u1: Utxo, u2: Utxo)
    requires !Ambiguous(w, tx) && WellFormedTx(tx) && PaidBy(w, tx, o, u1) && PaidBy(w, tx, o, u2)
    ensures u1.value == u2.value && u1.address == u2.address && u1.descriptor == u2.descriptor
  {
    var i :| 0 <= i < |tx.vout| && tx.vout[i].n == o.vout && Pays(w, tx.vout[i], u1.address)
             && u1.value == tx.vout[i].value && u1.descriptor == w.addresses[u1.address].descriptor;
    var j :| 0 <= j < |tx.vout| && tx.vout[j].n == o.vout && Pays(w, tx.vout[j], u2.address)
             && u2.value == tx.vout[j].value && u2.descriptor == w.addresses[u2.address].descriptor;
    assert i == j;
  }

  lemma SameSpender(c: Chain, u1: map<Outpoint, Utxo>, u2: map<Outpoint, Utxo>, o: Outpoint)
    requires SpendsExact(c, u1) && SpendsExact(c, u2) && o in u1 && o in u2
    ensures u1[o].isSpent == u2[o].isSpent && u1[o].spentIn == u2[o].spentIn
  {
    if u1[o].spentIn.Some? { assert u2[o].spentIn == Some(u1[o].spentIn.value); }
    if u2[o].spentIn.Some? { assert u1[o].spentIn == Some(u2[o].spentIn.value); }
  }

  lemma SameReuse(s1: State, s2: State, a: AddressId)
    requires s1.utxos.Keys == s2.utxos.Keys
    requires forall o :: o in s1.utxos ==> s1.utxos[o].address == s2.utxos[o].address
    requires PaidTwice(s1.utxos, a)
    ensures PaidTwice(s2.utxos, a)
  {
    var o, p :|
      o in s1.utxos && p in s1.utxos && s1.utxos[o].address == a && s1.utxos[p].address == a && o.txid != p.txid;
    assert s2.utxos[o].address == a && s2.utxos[p].address == a;
  }

  lemma SamePostings(w: Watch, c: Chain, s1: State, s2: State, p: Posting)
    requires LedgerExact(w, c, s1.utxos, s1.ledger) && LedgerExact(w, c, s2.utxos, s2.ledger)
    requires ProperChain(c)
    requires s1.utxos.Keys == s2.utxos.Keys
    requires forall o :: o in s1.utxos ==>
               s1.utxos[o].value == s2.utxos[o].value && s1.utxos[o].descriptor == s2.utxos[o].descriptor
    requires p in s1.ledger
    ensures p in s2.ledger
  {
    var tx := c[p.reference];
    PostingsAgree(w, s1.utxos, s2.utxos, tx, p.holding);
    assert AlreadyLinked(s2.ledger, p.reference, p.holding);
    var i :| 0 <= i < |s2.ledger| && s2.ledger[i].reference == p.reference && s2.ledger[i].holding == p.holding;
    assert s2.ledger[i] in s2.ledger;
  }

  lemma {:induction false} CountOnce<T>(s: seq<T>, x: T)
    requires NoDuplicates(s)
    ensures multiset(s)[x] == if x in s then 1 else 0
  {
    if s != [] {
      assert s == s[..|s| - 1] + [s[|s| - 1]];
      CountOnce(s[..|s| - 1], x);
    }
  }

  lemma SameRows(w: Watch, c: Chain, u1: map<Outpoint, Utxo>, u2: map<Outpoint, Utxo>)
    requires NoneAmbiguous(w, c) && ProperChain(c)
    requires OutputsExact(w, c, u1) && OutputsExact(w, c, u2) && SpendsExact(c, u1) && SpendsExact(c, u2)
    ensures u1.Keys == u2.Keys
    ensures forall o :: o in u1 ==> SameCoin(u1[o], u2[o])
  {
    forall o ensures o in u1 <==> o in u2 {
      if o in u1 { SameKeys(w, c, u1, u2, o); }
      if o in u2 { SameKeys(w, c, u2, u1, o); }
    }
    forall o | o in u1 ensures SameCoin(u1[o], u2[o]) {
      SamePayment(w, c[o.txid], o, u1[o], u2[o]);
      SameSpender(c, u1, u2, o);
    }
  }

  lemma SameFlags(s1: State, s2: State)
    requires ReuseExact(s1) && ReuseExact(s2) && s1.utxos.Keys == s2.utxos.Keys
    requires forall o :: o in s1.utxos ==> s1.utxos[o].address == s2.utxos[o].address
    ensures s1.reused == s2.reused
    ensures forall o :: o in s1.utxos ==> s1.utxos[o].addressReused == s2.utxos[o].addressReused
  {
    forall a ensures PaidTwice(s1.utxos, a) <==> PaidTwice(s2.utxos, a) {
      if PaidTwice(s1.utxos, a) { SameReuse(s1, s2, a); }
      if PaidTwice(s2.utxos, a) { SameReuse(s2, s1, a); }
    }
  }

  lemma SameLedger(w: Watch, c: Chain, s1: State, s2: State)
    requires LedgerExact(w, c, s1.utxos, s1.ledger) && LedgerExact(w, c, s2.utxos, s2.ledger) && ProperChain(c)
    requires s1.utxos.Keys == s2.utxos.Keys
    requires forall o :: o in s1.utxos ==> SameCoin(s1.utxos[o], s2.utxos[o])
    ensures multiset(s1.ledger) == multiset(s2.ledger)
  {
    forall p ensures multiset(s1.ledger)[p] == multiset(s2.ledger)[p] {
      if p in s1.ledger { SamePostings(w, c, s1, s2, p); }
      if p in s2.ledger { SamePostings(w, c, s2, s1, p); }
      CountOnce(s1.ledger, p);
      CountOnce(s2.ledger, p);
    }
  }

  /** Two tables that are exact for the same set of transactions have the same contents. */
  lemma ExactDetermines(w: Watch, c: Chain, s1: State, s2: State)
    requires NoneAmbiguous(w, c) && Exact(w, c, s1) && Exact(w, c, s2)
    ensures SameOutcome(s1, s2)
  {
    SameRows(w, c, s1.utxos, s2.utxos);
    SameLedger(w, c, s1, s2);
    SameFlags(s1, s2);
  }

  /**
   Confluence: two proper runs over the same set of transactions, with any repeats and in any
   parent-first order, end in the same outputs, spends, flags and postings, unless an output pays
   two address rows.
   */
  lemma Confluence(w: Watch, ds1: seq<Delivery>, ds2: seq<Delivery>)
    requires Proper(w, ds1) && Proper(w, ds2)
    requires Collect(ds1) == Collect(ds2) && NoneAmbiguous(w, Collect(ds1))
    ensures SameOutcome(Run(w, ds1), Run(w, ds2))
  {
    RunIsExact(w, ds1);
    RunIsExact(w, ds2);
    ExactDetermines(w, Collect(ds1), Run(w, ds1), Run(w, ds2));
  }

  /** A repeat finds every output recorded and every input marked. */
  lemma RepeatKeepsRows(w: Watch, c: Chain, u: map<Outpoint, Utxo>, u': map<Outpoint, Utxo>, tx: Tx,
                        rows: seq<AddressId>)
    requires OutputsExact(w, c, u) && SpendsExact(c, u) && tx.txid in c && c[tx.txid] == tx
    requires RowsAfter(u, u', tx, Discover(w, tx.vout, rows))
    ensures u'.Keys == u.Keys && forall o :: o in u ==> SameCoin(u'[o], u[o])
  {
    var found := Discover(w, tx.vout, rows);
    forall o | o in u' ensures o in u {
      if o !in u {
        var i :| 0 <= i < |found| && found[i].vout == o.vout && CoinOf(u'[o], found[i]);
        FoundRowsPresent(w, c, u, tx, rows, found[i]);
      }
    }
    forall o | o in u ensures SameCoin(u'[o], u[o]) {
      assert o in Spends(tx.vin) ==> u[o].spentIn == Some(tx.txid);
    }
  }

  /** A ledger that grows gains a pair it did not have. */
  lemma GrowthIsNew(ledger: seq<Posting>, ledger': seq<Posting>)
    requires ledger <= ledger' && ledger' != ledger && OnePerHolding(ledger')
    ensures exists p :: p in ledger' && !AlreadyLinked(ledger, p.reference, p.holding)
  {
    var p := ledger'[|ledger|];
    assert p in ledger';
    forall i | 0 <= i < |ledger| ensures ledger[i].reference != p.reference || ledger[i].holding != p.holding {
      assert ledger[i] == ledger'[i];
    }
  }

  /** A repeat finds every posting linked. */
  lemma RepeatKeepsLedger(w: Watch, c: Chain, s: State, d: Delivery)
    requires Exact(w, c, s) && ProperDelivery(w, c, s, d) && d.tx.txid in c
    ensures Process(w, s, d.tx, d.height, d.rows, d.order).ledger == s.ledger
  {
    var ledger := Process(w, s, d.tx, d.height, d.rows, d.order).ledger;
    ProcessPosts(w, s, d.tx, d.height, d.rows, d.order);
    forall p | p in ledger ensures AlreadyLinked(s.ledger, p.reference, p.holding) {
      if p in s.ledger {
        var i :| 0 <= i < |s.ledger| && s.ledger[i] == p;
      }
    }
    if ledger != s.ledger {
      GrowthIsNew(s.ledger, ledger);
      assert false;
    }
  }

  /** The rows right after a delivery: every output found has one, and every recorded input is marked. */
  lemma MarkedAfter(u: map<Outpoint, Utxo>, u': map<Outpoint, Utxo>, tx: Tx, found: seq<Found>, o: Outpoint)
    requires NoSelfSpend(tx) && RowsAfter(u, u', tx, found) && o in Spends(tx.vin) && o in u'
    ensures u'[o].isSpent
  {
    if o !in u {
      OwnOutputsUnspent(tx, o);
      assert false;
    }
  }

  /** Two row orders find the same outputs. */
  lemma SameFound(w: Watch, vout: seq<TxOut>, rows: seq<AddressId>, rows': seq<AddressId>, f: Found)
    requires RowOrder(w, vout, rows) && RowOrder(w, vout, rows') && f in Discover(w, vout, rows')
    ensures f in Discover(w, vout, rows)
  {
    DiscoverMember(w, vout, rows, f);
    DiscoverMember(w, vout, rows', f);
  }

  lemma TwiceKeepsRows(w: Watch, u: map<Outpoint, Utxo>, u1: map<Outpoint, Utxo>, u2: map<Outpoint, Utxo>, tx: Tx,
                       rows: seq<AddressId>, rows': seq<AddressId>)
    requires NoSelfSpend(tx) && RowOrder(w, tx.vout, rows) && RowOrder(w, tx.vout, rows')
    requires RowsAfter(u, u1, tx, Discover(w, tx.vout, rows)) && RowsAfter(u1, u2, tx, Discover(w, tx.vout, rows'))
    ensures u2.Keys == u1.Keys && forall o :: o in u1 ==> SameCoin(u2[o], u1[o])
  {
    var found := Discover(w, tx.vout, rows');
    forall o | o in u2 ensures o in u1 {
      if o !in u1 {
        var i :| 0 <= i < |found| && found[i].vout == o.vout && CoinOf(u2[o], found[i]);
        SameFound(w, tx.vout, rows, rows', found[i]);
      }
    }
    forall o | o in u1 ensures SameCoin(u2[o], u1[o]) {
      if o in Spends(tx.vin) { MarkedAfter(u, u1, tx, Discover(w, tx.vout, rows), o); }
    }
  }

  /** What a transaction owes does not change when it is delivered. */
  lemma OwesTheSame(w: Watch, s: State, d: Delivery, h: HoldingId)
    requires NoSelfSpend(d.tx)
    ensures Owes(w, Process(w, s, d.tx, d.height, d.rows, d.order).utxos, d.tx, h) <==> Owes(w, s.utxos, d.tx, h)
  {
    ChargesUnchanged(w, s, d.tx, Discover(w, d.tx.vout, d.rows), d.height, h);
  }

  lemma TwiceKeepsLedger(w: Watch, s: State, d: Delivery, d': Delivery)
    requires OnePerHolding(s.ledger) && d'.tx == d.tx && NoSelfSpend(d.tx)
    requires RowOrder(w, d.tx.vout, d.rows) && RowOrder(w, d.tx.vout, d'.rows)
    requires HoldingOrder(Touched(w, s, d.tx, Discover(w, d.tx.vout, d.rows)), d.order)
    requires var s1 := Process(w, s, d.tx, d.height, d.rows, d.order);
             HoldingOrder(Touched(w, s1, d.tx, Discover(w, d.tx.vout, d'.rows)), d'.order)
    ensures var s1 := Process(w, s, d.tx, d.height, d.rows, d.order);
            Process(w, s1, d.tx, d'.height, d'.rows, d'.order).ledger == s1.ledger
  {
    var s1 := Process(w, s, d.tx, d.height, d.rows, d.order);
    var ledger := Process(w, s1, d.tx, d'.height, d'.rows, d'.order).ledger;
    ProcessPosts(w, s, d.tx, d.height, d.rows, d.order);
    ProcessPosts(w, s1, d.tx, d'.height, d'.rows, d'.order);
    forall p | p in ledger ensures AlreadyLinked(s1.ledger, p.reference, p.holding) {
      OwesTheSame(w, s, d, p.holding);
      if p in s1.ledger {
        var i :| 0 <= i < |s1.ledger| && s1.ledger[i] == p;
      }
    }
    if ledger != s1.ledger {
      GrowthIsNew(s1.ledger, ledger);
      assert false;
    }
  }

  /**
   Delivering any transaction twice in a row, contested or late or not, from any tables with one
   posting per pair: the second delivery changes nothing but confirmation heights.
   */
  lemma TwiceInARow(w: Watch, s: State, d: Delivery, d': Delivery)
    requires OnePerHolding(s.ledger) && d'.tx == d.tx && NoSelfSpend(d.tx)
    requires RowOrder(w, d.tx.vout, d.rows) && RowOrder(w, d.tx.vout, d'.rows)
    requires HoldingOrder(Touched(w, s, d.tx, Discover(w, d.tx.vout, d.rows)), d.order)
    requires var s1 := Process(w, s, d.tx, d.height, d.rows, d.order);
             HoldingOrder(Touched(w, s1, d.tx, Discover(w, d.tx.vout, d'.rows)), d'.order)
    ensures var s1 := Process(w, s, d.tx, d.height, d.rows, d.order);
            var s2 := Process(w, s1, d.tx, d'.height, d'.rows, d'.order);
            && s2.ledger == s1.ledger && s2.utxos.Keys == s1.utxos.Keys
            && (forall o :: o in s1.utxos ==> SameCoin(s2.utxos[o], s1.utxos[o]))
            && (ReuseExact(s) ==> SameOutcome(s1, s2))
  {
    var s1 := Process(w, s, d.tx, d.height, d.rows, d.order);
    var s2 := Process(w, s1, d.tx, d'.height, d'.rows, d'.order);
    ProcessRows(w, s, d.tx, d.height, d.rows, d.order);
    ProcessRows(w, s1, d.tx, d'.height, d'.rows, d'.order);
    TwiceKeepsRows(w, s.utxos, s1.utxos, s2.utxos, d.tx, d.rows, d'.rows);
    TwiceKeepsLedger(w, s, d, d');
    if ReuseExact(s) {
      ProcessKeepsReuseExact(w, s, d.tx, d.height, d.rows, d.order);
      ProcessKeepsReuseExact(w, s1, d.tx, d'.height, d'.rows, d'.order);
      SameFlags(s1, s2);
    }
  }

  /** Idempotence: delivering a transaction again changes nothing but confirmation heights, whatever the watch set. */
  lemma Idempotence(w: Watch, ds: seq<Delivery>, d: Delivery)
    requires Proper(w, ds + [d]) && d.tx.txid in Collect(ds)
    ensures SameOutcome(Run(w, ds), Run(w, ds + [d]))
    ensures Run(w, ds + [d]).ledger == Run(w, ds).ledger
  {
    assert (ds + [d])[..|ds|] == ds;
    RunIsExact(w, ds);
    RunIsExact(w, ds + [d]);
    ProcessRows(w, Run(w, ds), d.tx, d.height, d.rows, d.order);
    RepeatKeepsRows(w, Collect(ds), Run(w, ds).utxos, Run(w, ds + [d]).utxos, d.tx, d.rows);
    RepeatKeepsLedger(w, Collect(ds), Run(w, ds), d);
    SameFlags(Run(w, ds), Run(w, ds + [d]));
  }
}
