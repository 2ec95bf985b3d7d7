/**
 The confirmation heights a run of deliveries leaves: an output row keeps the first height it was
 given, a transaction row the latest.
 */
module ChainHeights {
  import opened Common
  import opened ChainModel
  import opened ChainRows
  import opened ChainBalance
  import opened ChainHistory
  import opened ChainRuns

  /////////////////////////////////////////////////////////////////////////////
  // One delivery
  /////////////////////////////////////////////////////////////////////////////

  function HeightOf(utxos: map<Outpoint, Utxo>, o: Outpoint): Option<nat>
  {
    if o in utxos then utxos[o].height else None
  }

  /** The height a row had stays; a found output without one gets the delivered height. */
  ghost predicate HeightsAfter(u: map<Outpoint, Utxo>, u': map<Outpoint, Utxo>, txid: TxId, found: seq<Found>,
                               height: Option<nat>)
  {
    forall o :: o in u' ==>
      u'[o].height == if HeightOf(u, o).Some? then HeightOf(u, o)
                      else if o.txid == txid && HasVout(found, o.vout) then height else None
  }

  lemma HasVoutLast(found: seq<Found>, vout: int)
    requires found != []
    ensures HasVout(found, vout) <==> HasVout(found[..|found| - 1], vout) || found[|found| - 1].vout == vout
  {
    var init := found[..|found| - 1];
    if HasVout(init, vout) {
      var i :| 0 <= i < |init| && init[i].vout == vout;
      assert found[i].vout == vout;
    }
    if HasVout(found, vout) {
      var i :| 0 <= i < |found| && found[i].vout == vout;
      if i < |init| { assert init[i].vout == vout; }
    }
  }

  lemma RecordOutputHeight(s: State, txid: TxId, f: Found, height: Option<nat>, o: Outpoint)
    requires o in RecordOutput(s, txid, f, height).utxos
    ensures RecordOutput(s, txid, f, height).utxos[o].height ==
            if HeightOf(s.utxos, o).Some? then HeightOf(s.utxos, o)
            else if o == Outpoint(txid, f.vout) then height else None
  {
  }

  lemma {:induction false} RecordAllHeights(s: State, txid: TxId, found: seq<Found>, height: Option<nat>)
    ensures HeightsAfter(s.utxos, RecordAll(s, txid, found, height).utxos, txid, found, height)
  {
    if found != [] {
      var init, f := found[..|found| - 1], found[|found| - 1];
      RecordAllHeights(s, txid, init, height);
      var before, after := RecordAll(s, txid, init, height), RecordAll(s, txid, found, height);
      RecordAllKeeps(s, txid, init, height);
      forall o | o in after.utxos
        ensures after.utxos[o].height == if HeightOf(s.utxos, o).Some? then HeightOf(s.utxos, o)
                                         else if o.txid == txid && HasVout(found, o.vout) then height else None
      {
        RecordOutputHeight(before, txid, f, height, o);
        HasVoutLast(found, o.vout);
      }
    }
  }

  /** Every height in the output table after a delivery. */
  lemma ProcessHeights(w: Watch, s: State, d: Delivery)
    ensures HeightsAfter(s.utxos, Process(w, s, d.tx, d.height, d.rows, d.order).utxos, d.tx.txid,
                         Discover(w, d.tx.vout, d.rows), d.height)
  {
    var found := Discover(w, d.tx.vout, d.rows);
    if Concerns(s, d.tx, found) {
      MarkSpentRows(s.utxos, d.tx.vin, d.tx.txid);
      var s1 := s.(utxos := MarkSpent(s.utxos, d.tx.vin, d.tx.txid),
                   onchain := UpsertTx(s.onchain, d.tx.txid, d.height));
      RecordAllHeights(s1, d.tx.txid, found, d.height);
      forall o ensures HeightOf(s1.utxos, o) == HeightOf(s.utxos, o) {}
    }
  }

  /** The transaction spends a recorded output or pays a watched address. */
  ghost predicate ConcernsUs(w: Watch, utxos: map<Outpoint, Utxo>, tx: Tx)
  {
    || (exists o :: o in Spends(tx.vin) && o in utxos)
    || (exists i, a :: 0 <= i < |tx.vout| && Pays(w, tx.vout[i], a))
  }

  lemma ConcernsExactly(w: Watch, s: State, tx: Tx, rows: seq<AddressId>)
    requires RowOrder(w, tx.vout, rows)
    ensures Concerns(s, tx, Discover(w, tx.vout, rows)) <==> ConcernsUs(w, s.utxos, tx)
  {
    var found := Discover(w, tx.vout, rows);
    KnownInputsEmpty(s.utxos, tx.vin);
    if found != [] {
      DiscoverMember(w, tx.vout, rows, found[0]);
    }
    if i, a :| 0 <= i < |tx.vout| && Pays(w, tx.vout[i], a) {
      DiscoverMember(w, tx.vout, rows, FoundOf(w, tx.vout[i], a));
    }
  }

  /** The transaction table after a delivery: one row for what concerns us, the delivered height if there is one. */
  lemma ProcessTxRows(w: Watch, s: State, d: Delivery)
    requires RowOrder(w, d.tx.vout, d.rows)
    ensures var after := Process(w, s, d.tx, d.height, d.rows, d.order).onchain;
            && (forall t :: t != d.tx.txid ==>
                  (t in after <==> t in s.onchain) && (t in after ==> after[t] == s.onchain[t]))
            && (d.tx.txid in after <==> d.tx.txid in s.onchain || ConcernsUs(w, s.utxos, d.tx))
            && (d.tx.txid in after ==>
                  after[d.tx.txid] == if ConcernsUs(w, s.utxos, d.tx) && d.height.Some? then d.height
                                      else if d.tx.txid in s.onchain then s.onchain[d.tx.txid] else None)
  {
    ConcernsExactly(w, s, d.tx, d.rows);
    var s1 := s.(utxos := MarkSpent(s.utxos, d.tx.vin, d.tx.txid),
                 onchain := UpsertTx(s.onchain, d.tx.txid, d.height));
    RecordAllKeeps(s1, d.tx.txid, Discover(w, d.tx.vout, d.rows), d.height);
  }

  /////////////////////////////////////////////////////////////////////////////
  // Runs
  /////////////////////////////////////////////////////////////////////////////

  predicate Gives(d: Delivery, t: TxId)
  {
    d.tx.txid == t && d.height.Some?
  }

  /** The height of the first delivery of the transaction that has one. */
  ghost predicate IsFirstHeight(ds: seq<Delivery>, t: TxId, height: Option<nat>)
  {
    if height.None? then forall k :: 0 <= k < |ds| ==> !Gives(ds[k], t)
    else exists k :: 0 <= k < |ds| && Gives(ds[k], t) && ds[k].height == height
                     && forall j :: 0 <= j < k ==> !Gives(ds[j], t)
  }

  ghost predicate IsLatestHeight(ds: seq<Delivery>, t: TxId, height: Option<nat>)
  {
    if height.None? then forall k :: 0 <= k < |ds| ==> !Gives(ds[k], t)
    else exists k :: 0 <= k < |ds| && Gives(ds[k], t) && ds[k].height == height
                     && forall j :: k < j < |ds| ==> !Gives(ds[j], t)
  }

  lemma FirstHeightNext(ds: seq<Delivery>, t: TxId, height: Option<nat>)
    requires ds != [] && IsFirstHeight(ds[..|ds| - 1], t, height)
    ensures var d := ds[|ds| - 1];
            IsFirstHeight(ds, t, if height.Some? then height else if d.tx.txid == t then d.height else None)
  {
    var init, d := ds[..|ds| - 1], ds[|ds| - 1];
    forall k | 0 <= k < |init| ensures ds[k] == init[k] {}
    if height.Some? {
      var k :| 0 <= k < |init| && Gives(init[k], t) && init[k].height == height
               && forall j :: 0 <= j < k ==> !Gives(init[j], t);
      assert Gives(ds[k], t);
    } else if Gives(d, t) {
      assert ds[|init|] == d;
    }
  }

  lemma LatestHeightNext(ds: seq<Delivery>, t: TxId, height: Option<nat>)
    requires ds != [] && IsLatestHeight(ds[..|ds| - 1], t, height)
    ensures var d := ds[|ds| - 1];
            IsLatestHeight(ds, t, if Gives(d, t) then d.height else height)
  {
    var init, d := ds[..|ds| - 1], ds[|ds| - 1];
    if Gives(d, t) {
      assert ds[|init|] == d;
    } else if height.Some? {
      var k :| 0 <= k < |init| && Gives(init[k], t) && init[k].height == height
               && forall j :: k < j < |init| ==> !Gives(init[j], t);
      assert ds[k] == init[k];
      forall j | k < j < |ds| ensures !Gives(ds[j], t) {
        if j < |init| { assert ds[j] == init[j]; }
      }
    } else {
      forall j | 0 <= j < |ds| ensures !Gives(ds[j], t) {
        if j < |init| { assert ds[j] == init[j]; }
      }
    }
  }

  /** Before its first delivery a transaction has no height. */
  lemma {:induction false} UnseenGivesNothing(ds: seq<Delivery>, t: TxId)
    requires t !in Collect(ds)
    ensures forall k :: 0 <= k < |ds| ==> ds[k].tx.txid != t
  {
    if ds != [] {
      UnseenGivesNothing(ds[..|ds| - 1], t);
      forall k | 0 <= k < |ds| ensures ds[k].tx.txid != t {
        if k < |ds| - 1 { assert ds[..|ds| - 1][k] == ds[k]; }
      }
    }
  }

  /** An output of the delivered transaction that has a row is among those found. */
  lemma RowIsFound(w: Watch, c: Chain, u: map<Outpoint, Utxo>, tx: Tx, rows: seq<AddressId>, o: Outpoint)
    requires OutputsExact(w, c, u) && tx.txid in c && c[tx.txid] == tx && RowOrder(w, tx.vout, rows)
    requires o in u && o.txid == tx.txid
    ensures HasVout(Discover(w, tx.vout, rows), o.vout)
  {
    var found := Discover(w, tx.vout, rows);
    assert PaidBy(w, c[o.txid], o, u[o]) && c[o.txid] == tx;
    var i :| 0 <= i < |tx.vout| && tx.vout[i].n == o.vout && Pays(w, tx.vout[i], u[o].address)
             && u[o].value == tx.vout[i].value && u[o].descriptor == w.addresses[u[o].address].descriptor;
    var f := FoundOf(w, tx.vout[i], u[o].address);
    DiscoverMember(w, tx.vout, rows, f);
    var k :| 0 <= k < |found| && found[k] == f;
  }

  lemma RowIsFoundInRun(w: Watch, ds: seq<Delivery>, o: Outpoint)
    requires ds != [] && Proper(w, ds) && o in Run(w, ds).utxos && o.txid == ds[|ds| - 1].tx.txid
    ensures HasVout(Discover(w, ds[|ds| - 1].tx.vout, ds[|ds| - 1].rows), o.vout)
  {
    var d := ds[|ds| - 1];
    RunIsExact(w, ds);
    RowIsFound(w, Collect(ds), Run(w, ds).utxos, d.tx, d.rows, o);
  }

  lemma RowHeightStep(w: Watch, ds: seq<Delivery>, o: Outpoint)
    requires ds != [] && Proper(w, ds) && o in Run(w, ds).utxos
    ensures var before, d := HeightOf(Run(w, ds[..|ds| - 1]).utxos, o), ds[|ds| - 1];
            Run(w, ds).utxos[o].height ==
            if before.Some? then before else if d.tx.txid == o.txid then d.height else None
  {
    var d := ds[|ds| - 1];
    ProcessHeights(w, Run(w, ds[..|ds| - 1]), d);
    if o.txid == d.tx.txid {
      RowIsFoundInRun(w, ds, o);
    }
  }

  lemma RowHeightNext(w: Watch, ds: seq<Delivery>, o: Outpoint)
    requires ds != [] && Proper(w, ds) && o in Run(w, ds).utxos
    requires var u := Run(w, ds[..|ds| - 1]).utxos; o in u ==> IsFirstHeight(ds[..|ds| - 1], o.txid, u[o].height)
    ensures IsFirstHeight(ds, o.txid, Run(w, ds).utxos[o].height)
  {
    var before := HeightOf(Run(w, ds[..|ds| - 1]).utxos, o);
    assert IsFirstHeight(ds[..|ds| - 1], o.txid, before) by {
      if o !in Run(w, ds[..|ds| - 1]).utxos {
        NewRowIsFirst(w, ds, o);
        UnseenGivesNothing(ds[..|ds| - 1], o.txid);
      }
    }
    RowHeightStep(w, ds, o);
    FirstHeightNext(ds, o.txid, before);
  }

  /** A row appears with the first delivery of its transaction. */
  lemma NewRowIsFirst(w: Watch, ds: seq<Delivery>, o: Outpoint)
    requires ds != [] && Proper(w, ds) && o in Run(w, ds).utxos && o !in Run(w, ds[..|ds| - 1]).utxos
    ensures o.txid == ds[|ds| - 1].tx.txid && o.txid !in Collect(ds[..|ds| - 1])
  {
    var init, d := ds[..|ds| - 1], ds[|ds| - 1];
    var s, found := Run(w, init), Discover(w, d.tx.vout, d.rows);
    RunIsExact(w, init);
    ProcessRows(w, s, d.tx, d.height, d.rows, d.order);
    var i :| 0 <= i < |found| && found[i].vout == o.vout && CoinOf(Run(w, ds).utxos[o], found[i]);
    FoundRowsPresent(w, Collect(init), s.utxos, d.tx, d.rows, found[i]);
  }

  /** Over every proper run, an output row has the first height its transaction was delivered with. */
  lemma {:induction false} RowHeights(w: Watch, ds: seq<Delivery>)
    requires Proper(w, ds)
    ensures forall o :: o in Run(w, ds).utxos ==> IsFirstHeight(ds, o.txid, Run(w, ds).utxos[o].height)
  {
    if ds != [] {
      RowHeights(w, ds[..|ds| - 1]);
      forall o | o in Run(w, ds).utxos ensures IsFirstHeight(ds, o.txid, Run(w, ds).utxos[o].height) {
        RowHeightNext(w, ds, o);
      }
    }
  }

  /** A row for exactly the delivered transactions that concern us. */
  ghost predicate TxRowsExact(w: Watch, c: Chain, s: State)
  {
    forall t :: t in s.onchain <==> t in c && ConcernsUs(w, s.utxos, c[t])
  }

  lemma ConcernsStable(w: Watch, c: Chain, s: State, d: Delivery, t: TxId)
    requires Exact(w, c, s) && ProperDelivery(w, c, s, d) && t in c[d.tx.txid := d.tx]
    ensures var tx := c[d.tx.txid := d.tx][t];
            ConcernsUs(w, Process(w, s, d.tx, d.height, d.rows, d.order).utxos, tx) <==> ConcernsUs(w, s.utxos, tx)
  {
    var tx, u' := c[d.tx.txid := d.tx][t], Process(w, s, d.tx, d.height, d.rows, d.order).utxos;
    ProcessRows(w, s, d.tx, d.height, d.rows, d.order);
    forall o | o in Spends(tx.vin) ensures o in s.utxos <==> o in u' {
      SpentKeysStable(w, c, s.utxos, u', d.tx, d.rows, t, o);
    }
  }

  lemma TxRowStep(w: Watch, c: Chain, s: State, d: Delivery, t: TxId)
    requires Exact(w, c, s) && ProperDelivery(w, c, s, d)
    requires t in s.onchain <==> t in c && ConcernsUs(w, s.utxos, c[t])
    ensures var c', s' := c[d.tx.txid := d.tx], Process(w, s, d.tx, d.height, d.rows, d.order);
            t in s'.onchain <==> t in c' && ConcernsUs(w, s'.utxos, c'[t])
  {
    assert t == d.tx.txid && t in c ==> c[t] == d.tx;
    ProcessTxRows(w, s, d);
    if t in c[d.tx.txid := d.tx] { ConcernsStable(w, c, s, d, t); }
  }

  lemma TxRowsStep(w: Watch, c: Chain, s: State, d: Delivery)
    requires Exact(w, c, s) && ProperDelivery(w, c, s, d) && TxRowsExact(w, c, s)
    ensures TxRowsExact(w, c[d.tx.txid := d.tx], Process(w, s, d.tx, d.height, d.rows, d.order))
  {
    var c', s' := c[d.tx.txid := d.tx], Process(w, s, d.tx, d.height, d.rows, d.order);
    forall t ensures t in s'.onchain <==> t in c' && ConcernsUs(w, s'.utxos, c'[t]) {
      TxRowStep(w, c, s, d, t);
    }
  }

  lemma TxHeightNext(w: Watch, c: Chain, s: State, ds: seq<Delivery>, t: TxId)
    requires ds != [] && Collect(ds[..|ds| - 1]) == c && Exact(w, c, s) && ProperDelivery(w, c, s, ds[|ds| - 1])
    requires TxRowsExact(w, c, s) && (t in s.onchain ==> IsLatestHeight(ds[..|ds| - 1], t, s.onchain[t]))
    requires var d := ds[|ds| - 1]; t in Process(w, s, d.tx, d.height, d.rows, d.order).onchain
    ensures var d := ds[|ds| - 1];
            IsLatestHeight(ds, t, Process(w, s, d.tx, d.height, d.rows, d.order).onchain[t])
  {
    var d := ds[|ds| - 1];
    ProcessTxRows(w, s, d);
    if t !in s.onchain {
      UnseenGivesNothing(ds[..|ds| - 1], t);
      LatestHeightNext(ds, t, None);
    } else {
      LatestHeightNext(ds, t, s.onchain[t]);
    }
  }

  /** Over every proper run, the transaction table lists what concerns us, each with the latest height delivered. */
  lemma {:induction false} TxRows(w: Watch, ds: seq<Delivery>)
    requires Proper(w, ds)
    ensures TxRowsExact(w, Collect(ds), Run(w, ds))
    ensures forall t :: t in Run(w, ds).onchain ==> IsLatestHeight(ds, t, Run(w, ds).onchain[t])
  {
    if ds != [] {
      var init, d := ds[..|ds| - 1], ds[|ds| - 1];
      TxRows(w, init);
      RunIsExact(w, init);
      TxRowsStep(w, Collect(init), Run(w, init), d);
      forall t | t in Run(w, ds).onchain ensures IsLatestHeight(ds, t, Run(w, ds).onchain[t]) {
        TxHeightNext(w, Collect(init), Run(w, init), ds, t);
      }
    }
  }
}
