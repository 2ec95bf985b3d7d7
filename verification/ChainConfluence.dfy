/** When the outcome of a run depends on the order in which the database returns address rows. */
module ChainConfluence {
  import opened Common
  import opened ChainModel
  import opened ChainRows
  import opened ChainBalance
  import opened ChainHistory
  import opened ChainRuns
  import opened ChainLimits

  /////////////////////////////////////////////////////////////////////////////
  // The first address row wins
  /////////////////////////////////////////////////////////////////////////////

  lemma {:induction false} DiscoverFirst(w: Watch, vout: seq<TxOut>, b: AddressId, rest: seq<AddressId>)
    ensures Discover(w, vout, [b] + rest) == FoundAt(w, vout, b) + Discover(w, vout, rest)
  {
    var rows := [b] + rest;
    if rest == [] {
      assert rows[..0] == [];
    } else {
      assert rows[..|rows| - 1] == [b] + rest[..|rest| - 1];
      DiscoverFirst(w, vout, b, rest[..|rest| - 1]);
    }
  }

  lemma {:induction false} RecordAppend(s: State, txid: TxId, f: seq<Found>, g: seq<Found>, height: Option<nat>)
    ensures RecordAll(s, txid, f + g, height) == RecordAll(RecordAll(s, txid, f, height), txid, g, height)
  {
    if g == [] {
      assert f + g == f;
    } else {
      assert (f + g)[..|f + g| - 1] == f + g[..|g| - 1];
      RecordAppend(s, txid, f, g[..|g| - 1], height);
    }
  }

  /** Outputs found at one address only are recorded at that address. */
  lemma RecordedAt(w: Watch, s: State, tx: Tx, b: AddressId, i: nat, height: Option<nat>)
    requires i < |tx.vout| && Pays(w, tx.vout[i], b) && Outpoint(tx.txid, tx.vout[i].n) !in s.utxos
    ensures var o, u := Outpoint(tx.txid, tx.vout[i].n), RecordAll(s, tx.txid, FoundAt(w, tx.vout, b), height).utxos;
            o in u && u[o].address == b
  {
    var o, found := Outpoint(tx.txid, tx.vout[i].n), FoundAt(w, tx.vout, b);
    var u := RecordAll(s, tx.txid, found, height).utxos;
    RecordAllAdds(s, tx.txid, found, height);
    FoundAtMember(w, tx.vout, b, FoundOf(w, tx.vout[i], b));
    assert FoundOf(w, tx.vout[i], b) in found;
    assert FreshRow(u[o], o, tx.txid, found);
    var k :| 0 <= k < |found| && found[k].vout == o.vout && CoinOf(u[o], found[k]);
    FoundAtMember(w, tx.vout, b, found[k]);
  }

  /** The address row that comes back first gets the output. */
  lemma FirstRowWins(w: Watch, s: State, d: Delivery, b: AddressId, rest: seq<AddressId>, i: nat)
    requires d.rows == [b] + rest && i < |d.tx.vout| && Pays(w, d.tx.vout[i], b)
    requires Outpoint(d.tx.txid, d.tx.vout[i].n) !in s.utxos
    ensures var o, u := Outpoint(d.tx.txid, d.tx.vout[i].n), Process(w, s, d.tx, d.height, d.rows, d.order).utxos;
            o in u && u[o].address == b
  {
    var tx, found := d.tx, Discover(w, d.tx.vout, d.rows);
    var s1 := s.(utxos := MarkSpent(s.utxos, tx.vin, tx.txid), onchain := UpsertTx(s.onchain, tx.txid, d.height));
    MarkSpentRows(s.utxos, tx.vin, tx.txid);
    RecordedAt(w, s1, tx, b, i, d.height);
    FoundAtMember(w, tx.vout, b, FoundOf(w, tx.vout[i], b));
    DiscoverFirst(w, tx.vout, b, rest);
    var first, later := FoundAt(w, tx.vout, b), Discover(w, tx.vout, rest);
    RecordAppend(s1, tx.txid, first, later, d.height);
    RecordAllKeeps(RecordAll(s1, tx.txid, first, d.height), tx.txid, later, d.height);
  }

  /////////////////////////////////////////////////////////////////////////////
  // The same run with another row order
  /////////////////////////////////////////////////////////////////////////////

  lemma {:induction false} SomeOrder(touched: set<HoldingId>) returns (order: seq<HoldingId>)
    ensures HoldingOrder(touched, order)
    decreases touched
  {
    order := [];
    if touched != {} {
      var h :| h in touched;
      var rest := SomeOrder(touched - {h});
      order := rest + [h];
    }
  }

  lemma {:induction false} OthersOf(rows: seq<AddressId>, b: AddressId) returns (rest: seq<AddressId>)
    requires NoDuplicates(rows)
    ensures NoDuplicates(rest) && forall a :: a in rest <==> a in rows && a != b
    decreases rows
  {
    rest := [];
    if rows != [] {
      var init, last := rows[..|rows| - 1], rows[|rows| - 1];
      rest := OthersOf(init, b);
      assert forall a :: a in rows <==> a in init || a == last;
      if last != b {
        assert last !in init;
        rest := rest + [last];
      }
    }
  }

  lemma Extend(w: Watch, ds: seq<Delivery>, d: Delivery)
    requires Proper(w, ds) && ProperDelivery(w, Collect(ds), Run(w, ds), d)
    ensures Proper(w, ds + [d]) && Collect(ds + [d]) == Collect(ds)[d.tx.txid := d.tx]
    ensures Run(w, ds + [d]) == Process(w, Run(w, ds), d.tx, d.height, d.rows, d.order)
  {
    assert (ds + [d])[..|ds|] == ds;
  }

  /** A first delivery can be handled so that its output is recorded at any address row it pays. */
  lemma DeliverTo(w: Watch, ds: seq<Delivery>, d: Delivery, b: AddressId, i: nat) returns (ds': seq<Delivery>)
    requires Proper(w, ds) && ProperDelivery(w, Collect(ds), Run(w, ds), d) && d.tx.txid !in Collect(ds)
    requires i < |d.tx.vout| && Pays(w, d.tx.vout[i], b)
    ensures Proper(w, ds') && Collect(ds') == Collect(ds)[d.tx.txid := d.tx]
    ensures var o := Outpoint(d.tx.txid, d.tx.vout[i].n);
            o in Run(w, ds').utxos && Run(w, ds').utxos[o].address == b
  {
    var s := Run(w, ds);
    var rest := OthersOf(d.rows, b);
    var rows := [b] + rest;
    assert RowOrder(w, d.tx.vout, rows) by {
      assert b in d.rows;
      assert forall a :: a in rows <==> a in d.rows;
    }
    var order := SomeOrder(Touched(w, s, d.tx, Discover(w, d.tx.vout, rows)));
    var d' := d.(rows := rows, order := order);
    RunIsExact(w, ds);
    FirstRowWins(w, s, d', b, rest, i);
    Extend(w, ds, d');
    ds' := ds + [d'];
  }

  /** A later delivery leaves the recorded address alone. */
  lemma DeliverAfter(w: Watch, ds: seq<Delivery>, d: Delivery, o: Outpoint) returns (ds': seq<Delivery>)
    requires Proper(w, ds) && Admissible(w, Collect(ds), d.tx) && RowOrder(w, d.tx.vout, d.rows)
    requires o in Run(w, ds).utxos
    ensures Proper(w, ds') && Collect(ds') == Collect(ds)[d.tx.txid := d.tx]
    ensures o in Run(w, ds').utxos && Run(w, ds').utxos[o].address == Run(w, ds).utxos[o].address
  {
    var s := Run(w, ds);
    var order := SomeOrder(Touched(w, s, d.tx, Discover(w, d.tx.vout, d.rows)));
    var d' := d.(order := order);
    ProcessRows(w, s, d'.tx, d'.height, d'.rows, d'.order);
    Extend(w, ds, d');
    ds' := ds + [d'];
  }

  /** Every run over a set of transactions has a twin that records an output at any address row it pays. */
  lemma {:induction false} Twin(w: Watch, ds: seq<Delivery>, t: TxId, i: nat, b: AddressId) returns (ds': seq<Delivery>)
    requires Proper(w, ds) && t in Collect(ds)
    requires i < |Collect(ds)[t].vout| && Pays(w, Collect(ds)[t].vout[i], b)
    ensures Proper(w, ds') && Collect(ds') == Collect(ds)
    ensures var o := Outpoint(t, Collect(ds)[t].vout[i].n);
            o in Run(w, ds').utxos && Run(w, ds').utxos[o].address == b
    decreases ds
  {
    var init, d := ds[..|ds| - 1], ds[|ds| - 1];
    if t in Collect(init) {
      var init' := Twin(w, init, t, i, b);
      ds' := DeliverAfter(w, init', d, Outpoint(t, Collect(ds)[t].vout[i].n));
    } else {
      RunIsExact(w, ds);
      ds' := DeliverTo(w, init, d, b, i);
    }
  }

  /** Every proper run over the same transactions ends the same way. */
  ghost predicate Confluent(w: Watch, ds: seq<Delivery>)
  {
    forall ds' :: Proper(w, ds') && Collect(ds') == Collect(ds) ==> SameOutcome(Run(w, ds), Run(w, ds'))
  }

  /** Confluence, exactly: the outcome is determined if and only if no delivered output pays two address rows. */
  lemma ConfluenceExactly(w: Watch, ds: seq<Delivery>)
    requires Proper(w, ds)
    ensures Confluent(w, ds) <==> NoneAmbiguous(w, Collect(ds))
  {
    var c := Collect(ds);
    if NoneAmbiguous(w, c) {
      forall ds' | Proper(w, ds') && Collect(ds') == c ensures SameOutcome(Run(w, ds), Run(w, ds')) {
        Confluence(w, ds, ds');
      }
    } else {
      var t :| t in c && Ambiguous(w, c[t]);
      AmbiguityShows(w, ds, t);
    }
  }

  lemma Recorded(w: Watch, ds: seq<Delivery>, t: TxId, i: nat, a: AddressId)
    requires Proper(w, ds) && t in Collect(ds)
    requires i < |Collect(ds)[t].vout| && Pays(w, Collect(ds)[t].vout[i], a)
    ensures Outpoint(t, Collect(ds)[t].vout[i].n) in Run(w, ds).utxos
  {
    RunIsExact(w, ds);
  }

  lemma AmbiguityShows(w: Watch, ds: seq<Delivery>, t: TxId)
    requires Proper(w, ds) && t in Collect(ds) && Ambiguous(w, Collect(ds)[t])
    ensures !Confluent(w, ds)
  {
    var tx, u := Collect(ds)[t], Run(w, ds).utxos;
    var i: int, a: AddressId, b: AddressId :|
      0 <= i < |tx.vout| && a != b && Pays(w, tx.vout[i], a) && Pays(w, tx.vout[i], b);
    var o := Outpoint(t, tx.vout[i].n);
    Recorded(w, ds, t, i, a);
    var ds' := Twin(w, ds, t, i, if u[o].address == a then b else a);
    assert !SameOutcome(Run(w, ds), Run(w, ds'));
  }

  /** One payment to an address string in two rows: a run from empty tables whose outcome depends on the row order. */
  lemma AmbiguousRun(address: string, txid: TxId, value: nat) returns (ds: seq<Delivery>)
    ensures Proper(SharedWatch(address), ds) && !Confluent(SharedWatch(address), ds)
    ensures value > 0 ==> !Conserved(SharedWatch(address), Run(SharedWatch(address), ds))
  {
    var w := SharedWatch(address);
    var d := SharedAddressDeliverable(address, txid, value);
    ds := [] + [d];
    Extend(w, [], d);
    assert d.tx.vout[0].address == Some(address);
    assert Pays(w, d.tx.vout[0], 0) && Pays(w, d.tx.vout[0], 1);
    AmbiguityShows(w, ds, txid);
    if value > 0 { SharedAddressRun(address, txid, value, d); }
  }
}
