/**
 The incremental "address reused" index, and the initial scan as the second path that inserts
 output rows.
 */
module ReuseIndex {
  import opened Common
  import opened ChainModel
  import opened ChainRows

  /** The address has outputs of two different transactions. */
  ghost predicate PaidTwice(utxos: map<Outpoint, Utxo>, a: AddressId)
  {
    exists o, p :: o in utxos && p in utxos && utxos[o].address == a && utxos[p].address == a && o.txid != p.txid
  }

  /** A row carries the flag, and an address is marked, exactly when the address was paid twice. */
  ghost predicate ReuseExact(s: State)
  {
    && (forall o :: o in s.utxos ==> (s.utxos[o].addressReused <==> PaidTwice(s.utxos, s.utxos[o].address)))
    && (forall a :: a in s.reused <==> PaidTwice(s.utxos, a))
  }

  /** Writes that keep keys, addresses and flags keep the index exact. */
  lemma ReuseUnaffected(s: State, s': State)
    requires ReuseExact(s) && s'.reused == s.reused && s'.utxos.Keys == s.utxos.Keys
    requires forall o :: o in s.utxos ==>
               s'.utxos[o].address == s.utxos[o].address && s'.utxos[o].addressReused == s.utxos[o].addressReused
    ensures ReuseExact(s')
  {
    forall a ensures PaidTwice(s'.utxos, a) <==> PaidTwice(s.utxos, a) {
      if PaidTwice(s'.utxos, a) {
        var o, p :|
          o in s'.utxos && p in s'.utxos && s'.utxos[o].address == a && s'.utxos[p].address == a && o.txid != p.txid;
        assert s.utxos[o].address == a && s.utxos[p].address == a;
      }
      if PaidTwice(s.utxos, a) {
        var o, p :|
          o in s.utxos && p in s.utxos && s.utxos[o].address == a && s.utxos[p].address == a && o.txid != p.txid;
        assert s'.utxos[o].address == a && s'.utxos[p].address == a;
      }
    }
  }

  /** Adding a row at address `a`: other addresses are unaffected, and `a` is paid twice iff the guard fires. */
  lemma PaidTwiceAfterInsert(u: map<Outpoint, Utxo>, u': map<Outpoint, Utxo>, o: Outpoint, b: AddressId)
    requires o !in u && u'.Keys == u.Keys + {o} && forall p :: p in u ==> u'[p].address == u[p].address
    ensures PaidTwice(u', b) <==> PaidTwice(u, b) || (b == u'[o].address && OtherTxPays(u, b, o.txid))
  {
    if PaidTwice(u', b) && !PaidTwice(u, b) {
      var p, q :| p in u' && q in u' && u'[p].address == b && u'[q].address == b && p.txid != q.txid;
      assert p == o || q == o;
    }
    if PaidTwice(u, b) {
      var p, q :| p in u && q in u && u[p].address == b && u[q].address == b && p.txid != q.txid;
      assert u'[p].address == b && u'[q].address == b;
    }
    if b == u'[o].address && OtherTxPays(u, b, o.txid) {
      var p :| p in u && u[p].address == b && p.txid != o.txid;
      assert u'[p].address == b;
    }
  }

  /** Of two transactions that pay an address, one differs from any given txid. */
  lemma PaidTwiceHasOther(utxos: map<Outpoint, Utxo>, a: AddressId, txid: TxId)
    requires PaidTwice(utxos, a)
    ensures OtherTxPays(utxos, a, txid)
  {
    var p, q :| p in utxos && q in utxos && utxos[p].address == a && utxos[q].address == a && p.txid != q.txid;
    assert p.txid != txid || q.txid != txid;
  }

  lemma FlagAfterInsert(s: State, o: Outpoint, d: DescriptorId, a: AddressId, value: nat, height: Option<nat>,
                        p: Outpoint)
    requires o !in s.utxos && ReuseExact(s)
    requires p in InsertRow(s, o, d, a, value, height).utxos
    ensures var u := InsertRow(s, o, d, a, value, height).utxos;
            u[p].addressReused <==> PaidTwice(u, u[p].address)
  {
    var u := InsertRow(s, o, d, a, value, height).utxos;
    PaidTwiceAfterInsert(s.utxos, u, o, u[p].address);
    if p != o {
      assert s.utxos[p].addressReused <==> PaidTwice(s.utxos, s.utxos[p].address);
    } else if PaidTwice(s.utxos, a) {
      PaidTwiceHasOther(s.utxos, a, o.txid);
    }
  }

  /** The flag computed on insertion and its propagation keep the index exact. */
  lemma InsertRowKeepsReuseExact(s: State, o: Outpoint, d: DescriptorId, a: AddressId, value: nat, height: Option<nat>)
    requires o !in s.utxos && ReuseExact(s)
    ensures ReuseExact(InsertRow(s, o, d, a, value, height))
  {
    var s' := InsertRow(s, o, d, a, value, height);
    forall p | p in s'.utxos ensures s'.utxos[p].addressReused <==> PaidTwice(s'.utxos, s'.utxos[p].address) {
      FlagAfterInsert(s, o, d, a, value, height, p);
    }
    forall b ensures b in s'.reused <==> PaidTwice(s'.utxos, b) {
      PaidTwiceAfterInsert(s.utxos, s'.utxos, o, b);
      assert b in s.reused <==> PaidTwice(s.utxos, b);
    }
  }

  lemma {:induction false} RecordAllKeepsReuseExact(s: State, txid: TxId, found: seq<Found>, height: Option<nat>)
    requires ReuseExact(s)
    ensures ReuseExact(RecordAll(s, txid, found, height))
  {
    if found != [] {
      var init, f := found[..|found| - 1], found[|found| - 1];
      RecordAllKeepsReuseExact(s, txid, init, height);
      var before := RecordAll(s, txid, init, height);
      var o := Outpoint(txid, f.vout);
      if o in before.utxos {
        ReuseUnaffected(before, RefreshHeight(before, o, height));
      } else {
        InsertRowKeepsReuseExact(before, o, f.descriptor, f.address, f.value, height);
      }
    }
  }

  /** A delivery keeps the index exact: any transaction, any watch set, any order. */
  lemma ProcessKeepsReuseExact(w: Watch, s: State, tx: Tx, height: Option<nat>, rows: seq<AddressId>,
                               order: seq<HoldingId>)
    requires ReuseExact(s)
    ensures ReuseExact(Process(w, s, tx, height, rows, order))
  {
    var found := Discover(w, tx.vout, rows);
    var s1 := s.(utxos := MarkSpent(s.utxos, tx.vin, tx.txid), onchain := UpsertTx(s.onchain, tx.txid, height));
    MarkSpentRows(s.utxos, tx.vin, tx.txid);
    ReuseUnaffected(s, s1);
    RecordAllKeepsReuseExact(s1, tx.txid, found, height);
    ReuseUnaffected(WithOutputs(s, tx, found, height), Process(w, s, tx, height, rows, order));
  }

  /////////////////////////////////////////////////////////////////////////////
  // The initial scan
  /////////////////////////////////////////////////////////////////////////////

  /** One unspent output reported by the node; `index` is None when its descriptor does not parse. */
  datatype ScanUtxo = ScanUtxo(txid: TxId, vout: int, value: nat, index: Option<nat>, height: nat)

  datatype BranchResult = Rejected | Listed(height: nat, utxos: seq<ScanUtxo>)

  datatype Branch = Branch(isChange: bool, result: BranchResult)

  type AddressIndex = map<(bool, nat), AddressId>

  function NonZero(height: nat): Option<nat>
  {
    if height == 0 then None else Some(height)
  }

  function ScanOutput(s: State, d: DescriptorId, index: AddressIndex, isChange: bool, u: ScanUtxo): State
  {
    var o := Outpoint(u.txid, u.vout);
    if u.index.None? || (isChange, u.index.value) !in index || o in s.utxos then s
    else
      InsertRow(s.(onchain := UpsertTx(s.onchain, u.txid, NonZero(u.height))),
                o, d, index[(isChange, u.index.value)], u.value, NonZero(u.height))
  }

  function ScanOutputs(s: State, d: DescriptorId, index: AddressIndex, isChange: bool, us: seq<ScanUtxo>): State
  {
    if us == [] then s
    else ScanOutput(ScanOutputs(s, d, index, isChange, us[..|us| - 1]), d, index, isChange, us[|us| - 1])
  }

  function ScanBranches(s: State, d: DescriptorId, index: AddressIndex, branches: seq<Branch>): State
  {
    if branches == [] then s
    else
      var before := ScanBranches(s, d, index, branches[..|branches| - 1]);
      var b := branches[|branches| - 1];
      if b.result.Rejected? then before else ScanOutputs(before, d, index, b.isChange, b.result.utxos)
  }

  lemma {:induction false} ScanOutputsKeepReuseExact(s: State, d: DescriptorId, index: AddressIndex, isChange: bool,
                                                     us: seq<ScanUtxo>)
    requires ReuseExact(s)
    ensures ReuseExact(ScanOutputs(s, d, index, isChange, us))
  {
    if us != [] {
      var u := us[|us| - 1];
      ScanOutputsKeepReuseExact(s, d, index, isChange, us[..|us| - 1]);
      var before := ScanOutputs(s, d, index, isChange, us[..|us| - 1]);
      var o := Outpoint(u.txid, u.vout);
      if u.index.Some? && (isChange, u.index.value) in index && o !in before.utxos {
        var s1 := before.(onchain := UpsertTx(before.onchain, u.txid, NonZero(u.height)));
        ReuseUnaffected(before, s1);
        InsertRowKeepsReuseExact(s1, o, d, index[(isChange, u.index.value)], u.value, NonZero(u.height));
      }
    }
  }

  lemma {:induction false} ScanKeepsReuseExact(s: State, d: DescriptorId, index: AddressIndex, branches: seq<Branch>)
    requires ReuseExact(s)
    ensures ReuseExact(ScanBranches(s, d, index, branches))
  {
    if branches != [] {
      ScanKeepsReuseExact(s, d, index, branches[..|branches| - 1]);
      var b := branches[|branches| - 1];
      if b.result.Listed? {
        ScanOutputsKeepReuseExact(ScanBranches(s, d, index, branches[..|branches| - 1]), d, index, b.isChange,
                                  b.result.utxos);
      }
    }
  }

  /////////////////////////////////////////////////////////////////////////////
  // Every mixture of the two paths
  /////////////////////////////////////////////////////////////////////////////

  datatype Step =
    | Live(tx: Tx, height: Option<nat>, rows: seq<AddressId>, order: seq<HoldingId>)
    | Scan(descriptor: DescriptorId, index: AddressIndex, branches: seq<Branch>)

  ghost function RunSteps(w: Watch, s: State, steps: seq<Step>): State
  {
    if steps == [] then s
    else
      var before := RunSteps(w, s, steps[..|steps| - 1]);
      match steps[|steps| - 1]
      case Live(tx, height, rows, order) => Process(w, before, tx, height, rows, order)
      case Scan(d, index, branches) => ScanBranches(before, d, index, branches)
  }

  const EMPTY := State(map[], {}, map[], [])

  /**
   In every state reachable from empty tables by deliveries and scans, in any mixture and with no
   condition on the transactions, the reuse flags are exact.
   */
  lemma {:induction false} ReuseIndexIsExact(w: Watch, steps: seq<Step>)
    ensures ReuseExact(RunSteps(w, EMPTY, steps))
  {
    if steps != [] {
      ReuseIndexIsExact(w, steps[..|steps| - 1]);
      var before := RunSteps(w, EMPTY, steps[..|steps| - 1]);
      match steps[|steps| - 1]
      case Live(tx, height, rows, order) => ProcessKeepsReuseExact(w, before, tx, height, rows, order);
      case Scan(d, index, branches) => ScanKeepsReuseExact(before, d, index, branches);
    }
  }
}
