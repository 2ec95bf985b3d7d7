/** Where the initial scan puts what the node lists, and what it leaves alone. */
module ScanRows {
  import opened Common
  import opened ChainModel
  import opened ChainRows
  import opened ReuseIndex
  import opened ChainStore

  /** The row made from one listed output at one address row of the descriptor's branch. */
  ghost predicate ScannedAs(w: Watch, d: DescriptorId, isChange: bool, u: ScanUtxo, o: Outpoint, row: Utxo)
  {
    && o.txid == u.txid && o.vout == u.vout
    && row.address in w.addresses && w.addresses[row.address].descriptor == d
    && w.addresses[row.address].isChange == isChange && u.index == Some(w.addresses[row.address].index)
    && row.descriptor == d && row.value == u.value && !row.isSpent && row.spentIn == None
    && row.height == if u.height == 0 then None else Some(u.height)
  }

  /** The listed output belongs to an address row of the descriptor's branch. */
  ghost predicate AtAddress(w: Watch, d: DescriptorId, isChange: bool, u: ScanUtxo)
  {
    exists a :: a in w.addresses && w.addresses[a].descriptor == d && w.addresses[a].isChange == isChange
                && u.index == Some(w.addresses[a].index)
  }

  /** The index lists exactly the address rows of the descriptor, by branch and derivation index. */
  ghost predicate Indexes(w: Watch, d: DescriptorId, index: AddressIndex)
  {
    && (forall a :: a in w.addresses && w.addresses[a].descriptor == d ==>
          (w.addresses[a].isChange, w.addresses[a].index) in index)
    && (forall k :: k in index ==>
          && index[k] in w.addresses && w.addresses[index[k]].descriptor == d
          && w.addresses[index[k]].isChange == k.0 && w.addresses[index[k]].index == k.1)
  }

  lemma IndexFinds(w: Watch, d: DescriptorId)
    requires UniqueIndex(w)
    ensures Indexes(w, d, IndexOf(w, d))
  {
  }

  lemma Indexed(w: Watch, d: DescriptorId, index: AddressIndex, isChange: bool, u: ScanUtxo)
    requires Indexes(w, d, index)
    ensures AtAddress(w, d, isChange, u) <==> u.index.Some? && (isChange, u.index.value) in index
  {
    if u.index.Some? && (isChange, u.index.value) in index {
      var k := (isChange, u.index.value);
      assert index[k] in w.addresses && w.addresses[index[k]].isChange == k.0 && w.addresses[index[k]].index == k.1;
    }
  }

  /** Old rows keep their coins, and the ledger stays. */
  ghost predicate Untouched(s: State, s': State)
  {
    && s.utxos.Keys <= s'.utxos.Keys
    && (forall o :: o in s.utxos ==> SameCoin(s'.utxos[o], s.utxos[o]) && s'.utxos[o].height == s.utxos[o].height)
    && s'.ledger == s.ledger
    && (forall t :: t in s.onchain ==> t in s'.onchain)
  }

  lemma UntouchedChain(s: State, s1: State, s2: State)
    requires Untouched(s, s1) && Untouched(s1, s2)
    ensures Untouched(s, s2)
  {
  }

  lemma InsertedRow(s: State, o: Outpoint, d: DescriptorId, a: AddressId, value: nat, height: Option<nat>)
    requires o !in s.utxos
    ensures var s' := InsertRow(s, o, d, a, value, height);
            && Untouched(s, s') && s'.utxos.Keys == s.utxos.Keys + {o}
            && SameCoin(s'.utxos[o], Utxo(d, a, value, height, false, None, false)) && s'.utxos[o].height == height
  {
  }

  /** What one listed output adds. */
  ghost predicate Imported(w: Watch, d: DescriptorId, isChange: bool, u: ScanUtxo, s: State, s': State)
  {
    && Untouched(s, s')
    && (AtAddress(w, d, isChange, u) ==> Outpoint(u.txid, u.vout) in s'.utxos)
    && (forall o :: o in s'.utxos && o !in s.utxos ==>
          ScannedAs(w, d, isChange, u, o, s'.utxos[o]) && o.txid in s'.onchain)
  }

  lemma ImportAt(w: Watch, s: State, d: DescriptorId, isChange: bool, u: ScanUtxo, a: AddressId)
    requires Outpoint(u.txid, u.vout) !in s.utxos && u.txid in s.onchain
    requires a in w.addresses && w.addresses[a].descriptor == d && w.addresses[a].isChange == isChange
    requires u.index == Some(w.addresses[a].index)
    ensures Imported(w, d, isChange, u, s, InsertRow(s, Outpoint(u.txid, u.vout), d, a, u.value, NonZero(u.height)))
  {
    InsertedRow(s, Outpoint(u.txid, u.vout), d, a, u.value, NonZero(u.height));
  }

  /** One listed output: a row at its address iff it has one and was unknown. */
  lemma ScanOutputRow(w: Watch, s: State, d: DescriptorId, index: AddressIndex, isChange: bool, u: ScanUtxo)
    requires Indexes(w, d, index)
    ensures Imported(w, d, isChange, u, s, ScanOutput(s, d, index, isChange, u))
  {
    Indexed(w, d, index, isChange, u);
    var o, s' := Outpoint(u.txid, u.vout), ScanOutput(s, d, index, isChange, u);
    if !AtAddress(w, d, isChange, u) || o in s.utxos {
      assert s' == s;
    } else {
      var s1 := s.(onchain := UpsertTx(s.onchain, u.txid, NonZero(u.height)));
      var k := (isChange, u.index.value);
      assert index[k] in w.addresses && w.addresses[index[k]].isChange == k.0 && w.addresses[index[k]].index == k.1;
      ImportAt(w, s1, d, isChange, u, index[k]);
      ImportedAfterTx(w, d, isChange, u, s, s1, s');
    }
  }

  lemma ImportedAfterTx(w: Watch, d: DescriptorId, isChange: bool, u: ScanUtxo, s: State, s1: State, s': State)
    requires s1 == s.(onchain := s1.onchain) && s.onchain.Keys <= s1.onchain.Keys
    requires Imported(w, d, isChange, u, s1, s')
    ensures Imported(w, d, isChange, u, s, s')
  {
  }

  /** The transaction row a listed output writes: its own, with its height unless the node said 0. */
  lemma ScanOutputTx(w: Watch, s: State, d: DescriptorId, index: AddressIndex, isChange: bool, u: ScanUtxo, t: TxId)
    requires Indexes(w, d, index)
    ensures var s' := ScanOutput(s, d, index, isChange, u);
            if t == u.txid && AtAddress(w, d, isChange, u) && Outpoint(u.txid, u.vout) !in s.utxos then
              && t in s'.onchain
              && (u.height > 0 ==> s'.onchain[t] == Some(u.height))
              && (u.height == 0 ==> s'.onchain[t] == if t in s.onchain then s.onchain[t] else None)
            else
              (t in s'.onchain <==> t in s.onchain) && (t in s.onchain ==> s'.onchain[t] == s.onchain[t])
  {
    Indexed(w, d, index, isChange, u);
  }

  /** Listed somewhere in one branch. */
  ghost predicate ScannedFrom(w: Watch, d: DescriptorId, isChange: bool, us: seq<ScanUtxo>, o: Outpoint, row: Utxo)
  {
    exists u :: u in us && ScannedAs(w, d, isChange, u, o, row)
  }

  lemma ScannedStays(w: Watch, d: DescriptorId, isChange: bool, us: seq<ScanUtxo>, o: Outpoint, row: Utxo, row': Utxo)
    requires us != [] && ScannedFrom(w, d, isChange, us[..|us| - 1], o, row)
    requires SameCoin(row', row) && row'.height == row.height
    ensures ScannedFrom(w, d, isChange, us, o, row')
  {
    var u :| u in us[..|us| - 1] && ScannedAs(w, d, isChange, u, o, row);
    assert u in us && ScannedAs(w, d, isChange, u, o, row');
  }

  /** What one branch adds. */
  ghost predicate ImportedAll(w: Watch, d: DescriptorId, isChange: bool, us: seq<ScanUtxo>, s: State, s': State)
  {
    && Untouched(s, s')
    && (forall u :: u in us && AtAddress(w, d, isChange, u) ==> Outpoint(u.txid, u.vout) in s'.utxos)
    && (forall o :: o in s'.utxos && o !in s.utxos ==>
          ScannedFrom(w, d, isChange, us, o, s'.utxos[o]) && o.txid in s'.onchain)
  }

  lemma ImportOneMore(w: Watch, d: DescriptorId, isChange: bool, us: seq<ScanUtxo>, s: State, before: State, s': State)
    requires us != [] && ImportedAll(w, d, isChange, us[..|us| - 1], s, before)
    requires Imported(w, d, isChange, us[|us| - 1], before, s')
    ensures ImportedAll(w, d, isChange, us, s, s')
  {
    var init, u := us[..|us| - 1], us[|us| - 1];
    UntouchedChain(s, before, s');
    forall x | x in us && AtAddress(w, d, isChange, x) ensures Outpoint(x.txid, x.vout) in s'.utxos {
      assert x in init || x == u;
    }
    forall o | o in s'.utxos && o !in s.utxos
      ensures ScannedFrom(w, d, isChange, us, o, s'.utxos[o]) && o.txid in s'.onchain
    {
      if o in before.utxos {
        ScannedStays(w, d, isChange, us, o, before.utxos[o], s'.utxos[o]);
      } else {
        assert u in us && ScannedAs(w, d, isChange, u, o, s'.utxos[o]);
      }
    }
  }

  lemma {:induction false} ScanOutputsRows(w: Watch, s: State, d: DescriptorId, index: AddressIndex, isChange: bool,
                                           us: seq<ScanUtxo>)
    requires Indexes(w, d, index)
    ensures ImportedAll(w, d, isChange, us, s, ScanOutputs(s, d, index, isChange, us))
  {
    if us != [] {
      var before := ScanOutputs(s, d, index, isChange, us[..|us| - 1]);
      ScanOutputsRows(w, s, d, index, isChange, us[..|us| - 1]);
      ScanOutputRow(w, before, d, index, isChange, us[|us| - 1]);
      ImportOneMore(w, d, isChange, us, s, before, ScanOutputs(s, d, index, isChange, us));
    }
  }

  /** Listed by the node in one of the branches. */
  ghost predicate ScannedInto(w: Watch, d: DescriptorId, branches: seq<Branch>, o: Outpoint, row: Utxo)
  {
    exists i :: 0 <= i < |branches| && branches[i].result.Listed?
                && ScannedFrom(w, d, branches[i].isChange, branches[i].result.utxos, o, row)
  }

  lemma ScannedIntoStays(w: Watch, d: DescriptorId, branches: seq<Branch>, o: Outpoint, row: Utxo, row': Utxo)
    requires branches != [] && ScannedInto(w, d, branches[..|branches| - 1], o, row)
    requires SameCoin(row', row) && row'.height == row.height
    ensures ScannedInto(w, d, branches, o, row')
  {
    var init := branches[..|branches| - 1];
    var i :| 0 <= i < |init| && init[i].result.Listed?
             && ScannedFrom(w, d, init[i].isChange, init[i].result.utxos, o, row);
    var u :| u in init[i].result.utxos && ScannedAs(w, d, init[i].isChange, u, o, row);
    assert ScannedAs(w, d, init[i].isChange, u, o, row');
    assert branches[i] == init[i];
  }

  /**
   The whole scan: every listed output at an address row of its branch has a row; every new row is
   one of them, at that address row, with the listed value and height and unspent; everything else
   in the output table and the ledger is left alone.
   */
  lemma {:induction false} ScanBranchesRows(w: Watch, s: State, d: DescriptorId, branches: seq<Branch>)
    requires UniqueIndex(w)
    ensures var s' := ScanBranches(s, d, IndexOf(w, d), branches);
            && Untouched(s, s')
            && (forall b, u ::
                  b in branches && b.result.Listed? && u in b.result.utxos && AtAddress(w, d, b.isChange, u) ==>
                  Outpoint(u.txid, u.vout) in s'.utxos)
            && (forall o :: o in s'.utxos && o !in s.utxos ==> ScannedInto(w, d, branches, o, s'.utxos[o]))
            && (forall o :: o in s'.utxos && o !in s.utxos ==> o.txid in s'.onchain)
  {
    if branches != [] {
      var init, b := branches[..|branches| - 1], branches[|branches| - 1];
      ScanBranchesRows(w, s, d, init);
      var before := ScanBranches(s, d, IndexOf(w, d), init);
      var s' := ScanBranches(s, d, IndexOf(w, d), branches);
      if b.result.Listed? {
        IndexFinds(w, d);
        ScanOutputsRows(w, before, d, IndexOf(w, d), b.isChange, b.result.utxos);
        UntouchedChain(s, before, s');
      }
      assert forall x :: x in branches <==> x in init || x == b;
      forall o | o in s'.utxos && o !in s.utxos
        ensures ScannedInto(w, d, branches, o, s'.utxos[o]) && o.txid in s'.onchain
      {
        if o in before.utxos {
          ScannedIntoStays(w, d, branches, o, before.utxos[o], s'.utxos[o]);
        } else {
          assert branches[|init|] == b;
        }
      }
    }
  }
}
