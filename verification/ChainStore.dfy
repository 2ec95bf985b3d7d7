/** The chain processor and the initial scan as they run: loops that update the tables in place. */
module ChainStore {
  import opened Common
  import opened ChainModel
  import opened ChainRows
  import opened ChainBalance
  import opened ReuseIndex
  import opened ChainHistory

  datatype TxProcessingResult = TxProcessingResult(
    isNew: bool, spent: seq<Outpoint>, discovered: seq<Outpoint>,
    affected: set<HoldingId>, direction: Option<Direction>, netAmount: int)

  datatype ScanReport = ScanReport(discovered: nat, preExisting: nat, heightAtScan: nat)

  /** No two rows of a descriptor share branch and index (a unique constraint of the address table). */
  ghost predicate UniqueIndex(w: Watch)
  {
    forall a, b :: (a in w.addresses && b in w.addresses &&
                    w.addresses[a].(address := w.addresses[b].address) == w.addresses[b]) ==> a == b
  }

  function IndexOf(w: Watch, d: DescriptorId): AddressIndex
    requires UniqueIndex(w)
  {
    map a | a in w.addresses && w.addresses[a].descriptor == d :: (w.addresses[a].isChange, w.addresses[a].index) := a
  }

  /** The outputs that pay an address string, in output order. */
  function PayingOutputs(vout: seq<TxOut>, address: string): seq<TxOut>
  {
    if vout == [] then []
    else
      PayingOutputs(vout[..|vout| - 1], address) +
      if vout[|vout| - 1].address == Some(address) then [vout[|vout| - 1]] else []
  }

  lemma {:induction false} PayingOutputsNonEmpty(vout: seq<TxOut>, address: string)
    ensures PayingOutputs(vout, address) != [] <==> exists i :: 0 <= i < |vout| && vout[i].address == Some(address)
  {
    if vout != [] {
      PayingOutputsNonEmpty(vout[..|vout| - 1], address);
      assert forall i :: 0 <= i < |vout| - 1 ==> vout[..|vout| - 1][i] == vout[i];
    }
  }

  function FoundIn(w: Watch, outs: seq<TxOut>, a: AddressId): seq<Found>
    requires a in w.addresses && w.addresses[a].descriptor in w.descriptors
  {
    if outs == [] then []
    else
      var out, d := outs[|outs| - 1], w.addresses[a].descriptor;
      FoundIn(w, outs[..|outs| - 1], a) + [Found(out.n, out.value, a, d, w.descriptors[d])]
  }

  lemma {:induction false} FoundAtGrouped(w: Watch, vout: seq<TxOut>, a: AddressId)
    requires a in w.addresses && w.addresses[a].descriptor in w.descriptors
    ensures FoundAt(w, vout, a) == FoundIn(w, PayingOutputs(vout, w.addresses[a].address), a)
  {
    if vout != [] {
      FoundAtGrouped(w, vout[..|vout| - 1], a);
      var outs := PayingOutputs(vout[..|vout| - 1], w.addresses[a].address);
      assert (outs + [vout[|vout| - 1]])[..|outs|] == outs && outs + [] == outs;
    }
  }

  lemma {:induction false} UnownedRowFindsNothing(w: Watch, vout: seq<TxOut>, a: AddressId)
    requires a in w.addresses && w.addresses[a].descriptor !in w.descriptors
    ensures FoundAt(w, vout, a) == []
  {
    if vout != [] {
      UnownedRowFindsNothing(w, vout[..|vout| - 1], a);
    }
  }

  /** A delivery keeps the foreign keys of the output table. */
  lemma ProcessKeepsForeignKeys(w: Watch, s: State, tx: Tx, height: Option<nat>, rows: seq<AddressId>,
                                order: seq<HoldingId>)
    requires ForeignKeys(w, s)
    ensures ForeignKeys(w, Process(w, s, tx, height, rows, order))
  {
    var u', found := Process(w, s, tx, height, rows, order).utxos, Discover(w, tx.vout, rows);
    ProcessRows(w, s, tx, height, rows, order);
    DiscoverAttributed(w, tx.vout, rows);
    forall o | o in u' ensures u'[o].descriptor in w.descriptors {
      if o !in s.utxos {
        var k :| 0 <= k < |found| && found[k].vout == o.vout && CoinOf(u'[o], found[k]);
        assert found[k] in found;
      }
    }
  }

  /** A row of the same transaction does not count as another payment to an address. */
  lemma OwnRowIsNoOther(utxos: map<Outpoint, Utxo>, o: Outpoint, row: Utxo)
    requires o !in utxos
    ensures OtherTxPays(utxos[o := row], row.address, o.txid) <==> OtherTxPays(utxos, row.address, o.txid)
  {
    if OtherTxPays(utxos, row.address, o.txid) {
      var p :| p in utxos && utxos[p].address == row.address && p.txid != o.txid;
      assert utxos[o := row][p].address == row.address;
    }
  }

  /** The list names exactly the rows that were added, each once. */
  ghost predicate NewRows(before: map<Outpoint, Utxo>, after: map<Outpoint, Utxo>, discovered: seq<Outpoint>)
  {
    NoDuplicates(discovered) && forall o :: o in discovered <==> o in after && o !in before
  }

  /** The running table of received values: absent holdings received nothing. */
  ghost predicate ReceivedTable(found: seq<Found>, received: map<HoldingId, nat>)
  {
    forall h :: ReceivedFor(found, h) == if h in received then received[h] else 0
  }

  /** The sign rules of the ledger entry constructor hold for whatever holding is posted. */
  ghost predicate SignsAgree(w: Watch, u: map<Outpoint, Utxo>, tx: Tx, found: seq<Found>, direction: Direction)
  {
    forall h :: EntryAccepted(direction, ReceivedFor(found, h) - SpentFor(w, u, tx.vin, h))
  }

  lemma SignsAgreeAfter(w: Watch, s: State, tx: Tx, found: seq<Found>, height: Option<nat>)
    requires ForeignKeys(w, s) && NoSelfSpend(tx)
    ensures SignsAgree(w, WithOutputs(s, tx, found, height).utxos, tx, found, DirectionOf(w, s, tx, found))
  {
    var u := WithOutputs(s, tx, found, height).utxos;
    forall h ensures EntryAccepted(DirectionOf(w, s, tx, found), ReceivedFor(found, h) - SpentFor(w, u, tx.vin, h)) {
      ChargesUnchanged(w, s, tx, found, height, h);
      SignSafety(w, s, tx, found, h);
    }
  }

  /** What the caller is told: a transaction that does not concern us is reported as nothing. */
  ghost predicate Reports(w: Watch, s: State, s': State, tx: Tx, found: seq<Found>, r: TxProcessingResult)
  {
    if !Concerns(s, tx, found) then r == TxProcessingResult(false, [], [], {}, None, 0)
    else
      && (r.isNew <==> tx.txid !in s.onchain)
      && r.spent == KnownInputs(s.utxos, tx.vin)
      && NewRows(s.utxos, s'.utxos, r.discovered)
      && r.affected == Touched(w, s, tx, found)
      && r.direction == Some(DirectionOf(w, s, tx, found))
      && r.netAmount == ReceivedTotal(found) - SpentTotal(s.utxos, tx.vin)
  }

  /** How many of the listed outputs belong to an address of the descriptor. */
  function Matched(index: AddressIndex, isChange: bool, us: seq<ScanUtxo>): nat
  {
    if us == [] then 0
    else
      var u := us[|us| - 1];
      Matched(index, isChange, us[..|us| - 1]) + if u.index.Some? && (isChange, u.index.value) in index then 1 else 0
  }

  function MatchedInAll(index: AddressIndex, branches: seq<Branch>): nat
  {
    if branches == [] then 0
    else
      var b := branches[|branches| - 1];
      MatchedInAll(index, branches[..|branches| - 1]) +
      if b.result.Listed? then Matched(index, b.isChange, b.result.utxos) else 0
  }

  /** The highest height any branch reported, and at least 1. */
  ghost predicate IsScanHeight(branches: seq<Branch>, height: nat)
  {
    && height >= 1
    && (forall b :: b in branches && b.result.Listed? ==> b.result.height <= height)
    && (height > 1 ==> exists b :: b in branches && b.result.Listed? && b.result.height == height)
  }

  class ChainStore {
    const watch: Watch
    var utxos: map<Outpoint, Utxo>
    var reused: set<AddressId>
    var onchain: map<TxId, Option<nat>>
    var ledger: seq<Posting>
    var lastScannedHeight: map<DescriptorId, nat>

    constructor (w: Watch)
      ensures watch == w && Tables() == EMPTY
    {
      watch, utxos, reused, onchain, ledger, lastScannedHeight := w, map[], {}, map[], [], map[];
    }

    function Tables(): State
      reads this
    {
      State(utxos, reused, onchain, ledger)
    }

    /** Marks every known input as spent, once; reports every known input, spent before or not. */
    method MarkInputsSpent(vin: seq<TxIn>, txid: TxId)
      returns (spentValue: nat, spent: seq<Outpoint>, holdings: set<HoldingId>)
      modifies this`utxos
      ensures utxos == MarkSpent(old(utxos), vin, txid)
      ensures spentValue == SpentTotal(old(utxos), vin)
      ensures spent == KnownInputs(old(utxos), vin)
      ensures holdings == SpentHoldings(watch, old(utxos), vin)
    {
      spentValue, spent, holdings := 0, [], {};
      for k := 0 to |vin|
        invariant utxos == MarkSpent(old(utxos), vin[..k], txid)
        invariant spentValue == SpentTotal(old(utxos), vin[..k])
        invariant spent == KnownInputs(old(utxos), vin[..k])
        invariant holdings == SpentHoldings(watch, old(utxos), vin[..k])
      {
        assert vin[..k + 1][..k] == vin[..k];
        MarkSpentRows(old(utxos), vin[..k], txid);
        SpentHoldingsLast(watch, old(utxos), vin[..k + 1]);
        if vin[k].Coinbase? || vin[k].outpoint !in utxos { continue; }
        var o := vin[k].outpoint;
        var row := utxos[o];
        if !row.isSpent {
          utxos := utxos[o := row.(isSpent := true, spentIn := Some(txid))];
        }
        spentValue := spentValue + row.value;
        spent := spent + [o];
        if row.descriptor in watch.descriptors {
          holdings := holdings + {watch.descriptors[row.descriptor]};
        }
      }
      assert vin[..|vin|] == vin;
    }

    /** Groups the outputs by address string. */
    method GroupByAddress(vout: seq<TxOut>) returns (perAddress: map<string, seq<TxOut>>)
      ensures forall s :: s in perAddress <==> PayingOutputs(vout, s) != []
      ensures forall s :: s in perAddress ==> perAddress[s] == PayingOutputs(vout, s)
    {
      perAddress := map[];
      for k := 0 to |vout|
        invariant forall s :: s in perAddress <==> PayingOutputs(vout[..k], s) != []
        invariant forall s :: s in perAddress ==> perAddress[s] == PayingOutputs(vout[..k], s)
      {
        assert vout[..k + 1][..k] == vout[..k];
        if vout[k].address.Some? {
          var s := vout[k].address.value;
          perAddress := perAddress[s := (if s in perAddress then perAddress[s] else []) + [vout[k]]];
        }
      }
      assert vout[..|vout|] == vout;
    }

    /** The grouped outputs of one address row. */
    method FoundForRow(a: AddressId, outs: seq<TxOut>, ghost vout: seq<TxOut>) returns (found: seq<Found>)
      requires a in watch.addresses && outs == PayingOutputs(vout, watch.addresses[a].address)
      ensures found == FoundAt(watch, vout, a)
    {
      found := [];
      var row := watch.addresses[a];
      if row.descriptor !in watch.descriptors {
        UnownedRowFindsNothing(watch, vout, a);
        return;
      }
      for i := 0 to |outs|
        invariant found == FoundIn(watch, outs[..i], a)
      {
        assert outs[..i + 1][..i] == outs[..i];
        found := found + [Found(outs[i].n, outs[i].value, a, row.descriptor, watch.descriptors[row.descriptor])];
      }
      assert outs[..|outs|] == outs;
      FoundAtGrouped(watch, vout, a);
    }

    /** Looks up the address rows of the outputs, in whatever order the database returns them. */
    method DiscoverOutputs(vout: seq<TxOut>) returns (found: seq<Found>, ghost rows: seq<AddressId>)
      ensures RowOrder(watch, vout, rows)
      ensures found == Discover(watch, vout, rows)
    {
      var perAddress := GroupByAddress(vout);
      found, rows := [], [];
      var matching := set a | a in watch.addresses && watch.addresses[a].address in perAddress;
      ghost var all := matching;
      forall a | a in watch.addresses
        ensures a in all <==> exists i :: 0 <= i < |vout| && vout[i].address == Some(watch.addresses[a].address)
      {
        PayingOutputsNonEmpty(vout, watch.addresses[a].address);
      }
      while matching != {}
        invariant matching <= all
        invariant NoDuplicates(rows)
        invariant forall a :: a in rows <==> a in all && a !in matching
        invariant found == Discover(watch, vout, rows)
      {
        var a :| a in matching;
        matching := matching - {a};
        var more := FoundForRow(a, perAddress[watch.addresses[a].address], vout);
        found := found + more;
        assert (rows + [a])[..|rows|] == rows;
        rows := rows + [a];
      }
    }

    /** A flagged row passes its flag to every other row of its address and to the address. */
    method PropagateReuse(o: Outpoint)
      requires o in utxos && utxos[o].addressReused
      modifies this`utxos, this`reused
      ensures utxos == FlagSiblings(old(utxos), old(utxos)[o].address)
      ensures reused == old(reused) + {old(utxos)[o].address}
    {
      var a := utxos[o].address;
      var siblings := set p | p in utxos && utxos[p].address == a && p != o;
      ghost var todo := siblings;
      while siblings != {}
        invariant siblings <= todo && reused == old(reused) && utxos.Keys == old(utxos).Keys
        invariant forall p :: p in utxos ==>
                    utxos[p] == if old(utxos)[p].address == a && p !in siblings
                                then old(utxos)[p].(addressReused := true) else old(utxos)[p]
      {
        var p :| p in siblings;
        if !utxos[p].addressReused {
          utxos := utxos[p := utxos[p].(addressReused := true)];
        }
        siblings := siblings - {p};
      }
      if a !in reused {
        reused := reused + {a};
      }
      assert reused == old(reused) + {a};
    }

    /** The hygiene pass on one row: writes its reuse flag and, when it is set, propagates it. */
    method ApplyReuseFlag(o: Outpoint)
      requires o in utxos
      modifies this`utxos, this`reused
      ensures var row := old(utxos)[o];
              var flag := OtherTxPays(old(utxos), row.address, o.txid);
              && utxos == (if flag then FlagSiblings(old(utxos), row.address)
                           else old(utxos)[o := row.(addressReused := false)])
              && reused == (if flag then old(reused) + {row.address} else old(reused))
    {
      var a := utxos[o].address;
      var others := set p | p in utxos && utxos[p].address == a && p.txid != o.txid :: p.txid;
      assert others != {} <==> OtherTxPays(utxos, a, o.txid) by {
        if OtherTxPays(utxos, a, o.txid) {
          var p :| p in utxos && utxos[p].address == a && p.txid != o.txid;
          assert p.txid in others;
        }
      }
      utxos := utxos[o := utxos[o].(addressReused := |others| >= 1)];
      if |others| >= 1 {
        ghost var flagged := utxos;
        PropagateReuse(o);
        assert FlagSiblings(flagged, a) == FlagSiblings(old(utxos), a);
      }
    }

    /** Inserts an output row and runs the hygiene pass on it. */
    method InsertOutput(o: Outpoint, d: DescriptorId, a: AddressId, value: nat, height: Option<nat>)
      requires o !in utxos
      modifies this`utxos, this`reused
      ensures Tables() == InsertRow(old(Tables()), o, d, a, value, height)
      ensures utxos.Keys == old(utxos).Keys + {o}
    {
      utxos := utxos[o := Utxo(d, a, value, height, false, None, false)];
      OwnRowIsNoOther(old(utxos), o, utxos[o]);
      ApplyReuseFlag(o);
    }

    /** Inserts or refreshes one row per found output and adds up what each holding receives. */
    method RecordFound(txid: TxId, found: seq<Found>, height: Option<nat>)
      returns (discovered: seq<Outpoint>, received: map<HoldingId, nat>, total: nat)
      modifies this`utxos, this`reused
      ensures Tables() == RecordAll(old(Tables()), txid, found, height)
      ensures received.Keys == FoundHoldings(found) && ReceivedTable(found, received)
      ensures total == ReceivedTotal(found)
      ensures NewRows(old(utxos), utxos, discovered)
    {
      discovered, received, total := [], map[], 0;
      for k := 0 to |found|
        invariant Tables() == RecordAll(old(Tables()), txid, found[..k], height)
        invariant received.Keys == FoundHoldings(found[..k]) && ReceivedTable(found[..k], received)
        invariant total == ReceivedTotal(found[..k])
        invariant old(utxos).Keys <= utxos.Keys && NewRows(old(utxos), utxos, discovered)
      {
        assert found[..k + 1][..k] == found[..k];
        FoundHoldingsLast(found[..k + 1]);
        var f := found[k];
        received := received[f.holding := (if f.holding in received then received[f.holding] else 0) + f.value];
        total := total + f.value;
        var o := Outpoint(txid, f.vout);
        if o !in utxos {
          InsertOutput(o, f.descriptor, f.address, f.value, height);
          discovered := discovered + [o];
        } else if height.Some? && utxos[o].height.None? {
          utxos := utxos[o := utxos[o].(height := height)];
        }
      }
      assert found[..|found|] == found;
    }

    /** Sum of the input values that come from outputs of one holding. */
    method HoldingInputValue(vin: seq<TxIn>, h: HoldingId) returns (total: nat)
      ensures total == SpentFor(watch, utxos, vin, h)
    {
      total := 0;
      for k := 0 to |vin|
        invariant total == SpentFor(watch, utxos, vin[..k], h)
      {
        assert vin[..k + 1][..k] == vin[..k];
        if vin[k].Coinbase? || vin[k].outpoint !in utxos { continue; }
        var row := utxos[vin[k].outpoint];
        if row.descriptor !in watch.descriptors { continue; }
        if watch.descriptors[row.descriptor] == h {
          total := total + row.value;
        }
      }
      assert vin[..|vin|] == vin;
    }

    /** Posts the net amount of one holding, unless it is linked already or nothing moved. */
    method PostEntry(tx: Tx, h: HoldingId, received: nat, direction: Direction)
      requires EntryAccepted(direction, received - SpentFor(watch, utxos, tx.vin, h))
      modifies this`ledger
      ensures ledger == Post(old(ledger), tx.txid, direction, h, received, SpentFor(watch, utxos, tx.vin, h))
    {
      if AlreadyLinked(ledger, tx.txid, h) { return; }
      var spent := HoldingInputValue(tx.vin, h);
      if received == 0 && spent == 0 { return; }
      var net := received as int - spent as int;
      assert EntryAccepted(direction, net);
      ledger := ledger + [Posting(tx.txid, h, direction, net, net)];
    }

    /** One ledger entry per touched holding, in whatever order the set is iterated. */
    method PostEntries(tx: Tx, received: map<HoldingId, nat>, affected: set<HoldingId>, direction: Direction,
                       ghost found: seq<Found>)
      returns (ghost order: seq<HoldingId>)
      requires ReceivedTable(found, received) && SignsAgree(watch, utxos, tx, found, direction)
      modifies this`ledger
      ensures HoldingOrder(affected, order)
      ensures ledger == PostAll(watch, utxos, tx, found, direction, old(ledger), order)
    {
      order := [];
      var remaining := affected;
      while remaining != {}
        invariant remaining <= affected
        invariant NoDuplicates(order) && forall h :: h in order <==> h in affected && h !in remaining
        invariant ledger == PostAll(watch, utxos, tx, found, direction, old(ledger), order)
      {
        var h :| h in remaining;
        remaining := remaining - {h};
        PostEntry(tx, h, if h in received then received[h] else 0, direction);
        assert (order + [h])[..|order|] == order;
        order := order + [h];
      }
    }

    /** The effects of a transaction that concerns us, after its inputs are marked. */
    method Persist(tx: Tx, height: Option<nat>, found: seq<Found>, spentValue: nat, spentHoldings: set<HoldingId>,
                   ghost s: State)
      returns (discovered: seq<Outpoint>, affected: set<HoldingId>, direction: Direction, netAmount: int,
               ghost order: seq<HoldingId>)
      requires ForeignKeys(watch, s) && NoSelfSpend(tx)
      requires Tables() == s.(utxos := MarkSpent(s.utxos, tx.vin, tx.txid))
      requires spentValue == SpentTotal(s.utxos, tx.vin) && spentHoldings == SpentHoldings(watch, s.utxos, tx.vin)
      modifies this`utxos, this`reused, this`onchain, this`ledger
      ensures affected == Touched(watch, s, tx, found) && HoldingOrder(affected, order)
      ensures direction == DirectionOf(watch, s, tx, found)
      ensures netAmount == ReceivedTotal(found) - SpentTotal(s.utxos, tx.vin)
      ensures NewRows(s.utxos, utxos, discovered)
      ensures var s1 := WithOutputs(s, tx, found, height);
              Tables() == s1.(ledger := PostAll(watch, s1.utxos, tx, found, direction, s1.ledger, order))
    {
      if tx.txid !in onchain || height.Some? {
        onchain := onchain[tx.txid := height];
      }
      var received, receivedTotal;
      discovered, received, receivedTotal := RecordFound(tx.txid, found, height);
      affected := spentHoldings + received.Keys;
      direction := InferDirection(spentValue, receivedTotal, |spentHoldings|, |received.Keys|);
      MarkSpentRows(s.utxos, tx.vin, tx.txid);
      SignsAgreeAfter(watch, s, tx, found, height);
      order := PostEntries(tx, received, affected, direction, found);
      netAmount := receivedTotal as int - spentValue as int;
    }

    /**
     Applies the effects of one decoded transaction. The ghost results are the two iteration
     orders; the new tables are the specified ones for those orders, and every ledger entry passes
     the sign rules of its constructor.
     */
    method ProcessDecodedTransaction(tx: Tx, height: Option<nat>)
      returns (result: TxProcessingResult, ghost rows: seq<AddressId>, ghost order: seq<HoldingId>)
      requires ForeignKeys(watch, Tables()) && NoSelfSpend(tx)
      modifies this`utxos, this`reused, this`onchain, this`ledger
      ensures RowOrder(watch, tx.vout, rows)
      ensures HoldingOrder(Touched(watch, old(Tables()), tx, Discover(watch, tx.vout, rows)), order)
      ensures Tables() == Process(watch, old(Tables()), tx, height, rows, order)
      ensures ForeignKeys(watch, Tables())
      ensures Reports(watch, old(Tables()), Tables(), tx, Discover(watch, tx.vout, rows), result)
    {
      ghost var s := Tables();
      var isNew := tx.txid !in onchain;
      var spentValue, spent, spentHoldings := MarkInputsSpent(tx.vin, tx.txid);
      var found;
      found, rows := DiscoverOutputs(tx.vout);
      if spent == [] && found == [] {
        NothingMarked(watch, s.utxos, tx.vin, tx.txid);
        order := [];
        result := TxProcessingResult(false, [], [], {}, None, 0);
      } else {
        var discovered, affected, direction, netAmount;
        discovered, affected, direction, netAmount, order := Persist(tx, height, found, spentValue, spentHoldings, s);
        result := TxProcessingResult(isNew, spent, discovered, affected, Some(direction), netAmount);
      }
      ProcessKeepsForeignKeys(watch, s, tx, height, rows, order);
    }

    /** One output the scan has not seen before: the transaction row, the output row, its flag. */
    method ImportUnspent(d: DescriptorId, a: AddressId, u: ScanUtxo)
      requires Outpoint(u.txid, u.vout) !in utxos
      modifies this`utxos, this`reused, this`onchain
      ensures Tables() == InsertRow(old(Tables()).(onchain := UpsertTx(old(onchain), u.txid, NonZero(u.height))),
                                    Outpoint(u.txid, u.vout), d, a, u.value, NonZero(u.height))
      ensures |utxos| == |old(utxos)| + 1
    {
      var height := NonZero(u.height);
      if u.txid !in onchain || height.Some? {
        onchain := onchain[u.txid := height];
      }
      InsertOutput(Outpoint(u.txid, u.vout), d, a, u.value, height);
      assert |utxos.Keys| == |old(utxos).Keys| + 1;
    }

    /** Imports the outputs the node lists for one branch of a descriptor. */
    method ScanBranch(d: DescriptorId, index: AddressIndex, isChange: bool, us: seq<ScanUtxo>)
      returns (discovered: nat, preExisting: nat)
      modifies this`utxos, this`reused, this`onchain
      ensures Tables() == ScanOutputs(old(Tables()), d, index, isChange, us)
      ensures |utxos| == |old(utxos)| + discovered
      ensures discovered + preExisting == Matched(index, isChange, us)
    {
      discovered, preExisting := 0, 0;
      for k := 0 to |us|
        invariant Tables() == ScanOutputs(old(Tables()), d, index, isChange, us[..k])
        invariant |utxos| == |old(utxos)| + discovered
        invariant discovered + preExisting == Matched(index, isChange, us[..k])
      {
        assert us[..k + 1][..k] == us[..k];
        var u := us[k];
        if u.index.None? || (isChange, u.index.value) !in index { continue; }
        var o := Outpoint(u.txid, u.vout);
        if o in utxos {
          preExisting := preExisting + 1;
        } else {
          ImportUnspent(d, index[(isChange, u.index.value)], u);
          discovered := discovered + 1;
        }
      }
      assert us[..|us|] == us;
    }

    /**
     Imports the unspent outputs the node lists for a descriptor, branch by branch. Output rows,
     reuse flags and transaction rows end as specified; the recorded scan height never falls.
     */
    method InitialScan(d: DescriptorId, branches: seq<Branch>) returns (report: ScanReport)
      requires UniqueIndex(watch)
      modifies this`utxos, this`reused, this`onchain, this`lastScannedHeight
      ensures Tables() == ScanBranches(old(Tables()), d, IndexOf(watch, d), branches)
      ensures IsScanHeight(branches, report.heightAtScan)
      ensures |utxos| == |old(utxos)| + report.discovered
      ensures report.discovered + report.preExisting == MatchedInAll(IndexOf(watch, d), branches)
      ensures lastScannedHeight.Keys == old(lastScannedHeight).Keys
      ensures forall e :: e in lastScannedHeight ==>
                lastScannedHeight[e] == if e == d && report.heightAtScan > old(lastScannedHeight)[e]
                                        then report.heightAtScan else old(lastScannedHeight)[e]
    {
      var index := IndexOf(watch, d);
      var discovered, preExisting, height := 0, 0, 0;
      for b := 0 to |branches|
        invariant Tables() == ScanBranches(old(Tables()), d, index, branches[..b])
        invariant |utxos| == |old(utxos)| + discovered
        invariant discovered + preExisting == MatchedInAll(index, branches[..b])
        invariant IsScanHeight(branches[..b], if height >= 1 then height else 1)
        invariant lastScannedHeight == old(lastScannedHeight)
      {
        assert branches[..b + 1][..b] == branches[..b];
        var branch := branches[b];
        ScanHeightNext(branches, b, if height >= 1 then height else 1);
        if branch.result.Rejected? {
          height := if height >= 1 then height else 1;
          continue;
        }
        height := if height >= branch.result.height then height else branch.result.height;
        var inserted, known := ScanBranch(d, index, branch.isChange, branch.result.utxos);
        discovered, preExisting := discovered + inserted, preExisting + known;
      }
      assert branches[..|branches|] == branches;
      var effective := if height >= 1 then height else 1;
      if d in lastScannedHeight && effective > lastScannedHeight[d] {
        lastScannedHeight := lastScannedHeight[d := effective];
      }
      report := ScanReport(discovered, preExisting, effective);
    }
  }

  lemma ScanHeightNext(branches: seq<Branch>, b: nat, height: nat)
    requires b < |branches| && IsScanHeight(branches[..b], height)
    ensures var r := branches[b].result;
            IsScanHeight(branches[..b + 1], if r.Listed? && r.height > height then r.height else height)
  {
    assert branches[..b + 1] == branches[..b] + [branches[b]];
    forall x ensures x in branches[..b + 1] <==> x in branches[..b] || x == branches[b] {}
  }

  lemma NothingMarked(w: Watch, utxos: map<Outpoint, Utxo>, vin: seq<TxIn>, txid: TxId)
    requires KnownInputs(utxos, vin) == []
    ensures MarkSpent(utxos, vin, txid) == utxos
    ensures SpentHoldings(w, utxos, vin) == {}
  {
    KnownInputsEmpty(utxos, vin);
    MarkSpentRows(utxos, vin, txid);
    forall i | 0 <= i < |vin| ensures !Known(utxos, vin[i]) {
      if vin[i].Prevout? { assert vin[i].outpoint in Spends(vin); }
    }
  }
}
