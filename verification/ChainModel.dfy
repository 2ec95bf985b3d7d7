/**
 The tables the chain processor reads and writes, and what one delivered transaction does to
 them, as functions on values.

 Two things the source leaves to its environment are explicit arguments here: `rows`, the order
 in which the database returns the matching address rows, and `order`, the order in which a set
 of holding ids is iterated. Theorems quantify over every such order.
 */
module ChainModel {
  import opened Common
  import opened Sums

  type TxId = string
  type AddressId = nat
  type DescriptorId = nat
  type HoldingId = nat

  datatype Outpoint = Outpoint(txid: TxId, vout: int)

  /** A coinbase input has no previous output. */
  datatype TxIn = Coinbase | Prevout(outpoint: Outpoint)

  /** `address` is None for an output the scan of `vout` skips: no value, or no address string. */
  datatype TxOut = TxOut(n: int, value: nat, address: Option<string>)

  datatype Tx = Tx(txid: TxId, vin: seq<TxIn>, vout: seq<TxOut>)

  datatype AddressRow = AddressRow(address: string, descriptor: DescriptorId, isChange: bool, index: nat)

  /** The watch set: the address table and, per descriptor, the holding that owns it. */
  datatype Watch = Watch(addresses: map<AddressId, AddressRow>, descriptors: map<DescriptorId, HoldingId>)

  datatype Utxo = Utxo(descriptor: DescriptorId, address: AddressId, value: nat, height: Option<nat>,
                       isSpent: bool, spentIn: Option<TxId>, addressReused: bool)

  datatype Direction = Incoming | Outgoing | Internal

  /** One ledger entry joined with its holding link; the generated entry id is left out. */
  datatype Posting = Posting(reference: TxId, holding: HoldingId, direction: Direction,
                             netAmount: int, linkAmount: int)

  /** `reused` holds the ids of the addresses whose `is_reused` column is set. */
  datatype State = State(utxos: map<Outpoint, Utxo>, reused: set<AddressId>,
                         onchain: map<TxId, Option<nat>>, ledger: seq<Posting>)

  /** One output that pays a watched address. */
  datatype Found = Found(vout: int, value: nat, address: AddressId, descriptor: DescriptorId, holding: HoldingId)

  /////////////////////////////////////////////////////////////////////////////
  // Inputs
  /////////////////////////////////////////////////////////////////////////////

  function Spends(vin: seq<TxIn>): set<Outpoint>
  {
    set i | 0 <= i < |vin| && vin[i].Prevout? :: vin[i].outpoint
  }

  function MarkInput(utxos: map<Outpoint, Utxo>, input: TxIn, txid: TxId): map<Outpoint, Utxo>
  {
    if input.Prevout? && input.outpoint in utxos && !utxos[input.outpoint].isSpent then
      utxos[input.outpoint := utxos[input.outpoint].(isSpent := true, spentIn := Some(txid))]
    else
      utxos
  }

  function MarkSpent(utxos: map<Outpoint, Utxo>, vin: seq<TxIn>, txid: TxId): map<Outpoint, Utxo>
  {
    if vin == [] then utxos
    else MarkInput(MarkSpent(utxos, vin[..|vin| - 1], txid), vin[|vin| - 1], txid)
  }

  predicate Known(utxos: map<Outpoint, Utxo>, input: TxIn)
  {
    input.Prevout? && input.outpoint in utxos
  }

  predicate OwnedBy(w: Watch, u: Utxo, h: HoldingId)
  {
    u.descriptor in w.descriptors && w.descriptors[u.descriptor] == h
  }

  /** The outpoints of the known inputs, in input order. */
  function KnownInputs(utxos: map<Outpoint, Utxo>, vin: seq<TxIn>): seq<Outpoint>
  {
    if vin == [] then []
    else
      KnownInputs(utxos, vin[..|vin| - 1]) +
      if Known(utxos, vin[|vin| - 1]) then [vin[|vin| - 1].outpoint] else []
  }

  function SpentTotal(utxos: map<Outpoint, Utxo>, vin: seq<TxIn>): nat
  {
    if vin == [] then 0
    else
      SpentTotal(utxos, vin[..|vin| - 1]) +
      if Known(utxos, vin[|vin| - 1]) then utxos[vin[|vin| - 1].outpoint].value else 0
  }

  /** What the inputs take from the outputs of one holding. */
  function SpentFor(w: Watch, utxos: map<Outpoint, Utxo>, vin: seq<TxIn>, h: HoldingId): nat
  {
    if vin == [] then 0
    else
      SpentFor(w, utxos, vin[..|vin| - 1], h) +
      if Known(utxos, vin[|vin| - 1]) && OwnedBy(w, utxos[vin[|vin| - 1].outpoint], h)
      then utxos[vin[|vin| - 1].outpoint].value else 0
  }

  function SpentHoldings(w: Watch, utxos: map<Outpoint, Utxo>, vin: seq<TxIn>): set<HoldingId>
  {
    set i | 0 <= i < |vin| && Known(utxos, vin[i]) && utxos[vin[i].outpoint].descriptor in w.descriptors
      :: w.descriptors[utxos[vin[i].outpoint].descriptor]
  }

  /////////////////////////////////////////////////////////////////////////////
  // Outputs
  /////////////////////////////////////////////////////////////////////////////

  predicate Pays(w: Watch, out: TxOut, a: AddressId)
  {
    a in w.addresses && w.addresses[a].descriptor in w.descriptors && out.address == Some(w.addresses[a].address)
  }

  function FoundOf(w: Watch, out: TxOut, a: AddressId): Found
    requires Pays(w, out, a)
  {
    var d := w.addresses[a].descriptor;
    Found(out.n, out.value, a, d, w.descriptors[d])
  }

  /** The outputs that pay one address row, in output order. */
  function FoundAt(w: Watch, vout: seq<TxOut>, a: AddressId): seq<Found>
  {
    if vout == [] then []
    else
      FoundAt(w, vout[..|vout| - 1], a) +
      if Pays(w, vout[|vout| - 1], a) then [FoundOf(w, vout[|vout| - 1], a)] else []
  }

  function Discover(w: Watch, vout: seq<TxOut>, rows: seq<AddressId>): seq<Found>
  {
    if rows == [] then []
    else Discover(w, vout, rows[..|rows| - 1]) + FoundAt(w, vout, rows[|rows| - 1])
  }

  ghost predicate NoDuplicates<T>(s: seq<T>)
  {
    forall i, j :: 0 <= i < j < |s| ==> s[i] != s[j]
  }

  /** `rows` lists, in some order, the address rows whose address string occurs in `vout`. */
  ghost predicate RowOrder(w: Watch, vout: seq<TxOut>, rows: seq<AddressId>)
  {
    && NoDuplicates(rows)
    && forall a :: a in rows <==>
         a in w.addresses && exists i :: 0 <= i < |vout| && vout[i].address == Some(w.addresses[a].address)
  }

  function ReceivedFor(found: seq<Found>, h: HoldingId): nat
  {
    if found == [] then 0
    else
      ReceivedFor(found[..|found| - 1], h) +
      if found[|found| - 1].holding == h then found[|found| - 1].value else 0
  }

  function ReceivedTotal(found: seq<Found>): nat
  {
    if found == [] then 0 else ReceivedTotal(found[..|found| - 1]) + found[|found| - 1].value
  }

  function FoundHoldings(found: seq<Found>): set<HoldingId>
  {
    set i | 0 <= i < |found| :: found[i].holding
  }

  /////////////////////////////////////////////////////////////////////////////
  // Output rows and the reuse index
  /////////////////////////////////////////////////////////////////////////////

  /** The address has an output from a transaction other than `txid`. */
  predicate OtherTxPays(utxos: map<Outpoint, Utxo>, a: AddressId, txid: TxId)
  {
    exists p :: p in utxos && utxos[p].address == a && p.txid != txid
  }

  /** Retroactively flags every output at the address. */
  function FlagSiblings(utxos: map<Outpoint, Utxo>, a: AddressId): map<Outpoint, Utxo>
  {
    map p | p in utxos :: if utxos[p].address == a then utxos[p].(addressReused := true) else utxos[p]
  }

  /** Inserts a new output row, computes its reuse flag and propagates it. */
  function InsertRow(s: State, o: Outpoint, descriptor: DescriptorId, a: AddressId, value: nat,
                     height: Option<nat>): State
  {
    var flag := OtherTxPays(s.utxos, a, o.txid);
    var siblings := if flag then FlagSiblings(s.utxos, a) else s.utxos;
    s.(utxos := siblings[o := Utxo(descriptor, a, value, height, false, None, flag)],
       reused := if flag then s.reused + {a} else s.reused)
  }

  function RefreshHeight(s: State, o: Outpoint, height: Option<nat>): State
    requires o in s.utxos
  {
    if height.Some? && s.utxos[o].height.None?
    then s.(utxos := s.utxos[o := s.utxos[o].(height := height)])
    else s
  }

  function RecordOutput(s: State, txid: TxId, f: Found, height: Option<nat>): State
  {
    var o := Outpoint(txid, f.vout);
    if o in s.utxos then RefreshHeight(s, o, height)
    else InsertRow(s, o, f.descriptor, f.address, f.value, height)
  }

  function RecordAll(s: State, txid: TxId, found: seq<Found>, height: Option<nat>): State
  {
    if found == [] then s
    else RecordOutput(RecordAll(s, txid, found[..|found| - 1], height), txid, found[|found| - 1], height)
  }

  /////////////////////////////////////////////////////////////////////////////
  // Ledger
  /////////////////////////////////////////////////////////////////////////////

  function InferDirection(spent: nat, received: nat, inputHoldings: nat, outputHoldings: nat): Direction
  {
    if spent > 0 && received > 0 && inputHoldings > 0 && outputHoldings > 0 then Internal
    else if received >= spent then Incoming
    else Outgoing
  }

  /** The sign rules of the ledger entry constructor. */
  predicate EntryAccepted(direction: Direction, net: int)
  {
    && (direction == Incoming ==> net >= 0)
    && (direction == Outgoing ==> net <= 0)
  }

  predicate AlreadyLinked(ledger: seq<Posting>, txid: TxId, h: HoldingId)
  {
    exists i :: 0 <= i < |ledger| && ledger[i].reference == txid && ledger[i].holding == h
  }

  /** The posting step for one holding. */
  function Post(ledger: seq<Posting>, txid: TxId, direction: Direction, h: HoldingId,
                received: nat, spent: nat): seq<Posting>
  {
    if AlreadyLinked(ledger, txid, h) || (received == 0 && spent == 0) then ledger
    else ledger + [Posting(txid, h, direction, received - spent, received - spent)]
  }

  function PostAll(w: Watch, utxos: map<Outpoint, Utxo>, tx: Tx, found: seq<Found>, direction: Direction,
                   ledger: seq<Posting>, order: seq<HoldingId>): seq<Posting>
  {
    if order == [] then ledger
    else
      var h := order[|order| - 1];
      Post(PostAll(w, utxos, tx, found, direction, ledger, order[..|order| - 1]), tx.txid, direction, h,
           ReceivedFor(found, h), SpentFor(w, utxos, tx.vin, h))
  }

  ghost predicate HoldingOrder(touched: set<HoldingId>, order: seq<HoldingId>)
  {
    NoDuplicates(order) && forall h :: h in order <==> h in touched
  }

  /////////////////////////////////////////////////////////////////////////////
  // One delivery
  /////////////////////////////////////////////////////////////////////////////

  function UpsertTx(onchain: map<TxId, Option<nat>>, txid: TxId, height: Option<nat>): map<TxId, Option<nat>>
  {
    if txid !in onchain || height.Some? then onchain[txid := height] else onchain
  }

  predicate Concerns(s: State, tx: Tx, found: seq<Found>)
  {
    KnownInputs(s.utxos, tx.vin) != [] || found != []
  }

  function Touched(w: Watch, s: State, tx: Tx, found: seq<Found>): set<HoldingId>
  {
    SpentHoldings(w, s.utxos, tx.vin) + FoundHoldings(found)
  }

  function DirectionOf(w: Watch, s: State, tx: Tx, found: seq<Found>): Direction
  {
    InferDirection(SpentTotal(s.utxos, tx.vin), ReceivedTotal(found),
                   |SpentHoldings(w, s.utxos, tx.vin)|, |FoundHoldings(found)|)
  }

  function WithOutputs(s: State, tx: Tx, found: seq<Found>, height: Option<nat>): State
  {
    RecordAll(s.(utxos := MarkSpent(s.utxos, tx.vin, tx.txid), onchain := UpsertTx(s.onchain, tx.txid, height)),
              tx.txid, found, height)
  }

  function Process(w: Watch, s: State, tx: Tx, height: Option<nat>,
                   rows: seq<AddressId>, order: seq<HoldingId>): State
  {
    var found := Discover(w, tx.vout, rows);
    if !Concerns(s, tx, found) then s
    else
      var s1 := WithOutputs(s, tx, found, height);
      s1.(ledger := PostAll(w, s1.utxos, tx, found, DirectionOf(w, s, tx, found), s1.ledger, order))
  }

  /////////////////////////////////////////////////////////////////////////////
  // Balances
  /////////////////////////////////////////////////////////////////////////////

  /** What one output contributes to the unspent balance of a holding. */
  function Worth(w: Watch, u: Utxo, h: HoldingId): nat
  {
    if !u.isSpent && OwnedBy(w, u, h) then u.value else 0
  }

  ghost function WorthAt(w: Watch, utxos: map<Outpoint, Utxo>, h: HoldingId): Outpoint -> int
  {
    (o: Outpoint) => if o in utxos then Worth(w, utxos[o], h) else 0
  }

  ghost function UnspentTotal(w: Watch, utxos: map<Outpoint, Utxo>, h: HoldingId): int
  {
    SumOver(utxos.Keys, WorthAt(w, utxos, h))
  }

  function LedgerTotal(ledger: seq<Posting>, h: HoldingId): int
  {
    if ledger == [] then 0
    else
      LedgerTotal(ledger[..|ledger| - 1], h) +
      if ledger[|ledger| - 1].holding == h then ledger[|ledger| - 1].linkAmount else 0
  }

  /////////////////////////////////////////////////////////////////////////////
  // Conditions
  /////////////////////////////////////////////////////////////////////////////

  /** A transaction cannot spend its own outputs: its txid is a hash over its inputs. */
  ghost predicate NoSelfSpend(tx: Tx)
  {
    forall i :: 0 <= i < |tx.vin| && tx.vin[i].Prevout? ==> tx.vin[i].outpoint.txid != tx.txid
  }

  ghost predicate DistinctInputs(vin: seq<TxIn>)
  {
    forall i, j :: 0 <= i < j < |vin| && vin[i].Prevout? && vin[j].Prevout? ==> vin[i] != vin[j]
  }

  ghost predicate DistinctIndices(vout: seq<TxOut>)
  {
    forall i, j :: 0 <= i < j < |vout| ==> vout[i].n != vout[j].n
  }

  /** What the consensus rules guarantee of any transaction. */
  ghost predicate WellFormedTx(tx: Tx)
  {
    NoSelfSpend(tx) && DistinctInputs(tx.vin) && DistinctIndices(tx.vout)
  }

  /** An output pays two rows of the address table. */
  ghost predicate Ambiguous(w: Watch, tx: Tx)
  {
    exists i: int, a: AddressId, b: AddressId ::
      0 <= i < |tx.vout| && a != b && Pays(w, tx.vout[i], a) && Pays(w, tx.vout[i], b)
  }

  /** An output of value does. */
  ghost predicate Shares(w: Watch, tx: Tx)
  {
    exists i: int, a: AddressId, b: AddressId ::
      0 <= i < |tx.vout| && tx.vout[i].value > 0 && a != b && Pays(w, tx.vout[i], a) && Pays(w, tx.vout[i], b)
  }

  /** Every address string belongs to one address row. */
  ghost predicate SingleOwner(w: Watch)
  {
    forall a, b :: a in w.addresses && b in w.addresses && w.addresses[a].address == w.addresses[b].address ==> a == b
  }

  ghost predicate ForeignKeys(w: Watch, s: State)
  {
    && (forall a :: a in w.addresses ==> w.addresses[a].descriptor in w.descriptors)
    && (forall o :: o in s.utxos ==> s.utxos[o].descriptor in w.descriptors)
  }
}
