/**
 Deleting a holding: a hand-ordered sequence of statements over fifteen tables whose foreign keys
 are RESTRICT, CASCADE or SET NULL. A row is kept as its foreign-key columns only.
 */
module Cascade {
  import opened Common

  type Id = nat

  datatype Policy = Policy(source: Id, destination: Id)
  datatype Output = Output(descriptor: Id, address: Id)
  datatype Payment = Payment(holding: Id, entry: Option<Id>, execution: Option<Id>)
  datatype Invoice = Invoice(holding: Id, address: Option<Id>, entry: Option<Id>)
  datatype Provider = Provider(holding: Id, whitelist: Option<Id>)
  datatype Custodial = Custodial(holding: Id, provider: Id, execution: Option<Id>, counterparty: Option<Id>,
                                 entry: Option<Id>)

  datatype Tables = Tables(
    holdings: set<Id>,
    changeLogs: map<Id, Id>,
    policies: map<Id, Policy>,
    executions: map<Id, Id>,
    descriptors: map<Id, Id>,
    addresses: map<Id, Id>,
    utxos: map<Id, Output>,
    payments: map<Id, Payment>,
    attempts: map<Id, Id>,
    invoices: map<Id, Invoice>,
    entries: set<Id>,
    links: set<(Id, Id)>,
    providers: map<Id, Provider>,
    custodials: map<Id, Custodial>,
    healthItems: map<Id, Option<Id>>)

  /////////////////////////////////////////////////////////////////////////////
  // Referential integrity
  /////////////////////////////////////////////////////////////////////////////

  predicate Points(column: Option<Id>, parents: set<Id>)
  {
    column.Some? ==> column.value in parents
  }

  predicate Hits(column: Option<Id>, ids: set<Id>)
  {
    column.Some? && column.value in ids
  }

  function Nulled(column: Option<Id>, ids: set<Id>): Option<Id>
  {
    if Hits(column, ids) then None else column
  }

  ghost predicate SweepKeys(t: Tables)
  {
    && (forall k :: k in t.changeLogs ==> t.changeLogs[k] in t.holdings)
    && (forall k :: k in t.policies ==> t.policies[k].source in t.holdings && t.policies[k].destination in t.holdings)
    && (forall k :: k in t.executions ==> t.executions[k] in t.policies)
  }

  ghost predicate ChainKeys(t: Tables)
  {
    && (forall k :: k in t.descriptors ==> t.descriptors[k] in t.holdings)
    && (forall k :: k in t.addresses ==> t.addresses[k] in t.descriptors)
    && (forall k :: k in t.utxos ==> t.utxos[k].descriptor in t.descriptors && t.utxos[k].address in t.addresses)
  }

  ghost predicate PaymentKeys(t: Tables)
  {
    && (forall k :: k in t.payments ==>
          && t.payments[k].holding in t.holdings
          && Points(t.payments[k].entry, t.entries)
          && Points(t.payments[k].execution, t.executions.Keys))
    && (forall k :: k in t.attempts ==> t.attempts[k] in t.payments)
    && (forall k :: k in t.invoices ==>
          && t.invoices[k].holding in t.holdings
          && Points(t.invoices[k].address, t.addresses.Keys)
          && Points(t.invoices[k].entry, t.entries))
  }

  ghost predicate LedgerKeys(t: Tables)
  {
    && (forall l :: l in t.links ==> l.0 in t.entries && l.1 in t.holdings)
    && (forall k :: k in t.healthItems ==> Points(t.healthItems[k], t.holdings))
  }

  ghost predicate CustodyKeys(t: Tables)
  {
    && (forall k :: k in t.providers ==>
          t.providers[k].holding in t.holdings && Points(t.providers[k].whitelist, t.descriptors.Keys))
    && (forall k :: k in t.custodials ==>
          && t.custodials[k].holding in t.holdings
          && t.custodials[k].provider in t.providers
          && Points(t.custodials[k].execution, t.executions.Keys)
          && Points(t.custodials[k].counterparty, t.holdings)
          && Points(t.custodials[k].entry, t.entries))
  }

  /** Every foreign key of the schema. */
  ghost predicate ForeignKeys(t: Tables)
  {
    SweepKeys(t) && ChainKeys(t) && PaymentKeys(t) && LedgerKeys(t) && CustodyKeys(t)
  }

  // The RESTRICT checks a DELETE runs: is a row about to go still referenced?

  predicate PoliciesInUse(t: Tables, ids: set<Id>)
  {
    exists k :: k in t.executions && t.executions[k] in ids
  }

  predicate ExecutionsInUse(t: Tables, ids: set<Id>)
  {
    exists k :: k in t.custodials && Hits(t.custodials[k].execution, ids)
  }

  predicate AddressesInUse(t: Tables, ids: set<Id>)
  {
    || (exists k :: k in t.utxos && t.utxos[k].address in ids)
    || (exists k :: k in t.invoices && Hits(t.invoices[k].address, ids))
  }

  predicate DescriptorsInUse(t: Tables, ids: set<Id>)
  {
    || (exists k :: k in t.addresses && t.addresses[k] in ids)
    || (exists k :: k in t.utxos && t.utxos[k].descriptor in ids)
    || (exists k :: k in t.providers && Hits(t.providers[k].whitelist, ids))
  }

  predicate PaymentsInUse(t: Tables, ids: set<Id>)
  {
    exists k :: k in t.attempts && t.attempts[k] in ids
  }

  predicate EntriesInUse(t: Tables, ids: set<Id>)
  {
    || (exists l :: l in t.links && l.0 in ids)
    || (exists k :: k in t.payments && Hits(t.payments[k].entry, ids))
    || (exists k :: k in t.invoices && Hits(t.invoices[k].entry, ids))
    || (exists k :: k in t.custodials && Hits(t.custodials[k].entry, ids))
  }

  predicate HoldingInUse(t: Tables, h: Id)
  {
    || (exists k :: k in t.changeLogs && t.changeLogs[k] == h)
    || (exists k :: k in t.policies && (t.policies[k].source == h || t.policies[k].destination == h))
    || (exists k :: k in t.descriptors && t.descriptors[k] == h)
    || (exists k :: k in t.payments && t.payments[k].holding == h)
    || (exists k :: k in t.invoices && t.invoices[k].holding == h)
    || (exists l :: l in t.links && l.1 == h)
    || (exists k :: k in t.providers && t.providers[k].holding == h)
    || (exists k :: k in t.custodials && t.custodials[k].holding == h)
  }

  /////////////////////////////////////////////////////////////////////////////
  // The reference definition: what belongs to the holding
  /////////////////////////////////////////////////////////////////////////////

  function PoliciesOf(t: Tables, h: Id): set<Id>
  {
    set k | k in t.policies && (t.policies[k].source == h || t.policies[k].destination == h)
  }

  function ExecutionsOf(t: Tables, h: Id): set<Id>
  {
    set k | k in t.executions && t.executions[k] in PoliciesOf(t, h)
  }

  function DescriptorsOf(t: Tables, h: Id): set<Id>
  {
    set k | k in t.descriptors && t.descriptors[k] == h
  }

  function AddressesOf(t: Tables, h: Id): set<Id>
  {
    set k | k in t.addresses && t.addresses[k] in DescriptorsOf(t, h)
  }

  function PaymentsOf(t: Tables, h: Id): set<Id>
  {
    set k | k in t.payments && t.payments[k].holding == h
  }

  /** The entries linked to the holding. */
  function EntriesOf(t: Tables, h: Id): set<Id>
  {
    set l | l in t.links && l.1 == h :: l.0
  }

  /** The entries linked to the holding and to no other. */
  function OrphansOf(t: Tables, h: Id): set<Id>
  {
    set e | e in EntriesOf(t, h) && forall l :: l in t.links && l.0 == e ==> l.1 == h
  }

  function ProvidersOf(t: Tables, h: Id): set<Id>
  {
    set k | k in t.providers && t.providers[k].holding == h
  }

  /** The tables without the holding. */
  ghost function Purged(t: Tables, h: Id): Tables
  {
    Tables(
      t.holdings - {h},
      map k | k in t.changeLogs && t.changeLogs[k] != h :: t.changeLogs[k],
      map k | k in t.policies && k !in PoliciesOf(t, h) :: t.policies[k],
      map k | k in t.executions && k !in ExecutionsOf(t, h) :: t.executions[k],
      map k | k in t.descriptors && k !in DescriptorsOf(t, h) :: t.descriptors[k],
      map k | k in t.addresses && k !in AddressesOf(t, h) :: t.addresses[k],
      map k | k in t.utxos && t.utxos[k].descriptor !in DescriptorsOf(t, h) :: t.utxos[k],
      map k | k in t.payments && k !in PaymentsOf(t, h) ::
        t.payments[k].(entry := Nulled(t.payments[k].entry, EntriesOf(t, h)),
                       execution := Nulled(t.payments[k].execution, ExecutionsOf(t, h))),
      map k | k in t.attempts && t.attempts[k] !in PaymentsOf(t, h) :: t.attempts[k],
      map k | k in t.invoices && t.invoices[k].holding != h :: t.invoices[k],
      t.entries - OrphansOf(t, h),
      set l | l in t.links && l.1 != h,
      map k | k in t.providers && k !in ProvidersOf(t, h) :: t.providers[k],
      map k | k in t.custodials && t.custodials[k].provider !in ProvidersOf(t, h) ::
        t.custodials[k].(execution := Nulled(t.custodials[k].execution, ExecutionsOf(t, h)),
                         counterparty := Nulled(t.custodials[k].counterparty, {h}),
                         entry := Nulled(t.custodials[k].entry, EntriesOf(t, h))),
      map k | k in t.healthItems && t.healthItems[k] != Some(h) :: t.healthItems[k])
  }

  /**
   The statements can run to the end exactly when no row that survives them points at a row they
   remove. Addresses go before invoices, so an invoice of the holding itself blocks its address.
   */
  ghost predicate Deletable(t: Tables, h: Id)
  {
    && ChainFree(t, h)
    && (forall k :: k in t.invoices && t.invoices[k].holding != h ==> !Hits(t.invoices[k].entry, OrphansOf(t, h)))
    && (forall k :: k in t.custodials && t.custodials[k].holding == h ==> t.custodials[k].provider in ProvidersOf(t, h))
  }

  /////////////////////////////////////////////////////////////////////////////
  // The statements
  /////////////////////////////////////////////////////////////////////////////

  ghost function WithoutExecutions(t: Tables, h: Id): Tables
  {
    t.(custodials :=
       (map k | k in t.custodials ::
        t.custodials[k].(execution := Nulled(t.custodials[k].execution, ExecutionsOf(t, h)))),
       payments := (map k | k in t.payments ::
                    t.payments[k].(execution := Nulled(t.payments[k].execution, ExecutionsOf(t, h)))),
       executions := (map k | k in t.executions && k !in ExecutionsOf(t, h) :: t.executions[k]))
  }

  ghost function WithoutPolicies(t: Tables, h: Id): Tables
  {
    t.(policies := (map k | k in t.policies && k !in PoliciesOf(t, h) :: t.policies[k]))
  }

  ghost function WithoutLogs(t: Tables, h: Id): Tables
  {
    t.(changeLogs := (map k | k in t.changeLogs && t.changeLogs[k] != h :: t.changeLogs[k]))
  }

  ghost function WithoutSweeps(t: Tables, h: Id): Tables
  {
    WithoutPolicies(WithoutExecutions(WithoutLogs(t, h), h), h)
  }

  ghost function WithoutChain(t: Tables, h: Id): Tables
  {
    t.(utxos := (map k | k in t.utxos && t.utxos[k].descriptor !in DescriptorsOf(t, h) :: t.utxos[k]),
       addresses := (map k | k in t.addresses && k !in AddressesOf(t, h) :: t.addresses[k]),
       descriptors := (map k | k in t.descriptors && k !in DescriptorsOf(t, h) :: t.descriptors[k]))
  }

  ghost function WithoutPayments(t: Tables, h: Id): Tables
  {
    t.(attempts := (map k | k in t.attempts && t.attempts[k] !in PaymentsOf(t, h) :: t.attempts[k]),
       payments := (map k | k in t.payments && k !in PaymentsOf(t, h) :: t.payments[k]),
       invoices := (map k | k in t.invoices && t.invoices[k].holding != h :: t.invoices[k]))
  }

  ghost function WithoutLedger(t: Tables, h: Id): Tables
  {
    t.(custodials :=
       (map k | k in t.custodials :: t.custodials[k].(entry := Nulled(t.custodials[k].entry, EntriesOf(t, h)))),
       payments := (map k | k in t.payments :: t.payments[k].(entry := Nulled(t.payments[k].entry, EntriesOf(t, h)))),
       links := (set l | l in t.links && l.1 != h),
       entries := t.entries - OrphansOf(t, h))
  }

  ghost function WithoutProvider(t: Tables, h: Id): Tables
  {
    t.(providers := (map k | k in t.providers && k !in ProvidersOf(t, h) :: t.providers[k]),
       custodials := (map k | k in t.custodials && t.custodials[k].provider !in ProvidersOf(t, h) :: t.custodials[k]))
  }

  ghost function WithoutHolding(t: Tables, h: Id): Tables
  {
    t.(custodials :=
       (map k | k in t.custodials :: t.custodials[k].(counterparty := Nulled(t.custodials[k].counterparty, {h}))),
       healthItems := (map k | k in t.healthItems && t.healthItems[k] != Some(h) :: t.healthItems[k]),
       holdings := t.holdings - {h})
  }

  /** No surviving row points into the outputs, addresses and descriptors of the holding. */
  ghost predicate ChainFree(t: Tables, h: Id)
  {
    && (forall k :: k in t.utxos && t.utxos[k].address in AddressesOf(t, h) ==>
        t.utxos[k].descriptor in DescriptorsOf(t, h))
    && (forall k :: k in t.invoices ==> !Hits(t.invoices[k].address, AddressesOf(t, h)))
    && (forall k :: k in t.providers ==> !Hits(t.providers[k].whitelist, DescriptorsOf(t, h)))
  }

  datatype Outcome = NotFound | Deleted | Violation(table: string)

  class Database {
    var t: Tables

    constructor (tables: Tables)
      ensures t == tables
    {
      t := tables;
    }

    /** Audit log, sweep policies and executions. No RESTRICT check can fail. */
    method DeleteSweeps(h: Id)
      modifies this
      ensures t == WithoutSweeps(old(t), h)
    {
      var logs := map k | k in t.changeLogs && t.changeLogs[k] != h :: t.changeLogs[k];
      t := t.(changeLogs := logs);
      ClearExecutions(h);
      PoliciesUnused(WithoutLogs(old(t), h), h);
      DeletePolicies(h);
    }

    method DeletePolicies(h: Id)
      requires !PoliciesInUse(t, PoliciesOf(t, h))
      modifies this
      ensures t == WithoutPolicies(old(t), h)
    {
      var policies := PoliciesOf(t, h);
      var kept := map k | k in t.policies && k !in policies :: t.policies[k];
      t := t.(policies := kept);
    }

    /** Clears the mirror's RESTRICT column, then deletes the executions; the payment column is SET NULL. */
    method ClearExecutions(h: Id)
      modifies this
      ensures t == WithoutExecutions(old(t), h)
    {
      var executions := ExecutionsOf(t, h);
      var custodials := map k | k in t.custodials ::
        t.custodials[k].(execution := Nulled(t.custodials[k].execution, executions));
      t := t.(custodials := custodials);
      assert !ExecutionsInUse(t, executions);
      var payments := map k | k in t.payments ::
            t.payments[k].(execution := Nulled(t.payments[k].execution, executions));
      var remaining := map k | k in t.executions && k !in executions :: t.executions[k];
      t := t.(executions := remaining, payments := payments);
    }

    /** Outputs, addresses and descriptors, each checked against what still refers to it. */
    method DeleteChain(h: Id) returns (outcome: Outcome)
      modifies this
      ensures outcome != NotFound && (outcome == Deleted <==> ChainFree(old(t), h))
      ensures outcome == Deleted ==> t == WithoutChain(old(t), h)
    {
      var descriptors := DescriptorsOf(t, h);
      var utxos := map k | k in t.utxos && t.utxos[k].descriptor !in descriptors :: t.utxos[k];
      t := t.(utxos := utxos);
      var addresses := AddressesOf(t, h);
      assert addresses == AddressesOf(old(t), h);
      ChainStageCondition(old(t), t, h);
      if AddressesInUse(t, addresses) {
        return Violation("address");
      }
      var kept := map k | k in t.addresses && k !in addresses :: t.addresses[k];
      t := t.(addresses := kept);
      if DescriptorsInUse(t, descriptors) {
        return Violation("descriptor");
      }
      var rest := map k | k in t.descriptors && k !in descriptors :: t.descriptors[k];
      t := t.(descriptors := rest);
      return Deleted;
    }

    /** Broadcast attempts, payment requests and invoices. No RESTRICT check can fail. */
    method DeletePayments(h: Id)
      modifies this
      ensures t == WithoutPayments(old(t), h)
    {
      var requests := PaymentsOf(t, h);
      var attempts := map k | k in t.attempts && t.attempts[k] !in requests :: t.attempts[k];
      t := t.(attempts := attempts);
      assert !PaymentsInUse(t, requests);
      var payments := map k | k in t.payments && k !in requests :: t.payments[k];
      var invoices := map k | k in t.invoices && t.invoices[k].holding != h :: t.invoices[k];
      t := t.(payments := payments, invoices := invoices);
    }

    /** Links and orphaned entries, after the back-references to the candidates are cleared. */
    method DeleteLedger(h: Id) returns (outcome: Outcome)
      requires forall l :: l in t.links ==> l.0 in t.entries
      modifies this
      ensures outcome != NotFound
      ensures outcome == Deleted <==>
              forall k :: k in old(t).invoices ==> !Hits(old(t).invoices[k].entry, OrphansOf(old(t), h))
      ensures outcome == Deleted ==> t == WithoutLedger(old(t), h)
    {
      var candidates := EntriesOf(t, h);
      var custodials := map k | k in t.custodials ::
            t.custodials[k].(entry := Nulled(t.custodials[k].entry, candidates));
      var payments := map k | k in t.payments :: t.payments[k].(entry := Nulled(t.payments[k].entry, candidates));
      if candidates != {} {
        t := t.(custodials := custodials, payments := payments);
      } else {
        assert custodials == t.custodials && payments == t.payments;
      }
      var links := set l | l in t.links && l.1 != h;
      t := t.(links := links);
      var stillLinked := set l | l in t.links && l.0 in candidates :: l.0;
      var orphans := set e | e in t.entries && e in candidates && e !in stillLinked;
      OrphansAreUnlinked(old(t), t, h, candidates, stillLinked, orphans);
      if candidates != {} {
        if EntriesInUse(t, orphans) {
          return Violation("ledger_entry");
        }
        t := t.(entries := t.entries - orphans);
      }
      return Deleted;
    }

    /** The provider with its mirrored entries (CASCADE), then the holding (SET NULL, CASCADE). */
    method DeleteRow(h: Id) returns (outcome: Outcome)
      modifies this
      ensures outcome != NotFound && (outcome == Deleted <==> !HoldingInUse(WithoutProvider(old(t), h), h))
      ensures outcome == Deleted ==> t == WithoutHolding(WithoutProvider(old(t), h), h)
    {
      var doomed := ProvidersOf(t, h);
      var providers := map k | k in t.providers && k !in doomed :: t.providers[k];
      var mirrored := map k | k in t.custodials && t.custodials[k].provider !in doomed :: t.custodials[k];
      t := t.(providers := providers, custodials := mirrored);
      assert t == WithoutProvider(old(t), h);
      if HoldingInUse(t, h) {
        return Violation("holding");
      }
      var custodials := map k | k in t.custodials ::
            t.custodials[k].(counterparty := Nulled(t.custodials[k].counterparty, {h}));
      var healthItems := map k | k in t.healthItems && t.healthItems[k] != Some(h) :: t.healthItems[k];
      t := t.(custodials := custodials, healthItems := healthItems, holdings := t.holdings - {h});
      return Deleted;
    }

    /**
     Deletes a holding and everything that belongs to it. It succeeds exactly on the deletable
     holdings, and then the tables are the old ones without the holding, with every foreign key intact.
     */
    method DeleteCascade(h: Id) returns (outcome: Outcome)
      requires ForeignKeys(t)
      modifies this
      ensures outcome == NotFound <==> h !in old(t).holdings
      ensures outcome == NotFound ==> t == old(t)
      ensures outcome == Deleted <==> h in old(t).holdings && Deletable(old(t), h)
      ensures outcome == Deleted ==> t == Purged(old(t), h) && ForeignKeys(t)
    {
      if h !in t.holdings {
        return NotFound;
      }
      DeletableInStages(t, h);
      PurgedInStages(t, h);
      if Deletable(t, h) {
        PurgedKeepsForeignKeys(t, h);
      }
      DeleteSweeps(h);
      outcome := DeleteChain(h);
      if outcome != Deleted { return; }
      DeletePayments(h);
      outcome := DeleteLedger(h);
      if outcome != Deleted { return; }
      outcome := DeleteRow(h);
    }
  }

  /////////////////////////////////////////////////////////////////////////////
  // Lemmas about the stages
  /////////////////////////////////////////////////////////////////////////////

  /** Once the executions are cleared nothing refers to the policies any more. */
  lemma PoliciesUnused(t: Tables, h: Id)
    ensures !PoliciesInUse(WithoutExecutions(t, h), PoliciesOf(WithoutExecutions(t, h), h))
  {
    assert PoliciesOf(WithoutExecutions(t, h), h) == PoliciesOf(t, h);
  }

  /** The rows to go are read off the tables as they were. */
  lemma SweepsReadOnce(t: Tables, h: Id)
    ensures WithoutSweeps(t, h) ==
            WithoutExecutions(t, h).(changeLogs := WithoutLogs(t, h).changeLogs,
                                     policies := WithoutPolicies(t, h).policies)
  {
    assert PoliciesOf(WithoutLogs(t, h), h) == PoliciesOf(t, h);
    assert ExecutionsOf(WithoutLogs(t, h), h) == ExecutionsOf(t, h);
    assert PoliciesOf(WithoutExecutions(WithoutLogs(t, h), h), h) == PoliciesOf(t, h);
  }

  lemma OrphansAreUnlinked(t0: Tables, t: Tables, h: Id, candidates: set<Id>, stillLinked: set<Id>, orphans: set<Id>)
    requires forall l :: l in t0.links ==> l.0 in t0.entries
    requires candidates == EntriesOf(t0, h) && t.entries == t0.entries
    requires t.links == set l | l in t0.links && l.1 != h
    requires stillLinked == set l | l in t.links && l.0 in candidates :: l.0
    requires orphans == set e | e in t.entries && e in candidates && e !in stillLinked
    ensures orphans == OrphansOf(t0, h)
    ensures forall l :: l in t.links ==> l.0 !in orphans
  {
    forall e | e in candidates ensures e in stillLinked <==> exists l :: l in t0.links && l.0 == e && l.1 != h {
      if l :| l in t0.links && l.0 == e && l.1 != h {
        assert l in t.links;
      }
    }
  }

  /** The two checks of the chain stage, against the tables before it. */
  lemma ChainStageCondition(t0: Tables, t: Tables, h: Id)
    requires t == t0.(utxos :=
                      (map k | k in t0.utxos && t0.utxos[k].descriptor !in DescriptorsOf(t0, h) :: t0.utxos[k]))
    ensures ChainFree(t0, h) <==>
            && !AddressesInUse(t, AddressesOf(t0, h))
            && !(exists k :: k in t.providers && Hits(t.providers[k].whitelist, DescriptorsOf(t0, h)))
  {
    assert forall k :: k in t.utxos <==> k in t0.utxos && t0.utxos[k].descriptor !in DescriptorsOf(t0, h);
  }

  ghost function AfterChain(t: Tables, h: Id): Tables
  {
    WithoutChain(WithoutSweeps(t, h), h)
  }

  ghost function AfterPayments(t: Tables, h: Id): Tables
  {
    WithoutPayments(AfterChain(t, h), h)
  }

  lemma SweepsLeaveChain(t: Tables, h: Id)
    ensures ChainFree(WithoutSweeps(t, h), h) <==> ChainFree(t, h)
  {
    var t1 := WithoutSweeps(t, h);
    assert DescriptorsOf(t1, h) == DescriptorsOf(t, h);
    assert AddressesOf(t1, h) == AddressesOf(t, h);
  }

  /** At the ledger stage only invoices of other holdings are left to refer to an orphan. */
  lemma LedgerStageCondition(t: Tables, h: Id)
    requires LedgerKeys(t)
    ensures var t3 := AfterPayments(t, h);
            && (forall l :: l in t3.links ==> l.0 in t3.entries)
            && ((forall k :: k in t3.invoices ==> !Hits(t3.invoices[k].entry, OrphansOf(t3, h))) <==>
                (forall k :: k in t.invoices && t.invoices[k].holding != h ==>
                 !Hits(t.invoices[k].entry, OrphansOf(t, h))))
  {
    var t3 := AfterPayments(t, h);
    assert t3.links == t.links && t3.entries == t.entries;
    assert OrphansOf(t3, h) == OrphansOf(t, h);
    assert forall k :: k in t3.invoices <==> k in t.invoices && t.invoices[k].holding != h;
  }

  /** When the holding row goes, only a mirrored entry of a foreign provider can still refer to it. */
  lemma HoldingStageCondition(t: Tables, h: Id)
    ensures var t5 := WithoutProvider(WithoutLedger(AfterPayments(t, h), h), h);
            HoldingInUse(t5, h) <==>
            exists k ::
              k in t.custodials && t.custodials[k].holding == h && t.custodials[k].provider !in ProvidersOf(t, h)
  {
    var t4 := WithoutLedger(AfterPayments(t, h), h);
    CustodyAtTheEnd(t, t4, h);
    NothingElseRefers(t, h);
  }

  lemma CustodyAtTheEnd(t: Tables, t4: Tables, h: Id)
    requires t4.providers == t.providers && t4.custodials.Keys == t.custodials.Keys
    requires forall k :: k in t.custodials ==>
               && t4.custodials[k].holding == t.custodials[k].holding
               && t4.custodials[k].provider == t.custodials[k].provider
    ensures var t5 := WithoutProvider(t4, h);
            (exists k :: k in t5.custodials && t5.custodials[k].holding == h) <==>
            exists k ::
              k in t.custodials && t.custodials[k].holding == h && t.custodials[k].provider !in ProvidersOf(t, h)
  {
    var t5 := WithoutProvider(t4, h);
    assert ProvidersOf(t4, h) == ProvidersOf(t, h);
    if k :| k in t.custodials && t.custodials[k].holding == h && t.custodials[k].provider !in ProvidersOf(t, h) {
      assert k in t5.custodials && t5.custodials[k].holding == h;
    }
  }

  lemma NothingElseRefers(t: Tables, h: Id)
    ensures var t5 := WithoutProvider(WithoutLedger(AfterPayments(t, h), h), h);
            HoldingInUse(t5, h) <==> exists k :: k in t5.custodials && t5.custodials[k].holding == h
  {
    var t5, p := WithoutProvider(WithoutLedger(AfterPayments(t, h), h), h), Purged(t, h);
    PurgedInStages(t, h);
    assert t5.changeLogs == p.changeLogs && t5.policies == p.policies && t5.descriptors == p.descriptors;
    assert t5.payments == p.payments && t5.invoices == p.invoices && t5.links == p.links && t5.providers == p.providers;
    PurgedForgetsHolding(t, h);
    OnlyCustodialsDiffer(t5, p, h);
  }

  lemma OnlyCustodialsDiffer(t: Tables, p: Tables, h: Id)
    requires t.changeLogs == p.changeLogs && t.policies == p.policies && t.descriptors == p.descriptors
    requires t.payments == p.payments && t.invoices == p.invoices && t.links == p.links && t.providers == p.providers
    requires !HoldingInUse(p.(custodials := map[]), h)
    ensures HoldingInUse(t, h) <==> exists k :: k in t.custodials && t.custodials[k].holding == h
  {
  }

  lemma PurgedForgetsHolding(t: Tables, h: Id)
    ensures !HoldingInUse(Purged(t, h).(custodials := map[]), h)
  {
  }

  lemma ChainRowsSeen(t: Tables, h: Id)
    ensures DescriptorsOf(WithoutSweeps(t, h), h) == DescriptorsOf(t, h)
    ensures AddressesOf(WithoutSweeps(t, h), h) == AddressesOf(t, h)
  {
    assert WithoutSweeps(t, h).descriptors == t.descriptors;
    assert DescriptorsOf(WithoutSweeps(t, h), h) == DescriptorsOf(t, h);
    assert WithoutSweeps(t, h).addresses == t.addresses;
  }

  lemma PaymentRowsSeen(t: Tables, h: Id)
    ensures PaymentsOf(AfterChain(t, h), h) == PaymentsOf(t, h)
  {
    var rows := AfterChain(t, h).payments;
    assert rows.Keys == t.payments.Keys && forall k :: k in rows ==> rows[k].holding == t.payments[k].holding;
  }

  lemma LedgerRowsSeen(t: Tables, h: Id)
    ensures EntriesOf(AfterPayments(t, h), h) == EntriesOf(t, h)
    ensures OrphansOf(AfterPayments(t, h), h) == OrphansOf(t, h)
  {
    assert AfterPayments(t, h).links == t.links;
  }

  /** Each stage finds the rows that belonged to the holding at the start. */
  lemma StagesSeeTheSameRows(t: Tables, h: Id)
    ensures DescriptorsOf(WithoutSweeps(t, h), h) == DescriptorsOf(t, h)
    ensures AddressesOf(WithoutSweeps(t, h), h) == AddressesOf(t, h)
    ensures PaymentsOf(AfterChain(t, h), h) == PaymentsOf(t, h)
    ensures EntriesOf(AfterPayments(t, h), h) == EntriesOf(t, h)
    ensures OrphansOf(AfterPayments(t, h), h) == OrphansOf(t, h)
    ensures ProvidersOf(WithoutLedger(AfterPayments(t, h), h), h) == ProvidersOf(t, h)
  {
    ChainRowsSeen(t, h);
    PaymentRowsSeen(t, h);
    LedgerRowsSeen(t, h);
    assert WithoutLedger(AfterPayments(t, h), h).providers == t.providers;
  }

  lemma PurgedPayments(t: Tables, h: Id)
    ensures WithoutLedger(AfterPayments(t, h), h).payments == Purged(t, h).payments
    ensures AfterPayments(t, h).attempts == Purged(t, h).attempts
  {
    SweepsReadOnce(t, h);
    StagesSeeTheSameRows(t, h);
    var p1 := WithoutSweeps(t, h).payments;
    assert forall k :: k in t.payments ==>
             p1[k] == t.payments[k].(execution := Nulled(t.payments[k].execution, ExecutionsOf(t, h)));
  }

  lemma CustodialsAfterLedger(t: Tables, h: Id)
    ensures WithoutLedger(AfterPayments(t, h), h).custodials ==
            map k | k in t.custodials ::
              t.custodials[k].(execution := Nulled(t.custodials[k].execution, ExecutionsOf(t, h)),
                               entry := Nulled(t.custodials[k].entry, EntriesOf(t, h)))
  {
    SweepsReadOnce(t, h);
    StagesSeeTheSameRows(t, h);
    assert AfterPayments(t, h).custodials == WithoutSweeps(t, h).custodials;
  }

  lemma PurgedCustodials(t: Tables, h: Id)
    ensures WithoutHolding(WithoutProvider(WithoutLedger(AfterPayments(t, h), h), h), h).custodials ==
            Purged(t, h).custodials
  {
    CustodialsAfterLedger(t, h);
    var t4 := WithoutLedger(AfterPayments(t, h), h);
    assert ProvidersOf(t4, h) == ProvidersOf(t, h) by { StagesSeeTheSameRows(t, h); }
    CustodialsAtTheEnd(t, t4, h);
  }

  lemma CustodialsAtTheEnd(t: Tables, t4: Tables, h: Id)
    requires ProvidersOf(t4, h) == ProvidersOf(t, h)
    requires t4.custodials ==
             map k | k in t.custodials ::
               t.custodials[k].(execution := Nulled(t.custodials[k].execution, ExecutionsOf(t, h)),
                                entry := Nulled(t.custodials[k].entry, EntriesOf(t, h)))
    ensures WithoutHolding(WithoutProvider(t4, h), h).custodials == Purged(t, h).custodials
  {
  }

  /** The stages one after the other remove what the reference definition says. */
  lemma PurgedInStages(t: Tables, h: Id)
    ensures WithoutHolding(WithoutProvider(WithoutLedger(AfterPayments(t, h), h), h), h) == Purged(t, h)
  {
    SweepsReadOnce(t, h);
    PurgedPayments(t, h);
    PurgedCustodials(t, h);
    StagesSeeTheSameRows(t, h);
    var t6, p := WithoutHolding(WithoutProvider(WithoutLedger(AfterPayments(t, h), h), h), h), Purged(t, h);
    assert t6.utxos == p.utxos && t6.addresses == p.addresses && t6.descriptors == p.descriptors;
    assert t6.invoices == p.invoices && t6.providers == p.providers;
  }

  lemma PurgedPaymentKeys(t: Tables, h: Id)
    requires PaymentKeys(t) && Deletable(t, h)
    ensures PaymentKeys(Purged(t, h))
  {
    var p := Purged(t, h);
    forall k | k in p.payments
      ensures Points(p.payments[k].entry, p.entries) && Points(p.payments[k].execution, p.executions.Keys)
    {
      assert Points(t.payments[k].entry, t.entries) && Points(t.payments[k].execution, t.executions.Keys);
    }
    forall k | k in p.invoices
      ensures Points(p.invoices[k].entry, p.entries) && Points(p.invoices[k].address, p.addresses.Keys)
    {
      assert Points(t.invoices[k].entry, t.entries) && Points(t.invoices[k].address, t.addresses.Keys);
    }
  }

  lemma PurgedCustodyKeys(t: Tables, h: Id)
    requires CustodyKeys(t) && Deletable(t, h)
    ensures CustodyKeys(Purged(t, h))
  {
    var p := Purged(t, h);
    forall k | k in p.custodials
      ensures && p.custodials[k].holding in p.holdings
              && p.custodials[k].provider in p.providers
              && Points(p.custodials[k].execution, p.executions.Keys)
              && Points(p.custodials[k].counterparty, p.holdings)
              && Points(p.custodials[k].entry, p.entries)
    {
      assert && Points(t.custodials[k].execution, t.executions.Keys)
             && Points(t.custodials[k].counterparty, t.holdings)
             && Points(t.custodials[k].entry, t.entries);
    }
    forall k | k in p.providers
      ensures p.providers[k].holding in p.holdings && Points(p.providers[k].whitelist, p.descriptors.Keys)
    {
      assert Points(t.providers[k].whitelist, t.descriptors.Keys);
    }
  }

  lemma PurgedChainKeys(t: Tables, h: Id)
    requires SweepKeys(t) && ChainKeys(t) && ChainFree(t, h)
    ensures SweepKeys(Purged(t, h)) && ChainKeys(Purged(t, h))
  {
    PurgedSweepKeys(t, h);
    var p := Purged(t, h);
    forall k | k in p.addresses ensures p.addresses[k] in p.descriptors {
      assert t.addresses[k] !in DescriptorsOf(t, h);
    }
    forall k | k in p.utxos ensures p.utxos[k].descriptor in p.descriptors && p.utxos[k].address in p.addresses {
      assert t.utxos[k].address !in AddressesOf(t, h);
    }
  }

  lemma PurgedSweepKeys(t: Tables, h: Id)
    requires SweepKeys(t)
    ensures SweepKeys(Purged(t, h))
  {
  }

  lemma PurgedLedgerKeys(t: Tables, h: Id)
    requires LedgerKeys(t)
    ensures LedgerKeys(Purged(t, h))
  {
    var p := Purged(t, h);
    forall l | l in p.links ensures l.0 in p.entries && l.1 in p.holdings {
      assert l in t.links && l.0 !in OrphansOf(t, h);
    }
  }

  /** Removing a deletable holding leaves every foreign key intact. */
  lemma PurgedKeepsForeignKeys(t: Tables, h: Id)
    requires ForeignKeys(t) && Deletable(t, h)
    ensures ForeignKeys(Purged(t, h))
  {
    PurgedChainKeys(t, h);
    PurgedLedgerKeys(t, h);
    PurgedPaymentKeys(t, h);
    PurgedCustodyKeys(t, h);
  }

  /** The conditions met on the way, taken together, are the one on the tables before the call. */
  lemma DeletableInStages(t: Tables, h: Id)
    requires LedgerKeys(t)
    ensures var t3 := AfterPayments(t, h);
            && (forall l :: l in t3.links ==> l.0 in t3.entries)
            && (Deletable(t, h) <==>
                && ChainFree(WithoutSweeps(t, h), h)
                && (forall k :: k in t3.invoices ==> !Hits(t3.invoices[k].entry, OrphansOf(t3, h)))
                && !HoldingInUse(WithoutProvider(WithoutLedger(t3, h), h), h))
  {
    SweepsLeaveChain(t, h);
    LedgerStageCondition(t, h);
    HoldingStageCondition(t, h);
  }

  /** No holding with an invoice on any of its addresses can be deleted, its own invoices included. */
  lemma InvoiceBlocks(t: Tables, h: Id, k: Id)
    requires k in t.invoices && Hits(t.invoices[k].address, AddressesOf(t, h))
    ensures !Deletable(t, h)
  {
  }

  /** A payment request of another holding loses a reference iff it names an entry or execution of the deleted one. */
  lemma PaymentReferencesKeptExactly(t: Tables, h: Id, k: Id)
    requires k in t.payments && t.payments[k].holding != h
    ensures k in Purged(t, h).payments
    ensures Purged(t, h).payments[k] == t.payments[k] <==>
            !Hits(t.payments[k].entry, EntriesOf(t, h)) && !Hits(t.payments[k].execution, ExecutionsOf(t, h))
  {
  }

  /** The same for a mirrored entry of another holding, which may also name the deleted one as counterparty. */
  lemma MirrorReferencesKeptExactly(t: Tables, h: Id, k: Id)
    requires k in t.custodials && t.custodials[k].provider !in ProvidersOf(t, h)
    ensures k in Purged(t, h).custodials
    ensures Purged(t, h).custodials[k] == t.custodials[k] <==>
            && !Hits(t.custodials[k].entry, EntriesOf(t, h)) && !Hits(t.custodials[k].execution, ExecutionsOf(t, h))
            && t.custodials[k].counterparty != Some(h)
  {
  }

  /** A holding with one descriptor, one address and one invoice on that address cannot be deleted. */
  lemma OwnInvoiceBlocks() returns (t: Tables)
    ensures ForeignKeys(t) && t.holdings == {0} && 0 in t.invoices && t.invoices[0].holding == 0
    ensures !Deletable(t, 0) && Deletable(t.(invoices := map[]), 0)
  {
    t := Tables({0}, map[], map[], map[], map[0 := 0], map[0 := 0], map[], map[], map[],
                map[0 := Invoice(0, Some(0), None)], {}, {}, map[], map[], map[]);
    assert Hits(t.invoices[0].address, AddressesOf(t, 0));
  }

  /////////////////////////////////////////////////////////////////////////////
  // Exactness
  /////////////////////////////////////////////////////////////////////////////

  /** An entry goes exactly when it was linked to the holding and to no other; all other links stay. */
  lemma EntriesRemovedExactly(t: Tables, h: Id, e: Id)
    requires e in t.entries
    ensures e !in Purged(t, h).entries <==> (e, h) in t.links && forall g :: (e, g) in t.links ==> g == h
    ensures forall g :: g != h ==> ((e, g) in Purged(t, h).links <==> (e, g) in t.links)
  {
    if e in OrphansOf(t, h) {
      forall g | (e, g) in t.links ensures g == h { assert (e, g).0 == e; }
      var l :| l in t.links && l.1 == h && l.0 == e;
      assert l == (e, h);
    }
    if (e, h) in t.links && forall g :: (e, g) in t.links ==> g == h {
      assert (e, h).0 == e && (e, h).1 == h;
      forall l | l in t.links && l.0 == e ensures l.1 == h { assert l == (e, l.1); }
    }
  }

  ghost predicate ConsistentOwners(t: Tables)
  {
    forall k :: k in t.custodials && t.custodials[k].provider in t.providers ==>
                  t.custodials[k].holding == t.providers[t.custodials[k].provider].holding
  }

  /** Another holding keeps its descriptors, addresses and outputs. */
  lemma OthersKeepTheirChain(t: Tables, h: Id, g: Id)
    requires ChainKeys(t) && g != h
    ensures var p := Purged(t, h);
            && DescriptorsOf(p, g) == DescriptorsOf(t, g)
            && AddressesOf(p, g) == AddressesOf(t, g)
            && (forall k :: k in t.utxos && t.utxos[k].descriptor in DescriptorsOf(t, g) ==>
                  k in p.utxos && p.utxos[k] == t.utxos[k])
  {
    var p := Purged(t, h);
    assert DescriptorsOf(p, g) == DescriptorsOf(t, g);
    assert DescriptorsOf(t, g) !! DescriptorsOf(t, h);
    forall k ensures k in AddressesOf(p, g) <==> k in AddressesOf(t, g) {
      assert k in AddressesOf(t, g) ==> k !in AddressesOf(t, h);
    }
  }

  /** Another holding keeps its payment requests, attempts, invoices, entries, mirror, change log and health items. */
  lemma OthersKeepTheirBooks(t: Tables, h: Id, g: Id)
    requires CustodyKeys(t) && ConsistentOwners(t) && g != h
    ensures var p := Purged(t, h);
            && PaymentsOf(p, g) == PaymentsOf(t, g)
            && (forall k :: k in t.attempts && t.attempts[k] in PaymentsOf(t, g) ==> k in p.attempts)
            && (forall k :: k in t.invoices && t.invoices[k].holding == g ==>
                  k in p.invoices && p.invoices[k] == t.invoices[k])
            && EntriesOf(p, g) == EntriesOf(t, g)
            && ProvidersOf(p, g) == ProvidersOf(t, g)
            && (forall k :: k in t.custodials && t.custodials[k].holding == g ==> k in p.custodials)
            && (forall k :: k in t.changeLogs && t.changeLogs[k] == g ==> k in p.changeLogs)
            && (forall k :: k in t.healthItems && t.healthItems[k] == Some(g) ==> k in p.healthItems)
  {
    var p := Purged(t, h);
    assert PaymentsOf(p, g) == PaymentsOf(t, g);
    forall e | e in EntriesOf(t, g) ensures e in EntriesOf(p, g) {
      var l :| l in t.links && l.1 == g && l.0 == e;
      assert l in p.links;
    }
    forall k | k in t.custodials && t.custodials[k].holding == g ensures k in p.custodials {
      assert t.custodials[k].provider !in ProvidersOf(t, h);
    }
  }

  /** A sweep policy or execution of another holding goes exactly when it also names the deleted one. */
  lemma OthersLoseOnlySharedSweeps(t: Tables, h: Id, g: Id)
    requires SweepKeys(t) && g != h
    ensures PoliciesOf(Purged(t, h), g) == PoliciesOf(t, g) - PoliciesOf(t, h)
    ensures ExecutionsOf(Purged(t, h), g) == ExecutionsOf(t, g) - ExecutionsOf(t, h)
  {
    var p := Purged(t, h);
    assert PoliciesOf(p, g) == PoliciesOf(t, g) - PoliciesOf(t, h);
    forall k ensures k in ExecutionsOf(p, g) <==> k in ExecutionsOf(t, g) - ExecutionsOf(t, h) {
    }
  }
}
