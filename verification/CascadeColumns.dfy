/** Which rows survive the deletion of a holding, and with what in their columns, read off the columns. */
module CascadeColumns {
  import opened Common
  import opened Cascade

  /** Every nullable foreign key, spelled out. */
  lemma NullableKeysSpelled(t: Tables)
    requires ForeignKeys(t)
    ensures forall k, e :: k in t.payments && t.payments[k].entry == Some(e) ==> e in t.entries
    ensures forall k, x :: k in t.payments && t.payments[k].execution == Some(x) ==> x in t.executions
    ensures forall k, a :: k in t.invoices && t.invoices[k].address == Some(a) ==> a in t.addresses
    ensures forall k, e :: k in t.invoices && t.invoices[k].entry == Some(e) ==> e in t.entries
    ensures forall k, d :: k in t.providers && t.providers[k].whitelist == Some(d) ==> d in t.descriptors
    ensures forall k, x :: k in t.custodials && t.custodials[k].execution == Some(x) ==> x in t.executions
    ensures forall k, g :: k in t.custodials && t.custodials[k].counterparty == Some(g) ==> g in t.holdings
    ensures forall k, e :: k in t.custodials && t.custodials[k].entry == Some(e) ==> e in t.entries
    ensures forall k, g :: k in t.healthItems && t.healthItems[k] == Some(g) ==> g in t.holdings
  {
    forall k | k in t.payments
      ensures Points(t.payments[k].entry, t.entries) && Points(t.payments[k].execution, t.executions.Keys) {}
    forall k | k in t.invoices
      ensures Points(t.invoices[k].address, t.addresses.Keys) && Points(t.invoices[k].entry, t.entries) {}
    forall k | k in t.providers ensures Points(t.providers[k].whitelist, t.descriptors.Keys) {}
    forall k | k in t.custodials
      ensures Points(t.custodials[k].execution, t.executions.Keys) && Points(t.custodials[k].counterparty, t.holdings)
              && Points(t.custodials[k].entry, t.entries) {}
    forall k | k in t.healthItems ensures Points(t.healthItems[k], t.holdings) {}
  }

  /** A policy goes iff it names the holding as source or destination, an execution iff its policy does. */
  lemma SweepRowsKept(t: Tables, h: Id, k: Id)
    requires SweepKeys(t)
    ensures var p := Purged(t, h);
            && (k in p.policies <==> k in t.policies && t.policies[k].source != h && t.policies[k].destination != h)
            && (k in p.policies ==> p.policies[k] == t.policies[k])
            && (k in p.executions <==>
                && k in t.executions
                && t.policies[t.executions[k]].source != h && t.policies[t.executions[k]].destination != h)
            && (k in p.executions ==> p.executions[k] == t.executions[k])
            && (k in p.changeLogs <==> k in t.changeLogs && t.changeLogs[k] != h)
            && (k in p.changeLogs ==> p.changeLogs[k] == t.changeLogs[k])
  {
  }

  /** Descriptors go by their owner, addresses and outputs by the owner of their descriptor. */
  lemma ChainRowsKept(t: Tables, h: Id, k: Id)
    requires ChainKeys(t)
    ensures var p := Purged(t, h);
            && (k in p.descriptors <==> k in t.descriptors && t.descriptors[k] != h)
            && (k in p.descriptors ==> p.descriptors[k] == t.descriptors[k])
            && (k in p.addresses <==> k in t.addresses && t.descriptors[t.addresses[k]] != h)
            && (k in p.addresses ==> p.addresses[k] == t.addresses[k])
            && (k in p.utxos <==> k in t.utxos && t.descriptors[t.utxos[k].descriptor] != h)
            && (k in p.utxos ==> p.utxos[k] == t.utxos[k])
  {
  }

  /** The entry is linked to the holding. */
  predicate LinkedTo(t: Tables, entry: Option<Id>, h: Id)
  {
    entry.Some? && (entry.value, h) in t.links
  }

  /** The execution belongs to a policy that names the holding. */
  predicate SweptWith(t: Tables, execution: Option<Id>, h: Id)
  {
    && execution.Some? && execution.value in t.executions && t.executions[execution.value] in t.policies
    && var policy := t.policies[t.executions[execution.value]];
    policy.source == h || policy.destination == h
  }

  lemma EntriesByLink(t: Tables, h: Id, entry: Option<Id>)
    ensures Hits(entry, EntriesOf(t, h)) <==> LinkedTo(t, entry, h)
  {
    if Hits(entry, EntriesOf(t, h)) {
      var l :| l in t.links && l.1 == h && l.0 == entry.value;
      assert l == (entry.value, h);
    }
    if LinkedTo(t, entry, h) {
      assert (entry.value, h).0 == entry.value;
    }
  }

  lemma ExecutionsByPolicy(t: Tables, h: Id, execution: Option<Id>)
    requires SweepKeys(t)
    ensures Hits(execution, ExecutionsOf(t, h)) <==> SweptWith(t, execution, h)
  {
  }

  /** Payment requests go by their owner; the survivors lose exactly the references into what is deleted or shared. */
  lemma PaymentRowsKept(t: Tables, h: Id, k: Id)
    requires SweepKeys(t) && PaymentKeys(t)
    ensures var p := Purged(t, h);
            && (k in p.payments <==> k in t.payments && t.payments[k].holding != h)
            && (k in p.payments ==>
                  && p.payments[k].holding == t.payments[k].holding
                  && p.payments[k].entry == (if LinkedTo(t, t.payments[k].entry, h) then None else t.payments[k].entry)
                  && p.payments[k].execution ==
                     (if SweptWith(t, t.payments[k].execution, h) then None else t.payments[k].execution))
            && (k in p.attempts <==> k in t.attempts && t.payments[t.attempts[k]].holding != h)
            && (k in p.attempts ==> p.attempts[k] == t.attempts[k])
            && (k in p.invoices <==> k in t.invoices && t.invoices[k].holding != h)
            && (k in p.invoices ==> p.invoices[k] == t.invoices[k])
  {
    if k in t.payments {
      EntriesByLink(t, h, t.payments[k].entry);
      ExecutionsByPolicy(t, h, t.payments[k].execution);
    }
  }

  /** Providers go by their owner, mirrored entries by the owner of their provider. */
  lemma CustodyRowsKept(t: Tables, h: Id, k: Id)
    requires SweepKeys(t) && CustodyKeys(t)
    ensures var p := Purged(t, h);
            && (k in p.providers <==> k in t.providers && t.providers[k].holding != h)
            && (k in p.providers ==> p.providers[k] == t.providers[k])
            && (k in p.custodials <==> k in t.custodials && t.providers[t.custodials[k].provider].holding != h)
            && (k in p.custodials ==> CustodialKept(t, h, t.custodials[k], p.custodials[k]))
            && (k in p.healthItems <==> k in t.healthItems && t.healthItems[k] != Some(h))
            && (k in p.healthItems ==> p.healthItems[k] == t.healthItems[k])
            && (k in p.holdings <==> k in t.holdings && k != h)
  {
    if k in t.custodials {
      EntriesByLink(t, h, t.custodials[k].entry);
      ExecutionsByPolicy(t, h, t.custodials[k].execution);
    }
  }

  predicate CustodialKept(t: Tables, h: Id, before: Custodial, after: Custodial)
  {
    && after.holding == before.holding && after.provider == before.provider
    && after.execution == (if SweptWith(t, before.execution, h) then None else before.execution)
    && after.counterparty == (if before.counterparty == Some(h) then None else before.counterparty)
    && after.entry == (if LinkedTo(t, before.entry, h) then None else before.entry)
  }

  /** The entry is linked to the holding and to nothing else. */
  ghost predicate LinkedOnlyTo(t: Tables, entry: Option<Id>, h: Id)
  {
    LinkedTo(t, entry, h) && forall g :: (entry.value, g) in t.links ==> g == h
  }

  lemma OrphansByLink(t: Tables, h: Id, entry: Option<Id>)
    ensures Hits(entry, OrphansOf(t, h)) <==> LinkedOnlyTo(t, entry, h)
  {
    EntriesByLink(t, h, entry);
    if Hits(entry, OrphansOf(t, h)) {
      forall g | (entry.value, g) in t.links ensures g == h { assert (entry.value, g).0 == entry.value; }
    }
    if LinkedOnlyTo(t, entry, h) {
      forall l | l in t.links && l.0 == entry.value ensures l.1 == h { assert l == (entry.value, l.1); }
    }
  }

  lemma ChainFreeSpelled(t: Tables, h: Id)
    requires ChainKeys(t) && PaymentKeys(t) && CustodyKeys(t)
    ensures ChainFree(t, h) <==>
            && (forall k :: k in t.utxos && t.descriptors[t.addresses[t.utxos[k].address]] == h ==>
                  t.descriptors[t.utxos[k].descriptor] == h)
            && (forall k :: k in t.invoices && t.invoices[k].address.Some? ==>
                  t.descriptors[t.addresses[t.invoices[k].address.value]] != h)
            && (forall k :: k in t.providers && t.providers[k].whitelist.Some? ==>
                  t.descriptors[t.providers[k].whitelist.value] != h)
  {
    forall k | k in t.invoices ensures Points(t.invoices[k].address, t.addresses.Keys) {}
    forall k | k in t.providers ensures Points(t.providers[k].whitelist, t.descriptors.Keys) {}
  }

  /**
   The condition for deletion on the columns: no output at an address of the holding under another
   holding's descriptor, no invoice on its addresses, no whitelist on its descriptors, no other
   holding's invoice on an entry that goes, no mirrored entry of the holding under another provider.
   */
  lemma DeletableSpelled(t: Tables, h: Id)
    requires ForeignKeys(t)
    ensures Deletable(t, h) <==>
            && ChainFree(t, h)
            && (forall k :: k in t.invoices && t.invoices[k].holding != h ==> !LinkedOnlyTo(t, t.invoices[k].entry, h))
            && (forall k :: k in t.custodials && t.custodials[k].holding == h ==>
                  t.providers[t.custodials[k].provider].holding == h)
  {
    forall k | k in t.invoices
      ensures Hits(t.invoices[k].entry, OrphansOf(t, h)) <==> LinkedOnlyTo(t, t.invoices[k].entry, h)
    {
      OrphansByLink(t, h, t.invoices[k].entry);
    }
  }
}
