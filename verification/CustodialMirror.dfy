/** The mirror of a custodial provider's ledger: rows keyed by provider and entry id, upserted on every poll. */
module CustodialMirror {
  import opened Common

  datatype RowKey = RowKey(provider: nat, entryId: string)

  /** The fields a poll may change. */
  datatype Mutable = Mutable(kind: string, amount: int, fee: Option<int>, status: string, payload: string)

  datatype Report = Report(entryId: string, asset: string, timestamp: int, fields: Mutable)

  datatype Links = Links(sweep: Option<nat>, counterparty: Option<nat>, chainEntry: Option<nat>,
                         reconciledAt: Option<int>)

  const UNLINKED := Links(None, None, None, None)

  datatype Row = Row(holding: nat, asset: string, timestamp: int, fields: Mutable, links: Links)

  type Table = map<RowKey, Row>

  /** One report arrives, or one row is reconciled with the chain side. */
  datatype Event =
    | Reported(provider: nat, holding: nat, report: Report)
    | Reconciled(key: RowKey, sweep: Option<nat>, counterparty: Option<nat>, chainEntry: Option<nat>, now: int)
    | Unmatched(key: RowKey, now: int)

  function KeyOf(provider: nat, r: Report): RowKey
  {
    RowKey(provider, r.entryId)
  }

  function Upsert(t: Table, provider: nat, holding: nat, r: Report): Table
  {
    var key := KeyOf(provider, r);
    if key !in t then t[key := Row(holding, r.asset, r.timestamp, r.fields, UNLINKED)]
    else t[key := t[key].(fields := r.fields)]
  }

  function Apply(t: Table, e: Event): Table
  {
    match e
    case Reported(provider, holding, r) => Upsert(t, provider, holding, r)
    case Reconciled(key, sweep, counterparty, chainEntry, now) =>
      if key in t then t[key := t[key].(links := Links(sweep, counterparty, chainEntry, Some(now)))] else t
    case Unmatched(key, now) =>
      if key in t then t[key := t[key].(links := t[key].links.(reconciledAt := Some(now)))] else t
  }

  function After(events: seq<Event>): Table
  {
    if events == [] then map[] else Apply(After(events[..|events| - 1]), events[|events| - 1])
  }

  /////////////////////////////////////////////////////////////////////////////
  // Last report wins
  /////////////////////////////////////////////////////////////////////////////

  predicate Reports(e: Event, key: RowKey)
  {
    e.Reported? && KeyOf(e.provider, e.report) == key
  }

  /** The first and the latest report of a key, as positions in the history. */
  ghost predicate FirstReport(events: seq<Event>, key: RowKey, i: nat)
  {
    i < |events| && Reports(events[i], key) && forall j :: 0 <= j < i ==> !Reports(events[j], key)
  }

  ghost predicate LatestReport(events: seq<Event>, key: RowKey, i: nat)
  {
    i < |events| && Reports(events[i], key) && forall j :: i < j < |events| ==> !Reports(events[j], key)
  }

  /** One row per reported key; it never disappears. */
  lemma {:induction false} RowsAreReported(events: seq<Event>, key: RowKey)
    ensures key in After(events) <==> exists i :: 0 <= i < |events| && Reports(events[i], key)
  {
    if events != [] {
      var init := events[..|events| - 1];
      RowsAreReported(init, key);
      if i :| 0 <= i < |init| && Reports(init[i], key) {
        assert Reports(events[i], key);
      }
      if i :| 0 <= i < |events| && Reports(events[i], key) && i < |init| {
        assert Reports(init[i], key);
      }
    }
  }

  /** Over every history, a row holds the fields of the latest report. */
  lemma {:induction false} LatestReportWins(events: seq<Event>, key: RowKey, i: nat)
    requires LatestReport(events, key, i)
    ensures key in After(events) && After(events)[key].fields == events[i].report.fields
  {
    var init := events[..|events| - 1];
    if i < |init| {
      assert init[i] == events[i];
      assert LatestReport(init, key, i);
      LatestReportWins(init, key, i);
    }
  }

  /** The owner, asset and timestamp are those of the first report, whatever came later. */
  lemma {:induction false} FirstReportStays(events: seq<Event>, key: RowKey, i: nat)
    requires FirstReport(events, key, i)
    ensures key in After(events)
    ensures After(events)[key].holding == events[i].holding
    ensures After(events)[key].asset == events[i].report.asset
            && After(events)[key].timestamp == events[i].report.timestamp
  {
    var init := events[..|events| - 1];
    if i < |init| {
      assert init[i] == events[i];
      assert FirstReport(init, key, i);
      FirstReportStays(init, key, i);
    } else {
      RowsAreReported(init, key);
    }
  }

  predicate Reconciles(e: Event, key: RowKey)
  {
    (e.Reconciled? || e.Unmatched?) && e.key == key
  }

  /** A row that was never reconciled has no links. */
  lemma {:induction false} UnreconciledIsUnlinked(events: seq<Event>, key: RowKey)
    requires key in After(events) && forall i :: 0 <= i < |events| ==> !Reconciles(events[i], key)
    ensures After(events)[key].links == Links(None, None, None, None)
  {
    var init := events[..|events| - 1];
    forall i | 0 <= i < |init| ensures !Reconciles(init[i], key) { assert init[i] == events[i]; }
    if key in After(init) {
      UnreconciledIsUnlinked(init, key);
    }
  }

  /** The latest reconciliation decides the links, whatever was polled since. */
  lemma {:induction false} LatestReconciliationWins(events: seq<Event>, key: RowKey, i: nat)
    requires i < |events| && Reconciles(events[i], key) && key in After(events[..i])
    requires forall j :: i < j < |events| ==> !Reconciles(events[j], key)
    ensures key in After(events)
    ensures var e, links := events[i], After(events)[key].links;
            if e.Reconciled? then
              links == Links(e.sweep, e.counterparty, e.chainEntry, Some(e.now))
            else
              links == After(events[..i])[key].links.(reconciledAt := Some(e.now))
  {
    var init := events[..|events| - 1];
    if i < |init| {
      assert init[i] == events[i] && init[..i] == events[..i];
      forall j | i < j < |init| ensures !Reconciles(init[j], key) { assert init[j] == events[j]; }
      LatestReconciliationWins(init, key, i);
    } else {
      assert init == events[..i];
    }
  }

  /** No poll touches a reconciliation link. */
  lemma {:induction false} PollsKeepLinks(t: Table, provider: nat, holding: nat, batch: seq<Report>, key: RowKey)
    requires key in t
    ensures key in Polled(t, provider, holding, batch) && Polled(t, provider, holding, batch)[key].links == t[key].links
  {
    if batch != [] {
      PollsKeepLinks(t, provider, holding, batch[..|batch| - 1], key);
    }
  }

  /////////////////////////////////////////////////////////////////////////////
  // One poll
  /////////////////////////////////////////////////////////////////////////////

  function Polled(t: Table, provider: nat, holding: nat, batch: seq<Report>): Table
  {
    if batch == [] then t
    else Upsert(Polled(t, provider, holding, batch[..|batch| - 1]), provider, holding, batch[|batch| - 1])
  }

  function Arrivals(provider: nat, holding: nat, batch: seq<Report>): seq<Event>
  {
    seq(|batch|, i requires 0 <= i < |batch| => Reported(provider, holding, batch[i]))
  }

  /** A poll is the arrival of its reports one after the other, so the laws over histories apply to it. */
  lemma {:induction false} PollExtendsHistory(events: seq<Event>, provider: nat, holding: nat, batch: seq<Report>)
    ensures After(events + Arrivals(provider, holding, batch)) == Polled(After(events), provider, holding, batch)
  {
    var all := events + Arrivals(provider, holding, batch);
    if batch == [] {
      assert all == events;
    } else {
      assert all[..|all| - 1] == events + Arrivals(provider, holding, batch[..|batch| - 1]);
      PollExtendsHistory(events, provider, holding, batch[..|batch| - 1]);
    }
  }

  ghost predicate DistinctIds(batch: seq<Report>)
  {
    forall i, j :: 0 <= i < j < |batch| ==> batch[i].entryId != batch[j].entryId
  }

  /** What a batch with distinct ids leaves in the table, key by key. */
  lemma {:induction false} PolledRows(t: Table, provider: nat, holding: nat, batch: seq<Report>, key: RowKey)
    requires DistinctIds(batch)
    ensures var t' := Polled(t, provider, holding, batch);
            && (key in t' <==> key in t || exists i :: 0 <= i < |batch| && KeyOf(provider, batch[i]) == key)
            && (forall i :: 0 <= i < |batch| && KeyOf(provider, batch[i]) == key ==> t'[key].fields == batch[i].fields)
            && ((forall i :: 0 <= i < |batch| ==> KeyOf(provider, batch[i]) != key) && key in t ==> t'[key] == t[key])
  {
    if batch != [] {
      var init := batch[..|batch| - 1];
      PolledRows(t, provider, holding, init, key);
      assert forall i :: 0 <= i < |init| ==> init[i] == batch[i];
      if i :| 0 <= i < |init| && KeyOf(provider, init[i]) == key {
        assert KeyOf(provider, batch[i]) == key;
      }
      assert KeyOf(provider, batch[|init|]) == KeyOf(provider, batch[|batch| - 1]);
    }
  }

  datatype Kind = Added | Updated | Unchanged

  /** How a report compares with the table before the poll. */
  function KindOf(t: Table, provider: nat, r: Report): Kind
  {
    var key := KeyOf(provider, r);
    if key !in t then Added else if t[key].fields != r.fields then Updated else Unchanged
  }

  function Count(t: Table, provider: nat, batch: seq<Report>, kind: Kind): nat
  {
    if batch == [] then 0
    else
      Count(t, provider, batch[..|batch| - 1], kind) +
      if KindOf(t, provider, batch[|batch| - 1]) == kind then 1 else 0
  }

  /** Within a batch of distinct ids, earlier reports do not change how a later one compares. */
  lemma KindStable(t: Table, provider: nat, holding: nat, batch: seq<Report>, k: nat)
    requires DistinctIds(batch) && k < |batch|
    ensures KindOf(Polled(t, provider, holding, batch[..k]), provider, batch[k]) == KindOf(t, provider, batch[k])
  {
    PolledRows(t, provider, holding, batch[..k], KeyOf(provider, batch[k]));
  }

  /** Repeating the latest batch changes nothing and finds every report unchanged. */
  lemma {:induction false} RepeatedBatchIsIdle(t: Table, provider: nat, holding: nat, batch: seq<Report>, k: nat)
    requires DistinctIds(batch) && k <= |batch|
    ensures var t' := Polled(t, provider, holding, batch);
            && Polled(t', provider, holding, batch[..k]) == t'
            && Count(t', provider, batch[..k], Unchanged) == k
  {
    var t' := Polled(t, provider, holding, batch);
    if k > 0 {
      RepeatedBatchIsIdle(t, provider, holding, batch, k - 1);
      assert batch[..k][..k - 1] == batch[..k - 1];
      var key := KeyOf(provider, batch[k - 1]);
      PolledRows(t, provider, holding, batch, key);
      assert key in t' && t'[key].fields == batch[k - 1].fields;
      assert t'[key := t'[key].(fields := batch[k - 1].fields)] == t';
    }
  }

  /** The columns of `Mutable`, in the order they are compared. */
  datatype Column = KindColumn | AmountColumn | FeeColumn | StatusColumn | PayloadColumn

  const MUTABLE_COLUMNS := [KindColumn, AmountColumn, FeeColumn, StatusColumn, PayloadColumn]

  predicate SameAt(f: Mutable, g: Mutable, c: Column)
  {
    match c
    case KindColumn => f.kind == g.kind
    case AmountColumn => f.amount == g.amount
    case FeeColumn => f.fee == g.fee
    case StatusColumn => f.status == g.status
    case PayloadColumn => f.payload == g.payload
  }

  function CopiedAt(f: Mutable, g: Mutable, c: Column): Mutable
  {
    match c
    case KindColumn => f.(kind := g.kind)
    case AmountColumn => f.(amount := g.amount)
    case FeeColumn => f.(fee := g.fee)
    case StatusColumn => f.(status := g.status)
    case PayloadColumn => f.(payload := g.payload)
  }

  lemma AllColumns(c: Column)
    ensures c in MUTABLE_COLUMNS
  {
    assert MUTABLE_COLUMNS[0] == KindColumn && MUTABLE_COLUMNS[1] == AmountColumn && MUTABLE_COLUMNS[2] == FeeColumn;
    assert MUTABLE_COLUMNS[3] == StatusColumn && MUTABLE_COLUMNS[4] == PayloadColumn;
  }

  lemma ColumnsDistinct(i: nat)
    requires i < |MUTABLE_COLUMNS|
    ensures MUTABLE_COLUMNS[i] !in MUTABLE_COLUMNS[..i]
  {
    forall j | 0 <= j < i ensures MUTABLE_COLUMNS[j] != MUTABLE_COLUMNS[i] {
    }
  }

  /** Writes every column that differs and lists it: afterwards the fields are the reported ones. */
  method CopyChanged(before: Mutable, reported: Mutable) returns (f: Mutable, changed: seq<Column>)
    ensures f == reported
    ensures forall c :: c in changed <==> !SameAt(before, reported, c)
    ensures KindColumn in changed <==> before.kind != reported.kind
    ensures AmountColumn in changed <==> before.amount != reported.amount
    ensures FeeColumn in changed <==> before.fee != reported.fee
    ensures StatusColumn in changed <==> before.status != reported.status
    ensures PayloadColumn in changed <==> before.payload != reported.payload
  {
    f, changed := before, [];
    for i := 0 to |MUTABLE_COLUMNS|
      invariant forall c :: c in changed <==> c in MUTABLE_COLUMNS[..i] && !SameAt(before, reported, c)
      invariant forall c :: SameAt(f, if c in MUTABLE_COLUMNS[..i] then reported else before, c)
    {
      var c := MUTABLE_COLUMNS[i];
      assert MUTABLE_COLUMNS[..i + 1] == MUTABLE_COLUMNS[..i] + [c];
      ColumnsDistinct(i);
      assert SameAt(f, before, c);
      if !SameAt(f, reported, c) {
        f := CopiedAt(f, reported, c);
        changed := changed + [c];
      }
    }
    forall c ensures SameAt(f, reported, c) && c in MUTABLE_COLUMNS[..|MUTABLE_COLUMNS|] {
      AllColumns(c);
      assert MUTABLE_COLUMNS[..|MUTABLE_COLUMNS|] == MUTABLE_COLUMNS;
    }
    assert SameAt(f, reported, KindColumn) && SameAt(f, reported, AmountColumn) && SameAt(f, reported, FeeColumn);
    assert SameAt(f, reported, StatusColumn) && SameAt(f, reported, PayloadColumn);
  }

  lemma ListedMeansChanged(before: Mutable, reported: Mutable, changed: seq<Column>)
    requires forall c :: c in changed <==> !SameAt(before, reported, c)
    ensures changed != [] <==> before != reported
  {
    if changed != [] { assert changed[0] in changed; }
    if changed == [] {
      assert forall c :: SameAt(before, reported, c);
      assert SameAt(before, reported, KindColumn) && SameAt(before, reported, AmountColumn)
             && SameAt(before, reported, FeeColumn);
      assert SameAt(before, reported, StatusColumn) && SameAt(before, reported, PayloadColumn);
    }
  }

  class Mirror {
    var rows: Table

    constructor ()
      ensures rows == map[]
    {
      rows := map[];
    }

    /** Inserts, or compares each mutable field and writes the ones that differ; returns their names. */
    method UpsertReport(provider: nat, holding: nat, r: Report) returns (isNew: bool, changed: seq<Column>)
      modifies this
      ensures rows == Upsert(old(rows), provider, holding, r)
      ensures isNew <==> KeyOf(provider, r) !in old(rows)
      ensures isNew ==> changed == []
      ensures !isNew ==> forall c :: c in changed <==> !SameAt(old(rows)[KeyOf(provider, r)].fields, r.fields, c)
      ensures KindOf(old(rows), provider, r) == if isNew then Added else if changed != [] then Updated else Unchanged
    {
      var key := KeyOf(provider, r);
      if key !in rows {
        rows := rows[key := Row(holding, r.asset, r.timestamp, r.fields, UNLINKED)];
        return true, [];
      }
      var fields;
      fields, changed := CopyChanged(rows[key].fields, r.fields);
      ListedMeansChanged(rows[key].fields, r.fields, changed);
      rows := rows[key := rows[key].(fields := fields)];
      isNew := false;
    }

    /** Persists one batch; the three counts partition it. */
    method PersistBatch(provider: nat, holding: nat, batch: seq<Report>)
      returns (added: nat, updated: nat, unchanged_: nat)
      requires DistinctIds(batch)
      modifies this
      ensures rows == Polled(old(rows), provider, holding, batch)
      ensures added == Count(old(rows), provider, batch, Added)
      ensures updated == Count(old(rows), provider, batch, Updated)
      ensures unchanged_ == Count(old(rows), provider, batch, Unchanged)
      ensures added + updated + unchanged_ == |batch|
    {
      added, updated := 0, 0;
      for k := 0 to |batch|
        invariant rows == Polled(old(rows), provider, holding, batch[..k])
        invariant added == Count(old(rows), provider, batch[..k], Added)
        invariant updated == Count(old(rows), provider, batch[..k], Updated)
        invariant added + updated + Count(old(rows), provider, batch[..k], Unchanged) == k
      {
        KindStable(old(rows), provider, holding, batch, k);
        var isNew, changed := UpsertReport(provider, holding, batch[k]);
        if isNew {
          added := added + 1;
        } else if changed != [] {
          updated := updated + 1;
        }
        assert batch[..k + 1][..k] == batch[..k];
      }
      assert batch[..|batch|] == batch;
      unchanged_ := |batch| - added - updated;
    }
  }
}
