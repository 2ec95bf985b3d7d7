/** Normalising a raw Kraken ledger feed: BTC entries only, one entry per trade, sorted by time. */
module KrakenLedger {
  import opened Common

  /** The fields of a raw item the adapter reads; an absent string is "". */
  datatype Item = Item(id: string, referenceId: string, currency: string, rawType: string, direction: string,
                       timestamp: Option<int>, amount: real, fee: Option<real>, status: string)

  datatype Entry = Entry(entryId: string, kind: string, amount: real, fee: Option<real>, status: string,
                         timestamp: int, raw: Item, fiatLegs: seq<Item>)

  function RefId(item: Item): string
  {
    if item.referenceId != "" then item.referenceId else item.id
  }

  function Upper(c: char): char
  {
    if 'a' <= c <= 'z' then (c as int - 32) as char else c
  }

  /** The part before the first point, in upper case. */
  function BaseAsset(asset: string): string
  {
    if asset == "" || asset[0] == '.' then "" else [Upper(asset[0])] + BaseAsset(asset[1..])
  }

  predicate IsBtc(asset: string)
  {
    BaseAsset(asset) in {"BTC", "XBT", "XXBT"}
  }

  function Lower(c: char): char
  {
    if 'A' <= c <= 'Z' then (c as int + 32) as char else c
  }

  function Lowered(s: string): string
  {
    seq(|s|, i requires 0 <= i < |s| => Lower(s[i]))
  }

  function NormaliseKind(rawKind: string, direction: string): string
  {
    if rawKind == "transaction" then (if direction == "in" then "deposit" else "withdrawal")
    else if rawKind in {"trade", "margin", "receive", "spend"} then "trade"
    else if rawKind in {"fee", "rollover"} then "fee"
    else if rawKind in {"earn", "staking", "reward", "dividend"} then "reward"
    else if rawKind in {"deposit", "withdrawal", "transfer"} then rawKind
    else "other"
  }

  function KindOf(item: Item): string
  {
    NormaliseKind(Lowered(item.rawType), item.direction)
  }

  function TimeOf(item: Item, fallback: int): int
  {
    if item.timestamp.Some? then item.timestamp.value else fallback
  }

  /** The legs of a reference in other currencies, in feed order. */
  function FiatLegs(raw: seq<Item>, refid: string): seq<Item>
  {
    if raw == [] then []
    else
      FiatLegs(raw[..|raw| - 1], refid) +
      if RefId(raw[|raw| - 1]) == refid && !IsBtc(raw[|raw| - 1].currency) then [raw[|raw| - 1]] else []
  }

  function EntryOf(raw: seq<Item>, item: Item, fallback: int): Entry
  {
    Entry(if item.id != "" then item.id else RefId(item), KindOf(item),
          if item.direction == "out" && item.amount > 0.0 then -item.amount else item.amount,
          item.fee, if item.status != "" then item.status else "success", TimeOf(item, fallback), item,
          if KindOf(item) == "trade" then FiatLegs(raw, RefId(item)) else [])
  }

  /////////////////////////////////////////////////////////////////////////////
  // Which items are kept
  /////////////////////////////////////////////////////////////////////////////

  /** A BTC item, and if it is a trade the first BTC item of its reference. */
  ghost predicate Kept(raw: seq<Item>, i: nat)
    requires i < |raw|
  {
    && IsBtc(raw[i].currency)
    && (KindOf(raw[i]) == "trade" ==>
          forall j :: 0 <= j < i && IsBtc(raw[j].currency) ==> RefId(raw[j]) != RefId(raw[i]))
  }

  /** The entries of the kept items among the first `k`, in feed order. */
  ghost function KeptEntries(raw: seq<Item>, fallback: int, k: nat): seq<Entry>
    requires k <= |raw|
  {
    if k == 0 then []
    else KeptEntries(raw, fallback, k - 1) + if Kept(raw, k - 1) then [EntryOf(raw, raw[k - 1], fallback)] else []
  }

  /** The positions of the kept items among the first `k`. */
  ghost function KeptPositions(raw: seq<Item>, k: nat): (at: seq<nat>)
    requires k <= |raw|
    ensures forall n :: 0 <= n < |at| ==> at[n] < k
  {
    if k == 0 then [] else KeptPositions(raw, k - 1) + if Kept(raw, k - 1) then [k - 1] else []
  }

  lemma {:induction false} PositionsAscend(raw: seq<Item>, k: nat)
    requires k <= |raw|
    ensures forall m, n :: 0 <= m < n < |KeptPositions(raw, k)| ==> KeptPositions(raw, k)[m] < KeptPositions(raw, k)[n]
  {
    if k > 0 { PositionsAscend(raw, k - 1); }
  }

  lemma {:induction false} PositionsAreKept(raw: seq<Item>, k: nat, i: nat)
    requires i < k <= |raw|
    ensures i in KeptPositions(raw, k) <==> Kept(raw, i)
  {
    if i < k - 1 { PositionsAreKept(raw, k - 1, i); }
  }

  /** Exactly the kept items become entries, in feed order. */
  lemma {:induction false} KeptInFeedOrder(raw: seq<Item>, fallback: int, k: nat)
    requires k <= |raw|
    ensures |KeptEntries(raw, fallback, k)| == |KeptPositions(raw, k)|
    ensures forall n :: 0 <= n < |KeptPositions(raw, k)| ==>
              KeptEntries(raw, fallback, k)[n] == EntryOf(raw, raw[KeptPositions(raw, k)[n]], fallback)
  {
    if k > 0 { KeptInFeedOrder(raw, fallback, k - 1); }
  }

  /** What an entry takes from its item. */
  lemma EntryFields(raw: seq<Item>, item: Item, fallback: int)
    ensures var e := EntryOf(raw, item, fallback);
            && e.raw == item && e.fee == item.fee
            && e.entryId == (if item.id == "" then item.referenceId else item.id)
            && e.status == (if item.status == "" then "success" else item.status)
            && (item.timestamp.Some? ==> e.timestamp == item.timestamp.value)
            && (item.timestamp.None? ==> e.timestamp == fallback)
            && (item.direction != "out" ==> e.amount == item.amount)
            && (item.direction == "out" ==> e.amount <= 0.0 && (e.amount == item.amount || e.amount == -item.amount))
            && (e.kind != "trade" ==> e.fiatLegs == [])
            && (e.kind == "trade" ==>
                  forall leg :: leg in e.fiatLegs <==> leg in raw && RefId(leg) == RefId(item) && !IsBtc(leg.currency))
  {
    forall leg ensures leg in FiatLegs(raw, RefId(item)) <==>
                       leg in raw && RefId(leg) == RefId(item) && !IsBtc(leg.currency) {
      FiatLegsMember(raw, RefId(item), leg);
    }
  }

  lemma {:induction false} FiatLegsMember(raw: seq<Item>, refid: string, leg: Item)
    ensures leg in FiatLegs(raw, refid) <==> leg in raw && RefId(leg) == refid && !IsBtc(leg.currency)
  {
    if raw != [] {
      FiatLegsMember(raw[..|raw| - 1], refid, leg);
      assert leg in raw <==> leg in raw[..|raw| - 1] || leg == raw[|raw| - 1];
    }
  }

  /** The reference groups by `referenceId` where there is one, else by `id`. */
  lemma ReferenceFields(item: Item)
    ensures RefId(item) == item.referenceId || item.referenceId == ""
    ensures item.referenceId == "" ==> RefId(item) == item.id
  {
  }

  const RAW_KINDS := {"transaction", "trade", "margin", "receive", "spend", "earn", "staking", "reward", "dividend",
                      "fee", "rollover", "deposit", "withdrawal", "transfer"}

  /** The kinds of the ledger, and what each raw kind becomes. */
  lemma KindsSpelled(direction: string, other: string)
    ensures NormaliseKind("transaction", "in") == "deposit"
    ensures direction != "in" ==> NormaliseKind("transaction", direction) == "withdrawal"
    ensures forall k :: k in {"trade", "margin", "receive", "spend"} ==> NormaliseKind(k, direction) == "trade"
    ensures forall k :: k in {"earn", "staking", "reward", "dividend"} ==> NormaliseKind(k, direction) == "reward"
    ensures forall k :: k in {"fee", "rollover"} ==> NormaliseKind(k, direction) == "fee"
    ensures NormaliseKind("deposit", direction) == "deposit" && NormaliseKind("withdrawal", direction) == "withdrawal"
    ensures NormaliseKind("transfer", direction) == "transfer"
    ensures other !in RAW_KINDS ==> NormaliseKind(other, direction) == "other"
  {
  }

  ghost predicate PointFree(s: string)
  {
    forall i :: 0 <= i < |s| ==> s[i] != '.'
  }

  lemma {:induction false} BaseOfPointFree(s: string, rest: string)
    requires PointFree(s) && (rest == "" || rest[0] == '.')
    ensures |BaseAsset(s + rest)| == |s| && forall i :: 0 <= i < |s| ==> BaseAsset(s + rest)[i] == Upper(s[i])
  {
    if s != "" {
      assert (s + rest)[1..] == s[1..] + rest;
      BaseOfPointFree(s[1..], rest);
    } else {
      assert s + rest == rest;
    }
  }

  /** A currency is Bitcoin iff what precedes the first point is BTC, XBT or XXBT in any case. */
  lemma BtcExactly(s: string, rest: string)
    requires PointFree(s) && (rest == "" || rest[0] == '.')
    ensures IsBtc(s + rest) <==>
            || (|s| == 3 && Upper(s[0]) == 'B' && Upper(s[1]) == 'T' && Upper(s[2]) == 'C')
            || (|s| == 3 && Upper(s[0]) == 'X' && Upper(s[1]) == 'B' && Upper(s[2]) == 'T')
            || (|s| == 4 && Upper(s[0]) == 'X' && Upper(s[1]) == 'X' && Upper(s[2]) == 'B' && Upper(s[3]) == 'T')
  {
    BaseOfPointFree(s, rest);
    var base := BaseAsset(s + rest);
    assert base == "BTC" <==> |base| == 3 && base[0] == 'B' && base[1] == 'T' && base[2] == 'C';
    assert base == "XBT" <==> |base| == 3 && base[0] == 'X' && base[1] == 'B' && base[2] == 'T';
    assert base == "XXBT" <==> |base| == 4 && base[0] == 'X' && base[1] == 'X' && base[2] == 'B' && base[3] == 'T';
  }

  /** Letters compare without case, everything else as it is. */
  lemma CaseFolding(s: string)
    ensures |Lowered(s)| == |s|
    ensures forall i :: 0 <= i < |s| && 'A' <= s[i] <= 'Z' ==>
              Lowered(s)[i] as int - 'a' as int == s[i] as int - 'A' as int
    ensures forall i :: 0 <= i < |s| && !('A' <= s[i] <= 'Z') ==> Lowered(s)[i] == s[i]
    ensures forall c: char :: 'a' <= c <= 'z' ==> Upper(c) as int - 'A' as int == c as int - 'a' as int
    ensures forall c: char :: !('a' <= c <= 'z') ==> Upper(c) == c
  {
  }

  ghost predicate Sorted(entries: seq<Entry>)
  {
    forall i, j :: 0 <= i < j < |entries| ==> entries[i].timestamp <= entries[j].timestamp
  }

  /** The entries with one timestamp, in order: what a stable sort leaves alone. */
  function At(entries: seq<Entry>, time: int): seq<Entry>
  {
    if entries == [] then []
    else
      At(entries[..|entries| - 1], time) +
      if entries[|entries| - 1].timestamp == time then [entries[|entries| - 1]] else []
  }

  /** All the entries with the timestamp, as often as they occur, and no others. */
  lemma {:induction false} AtMembers(entries: seq<Entry>, time: int, e: Entry)
    ensures multiset(At(entries, time))[e] == if e.timestamp == time then multiset(entries)[e] else 0
  {
    if entries != [] {
      AtMembers(entries[..|entries| - 1], time, e);
      MultisetLast(entries);
    }
  }

  /** Stable insertion from the right. */
  function Insert(sorted: seq<Entry>, e: Entry): (r: seq<Entry>)
    ensures |r| == |sorted| + 1
  {
    if sorted == [] || sorted[|sorted| - 1].timestamp <= e.timestamp then sorted + [e]
    else Insert(sorted[..|sorted| - 1], e) + [sorted[|sorted| - 1]]
  }

  function SortByTime(entries: seq<Entry>): seq<Entry>
  {
    if entries == [] then [] else Insert(SortByTime(entries[..|entries| - 1]), entries[|entries| - 1])
  }

  lemma {:induction false} InsertMembers(sorted: seq<Entry>, e: Entry)
    ensures multiset(Insert(sorted, e)) == multiset(sorted) + multiset{e}
  {
    if sorted != [] && sorted[|sorted| - 1].timestamp > e.timestamp {
      InsertMembers(sorted[..|sorted| - 1], e);
      assert sorted == sorted[..|sorted| - 1] + [sorted[|sorted| - 1]];
    }
  }

  lemma InsertBounded(sorted: seq<Entry>, e: Entry, bound: int)
    requires e.timestamp <= bound && forall x :: x in sorted ==> x.timestamp <= bound
    ensures forall x :: x in Insert(sorted, e) ==> x.timestamp <= bound
  {
    InsertMembers(sorted, e);
    forall x | x in Insert(sorted, e) ensures x.timestamp <= bound {
      assert x in multiset(Insert(sorted, e));
    }
  }

  lemma AppendSorted(s: seq<Entry>, e: Entry)
    requires Sorted(s) && forall x :: x in s ==> x.timestamp <= e.timestamp
    ensures Sorted(s + [e])
  {
  }

  lemma {:induction false} InsertSorts(sorted: seq<Entry>, e: Entry)
    requires Sorted(sorted)
    ensures Sorted(Insert(sorted, e))
  {
    if sorted == [] || sorted[|sorted| - 1].timestamp <= e.timestamp {
      AppendSorted(sorted, e);
    } else {
      var init, last := sorted[..|sorted| - 1], sorted[|sorted| - 1];
      InsertSorts(init, e);
      InsertBounded(init, e, last.timestamp);
      AppendSorted(Insert(init, e), last);
    }
  }

  lemma {:induction false} InsertStable(sorted: seq<Entry>, e: Entry, time: int)
    requires Sorted(sorted)
    ensures At(Insert(sorted, e), time) == At(sorted, time) + if e.timestamp == time then [e] else []
  {
    if sorted == [] || sorted[|sorted| - 1].timestamp <= e.timestamp {
      assert (sorted + [e])[..|sorted|] == sorted;
    } else {
      var init, last := sorted[..|sorted| - 1], sorted[|sorted| - 1];
      InsertStable(init, e, time);
      assert (Insert(init, e) + [last])[..|Insert(init, e)|] == Insert(init, e);
      if e.timestamp == time {
        assert last.timestamp != time;
      }
    }
  }

  lemma {:induction false} SortByTimeSorts(entries: seq<Entry>)
    ensures Sorted(SortByTime(entries))
  {
    if entries != [] {
      SortByTimeSorts(entries[..|entries| - 1]);
      InsertSorts(SortByTime(entries[..|entries| - 1]), entries[|entries| - 1]);
    }
  }

  lemma MultisetLast(entries: seq<Entry>)
    requires entries != []
    ensures multiset(entries) == multiset(entries[..|entries| - 1]) + multiset{entries[|entries| - 1]}
  {
    assert entries == entries[..|entries| - 1] + [entries[|entries| - 1]];
  }

  lemma {:induction false} SortByTimePermutes(entries: seq<Entry>)
    ensures multiset(SortByTime(entries)) == multiset(entries)
  {
    if entries != [] {
      var init, last := entries[..|entries| - 1], entries[|entries| - 1];
      SortByTimePermutes(init);
      InsertMembers(SortByTime(init), last);
      MultisetLast(entries);
      assert SortByTime(entries) == Insert(SortByTime(init), last);
    }
  }

  /** Entries with the same timestamp keep their order. */
  lemma {:induction false} SortByTimeStable(entries: seq<Entry>, time: int)
    ensures At(SortByTime(entries), time) == At(entries, time)
  {
    if entries != [] {
      var init, last := entries[..|entries| - 1], entries[|entries| - 1];
      SortByTimeStable(init, time);
      SortByTimeSorts(init);
      InsertStable(SortByTime(init), last, time);
    }
  }

  /////////////////////////////////////////////////////////////////////////////
  // The adapter loop
  /////////////////////////////////////////////////////////////////////////////

  function LegsIn(byRefid: map<string, seq<Item>>, refid: string): seq<Item>
  {
    if refid in byRefid then byRefid[refid] else []
  }

  /** Legs grouped by reference. */
  method GroupByReference(raw: seq<Item>) returns (byRefid: map<string, seq<Item>>)
    ensures forall r :: LegsIn(byRefid, r) == ItemsOf(raw, r)
  {
    byRefid := map[];
    for k := 0 to |raw|
      invariant forall r :: LegsIn(byRefid, r) == ItemsOf(raw[..k], r)
    {
      var refid := RefId(raw[k]);
      forall r ensures ItemsOf(raw[..k + 1], r) == ItemsOf(raw[..k], r) + if refid == r then [raw[k]] else [] {
        assert raw[..k + 1][..k] == raw[..k];
      }
      byRefid := byRefid[refid := LegsIn(byRefid, refid) + [raw[k]]];
    }
    assert raw[..|raw|] == raw;
  }

  function ItemsOf(raw: seq<Item>, refid: string): seq<Item>
  {
    if raw == [] then []
    else ItemsOf(raw[..|raw| - 1], refid) + if RefId(raw[|raw| - 1]) == refid then [raw[|raw| - 1]] else []
  }

  function NonBtc(items: seq<Item>): seq<Item>
  {
    if items == [] then []
    else NonBtc(items[..|items| - 1]) + if !IsBtc(items[|items| - 1].currency) then [items[|items| - 1]] else []
  }

  lemma {:induction false} LegsOfReference(raw: seq<Item>, refid: string)
    ensures NonBtc(ItemsOf(raw, refid)) == FiatLegs(raw, refid)
  {
    if raw != [] {
      var init := ItemsOf(raw[..|raw| - 1], refid);
      LegsOfReference(raw[..|raw| - 1], refid);
      assert (init + [raw[|raw| - 1]])[..|init|] == init && init + [] == init;
    }
  }

  ghost predicate IsNewest(entries: seq<Entry>, newest: Option<int>)
  {
    && (newest.None? <==> entries == [])
    && (newest.Some? ==> (exists e :: e in entries && e.timestamp == newest.value)
                         && forall e :: e in entries ==> e.timestamp <= newest.value)
  }

  /** The references of the BTC items among the first `k`: all of them have been seen. */
  ghost function SeenBefore(raw: seq<Item>, k: nat): set<string>
    requires k <= |raw|
  {
    set j | 0 <= j < k && IsBtc(raw[j].currency) :: RefId(raw[j])
  }

  /** One entry; a trade carries the legs of its reference in other currencies. */
  method MakeEntry(item: Item, fallback: int, byRefid: map<string, seq<Item>>, ghost raw: seq<Item>) returns (e: Entry)
    requires forall r :: LegsIn(byRefid, r) == ItemsOf(raw, r)
    ensures e == EntryOf(raw, item, fallback)
  {
    var refid, kind := RefId(item), KindOf(item);
    var legs: seq<Item> := [];
    if kind == "trade" {
      LegsOfReference(raw, refid);
      legs := NonBtc(LegsIn(byRefid, refid));
    }
    e := Entry(if item.id != "" then item.id else refid, kind,
               if item.direction == "out" && item.amount > 0.0 then -item.amount else item.amount,
               item.fee, if item.status != "" then item.status else "success", TimeOf(item, fallback), item, legs);
  }

  /**
   For every feed: a time-sorted, stable permutation of exactly the kept entries, each trade with
   all its other legs, and the newest timestamp as cursor.
   */
  method NormaliseLedger(raw: seq<Item>, fallback: int) returns (entries: seq<Entry>, newest: Option<int>)
    ensures entries == SortByTime(KeptEntries(raw, fallback, |raw|))
    ensures Sorted(entries) && multiset(entries) == multiset(KeptEntries(raw, fallback, |raw|))
    ensures forall time :: At(entries, time) == At(KeptEntries(raw, fallback, |raw|), time)
    ensures IsNewest(entries, newest)
  {
    var byRefid := GroupByReference(raw);
    var kept: seq<Entry> := [];
    var seen: set<string> := {};
    newest := None;
    for k := 0 to |raw|
      invariant kept == KeptEntries(raw, fallback, k)
      invariant seen == SeenBefore(raw, k)
      invariant IsNewest(kept, newest)
    {
      var item := raw[k];
      var refid, kind := RefId(item), KindOf(item);
      SeenNext(raw, k);
      if !IsBtc(item.currency) { continue; }
      KeptBySeen(raw, k);
      if kind == "trade" && refid in seen { continue; }
      seen := seen + {refid};
      var e := MakeEntry(item, fallback, byRefid, raw);
      NewestNext(kept, newest, e);
      kept := kept + [e];
      if newest.None? || e.timestamp > newest.value {
        newest := Some(e.timestamp);
      }
    }
    entries := SortByTime(kept);
    SortByTimeCorrect(kept, newest);
  }

  lemma SortByTimeCorrect(kept: seq<Entry>, newest: Option<int>)
    requires IsNewest(kept, newest)
    ensures var entries := SortByTime(kept);
            && Sorted(entries)
            && multiset(entries) == multiset(kept)
            && (forall time :: At(entries, time) == At(kept, time))
            && IsNewest(entries, newest)
  {
    SortByTimeSorts(kept);
    SortByTimePermutes(kept);
    forall time ensures At(SortByTime(kept), time) == At(kept, time) { SortByTimeStable(kept, time); }
    NewestOfPermutation(kept, SortByTime(kept), newest);
  }

  lemma SeenNext(raw: seq<Item>, k: nat)
    requires k < |raw|
    ensures SeenBefore(raw, k + 1) == SeenBefore(raw, k) + if IsBtc(raw[k].currency) then {RefId(raw[k])} else {}
  {
  }

  lemma KeptBySeen(raw: seq<Item>, k: nat)
    requires k < |raw| && IsBtc(raw[k].currency)
    ensures Kept(raw, k) <==> !(KindOf(raw[k]) == "trade" && RefId(raw[k]) in SeenBefore(raw, k))
  {
  }

  lemma NewestNext(entries: seq<Entry>, newest: Option<int>, e: Entry)
    requires IsNewest(entries, newest)
    ensures IsNewest(entries + [e], if newest.None? || e.timestamp > newest.value then Some(e.timestamp) else newest)
  {
    if newest.Some? {
      var x :| x in entries && x.timestamp == newest.value;
      assert x in entries + [e];
    }
    assert e in entries + [e];
  }

  lemma NewestOfPermutation(s: seq<Entry>, t: seq<Entry>, newest: Option<int>)
    requires IsNewest(s, newest) && multiset(s) == multiset(t)
    ensures IsNewest(t, newest)
  {
    forall e ensures e in s <==> e in t {
      assert e in multiset(s) <==> e in multiset(t);
    }
    if s == [] { assert |multiset(t)| == 0; }
    if t == [] { assert |multiset(s)| == 0; }
  }
}
