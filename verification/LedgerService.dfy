/**
 The ledger service: `postEntry` as its begin, commit and rollback steps over the tables, and the
 snapshot-based reconciliation that posts an adjustment when ledger and chain disagree.
 */
module LedgerService {
  import opened Prelude
  import opened Ledger
  import opened Totals
  import opened HashChain

  datatype PostError = InvalidAmount | DatabaseError

  /** Figures of a snapshot-based reconciliation. */
  datatype Report = Report(onChainTotal: int, ledgerTotal: int, delta: int, matched: bool)

  const TOLERANCE := 1_000

  function Abs(x: int): int {
    if x < 0 then -x else x
  }

  function Judge(ledgerTotal: int, onChainTotal: int): Report {
    var rawDelta := ledgerTotal - onChainTotal;
    var within := rawDelta == 0 || Abs(rawDelta) < TOLERANCE;
    if !within && ledgerTotal == 0 && onChainTotal > 0
    then Report(onChainTotal, ledgerTotal, 0, true)
    else Report(onChainTotal, ledgerTotal, rawDelta, within)
  }

  function AvailableWeight(a: string): int {
    if Counted(a) && HasSuffix(a, ":available") then 1 else 0
  }

  function ReservedWeight(a: string): int {
    if Counted(a) && HasSuffix(a, ":reserved") then 1 else 0
  }

  function InvestedWeight(a: string): int {
    if Counted(a) && HasSuffix(a, ":invested") then 1 else 0
  }

  lemma SuffixesExclusive(a: string)
    ensures UserWeight(a) == AvailableWeight(a) + ReservedWeight(a) + InvestedWeight(a)
  {
  }

  /** The three CASE sums of the query split the user-side total. */
  lemma {:induction false} ThreeSums(m: map<string, int>)
    ensures UserTotal(m) == Weighted(m, AvailableWeight) + Weighted(m, ReservedWeight) + Weighted(m, InvestedWeight)
    decreases |m|
  {
    if m != map[] {
      var a := Pick(m);
      SuffixesExclusive(a);
      ThreeSums(m - {a});
      assert m[a] * UserWeight(a)
          == m[a] * AvailableWeight(a) + m[a] * ReservedWeight(a) + m[a] * InvestedWeight(a);
    }
  }

  lemma {:induction false} LatestExists(entries: seq<Entry>, account: string, k: nat) returns (i: nat)
    requires k < |entries| && Touches(entries[k], account)
    ensures IsLatest(entries, account, i)
  {
    var n := |entries| - 1;
    if forall j | 0 <= j < n :: !Touches(entries[j], account) {
      i := k;
    } else {
      var j :| 0 <= j < n && Touches(entries[j], account);
      i := LatestExists(entries[..n], account, j);
      assert entries[..n][i] == entries[i];
      forall t | 0 <= t < n && Touches(entries[t], account) ensures entries[t].createdAt <= entries[i].createdAt {
        assert entries[..n][t] == entries[t];
      }
      if Touches(entries[n], account) && entries[n].createdAt > entries[i].createdAt {
        i := n;
      }
    }
  }

  lemma {:induction false} NewestExists(entries: seq<Entry>) returns (i: nat)
    requires entries != []
    ensures IsNewest(entries, i)
  {
    var n := |entries| - 1;
    if n == 0 {
      i := 0;
    } else {
      i := NewestExists(entries[..n]);
      assert forall j | 0 <= j < n :: entries[j] == entries[..n][j];
      if entries[n].createdAt > entries[i].createdAt {
        i := n;
      }
    }
  }

  /** No row clashes with the new one, whichever previous hash is read. */
  ghost predicate NoConflict(digest: Digest, entries: seq<Entry>, p: Posting, id: string, ts: nat, createdAt: nat) {
    forall h | PrevOf(entries, p.debit, h) :: Insertable(entries, MakeEntry(digest, p, id, h, ts, createdAt))
  }

  /** What the hash chain keeps in every reachable log, under an injective digest. */
  ghost predicate Healthy(digest: Digest, entries: seq<Entry>) {
    Injective(digest) && Hashed(digest, entries)
  }

  /** Every log the ledger machine can reach, under any interleaving, is healthy. */
  lemma ReachableHealthy(digest: Digest, steps: seq<Step>, s: State)
    requires Injective(digest) && Leads(digest, Initial(), steps, s)
    ensures Healthy(digest, s.entries)
  {
    ReachableLinked(digest, steps, s);
  }

  /** A row id no committed row has. */
  predicate FreshId(entries: seq<Entry>, id: string) {
    forall j | 0 <= j < |entries| :: entries[j].id != id
  }

  /** On a healthy log a fresh id is all a posting needs to be inserted: its hash is new, too. */
  lemma FreshIdNoConflict(digest: Digest, entries: seq<Entry>, p: Posting, id: string, ts: nat, createdAt: nat)
    requires Healthy(digest, entries) && FreshId(entries, id)
    ensures NoConflict(digest, entries, p, id, ts, createdAt)
  {
    forall h | PrevOf(entries, p.debit, h) ensures Insertable(entries, MakeEntry(digest, p, id, h, ts, createdAt)) {
      var e := MakeEntry(digest, p, id, h, ts, createdAt);
      forall j | 0 <= j < |entries| ensures entries[j].hash != e.hash {
        assert Record(e) != Record(entries[j]);
      }
    }
  }

  predicate RowUnused(entries: seq<Entry>, id: string, hash: string) {
    forall j | 0 <= j < |entries| :: entries[j].id != id && entries[j].hash != hash
  }

  lemma InsertKeepsHealthy(digest: Digest, entries: seq<Entry>, e: Entry)
    requires Healthy(digest, entries) && e.hash == digest(Record(e)) && Insertable(entries, e)
    ensures Healthy(digest, entries + [e])
  {
  }

  /** `e` is a committed row for flow `f`, inserted after the rows of `s`. */
  ghost predicate RowFor(digest: Digest, s: State, f: FlowEvent, e: Entry) {
    e.Posted? && e.posting == PostingOf(f, e.posting.metadata) && e.posting.amount > 0 &&
    PrevOf(s.entries, e.posting.debit, e.prevHash) && e.hash == digest(Record(e)) && Insertable(s.entries, e)
  }

  /** One attempted posting: it goes through as `f`'s row, or changes nothing. */
  ghost predicate Attempt(digest: Digest, s: State, f: FlowEvent, ok: bool, s': State) {
    if ok then exists e :: RowFor(digest, s, f, e) && s' == Post(s, e) else s' == s
  }

  /** What one snapshot-based reconciliation may do: nothing on a match, else attempt its adjustment. */
  ghost predicate Reconciled(
      digest: Digest, s: State, onChainTotal: int, reference: string, posted: bool, s': State)
  {
    var report := Judge(UserTotal(s.snapshots), onChainTotal);
    if report.matched then !posted && s' == s
    else Attempt(digest, s, DeltaAdjusted(Abs(report.delta), reference), posted, s')
  }

  class LedgerService {
    const digest: Digest
    var entries: seq<Entry>
    var snapshots: map<string, int>
    var pending: map<nat, Entry>

    ghost function Tables(): State
      reads this
    {
      State(entries, snapshots, pending)
    }

    constructor (digest: Digest)
      ensures this.digest == digest && Tables() == Initial()
    {
      this.digest := digest;
      entries, snapshots, pending := [], map a | a in SEEDED_ACCOUNTS :: 0, map[];
    }

    method UpdateBalanceSnapshot(account: string, delta: int)
      modifies this`snapshots
      ensures snapshots == Bump(old(snapshots), account, delta)
    {
      var previous := if account in snapshots then snapshots[account] else 0;
      snapshots := snapshots[account := previous + delta];
    }

    method PreviousHash(account: string) returns (h: string)
      ensures PrevOf(entries, account, h)
    {
      if exists j | 0 <= j < |entries| :: Touches(entries[j], account) {
        ghost var k :| 0 <= k < |entries| && Touches(entries[k], account);
        ghost var latest := LatestExists(entries, account, k);
        var i :| 0 <= i < |entries| && IsLatest(entries, account, i);
        h := entries[i].hash;
      } else {
        h := ZERO_HASH;
      }
    }

    /** Up to the INSERT: reject the amount, or open a transaction and read the previous hash. */
    method BeginPost(tx: nat, p: Posting, id: string, ts: nat, createdAt: nat) returns (r: Result<string, PostError>)
      requires tx !in pending
      modifies this`pending
      ensures r == Err(InvalidAmount) <==> p.amount <= 0
      ensures r.Err? ==> p.amount <= 0 && Tables() == old(Tables())
      ensures r.Ok? ==> PrevOf(entries, p.debit, r.value)
      ensures r.Ok? ==> Tables() == Do(digest, old(Tables()), Begin(tx, p, id, r.value, ts, createdAt))
    {
      if p.amount <= 0 {
        return Err(InvalidAmount);
      }
      var prevHash := PreviousHash(p.debit);
      pending := pending[tx := MakeEntry(digest, p, id, prevHash, ts, createdAt)];
      r := Ok(prevHash);
    }

    /** The INSERT, both snapshot updates and COMMIT; a violated constraint rolls back. */
    method CommitPost(tx: nat) returns (ok: bool)
      requires tx in pending
      modifies this
      ensures ok <==> Insertable(old(entries), old(pending)[tx])
      ensures Tables() == Do(digest, old(Tables()), Commit(tx))
    {
      var e := pending[tx];
      ok := Insertable(entries, e);
      pending := pending - {tx};
      if ok {
        entries := entries + [e];
        UpdateBalanceSnapshot(e.posting.debit, -e.posting.amount);
        UpdateBalanceSnapshot(e.posting.credit, e.posting.amount);
      }
    }

    method RollbackPost(tx: nat)
      requires tx in pending
      modifies this`pending
      ensures Tables() == Do(digest, old(Tables()), Rollback(tx))
    {
      pending := pending - {tx};
    }

    /** `postEntry` run without interleaving; `dbOk` says whether its statements succeed. Either
        both sides post or nothing changes. */
    method PostEntry(tx: nat, p: Posting, id: string, ts: nat, createdAt: nat, dbOk: bool)
      returns (r: Result<Entry, PostError>)
      requires tx !in pending
      modifies this
      ensures r == Err(InvalidAmount) <==> p.amount <= 0
      ensures !dbOk ==> r.Err?
      ensures r.Err? ==> Tables() == old(Tables())
      ensures r.Ok? ==> PrevOf(old(entries), p.debit, r.value.prevHash)
      ensures r.Ok? ==> r.value == MakeEntry(digest, p, id, r.value.prevHash, ts, createdAt)
      ensures r.Ok? ==> Insertable(old(entries), r.value) && Tables() == Post(old(Tables()), r.value)
      ensures dbOk && p.amount > 0 && NoConflict(digest, old(entries), p, id, ts, createdAt) ==> r.Ok?
    {
      var begun := BeginPost(tx, p, id, ts, createdAt);
      if begun.Err? {
        return Err(begun.error);
      }
      var e := pending[tx];
      assert pending - {tx} == old(pending);
      if !dbOk {
        RollbackPost(tx);
        return Err(DatabaseError);
      }
      var ok := CommitPost(tx);
      r := if ok then Ok(e) else Err(DatabaseError);
    }

    /** A row written by the expiry sweep, outside `postEntry`: it links to the newest row of the
        whole log, its hash is random, and no snapshot moves. */
    method InsertSweepRow(rowId: string, reference: string, amount: int, noise: nat, createdAt: nat)
      returns (row: Option<Entry>)
      requires amount > 0
      modifies this`entries
      ensures row.Some? ==>
        && row.value == Swept(rowId, ReleasePosting(reference, amount), row.value.prevHash,
                              digest(NoisePreimage(noise)), createdAt, noise)
        && Enabled(digest, old(Tables()), SweepInsert(row.value))
        && Tables() == Do(digest, old(Tables()), SweepInsert(row.value))
      ensures row.Some? ==> NewestHash(old(entries), row.value.prevHash)
      ensures row.None? ==> Tables() == old(Tables())
      ensures row.Some? <==> RowUnused(old(entries), rowId, digest(NoisePreimage(noise)))
    {
      var prevHash := ZERO_HASH;
      if entries != [] {
        ghost var newest := NewestExists(entries);
        var i :| 0 <= i < |entries| && IsNewest(entries, i);
        prevHash := entries[i].hash;
      }
      assert entries[..|entries|] == entries && NewestHash(entries, prevHash);
      var e := Swept(rowId, ReleasePosting(reference, amount), prevHash, digest(NoisePreimage(noise)), createdAt, noise);
      row := None;
      if Insertable(entries, e) {
        entries := entries + [e];
        row := Some(e);
      }
    }

    /** The reconciliation query over `account_balance_snapshots`. */
    method QueryTotals() returns (available: int, reserved: int, invested: int)
      ensures available == Weighted(snapshots, AvailableWeight)
      ensures reserved == Weighted(snapshots, ReservedWeight)
      ensures invested == Weighted(snapshots, InvestedWeight)
      ensures available + reserved + invested == UserTotal(snapshots)
    {
      available, reserved, invested := 0, 0, 0;
      var rest := snapshots;
      while rest != map[]
        invariant available + Weighted(rest, AvailableWeight) == Weighted(snapshots, AvailableWeight)
        invariant reserved + Weighted(rest, ReservedWeight) == Weighted(snapshots, ReservedWeight)
        invariant invested + Weighted(rest, InvestedWeight) == Weighted(snapshots, InvestedWeight)
        decreases |rest|
      {
        var a :| a in rest;
        WeightedRemove(rest, a, AvailableWeight);
        WeightedRemove(rest, a, ReservedWeight);
        WeightedRemove(rest, a, InvestedWeight);
        if Counted(a) {
          available := available + if HasSuffix(a, ":available") then rest[a] else 0;
          reserved := reserved + if HasSuffix(a, ":reserved") then rest[a] else 0;
          invested := invested + if HasSuffix(a, ":invested") then rest[a] else 0;
        }
        rest := rest - {a};
      }
      ThreeSums(snapshots);
    }

    /** Post a mismatch from suspense to the delta reserve. */
    method BookDelta(delta: int, tx: nat, id: string, ts: nat, createdAt: nat, reference: string, dbOk: bool)
      returns (r: Result<Entry, PostError>)
      requires tx !in pending && delta > 0
      modifies this
      ensures r != Err(InvalidAmount)
      ensures dbOk && Healthy(digest, old(entries)) && FreshId(old(entries), id) ==> r.Ok?
      ensures r.Ok? ==> RowFor(digest, old(Tables()), DeltaAdjusted(delta, reference), r.value)
      ensures r.Ok? ==> Tables() == Post(old(Tables()), r.value)
      ensures r.Err? ==> Tables() == old(Tables())
    {
      var p := PostingOf(DeltaAdjusted(delta, reference), "report");
      if Healthy(digest, entries) && FreshId(entries, id) {
        FreshIdNoConflict(digest, entries, p, id, ts, createdAt);
      }
      r := PostEntry(tx, p, id, ts, createdAt, dbOk);
    }

    /** Compare the snapshot total with the chain and book a mismatch to suspense: the amount booked is
        the distance of the two totals, which is never rejected; a working database books it; and the
        total a later run will see is the total this run saw. */
    method Reconcile(onChainTotal: int, tx: nat, id: string, ts: nat, createdAt: nat, reference: string, dbOk: bool)
      returns (report: Report, posted: Option<Result<Entry, PostError>>)
      requires tx !in pending
      modifies this
      ensures report == Judge(old(UserTotal(snapshots)), onChainTotal)
      ensures report.ledgerTotal == old(UserTotal(snapshots)) && report.onChainTotal == onChainTotal
      ensures report.matched <==>
        -1_000 < old(UserTotal(snapshots)) - onChainTotal < 1_000 || old(UserTotal(snapshots)) == 0 < onChainTotal
      ensures !report.matched ==> report.delta == old(UserTotal(snapshots)) - onChainTotal
      ensures posted.Some? && posted.value.Ok? ==>
        Balance(snapshots, "system:delta_reserve") ==
          old(Balance(snapshots, "system:delta_reserve")) + Distance(old(UserTotal(snapshots)), onChainTotal) &&
        Balance(snapshots, "suspense:reconciliation") ==
          old(Balance(snapshots, "suspense:reconciliation")) - Distance(old(UserTotal(snapshots)), onChainTotal)
      ensures posted.None? <==> report.matched
      ensures posted.Some? ==> posted.value != Err(InvalidAmount)
      ensures posted.Some? && dbOk && Healthy(digest, old(entries)) && FreshId(old(entries), id) ==> posted.value.Ok?
      ensures posted.Some? && posted.value.Ok? ==>
        Tables() == Post(old(Tables()), posted.value.value) &&
        posted.value.value.posting ==
          PostingOf(DeltaAdjusted(Abs(report.delta), reference), posted.value.value.posting.metadata)
      ensures !(posted.Some? && posted.value.Ok?) ==> Tables() == old(Tables())
      ensures Reconciled(digest, old(Tables()), onChainTotal, reference, posted.Some? && posted.value.Ok?, Tables())
      ensures Judge(UserTotal(snapshots), onChainTotal) == report
      ensures GrandTotal(snapshots) == old(GrandTotal(snapshots))
    {
      var available, reserved, invested := QueryTotals();
      var ledgerTotal := available + reserved + invested;
      var delta := ledgerTotal - onChainTotal;
      var matched := delta == 0 || Abs(delta) < TOLERANCE;
      if !matched && ledgerTotal == 0 && onChainTotal > 0 {
        delta := 0;
        matched := true;
      }
      report := Report(onChainTotal, ledgerTotal, delta, matched);
      posted := None;
      if !matched {
        var r := BookDelta(Abs(delta), tx, id, ts, createdAt, reference, dbOk);
        posted := Some(r);
        if r.Ok? {
          AdjustmentInvisible(old(Tables()), r.value, Abs(delta), reference);
          AdjustmentMoves(old(Tables()), r.value, Abs(delta), reference);
        }
      }
    }
  }

  /** How far two totals are apart. */
  function Distance(a: int, b: int): int {
    if a < b then b - a else a - b
  }

  /** A booked delta arrives on the reserve and is taken from suspense. */
  lemma AdjustmentMoves(s: State, e: Entry, delta: int, reference: string)
    requires e.Posted? && e.posting == PostingOf(DeltaAdjusted(delta, reference), e.posting.metadata)
    ensures Balance(Post(s, e).snapshots, "system:delta_reserve") == Balance(s.snapshots, "system:delta_reserve") + delta
    ensures Balance(Post(s, e).snapshots, "suspense:reconciliation") == Balance(s.snapshots, "suspense:reconciliation") - delta
  {
    assert "system:delta_reserve"[1] != "suspense:reconciliation"[1];
  }

  /** Booking a delta from suspense to the delta reserve moves no user money, and no money in all. */
  lemma AdjustmentInvisible(s: State, e: Entry, delta: int, reference: string)
    requires e.Posted? && e.posting == PostingOf(DeltaAdjusted(delta, reference), e.posting.metadata)
    ensures UserTotal(Post(s, e).snapshots) == UserTotal(s.snapshots)
    ensures GrandTotal(Post(s, e).snapshots) == GrandTotal(s.snapshots)
  {
    FixedAccountsNotUserSide();
    PostMoves(s, e, UserWeight);
    PostMoves(s, e, _ => 1);
  }
}
