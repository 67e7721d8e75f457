/**
 The entry-based reconciliation engine: its total over `ledger_entries`, its verdict, its scan for
 stuck reservations, and the sweep that expires reservations and writes RELEASE rows.
 */
module ReconciliationService {
  import opened Ledger
  import opened Totals
  import opened L = LedgerService

  const ALERT_THRESHOLD := 10_000
  const SUSPENSION_THRESHOLD := 10_000_000
  const HOUR := 3_600_000
  const STUCK_LIMIT := 10

  datatype Status = Matched | Alert | Suspended

  datatype ReservationStatus = Active | Settled | Released | Expired

  datatype Reservation = Reservation(amount: int, expiry: int, status: ReservationStatus)

  datatype EngineReport = EngineReport(
    onChainTotal: int, ledgerTotal: int, ledgerAvailable: int, ledgerReserved: int,
    delta: int, matched: bool, exceptions: seq<string>, status: Status, suspended: bool)

  /** The engine's delta; an on-chain total of zero means the chain was not read. */
  function EngineDelta(ledgerTotal: int, onChainTotal: int): int {
    var effective := if onChainTotal != 0 then onChainTotal else ledgerTotal;
    if effective > ledgerTotal then effective - ledgerTotal else ledgerTotal - effective
  }

  function EngineStatus(delta: int): Status {
    var matched := delta <= ALERT_THRESHOLD;
    if !matched && delta >= SUSPENSION_THRESHOLD then Suspended
    else if !matched && delta >= ALERT_THRESHOLD then Alert
    else Matched
  }

  ghost predicate Stuck(reservations: map<string, Reservation>, now: int, id: string) {
    id in reservations && reservations[id].status == Active && reservations[id].expiry < now - HOUR
  }

  function Due(reservations: map<string, Reservation>, now: int): set<string> {
    set id | id in reservations && reservations[id].status == Active && reservations[id].expiry < now
  }

  function ExpireDue(reservations: map<string, Reservation>, now: int): map<string, Reservation> {
    map id | id in reservations ::
      if id in Due(reservations, now) then reservations[id].(status := Expired) else reservations[id]
  }

  /** After a sweep nothing is due, and no reservation is listed as stuck, until time moves on. */
  lemma SweepLeavesNothingDue(reservations: map<string, Reservation>, now: int)
    ensures Due(ExpireDue(reservations, now), now) == {}
    ensures forall id :: !Stuck(ExpireDue(reservations, now), now, id)
    ensures ExpireDue(ExpireDue(reservations, now), now) == ExpireDue(reservations, now)
  {
  }

  /** The delta is the distance of the two totals, or nothing if the chain was not read; up to one cent it
      matches, below ten dollars it alerts, from ten dollars up it suspends. */
  lemma EngineVerdict(ledgerTotal: int, onChainTotal: int)
    ensures onChainTotal == 0 ==> EngineDelta(ledgerTotal, onChainTotal) == 0
    ensures onChainTotal != 0 ==> EngineDelta(ledgerTotal, onChainTotal) == Distance(onChainTotal, ledgerTotal)
    ensures var delta := EngineDelta(ledgerTotal, onChainTotal);
      && (EngineStatus(delta) == Matched <==> delta <= 10_000)
      && (EngineStatus(delta) == Alert <==> 10_000 < delta < 10_000_000)
      && (EngineStatus(delta) == Suspended <==> delta >= 10_000_000)
  {
  }

  /** Exactly the active reservations past their expiry expire, and nothing else about any changes. */
  lemma ExpiresExactly(reservations: map<string, Reservation>, now: int, id: string)
    ensures id in ExpireDue(reservations, now) <==> id in reservations
    ensures id in Due(reservations, now) <==>
      id in reservations && reservations[id].status == Active && reservations[id].expiry < now
    ensures id in reservations ==>
      var before, after := reservations[id], ExpireDue(reservations, now)[id];
      after.amount == before.amount && after.expiry == before.expiry &&
      after.status == if before.status == Active && before.expiry < now then Expired else before.status
    ensures Stuck(reservations, now, id) <==>
      id in reservations && reservations[id].status == Active && reservations[id].expiry < now - 3_600_000
  {
  }

  /** The two reconcilers' verdicts, once their totals agree. The stricter snapshot-based one never
      passes what the engine flags, apart from its bootstrap exception for an empty ledger; in
      return the engine never flags anything when the chain total is missing. */
  lemma VerdictsCompared(ledgerTotal: int, onChainTotal: int)
    ensures var r := Judge(ledgerTotal, onChainTotal);
      var status := EngineStatus(EngineDelta(ledgerTotal, onChainTotal));
      && (status != Matched && r.matched <==> ledgerTotal == 0 && onChainTotal > 10_000)
      && (onChainTotal == 0 ==> status == Matched)
      && (status == Matched && !r.matched <==>
            if onChainTotal == 0 then Distance(ledgerTotal, 0) >= 1_000
            else 1_000 <= Distance(ledgerTotal, onChainTotal) <= 10_000
                 && !(ledgerTotal == 0 && onChainTotal > 0))
  {
  }

  lemma {:induction false} SumOfSplit(entries: seq<Entry>, k: nat, kinds: set<EntryType>)
    requires k < |entries|
    ensures SumOf(entries[..k + 1], kinds) ==
      SumOf(entries[..k], kinds) + if entries[k].posting.kind in kinds then entries[k].posting.amount else 0
  {
    assert entries[..k + 1][..k] == entries[..k];
  }

  lemma {:induction false} SumOfReleases(entries: seq<Entry>, rows: seq<Entry>)
    requires forall row | row in rows :: row.posting.kind == Release
    ensures EntryTotal(entries + rows) == EntryTotal(entries)
    decreases |rows|
  {
    if rows == [] {
      assert entries + rows == entries;
    } else {
      var n := |rows| - 1;
      assert (entries + rows)[..|entries| + n] == entries + rows[..n];
      SumOfReleases(entries, rows[..n]);
    }
  }

  predicate IsReleaseOf(row: Entry, id: string, amount: int) {
    var p := row.posting;
    && row.Swept? && p.kind == Release && p.debit == "reservations:expired" && p.credit == "protocol:available"
    && p.amount == amount && p.currency == "USDC" && p.reference == id
  }

  /** What a sweep may add to the log: RELEASE rows, one at most for each id in `swept`. */
  ghost predicate ReleasesFor(rows: seq<Entry>, swept: set<string>, reservations: map<string, Reservation>) {
    (forall row | row in rows ::
      row.posting.reference in swept && row.posting.reference in reservations &&
      IsReleaseOf(row, row.posting.reference, reservations[row.posting.reference].amount)) &&
    forall i, j | 0 <= i < j < |rows| :: rows[i].posting.reference != rows[j].posting.reference
  }

  ghost predicate HasRelease(rows: seq<Entry>, id: string) {
    exists row | row in rows :: row.posting.reference == id
  }

  /** The row id and random hash the sweep draws for each expired reservation. */
  datatype Draw = Draw(rowId: string, noise: nat)

  /** The rows' ids and hashes are those drawn for their reservations. */
  ghost predicate Drawn(digest: Digest, rows: seq<Entry>, draws: string -> Draw) {
    forall row | row in rows ::
      var d := draws(row.posting.reference);
      row.id == d.rowId && row.hash == digest(NoisePreimage(d.noise))
  }

  /** The draws collide neither with the log nor with each other. */
  ghost predicate DrawsUnused(digest: Digest, entries: seq<Entry>, ids: set<string>, draws: string -> Draw) {
    (forall id | id in ids :: RowUnused(entries, draws(id).rowId, digest(NoisePreimage(draws(id).noise)))) &&
    forall a, b | a in ids && b in ids && a != b ::
      draws(a).rowId != draws(b).rowId && digest(NoisePreimage(draws(a).noise)) != digest(NoisePreimage(draws(b).noise))
  }

  lemma NextDrawUnused(
      digest: Digest, base: seq<Entry>, added: seq<Entry>, done: set<string>, ids: set<string>, id: string,
      draws: string -> Draw)
    requires DrawsUnused(digest, base, ids, draws) && Drawn(digest, added, draws)
    requires done <= ids && id in ids && id !in done
    requires forall row | row in added :: row.posting.reference in done
    ensures RowUnused(base + added, draws(id).rowId, digest(NoisePreimage(draws(id).noise)))
  {
    forall j | |base| <= j < |base + added|
      ensures (base + added)[j].id != draws(id).rowId
      ensures (base + added)[j].hash != digest(NoisePreimage(draws(id).noise))
    {
      assert (base + added)[j] in added;
    }
  }

  lemma ReleasesAppend(
      rows: seq<Entry>, more: seq<Entry>, swept: set<string>, id: string, reservations: map<string, Reservation>)
    requires ReleasesFor(rows, swept, reservations) && id !in swept && id in reservations
    requires |more| <= 1 && forall row | row in more :: IsReleaseOf(row, id, reservations[id].amount)
    ensures ReleasesFor(rows + more, swept + {id}, reservations)
  {
    forall i, j | 0 <= i < j < |rows + more|
      ensures (rows + more)[i].posting.reference != (rows + more)[j].posting.reference
    {
      assert (rows + more)[i] == rows[i];
      assert rows[i] in rows;
      assert j < |rows| ==> (rows + more)[j] == rows[j];
      assert j >= |rows| ==> (rows + more)[j] in more;
    }
  }

  lemma HasReleaseAppend(rows: seq<Entry>, more: seq<Entry>, done: set<string>, id: string)
    requires id !in done && forall row | row in rows :: row.posting.reference in done
    requires forall row | row in more :: row.posting.reference == id
    ensures forall x | x in done :: HasRelease(rows + more, x) <==> HasRelease(rows, x)
    ensures HasRelease(rows + more, id) <==> more != []
  {
    if more != [] {
      assert more[0] in rows + more;
    }
  }

  /** What the sweep has added once it is through with `done`. While the draws are unused, exactly
      the writable reservations of a positive amount have their row. */
  ghost predicate SweptSoFar(
      digest: Digest, base: seq<Entry>, added: seq<Entry>, done: set<string>, ids: set<string>, writable: set<string>,
      draws: string -> Draw, reservations: map<string, Reservation>)
    requires done <= reservations.Keys
  {
    && ReleasesFor(added, done, reservations) && Drawn(digest, added, draws)
    && (DrawsUnused(digest, base, ids, draws) ==>
          forall id | id in done :: HasRelease(added, id) <==> id in writable && reservations[id].amount > 0)
  }

  /** What `PostRelease` may add to a log. */
  ghost predicate OneRelease(
      digest: Digest, entries: seq<Entry>, id: string, amount: int, draw: Draw, writable: bool, rows: seq<Entry>)
  {
    && (|rows| == if writable && amount > 0
          && RowUnused(entries, draw.rowId, digest(NoisePreimage(draw.noise))) then 1 else 0)
    && (forall row | row in rows ::
          IsReleaseOf(row, id, amount) && row.id == draw.rowId && row.hash == digest(NoisePreimage(draw.noise)))
  }

  lemma SweptGrows(
      digest: Digest, base: seq<Entry>, added: seq<Entry>, done: set<string>, ids: set<string>, writable: set<string>,
      draws: string -> Draw, reservations: map<string, Reservation>, id: string, rows: seq<Entry>)
    requires done <= ids <= reservations.Keys && id in ids && id !in done
    requires SweptSoFar(digest, base, added, done, ids, writable, draws, reservations)
    requires OneRelease(digest, base + added, id, reservations[id].amount, draws(id), id in writable, rows)
    ensures SweptSoFar(digest, base, added + rows, done + {id}, ids, writable, draws, reservations)
  {
    ReleasesAppend(added, rows, done, id, reservations);
    HasReleaseAppend(added, rows, done, id);
    if DrawsUnused(digest, base, ids, draws) {
      NextDrawUnused(digest, base, added, done, ids, id, draws);
    }
  }

  /** The sweep has grown the log from `base` to `entries` and is through with `done`. */
  ghost predicate Sweeping(
      digest: Digest, base: seq<Entry>, entries: seq<Entry>, done: set<string>, ids: set<string>,
      writable: set<string>, draws: string -> Draw, reservations: map<string, Reservation>)
    requires done <= reservations.Keys
  {
    base <= entries && SweptSoFar(digest, base, entries[|base|..], done, ids, writable, draws, reservations)
  }

  lemma SweepOne(
      digest: Digest, base: seq<Entry>, entries: seq<Entry>, done: set<string>, ids: set<string>,
      writable: set<string>, draws: string -> Draw, reservations: map<string, Reservation>, id: string, rows: seq<Entry>)
    requires done <= ids <= reservations.Keys && id in ids && id !in done
    requires Sweeping(digest, base, entries, done, ids, writable, draws, reservations)
    requires OneRelease(digest, entries, id, reservations[id].amount, draws(id), id in writable, rows)
    ensures Sweeping(digest, base, entries + rows, done + {id}, ids, writable, draws, reservations)
  {
    var added := entries[|base|..];
    assert entries == base + added;
    SweptGrows(digest, base, added, done, ids, writable, draws, reservations, id, rows);
    assert (entries + rows)[|base|..] == added + rows;
  }

  class ReconciliationService {
    const ledger: L.LedgerService
    var reservations: map<string, Reservation>

    constructor (ledger: L.LedgerService, reservations: map<string, Reservation>)
      ensures this.ledger == ledger && this.reservations == reservations
    {
      this.ledger := ledger;
      this.reservations := reservations;
    }

    /** `SELECT ... WHERE status = 'ACTIVE' AND expiry < NOW() - INTERVAL '1 hour' LIMIT 10`, pushed
        into the exceptions in whatever order the rows come. */
    method StuckReservations(now: int) returns (exceptions: seq<string>)
      ensures forall id | id in exceptions :: Stuck(reservations, now, id)
      ensures forall i, j | 0 <= i < j < |exceptions| :: exceptions[i] != exceptions[j]
      ensures |exceptions| <= 10
      ensures |exceptions| < 10 ==> forall id | Stuck(reservations, now, id) :: id in exceptions
    {
      exceptions := [];
      var rest := reservations.Keys;
      while rest != {} && |exceptions| < STUCK_LIMIT
        invariant rest <= reservations.Keys && |exceptions| <= STUCK_LIMIT
        invariant forall id | id in exceptions :: Stuck(reservations, now, id) && id !in rest
        invariant forall i, j | 0 <= i < j < |exceptions| :: exceptions[i] != exceptions[j]
        invariant forall id | Stuck(reservations, now, id) :: id in rest || id in exceptions
        decreases |rest|
      {
        var id :| id in rest;
        rest := rest - {id};
        if reservations[id].status == Active && reservations[id].expiry < now - HOUR {
          exceptions := exceptions + [id];
        }
      }
    }

    /** One run. The verdict is about the entry total, which is computed from the log alone. */
    method Reconcile(onChainTotal: int, now: int) returns (report: EngineReport)
      ensures report.ledgerTotal == EntryTotal(ledger.entries)
      ensures report.onChainTotal == onChainTotal
      ensures report.delta == if onChainTotal == 0 then 0 else Distance(onChainTotal, report.ledgerTotal)
      ensures report.matched <==> report.delta <= 10_000
      ensures report.suspended <==> report.delta >= 10_000_000
      ensures report.status == if report.suspended then Suspended else if report.matched then Matched else Alert
      ensures report.ledgerReserved == SumOf(ledger.entries, {Reserve})
      ensures report.ledgerAvailable + report.ledgerReserved == report.ledgerTotal
      ensures forall id | id in report.exceptions :: Stuck(reservations, now, id)
      ensures |report.exceptions| < 10 ==>
        forall id | Stuck(reservations, now, id) :: id in report.exceptions
    {
      var totalCredits, totalDebits, totalReserved := 0, 0, 0;
      var rows := ledger.entries;
      for k := 0 to |rows|
        invariant totalCredits == SumOf(rows[..k], CREDIT_KINDS)
        invariant totalDebits == SumOf(rows[..k], DEBIT_KINDS)
        invariant totalReserved == SumOf(rows[..k], {Reserve})
      {
        SumOfSplit(rows, k, CREDIT_KINDS);
        SumOfSplit(rows, k, DEBIT_KINDS);
        SumOfSplit(rows, k, {Reserve});
        var p := rows[k].posting;
        totalCredits := totalCredits + if p.kind == Deposit then p.amount else 0;
        totalDebits := totalDebits + if p.kind in {Withdrawal, EntryType.Settlement, Fee} then p.amount else 0;
        totalReserved := totalReserved + if p.kind == Reserve then p.amount else 0;
      }
      assert rows[..|rows|] == rows;
      var ledgerTotal := totalCredits - totalDebits;
      var delta := EngineDelta(ledgerTotal, onChainTotal);
      var matched := delta <= ALERT_THRESHOLD;
      var exceptions := StuckReservations(now);
      var status, suspended := Matched, false;
      if !matched && delta >= SUSPENSION_THRESHOLD {
        status, suspended := Suspended, true;
      } else if !matched && delta >= ALERT_THRESHOLD {
        status := Alert;
      }
      report := EngineReport(onChainTotal, ledgerTotal, ledgerTotal - totalReserved, totalReserved,
                             delta, matched, exceptions, status, suspended);
    }

    /** One expired reservation's INSERT, in its own transaction; `writable` says whether it goes
        through, up to constraint violations. */
    method PostRelease(id: string, amount: int, draw: Draw, createdAt: nat, writable: bool)
      returns (ghost rows: seq<Entry>)
      modifies ledger`entries
      ensures ledger.entries == old(ledger.entries) + rows
      ensures OneRelease(ledger.digest, old(ledger.entries), id, amount, draw, writable, rows)
      ensures SweepsLead(ledger.digest, old(ledger.Tables()), ledger.Tables())
    {
      rows := [];
      SweepsReflexive(ledger.digest, ledger.Tables());
      if writable && amount > 0 {
        var row := ledger.InsertSweepRow(draw.rowId, id, amount, draw.noise, createdAt);
        if row.Some? {
          rows := [row.value];
          SweepOnce(ledger.digest, old(ledger.Tables()), row.value);
        }
      }
    }

    /** The loop over the expired rows, in whatever order they were returned. While the draws are
        unused, exactly the writable reservations of a positive amount get their row. */
    method InsertReleases(expired: set<string>, writable: set<string>, draws: string -> Draw, createdAt: nat)
      requires expired <= reservations.Keys
      modifies ledger`entries
      ensures old(ledger.entries) <= ledger.entries
      ensures ReleasesFor(ledger.entries[|old(ledger.entries)|..], expired, reservations)
      ensures DrawsUnused(ledger.digest, old(ledger.entries), expired, draws) ==>
        forall id | id in expired ::
          HasRelease(ledger.entries[|old(ledger.entries)|..], id) <==> id in writable && reservations[id].amount > 0
      ensures SweepsLead(ledger.digest, old(ledger.Tables()), ledger.Tables())
    {
      ghost var start, base := ledger.Tables(), ledger.entries;
      SweepsReflexive(ledger.digest, start);
      var rest := expired;
      while rest != {}
        invariant rest <= expired
        invariant Sweeping(ledger.digest, base, ledger.entries, expired - rest, expired, writable, draws, reservations)
        invariant SweepsLead(ledger.digest, start, ledger.Tables())
        decreases |rest|
      {
        var id :| id in rest;
        ghost var mid := ledger.Tables();
        ghost var rows := PostRelease(id, reservations[id].amount, draws(id), createdAt, id in writable);
        SweepOne(ledger.digest, base, mid.entries, expired - rest, expired, writable, draws, reservations, id, rows);
        SweepsTransitive(ledger.digest, start, mid, ledger.Tables());
        assert expired - (rest - {id}) == expired - rest + {id};
        rest := rest - {id};
      }
      assert expired - rest == expired;
    }

    /** Expire what is due in one UPDATE, then insert a RELEASE row per expired reservation, each in
        its own transaction whose failure is swallowed. Neither ledger total can move, because no
        snapshot is touched and RELEASE rows are not counted. */
    method ExpireStuckReservations(now: int, writable: set<string>, draws: string -> Draw, createdAt: nat)
      returns (count: nat)
      modifies this`reservations, ledger`entries
      ensures reservations == ExpireDue(old(reservations), now) && reservations.Keys == old(reservations).Keys
      ensures forall id | id in old(reservations) ::
        var before, after := old(reservations)[id], reservations[id];
        after.amount == before.amount && after.expiry == before.expiry &&
        after.status == if before.status == Active && before.expiry < now then Expired else before.status
      ensures count == |Due(old(reservations), now)|
      ensures old(ledger.entries) <= ledger.entries
      ensures ReleasesFor(ledger.entries[|old(ledger.entries)|..], Due(old(reservations), now), reservations)
      ensures DrawsUnused(ledger.digest, old(ledger.entries), Due(old(reservations), now), draws) ==>
        forall id | id in Due(old(reservations), now) ::
          HasRelease(ledger.entries[|old(ledger.entries)|..], id) <==> id in writable && reservations[id].amount > 0
      ensures EntryTotal(ledger.entries) == old(EntryTotal(ledger.entries))
      ensures UserTotal(ledger.snapshots) == old(UserTotal(ledger.snapshots))
      ensures SweepsLead(ledger.digest, old(ledger.Tables()), ledger.Tables())
    {
      var expired := Due(reservations, now);
      reservations := ExpireDue(reservations, now);
      count := |expired|;
      ghost var base := ledger.entries;
      InsertReleases(expired, writable, draws, createdAt);
      ghost var added := ledger.entries[|base|..];
      assert ledger.entries == base + added;
      SumOfReleases(base, added);
    }
  }
}
