/**
 The double-entry ledger: an append-only log of hash-chained entries and the balance
 snapshots derived from it, changed by concurrent posting transactions.
 */
module Ledger {

  datatype EntryType =
    Deposit | Withdrawal | Reserve | Release | Settlement | Fee | Yield | Fx | Reversal | Adjustment

  /** What a caller asks to post. */
  datatype Posting = Posting(
    kind: EntryType, debit: string, credit: string, amount: int,
    currency: string, reference: string, metadata: string)

  /** What is fed to SHA-256. Posted entries hash their own fields (metadata excluded) and the
      previous hash; a row inserted by the expiry sweep hashes a random UUID and the clock. */
  datatype Preimage =
    | PostPreimage(id: string, kind: EntryType, debit: string, credit: string, amount: int,
                   currency: string, reference: string, prevHash: string, ts: nat)
    | NoisePreimage(noise: nat)

  type Digest = Preimage -> string

  /** A row of `ledger_entries`. `createdAt` is the start time of the inserting transaction. */
  datatype Entry =
    | Posted(id: string, posting: Posting, prevHash: string, hash: string, createdAt: nat, ts: nat)
    | Swept(id: string, posting: Posting, prevHash: string, hash: string, createdAt: nat, noise: nat)

  /** Committed tables plus the open posting transactions, each holding the row it will insert. */
  datatype State = State(entries: seq<Entry>, snapshots: map<string, int>, pending: map<nat, Entry>)

  function Zeros(n: nat): (z: string)
    ensures |z| == n && forall i | 0 <= i < n :: z[i] == '0'
  {
    if n == 0 then "" else Zeros(n - 1) + "0"
  }

  const ZERO_HASH := Zeros(64)

  const SEEDED_ACCOUNTS := {
    "revenue:platform", "revenue:partner", "revenue:fx", "system:float",
    "custodian:inbound", "custodian:outbound",
    "strategies:aave_v3", "strategies:morpho", "strategies:balancer_v3", "strategies:tbills",
    "suspense:exception", "suspense:reconciliation"
  }

  function Initial(): State {
    State([], map a | a in SEEDED_ACCOUNTS :: 0, map[])
  }

  // ---------------------------------------------------------------- reading and writing rows

  function Balance(snapshots: map<string, int>, account: string): int {
    if account in snapshots then snapshots[account] else 0
  }

  /** `INSERT ... ON CONFLICT (account_id) DO UPDATE SET balance = balance + delta`. */
  function Bump(snapshots: map<string, int>, account: string, delta: int): map<string, int> {
    snapshots[account := Balance(snapshots, account) + delta]
  }

  predicate Touches(e: Entry, account: string) {
    e.posting.debit == account || e.posting.credit == account
  }

  /** Row `i` is one that `ORDER BY created_at DESC LIMIT 1` may return for `account`. */
  predicate IsLatest(entries: seq<Entry>, account: string, i: nat) {
    i < |entries| && Touches(entries[i], account) &&
    forall j | 0 <= j < |entries| && Touches(entries[j], account) ::
      entries[j].createdAt <= entries[i].createdAt
  }

  /** `h` is a hash the previous-hash query may yield for `account`; ties are left open. */
  predicate PrevOf(entries: seq<Entry>, account: string, h: string) {
    ((forall j | 0 <= j < |entries| :: !Touches(entries[j], account)) && h == ZERO_HASH) ||
    exists i | 0 <= i < |entries| :: IsLatest(entries, account, i) && entries[i].hash == h
  }

  /** `h` is a hash the sweep's subquery may yield: that of a newest row of the whole log. */
  predicate NewestHash(entries: seq<Entry>, h: string) {
    (entries == [] && h == ZERO_HASH) ||
    exists i | 0 <= i < |entries| :: IsNewest(entries, i) && entries[i].hash == h
  }

  /** The subquery saw the log as it was when its statement began. */
  predicate NewestHashBefore(entries: seq<Entry>, h: string) {
    exists n | 0 <= n <= |entries| :: NewestHash(entries[..n], h)
  }

  predicate IsNewest(entries: seq<Entry>, i: nat) {
    i < |entries| && forall j | 0 <= j < |entries| :: entries[j].createdAt <= entries[i].createdAt
  }

  function Record(e: Entry): Preimage {
    match e
    case Posted(id, p, prevHash, _, _, ts) =>
      PostPreimage(id, p.kind, p.debit, p.credit, p.amount, p.currency, p.reference, prevHash, ts)
    case Swept(_, _, _, _, _, noise) => NoisePreimage(noise)
  }

  function MakeEntry(digest: Digest, p: Posting, id: string, prevHash: string, ts: nat, createdAt: nat): Entry {
    var h := digest(PostPreimage(id, p.kind, p.debit, p.credit, p.amount, p.currency, p.reference, prevHash, ts));
    Posted(id, p, prevHash, h, createdAt, ts)
  }

  /** The primary key on `id` and the UNIQUE constraint on `hash`. */
  predicate Insertable(entries: seq<Entry>, e: Entry) {
    forall j | 0 <= j < |entries| :: entries[j].id != e.id && entries[j].hash != e.hash
  }

  /** The committed effect of a posting: the row and both snapshot adjustments. */
  function Post(s: State, e: Entry): State {
    var p := e.posting;
    s.(entries := s.entries + [e],
       snapshots := Bump(Bump(s.snapshots, p.debit, -p.amount), p.credit, p.amount))
  }

  /** The posting of the RELEASE row a sweep writes for one expired reservation. */
  function ReleasePosting(reference: string, amount: int): Posting {
    Posting(Release, "reservations:expired", "protocol:available", amount, "USDC", reference, "{}")
  }

  // ---------------------------------------------------------------- steps

  datatype Step =
    | Begin(tx: nat, posting: Posting, id: string, prevHash: string, ts: nat, createdAt: nat)
    | Commit(tx: nat)
    | Rollback(tx: nat)
    | SweepInsert(row: Entry)

  predicate Enabled(digest: Digest, s: State, step: Step) {
    match step
    case Begin(tx, p, _, prevHash, _, _) => tx !in s.pending && PrevOf(s.entries, p.debit, prevHash)
    case Commit(tx) => tx in s.pending
    case Rollback(tx) => tx in s.pending
    case SweepInsert(row) =>
      row.Swept? && row.posting == ReleasePosting(row.posting.reference, row.posting.amount) && row.posting.amount > 0 &&
      row.hash == digest(Record(row)) && NewestHashBefore(s.entries, row.prevHash) && Insertable(s.entries, row)
  }

  /** A `Begin` with a non-positive amount is the rejection before any transaction opens; a
      `Commit` that violates a constraint is the error path that rolls back. */
  function Do(digest: Digest, s: State, step: Step): State
    requires Enabled(digest, s, step)
  {
    match step
    case Begin(tx, p, id, prevHash, ts, createdAt) =>
      if p.amount <= 0 then s
      else s.(pending := s.pending[tx := MakeEntry(digest, p, id, prevHash, ts, createdAt)])
    case Commit(tx) =>
      var closed := s.(pending := s.pending - {tx});
      if Insertable(s.entries, s.pending[tx]) then Post(closed, s.pending[tx]) else closed
    case Rollback(tx) => s.(pending := s.pending - {tx})
    case SweepInsert(row) => s.(entries := s.entries + [row])
  }

  /** `s'` is where some interleaving of steps leads from `s`. */
  predicate Leads(digest: Digest, s: State, steps: seq<Step>, s': State)
    decreases |steps|
  {
    if steps == [] then s == s'
    else Enabled(digest, s, steps[0]) && Leads(digest, Do(digest, s, steps[0]), steps[1..], s')
  }

  lemma {:induction false} LeadsConcat(
      digest: Digest, s: State, first: seq<Step>, mid: State, second: seq<Step>, s': State)
    requires Leads(digest, s, first, mid) && Leads(digest, mid, second, s')
    ensures Leads(digest, s, first + second, s')
    decreases |first|
  {
    if first == [] {
      assert first + second == second;
    } else {
      assert (first + second)[1..] == first[1..] + second;
      LeadsConcat(digest, Do(digest, s, first[0]), first[1..], mid, second, s');
    }
  }

  predicate OnlySweeps(steps: seq<Step>) {
    forall step | step in steps :: step.SweepInsert?
  }

  /** Sweep inserts alone lead from `s` to `s'`. */
  ghost predicate SweepsLead(digest: Digest, s: State, s': State) {
    exists steps :: OnlySweeps(steps) && Leads(digest, s, steps, s')
  }

  lemma SweepsReflexive(digest: Digest, s: State)
    ensures SweepsLead(digest, s, s)
  {
    assert OnlySweeps([]) && Leads(digest, s, [], s);
  }

  lemma SweepsTransitive(digest: Digest, s: State, mid: State, s': State)
    requires SweepsLead(digest, s, mid) && SweepsLead(digest, mid, s')
    ensures SweepsLead(digest, s, s')
  {
    var first :| OnlySweeps(first) && Leads(digest, s, first, mid);
    var second :| OnlySweeps(second) && Leads(digest, mid, second, s');
    LeadsConcat(digest, s, first, mid, second, s');
    assert OnlySweeps(first + second);
  }

  lemma SweepOnce(digest: Digest, s: State, row: Entry)
    requires Enabled(digest, s, SweepInsert(row))
    ensures SweepsLead(digest, s, Do(digest, s, SweepInsert(row)))
  {
    assert [SweepInsert(row)][1..] == [] && OnlySweeps([SweepInsert(row)]);
    assert Leads(digest, s, [SweepInsert(row)], Do(digest, s, SweepInsert(row)));
  }

  lemma {:induction false} LeadsOnce(digest: Digest, s: State, steps: seq<Step>, a: State, b: State)
    requires Leads(digest, s, steps, a) && Leads(digest, s, steps, b)
    ensures a == b
    decreases |steps|
  {
    if steps != [] {
      LeadsOnce(digest, Do(digest, s, steps[0]), steps[1..], a, b);
    }
  }

  lemma {:induction false} LeadsSplit(digest: Digest, s: State, steps: seq<Step>, s': State, k: nat) returns (mid: State)
    requires Leads(digest, s, steps, s') && k <= |steps|
    ensures Leads(digest, s, steps[..k], mid) && Leads(digest, mid, steps[k..], s')
    decreases |steps|
  {
    if k == 0 {
      assert steps[..0] == [] && steps[0..] == steps;
      mid := s;
    } else {
      mid := LeadsSplit(digest, Do(digest, s, steps[0]), steps[1..], s', k - 1);
      assert steps[..k][1..] == steps[1..][..k - 1] && steps[k..] == steps[1..][k - 1..];
    }
  }

  lemma {:induction false} LogGrows(digest: Digest, s: State, steps: seq<Step>, s': State)
    requires Leads(digest, s, steps, s')
    ensures s.entries <= s'.entries
    decreases |steps|
  {
    if steps != [] {
      LogGrows(digest, Do(digest, s, steps[0]), steps[1..], s');
    }
  }

  /** A sequential `postEntry` is the two-step run of its transaction. */
  lemma PostIsARun(digest: Digest, s: State, tx: nat, p: Posting, id: string, prevHash: string, ts: nat, createdAt: nat)
    requires tx !in s.pending && p.amount > 0 && PrevOf(s.entries, p.debit, prevHash)
    requires Insertable(s.entries, MakeEntry(digest, p, id, prevHash, ts, createdAt))
    ensures Leads(digest, s, [Begin(tx, p, id, prevHash, ts, createdAt), Commit(tx)],
                  Post(s, MakeEntry(digest, p, id, prevHash, ts, createdAt)))
  {
  }

  // ---------------------------------------------------------------- weighted totals

  ghost function Pick(m: map<string, int>): (a: string)
    requires m != map[]
    ensures a in m
  {
    var a :| a in m; a
  }

  /** The sum over all snapshots of balance times weight. */
  ghost function Weighted(m: map<string, int>, w: string -> int): int
    decreases |m|
  {
    if m == map[] then 0
    else
      var a := Pick(m);
      m[a] * w(a) + Weighted(m - {a}, w)
  }

  lemma {:induction false} WeightedRemove(m: map<string, int>, a: string, w: string -> int)
    requires a in m
    ensures Weighted(m, w) == m[a] * w(a) + Weighted(m - {a}, w)
    decreases |m|
  {
    var b := Pick(m);
    if a != b {
      WeightedRemove(m - {b}, a, w);
      WeightedRemove(m - {a}, b, w);
      assert m - {b} - {a} == m - {a} - {b};
    }
  }

  lemma WeightedBump(m: map<string, int>, a: string, delta: int, w: string -> int)
    ensures Weighted(Bump(m, a, delta), w) == Weighted(m, w) + delta * w(a)
  {
    var m' := Bump(m, a, delta);
    WeightedRemove(m', a, w);
    if a in m {
      WeightedRemove(m, a, w);
      assert m' - {a} == m - {a};
      assert (m[a] + delta) * w(a) == m[a] * w(a) + delta * w(a);
    } else {
      assert m' - {a} == m;
    }
  }

  lemma {:induction false} WeightedZero(m: map<string, int>, w: string -> int)
    requires forall a | a in m :: m[a] == 0
    ensures Weighted(m, w) == 0
    decreases |m|
  {
    if m != map[] {
      WeightedZero(m - {Pick(m)}, w);
    }
  }

  /** The weighted sum picks out one account when only that account weighs anything. */
  lemma {:induction false} WeightedSingle(m: map<string, int>, account: string, w: string -> int)
    requires forall a :: w(a) == if a == account then 1 else 0
    ensures Weighted(m, w) == Balance(m, account)
    decreases |m|
  {
    if m != map[] {
      WeightedSingle(m - {Pick(m)}, account, w);
    }
  }

  /** What one entry moves, seen through weights; sweep rows touch no snapshot. */
  ghost function EntryFlow(e: Entry, w: string -> int): int {
    match e
    case Posted(_, p, _, _, _, _) => (-p.amount) * w(p.debit) + p.amount * w(p.credit)
    case Swept(_, _, _, _, _, _) => 0
  }

  ghost function Flow(entries: seq<Entry>, w: string -> int): int {
    if entries == [] then 0
    else Flow(entries[..|entries| - 1], w) + EntryFlow(entries[|entries| - 1], w)
  }

  lemma FlowAppend(entries: seq<Entry>, e: Entry, w: string -> int)
    ensures Flow(entries + [e], w) == Flow(entries, w) + EntryFlow(e, w)
  {
  }

  /** Posting changes any weighted total by the amount times the difference of the weights. */
  lemma PostMoves(s: State, e: Entry, w: string -> int)
    ensures var p := e.posting;
      Weighted(Post(s, e).snapshots, w) == Weighted(s.snapshots, w) + (-p.amount) * w(p.debit) + p.amount * w(p.credit)
  {
    var p := e.posting;
    WeightedBump(s.snapshots, p.debit, -p.amount, w);
    WeightedBump(Bump(s.snapshots, p.debit, -p.amount), p.credit, p.amount, w);
  }

  lemma PostConserves(s: State, e: Entry, w: string -> int)
    requires e.Posted?
    requires Weighted(s.snapshots, w) == Flow(s.entries, w)
    ensures Weighted(Post(s, e).snapshots, w) == Flow(Post(s, e).entries, w)
  {
    PostMoves(s, e, w);
    FlowAppend(s.entries, e, w);
  }

  ghost predicate PendingPosted(s: State) {
    forall tx | tx in s.pending :: s.pending[tx].Posted? && s.pending[tx].posting.amount > 0
  }

  /** The conservation law behind every total: for any weighting of accounts, the snapshots
      weigh exactly what the committed posted entries moved. */
  ghost predicate Conserved(s: State, w: string -> int) {
    Weighted(s.snapshots, w) == Flow(s.entries, w)
  }

  lemma StepConserves(digest: Digest, s: State, step: Step, w: string -> int)
    requires Enabled(digest, s, step) && PendingPosted(s) && Conserved(s, w)
    ensures PendingPosted(Do(digest, s, step)) && Conserved(Do(digest, s, step), w)
  {
    match step
    case Begin(_, _, _, _, _, _) =>
    case Rollback(_) =>
    case Commit(tx) =>
      if Insertable(s.entries, s.pending[tx]) {
        PostConserves(s.(pending := s.pending - {tx}), s.pending[tx], w);
      }
    case SweepInsert(row) => FlowAppend(s.entries, row, w);
  }

  lemma {:induction false} RunConserves(digest: Digest, s: State, steps: seq<Step>, s': State, w: string -> int)
    requires Leads(digest, s, steps, s') && PendingPosted(s) && Conserved(s, w)
    ensures PendingPosted(s') && Conserved(s', w)
    decreases |steps|
  {
    if steps != [] {
      StepConserves(digest, s, steps[0], w);
      RunConserves(digest, Do(digest, s, steps[0]), steps[1..], s', w);
    }
  }

  /** Conservation in every state reachable under any interleaving. */
  lemma ReachableConserved(digest: Digest, steps: seq<Step>, s: State, w: string -> int)
    requires Leads(digest, Initial(), steps, s)
    ensures Conserved(s, w)
  {
    WeightedZero(Initial().snapshots, w);
    RunConserves(digest, Initial(), steps, s, w);
  }

  function Credits(entries: seq<Entry>, account: string): int {
    if entries == [] then 0
    else
      var e := entries[|entries| - 1];
      Credits(entries[..|entries| - 1], account) +
      if e.Posted? && e.posting.credit == account then e.posting.amount else 0
  }

  function Debits(entries: seq<Entry>, account: string): int {
    if entries == [] then 0
    else
      var e := entries[|entries| - 1];
      Debits(entries[..|entries| - 1], account) +
      if e.Posted? && e.posting.debit == account then e.posting.amount else 0
  }

  lemma {:induction false} FlowSingle(entries: seq<Entry>, account: string, w: string -> int)
    requires forall a :: w(a) == if a == account then 1 else 0
    ensures Flow(entries, w) == Credits(entries, account) - Debits(entries, account)
  {
    if entries != [] {
      FlowSingle(entries[..|entries| - 1], account, w);
    }
  }

  lemma {:induction false} FlowOfOnes(entries: seq<Entry>, w: string -> int)
    requires forall a :: w(a) == 1
    ensures Flow(entries, w) == 0
  {
    if entries != [] {
      FlowOfOnes(entries[..|entries| - 1], w);
    }
  }

  /** The sum of every snapshot balance. */
  ghost function GrandTotal(snapshots: map<string, int>): int {
    Weighted(snapshots, _ => 1)
  }

  /** Under any interleaving of posting transactions, commits, rollbacks and sweep inserts,
      each snapshot is its account's committed credits minus debits, and the books balance. */
  lemma SnapshotsMirrorEntries(digest: Digest, steps: seq<Step>, s: State, account: string)
    requires Leads(digest, Initial(), steps, s)
    ensures Balance(s.snapshots, account) == Credits(s.entries, account) - Debits(s.entries, account)
    ensures GrandTotal(s.snapshots) == 0
  {
    var only := (a: string) => if a == account then 1 else 0;
    ReachableConserved(digest, steps, s, only);
    WeightedSingle(s.snapshots, account, only);
    FlowSingle(s.entries, account, only);
    ReachableConserved(digest, steps, s, _ => 1);
    FlowOfOnes(s.entries, _ => 1);
  }
}
