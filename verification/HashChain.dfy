/**
 Tamper evidence of the ledger: the links formed by `prevHash`, under concurrent posting.
 SHA-256 over the serialised record is an injective function `digest`.
 */
module HashChain {
  import opened Prelude
  import opened Ledger

  ghost predicate Injective(digest: Digest) {
    forall a, b :: digest(a) == digest(b) ==> a == b
  }

  /** `e` links to the zero string or to one of the first `bound` rows; a posting's link touches its
      debit account. */
  ghost predicate LinkedBelow(entries: seq<Entry>, bound: nat, e: Entry)
    requires bound <= |entries|
  {
    e.prevHash == ZERO_HASH ||
    exists j | 0 <= j < bound :: entries[j].hash == e.prevHash && (e.Posted? ==> Touches(entries[j], e.posting.debit))
  }

  ghost predicate Linked(entries: seq<Entry>) {
    forall i | 0 <= i < |entries| :: LinkedBelow(entries, i, entries[i])
  }

  ghost predicate Hashed(digest: Digest, entries: seq<Entry>) {
    (forall i | 0 <= i < |entries| :: entries[i].hash == digest(Record(entries[i]))) &&
    (forall i, j | 0 <= i < j < |entries| :: entries[i].hash != entries[j].hash && entries[i].id != entries[j].id)
  }

  ghost predicate ChainInv(digest: Digest, s: State) {
    Hashed(digest, s.entries) && Linked(s.entries) &&
    forall tx | tx in s.pending ::
      var e := s.pending[tx];
      e.Posted? && e.hash == digest(Record(e)) && LinkedBelow(s.entries, |s.entries|, e)
  }

  lemma LinkSurvivesAppend(entries: seq<Entry>, more: seq<Entry>, bound: nat, e: Entry)
    requires bound <= |entries| && LinkedBelow(entries, bound, e)
    ensures LinkedBelow(entries + more, bound, e)
  {
    if e.prevHash != ZERO_HASH {
      var j :| 0 <= j < bound && entries[j].hash == e.prevHash && (e.Posted? ==> Touches(entries[j], e.posting.debit));
      assert (entries + more)[j] == entries[j];
    }
  }

  lemma AppendKeepsChain(digest: Digest, s: State, e: Entry, pending: map<nat, Entry>)
    requires ChainInv(digest, s) && Insertable(s.entries, e)
    requires e.hash == digest(Record(e))
    requires LinkedBelow(s.entries, |s.entries|, e)
    requires forall tx | tx in pending :: tx in s.pending && pending[tx] == s.pending[tx]
    ensures ChainInv(digest, State(s.entries + [e], map[], pending))
  {
    var grown := s.entries + [e];
    forall i | 0 <= i < |grown| ensures LinkedBelow(grown, i, grown[i]) {
      if i < |s.entries| {
        LinkSurvivesAppend(s.entries, [e], i, s.entries[i]);
      } else {
        LinkSurvivesAppend(s.entries, [e], |s.entries|, e);
      }
    }
    forall tx | tx in pending ensures LinkedBelow(grown, |grown|, pending[tx]) {
      LinkSurvivesAppend(s.entries, [e], |s.entries|, s.pending[tx]);
    }
  }

  lemma StepKeepsChain(digest: Digest, s: State, step: Step)
    requires Enabled(digest, s, step) && ChainInv(digest, s)
    ensures ChainInv(digest, Do(digest, s, step))
  {
    match step
    case Begin(tx, p, id, prevHash, ts, createdAt) =>
    case Rollback(_) =>
    case Commit(tx) =>
      if Insertable(s.entries, s.pending[tx]) {
        AppendKeepsChain(digest, s, s.pending[tx], s.pending - {tx});
      }
    case SweepInsert(row) =>
      var n :| 0 <= n <= |s.entries| && NewestHash(s.entries[..n], row.prevHash);
      assert LinkedBelow(s.entries, |s.entries|, row);
      AppendKeepsChain(digest, s, row, s.pending);
  }

  lemma {:induction false} RunKeepsChain(digest: Digest, s: State, steps: seq<Step>, s': State)
    requires Leads(digest, s, steps, s') && ChainInv(digest, s)
    ensures ChainInv(digest, s')
    decreases |steps|
  {
    if steps != [] {
      StepKeepsChain(digest, s, steps[0]);
      RunKeepsChain(digest, Do(digest, s, steps[0]), steps[1..], s');
    }
  }

  /** Even with forks from concurrent posts, every committed row links to the zero string or to the
      hash of an earlier committed row, which touches the debit account if the row is a posting. */
  lemma ReachableLinked(digest: Digest, steps: seq<Step>, s: State)
    requires Leads(digest, Initial(), steps, s)
    ensures Linked(s.entries) && Hashed(digest, s.entries)
  {
    RunKeepsChain(digest, Initial(), steps, s);
  }

  function RowWithHash(entries: seq<Entry>, h: string): Option<nat> {
    FindFirst(entries, (e: Entry) => e.hash == h)
  }

  lemma LinkGoesBack(entries: seq<Entry>, i: nat)
    requires Linked(entries) && i < |entries| && entries[i].prevHash != ZERO_HASH
    ensures RowWithHash(entries, entries[i].prevHash).Some?
    ensures RowWithHash(entries, entries[i].prevHash).value < i
  {
  }

  /** The hashed records met by following `prevHash` from row `i`. A sweep row ends the walk: its
      own link is not under its hash. Each hop goes to an earlier row, so the walk terminates. */
  ghost function History(entries: seq<Entry>, i: nat): (records: seq<Preimage>)
    requires Linked(entries) && i < |entries|
    ensures |records| <= i + 1
    ensures forall r | r in records :: exists j | 0 <= j <= i :: Record(entries[j]) == r
    decreases i
  {
    var e := entries[i];
    if e.Swept? || e.prevHash == ZERO_HASH then [Record(e)]
    else
      LinkGoesBack(entries, i);
      [Record(e)] + History(entries, RowWithHash(entries, e.prevHash).value)
  }

  /** Tamper evidence: in any two logs reachable by any runs, rows with equal hashes have equal
      chained histories, field for field of everything that is hashed. */
  lemma {:induction false} EqualHashesEqualHistories(
      digest: Digest, steps1: seq<Step>, s1: State, i1: nat, steps2: seq<Step>, s2: State, i2: nat)
    requires Injective(digest)
    requires Leads(digest, Initial(), steps1, s1) && Leads(digest, Initial(), steps2, s2)
    requires i1 < |s1.entries| && i2 < |s2.entries| && s1.entries[i1].hash == s2.entries[i2].hash
    ensures Linked(s1.entries) && Linked(s2.entries)
    ensures History(s1.entries, i1) == History(s2.entries, i2)
    decreases i1
  {
    ReachableLinked(digest, steps1, s1);
    ReachableLinked(digest, steps2, s2);
    var e1, e2 := s1.entries[i1], s2.entries[i2];
    assert Record(e1) == Record(e2);
    if e1.Posted? && e1.prevHash != ZERO_HASH {
      LinkGoesBack(s1.entries, i1);
      LinkGoesBack(s2.entries, i2);
      var j1 := RowWithHash(s1.entries, e1.prevHash).value;
      var j2 := RowWithHash(s2.entries, e2.prevHash).value;
      EqualHashesEqualHistories(digest, steps1, s1, j1, steps2, s2, j2);
    }
  }

  /** Concurrent posts on one account fork the chain: both read the previous hash before either
      commits, and both rows land with the same `prevHash`. */
  lemma ConcurrentPostsFork(digest: Digest, p: Posting) returns (steps: seq<Step>, s: State)
    requires Injective(digest) && p.amount > 0
    ensures Leads(digest, Initial(), steps, s)
    ensures |s.entries| == 2 && s.entries[0].prevHash == s.entries[1].prevHash
  {
    var b0, b1 := Begin(0, p, "a", ZERO_HASH, 0, 0), Begin(1, p, "b", ZERO_HASH, 0, 0);
    steps := [b0, b1, Commit(0), Commit(1)];
    var s0 := Initial();
    var e0, e1 := MakeEntry(digest, p, "a", ZERO_HASH, 0, 0), MakeEntry(digest, p, "b", ZERO_HASH, 0, 0);
    var s1 := Do(digest, s0, b0);
    var s2 := Do(digest, s1, b1);
    var s3 := Do(digest, s2, Commit(0));
    assert s3.entries == [e0];
    assert Record(e0) != Record(e1);
    assert e0.hash == digest(Record(e0)) && e1.hash == digest(Record(e1));
    assert Insertable(s3.entries, s3.pending[1]);
    s := Do(digest, s3, Commit(1));
    assert steps[1..] == [b1, Commit(0), Commit(1)];
    assert steps[1..][1..] == [Commit(0), Commit(1)];
    assert steps[1..][1..][1..] == [Commit(1)];
    assert Leads(digest, s3, [Commit(1)], s) by { assert [Commit(1)][1..] == []; }
    assert Leads(digest, s2, [Commit(0), Commit(1)], s);
    assert Leads(digest, s1, [b1, Commit(0), Commit(1)], s);
  }

  // ---------------------------------------------------------------- what a hash covers

  /** `e` is a row of some log that some run reaches. */
  ghost predicate Occurs(digest: Digest, e: Entry) {
    exists steps, s :: Leads(digest, Initial(), steps, s) && e in s.entries
  }

  /** No reachable log holds a row with `e`'s hash and another value of the field. */
  ghost predicate Covered<T>(digest: Digest, e: Entry, field: Entry -> T) {
    forall other | Occurs(digest, other) && other.hash == e.hash :: field(other) == field(e)
  }

  function Kind(e: Entry): EntryType { e.posting.kind }
  function Debit(e: Entry): string { e.posting.debit }
  function Credit(e: Entry): string { e.posting.credit }
  function Currency(e: Entry): string { e.posting.currency }
  function Amount(e: Entry): int { e.posting.amount }
  function Reference(e: Entry): string { e.posting.reference }
  function Metadata(e: Entry): string { e.posting.metadata }
  function Id(e: Entry): string { e.id }
  function Link(e: Entry): string { e.prevHash }

  ghost predicate SweepsRelease(entries: seq<Entry>) {
    forall e | e in entries && e.Swept? ::
      e.posting == ReleasePosting(e.posting.reference, e.posting.amount) && e.posting.amount > 0
  }

  lemma {:induction false} RunSweepsRelease(digest: Digest, s: State, steps: seq<Step>, s': State)
    requires Leads(digest, s, steps, s') && SweepsRelease(s.entries) && PendingPosted(s)
    ensures SweepsRelease(s'.entries)
    decreases |steps|
  {
    if steps != [] {
      RunSweepsRelease(digest, Do(digest, s, steps[0]), steps[1..], s');
    }
  }

  lemma OccursMeans(digest: Digest, e: Entry)
    requires Occurs(digest, e)
    ensures e.hash == digest(Record(e))
    ensures e.Swept? ==> e.posting == ReleasePosting(e.posting.reference, e.posting.amount) && e.posting.amount > 0
  {
    var steps, s :| Leads(digest, Initial(), steps, s) && e in s.entries;
    ReachableLinked(digest, steps, s);
    RunSweepsRelease(digest, Initial(), steps, s);
  }

  /** One sweep insert on a fresh ledger. */
  lemma SweepAlone(digest: Digest, id: string, reference: string, amount: int, noise: nat)
    returns (row: Entry, s: State)
    requires amount > 0
    ensures row == Swept(id, ReleasePosting(reference, amount), ZERO_HASH, digest(NoisePreimage(noise)), 0, noise)
    ensures Leads(digest, Initial(), [SweepInsert(row)], s) && s.entries == [row]
    ensures Occurs(digest, row)
  {
    row := Swept(id, ReleasePosting(reference, amount), ZERO_HASH, digest(NoisePreimage(noise)), 0, noise);
    assert Initial().entries[..0] == [] && NewestHash(Initial().entries[..0], ZERO_HASH);
    s := Do(digest, Initial(), SweepInsert(row));
    assert [SweepInsert(row)][1..] == [];
    assert Leads(digest, Initial(), [SweepInsert(row)], s) && row in s.entries;
  }

  /** A sweep row with the given noise can also come second, and then links to a real row. */
  lemma SweepSecond(digest: Digest, noise: nat) returns (row: Entry)
    requires Injective(digest)
    ensures Occurs(digest, row) && row.hash == digest(NoisePreimage(noise)) && row.prevHash != ZERO_HASH
  {
    var other := if digest(NoisePreimage(noise + 1)) != ZERO_HASH then noise + 1 else noise + 2;
    assert NoisePreimage(other) != NoisePreimage(noise) && digest(NoisePreimage(other)) != ZERO_HASH by {
      assert NoisePreimage(noise + 1) != NoisePreimage(noise + 2);
    }
    var first, mid := SweepAlone(digest, "first", "r", 1, other);
    row := Swept("second", ReleasePosting("r", 1), first.hash, digest(NoisePreimage(noise)), 0, noise);
    assert "first"[0] != "second"[0];
    assert mid.entries[..1] == mid.entries && IsNewest(mid.entries, 0) && NewestHash(mid.entries[..1], row.prevHash);
    var s := Do(digest, mid, SweepInsert(row));
    assert [SweepInsert(row)][1..] == [];
    assert Leads(digest, mid, [SweepInsert(row)], s);
    LeadsConcat(digest, Initial(), [SweepInsert(first)], mid, [SweepInsert(row)], s);
    assert row in s.entries;
  }

  /** Exactly what the hash of a row of any reachable log covers: type, accounts and currency always;
      amount, reference, id and previous hash if and only if the row was posted, not swept; metadata if
      and only if it was swept, where they are fixed. */
  lemma WhatHashesCover(digest: Digest, e: Entry)
    requires Injective(digest) && Occurs(digest, e)
    ensures Covered(digest, e, Kind) && Covered(digest, e, Debit) && Covered(digest, e, Credit) && Covered(digest, e, Currency)
    ensures Covered(digest, e, Amount) <==> e.Posted?
    ensures Covered(digest, e, Reference) <==> e.Posted?
    ensures Covered(digest, e, Id) <==> e.Posted?
    ensures Covered(digest, e, Link) <==> e.Posted?
    ensures Covered(digest, e, Metadata) <==> e.Swept?
  {
    CoveredAlways(digest, e);
    if e.Swept? {
      SweptNotCovered(digest, e);
    } else {
      PostedCovered(digest, e);
      MetadataNotCovered(digest, e);
    }
  }

  lemma CoveredAlways(digest: Digest, e: Entry)
    requires Injective(digest) && Occurs(digest, e)
    ensures Covered(digest, e, Kind) && Covered(digest, e, Debit) && Covered(digest, e, Credit) && Covered(digest, e, Currency)
    ensures e.Swept? ==> Covered(digest, e, Metadata)
  {
    OccursMeans(digest, e);
    forall other | Occurs(digest, other) && other.hash == e.hash
      ensures other.posting.kind == e.posting.kind && other.posting.currency == e.posting.currency
      ensures other.posting.debit == e.posting.debit && other.posting.credit == e.posting.credit
      ensures e.Swept? ==> other.posting.metadata == e.posting.metadata
    {
      OccursMeans(digest, other);
      assert Record(other) == Record(e);
    }
  }

  lemma PostedCovered(digest: Digest, e: Entry)
    requires Injective(digest) && Occurs(digest, e) && e.Posted?
    ensures Covered(digest, e, Amount) && Covered(digest, e, Reference) && Covered(digest, e, Id) && Covered(digest, e, Link)
  {
    OccursMeans(digest, e);
    forall other | Occurs(digest, other) && other.hash == e.hash ensures Record(other) == Record(e) {
      OccursMeans(digest, other);
    }
  }

  lemma SweptNotCovered(digest: Digest, e: Entry)
    requires Injective(digest) && Occurs(digest, e) && e.Swept?
    ensures !Covered(digest, e, Amount) && !Covered(digest, e, Reference) && !Covered(digest, e, Id) && !Covered(digest, e, Link)
  {
    OccursMeans(digest, e);
    var p := e.posting;
    var other, s := SweepAlone(digest, e.id + "x", p.reference + "x", p.amount + 1, e.noise);
    assert Amount(other) != Amount(e) && |Reference(other)| != |Reference(e)| && |Id(other)| != |Id(e)|;
    var second := SweepSecond(digest, e.noise);
    assert Link(other) == ZERO_HASH && Link(second) != ZERO_HASH;
  }

  // ---------------------------------------------------------------- metadata is outside every hash

  /** The row with other metadata, if it was posted. */
  function Relabel(e: Entry, metadata: string): Entry {
    match e
    case Posted(id, p, prevHash, hash, createdAt, ts) =>
      Posted(id, p.(metadata := metadata), prevHash, hash, createdAt, ts)
    case Swept(_, _, _, _, _, _) => e
  }

  function RelabelAll(entries: seq<Entry>, metadata: string): (r: seq<Entry>)
    ensures |r| == |entries| && forall i | 0 <= i < |entries| :: r[i] == Relabel(entries[i], metadata)
  {
    seq(|entries|, i requires 0 <= i < |entries| => Relabel(entries[i], metadata))
  }

  function RelabelState(s: State, metadata: string): State {
    State(RelabelAll(s.entries, metadata), s.snapshots, map tx | tx in s.pending :: Relabel(s.pending[tx], metadata))
  }

  function RelabelStep(step: Step, metadata: string): Step {
    if step.Begin? then step.(posting := step.posting.(metadata := metadata)) else step
  }

  function RelabelSteps(steps: seq<Step>, metadata: string): seq<Step> {
    if steps == [] then [] else [RelabelStep(steps[0], metadata)] + RelabelSteps(steps[1..], metadata)
  }

  lemma RelabelKeepsPrev(entries: seq<Entry>, metadata: string, account: string, h: string)
    requires PrevOf(entries, account, h)
    ensures PrevOf(RelabelAll(entries, metadata), account, h)
  {
    var relabelled := RelabelAll(entries, metadata);
    if exists j | 0 <= j < |entries| :: Touches(entries[j], account) {
      var i :| 0 <= i < |entries| && IsLatest(entries, account, i) && entries[i].hash == h;
      assert IsLatest(relabelled, account, i) && relabelled[i].hash == h;
    }
  }

  lemma RelabelKeepsNewest(entries: seq<Entry>, metadata: string, h: string)
    requires NewestHashBefore(entries, h)
    ensures NewestHashBefore(RelabelAll(entries, metadata), h)
  {
    var relabelled := RelabelAll(entries, metadata);
    var n :| 0 <= n <= |entries| && NewestHash(entries[..n], h);
    if entries[..n] != [] {
      var i :| 0 <= i < n && IsNewest(entries[..n], i) && entries[..n][i].hash == h;
      forall j | 0 <= j < n ensures relabelled[..n][j].createdAt == entries[..n][j].createdAt {
      }
      assert IsNewest(relabelled[..n], i) && relabelled[..n][i].hash == h;
    }
    assert NewestHash(relabelled[..n], h);
  }

  lemma RelabelCommit(digest: Digest, s: State, tx: nat, metadata: string)
    requires tx in s.pending
    ensures Do(digest, RelabelState(s, metadata), Commit(tx)) == RelabelState(Do(digest, s, Commit(tx)), metadata)
  {
    var r, r' := RelabelState(s, metadata), RelabelState(Do(digest, s, Commit(tx)), metadata);
    RelabelInsertable(s.entries, s.pending[tx], metadata);
    assert r.pending - {tx} == r'.pending;
    assert Do(digest, r, Commit(tx)).entries == r'.entries;
  }

  lemma RelabelBegin(digest: Digest, s: State, step: Step, metadata: string)
    requires step.Begin? && Enabled(digest, s, step)
    ensures Enabled(digest, RelabelState(s, metadata), RelabelStep(step, metadata))
    ensures Do(digest, RelabelState(s, metadata), RelabelStep(step, metadata)) == RelabelState(Do(digest, s, step), metadata)
  {
    RelabelKeepsPrev(s.entries, metadata, step.posting.debit, step.prevHash);
    if step.posting.amount > 0 {
      var e := MakeEntry(digest, step.posting, step.id, step.prevHash, step.ts, step.createdAt);
      RelabelPending(s, step.tx, e, metadata);
      RelabelMade(digest, step, metadata);
    }
  }

  lemma RelabelPending(s: State, tx: nat, e: Entry, metadata: string)
    ensures RelabelState(s.(pending := s.pending[tx := e]), metadata)
         == RelabelState(s, metadata).(pending := RelabelState(s, metadata).pending[tx := Relabel(e, metadata)])
  {
  }

  lemma RelabelMade(digest: Digest, step: Step, metadata: string)
    requires step.Begin?
    ensures var again := RelabelStep(step, metadata);
      MakeEntry(digest, again.posting, again.id, again.prevHash, again.ts, again.createdAt)
        == Relabel(MakeEntry(digest, step.posting, step.id, step.prevHash, step.ts, step.createdAt), metadata)
  {
  }

  lemma RelabelSweep(digest: Digest, s: State, row: Entry, metadata: string)
    requires Enabled(digest, s, SweepInsert(row))
    ensures Enabled(digest, RelabelState(s, metadata), SweepInsert(row))
    ensures Do(digest, RelabelState(s, metadata), SweepInsert(row)) == RelabelState(Do(digest, s, SweepInsert(row)), metadata)
  {
    RelabelKeepsNewest(s.entries, metadata, row.prevHash);
    RelabelInsertable(s.entries, row, metadata);
    assert RelabelAll(s.entries, metadata) + [row] == RelabelAll(s.entries + [row], metadata);
  }

  /** Changing all metadata changes no step's effect, hashes included. */
  lemma RelabelStepOk(digest: Digest, s: State, step: Step, metadata: string)
    requires Enabled(digest, s, step)
    ensures Enabled(digest, RelabelState(s, metadata), RelabelStep(step, metadata))
    ensures Do(digest, RelabelState(s, metadata), RelabelStep(step, metadata)) == RelabelState(Do(digest, s, step), metadata)
  {
    match step
    case Begin(_, _, _, _, _, _) => RelabelBegin(digest, s, step, metadata);
    case Commit(tx) => RelabelCommit(digest, s, tx, metadata);
    case Rollback(tx) =>
      assert RelabelState(s, metadata).pending - {tx} == RelabelState(Do(digest, s, step), metadata).pending;
    case SweepInsert(row) => RelabelSweep(digest, s, row, metadata);
  }

  lemma RelabelInsertable(entries: seq<Entry>, e: Entry, metadata: string)
    ensures Insertable(RelabelAll(entries, metadata), Relabel(e, metadata)) <==> Insertable(entries, e)
  {
    var relabelled := RelabelAll(entries, metadata);
    forall j | 0 <= j < |entries| ensures relabelled[j].id == entries[j].id && relabelled[j].hash == entries[j].hash {
    }
  }

  lemma {:induction false} RelabelRun(digest: Digest, s: State, steps: seq<Step>, s': State, metadata: string)
    requires Leads(digest, s, steps, s')
    ensures Leads(digest, RelabelState(s, metadata), RelabelSteps(steps, metadata), RelabelState(s', metadata))
    decreases |steps|
  {
    if steps != [] {
      RelabelStepOk(digest, s, steps[0], metadata);
      RelabelRun(digest, Do(digest, s, steps[0]), steps[1..], s', metadata);
      assert RelabelSteps(steps, metadata)[1..] == RelabelSteps(steps[1..], metadata);
    }
  }

  /** Any log can be had with any other metadata and the same hashes. */
  lemma MetadataNotCovered(digest: Digest, e: Entry)
    requires Occurs(digest, e) && e.Posted?
    ensures !Covered(digest, e, Metadata)
  {
    var steps, s :| Leads(digest, Initial(), steps, s) && e in s.entries;
    var metadata := e.posting.metadata + "x";
    RelabelRun(digest, Initial(), steps, s, metadata);
    assert RelabelState(Initial(), metadata) == Initial();
    var i :| 0 <= i < |s.entries| && s.entries[i] == e;
    var other := Relabel(e, metadata);
    assert RelabelState(s, metadata).entries[i] == other;
    assert Occurs(digest, other) && other.hash == e.hash && |Metadata(other)| != |Metadata(e)|;
  }
}
