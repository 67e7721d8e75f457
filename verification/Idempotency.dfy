/**
 The API idempotency layer. A request looks its key up, claims it, runs its handler, and the
 response is recorded on finish. Lookup and claim are separate statements, so requests interleave
 between them; a handler may die, or its response may fail to be recorded.
 */
module Idempotency {
  import opened Prelude

  datatype Key = Key(partner: string, scope: string, key: string)

  datatype Status = Processing | Completed | Failed

  datatype Row = Row(hash: string, status: Status, code: int, body: string, lockedUntil: Option<int>)

  /** A request inside the middleware: past its lookup with the row it saw, or running its handler. */
  datatype Request =
    | Looked(key: Key, hash: string, seen: Option<Row>)
    | Running(key: Key, hash: string, lock: int)

  /** What the middleware answers without, or before, the handler. */
  datatype Reply = Conflict | InProgress | Replay(code: int, body: string) | DatabaseError | Admitted

  datatype State = State(rows: map<Key, Row>, flight: map<nat, Request>, now: int)

  const LOCK_MS := 120_000

  function RowAt(s: State, key: Key): Option<Row> {
    if key in s.rows then Some(s.rows[key]) else None
  }

  predicate Live(row: Row, now: int) {
    row.status == Processing && row.lockedUntil.Some? && row.lockedUntil.value > now
  }

  // ---------------------------------------------------------------- the statements

  /** The SELECT and the tests on its row. */
  function LookupReply(s: State, key: Key, hash: string): Reply {
    match RowAt(s, key)
    case None => Admitted
    case Some(row) =>
      if row.hash != hash then Conflict
      else if row.status == Completed then Replay(row.code, row.body)
      else if Live(row, s.now) then InProgress
      else Admitted
  }

  /** The INSERT of a new key, or the UPDATE of a row seen by the lookup. An INSERT that meets the
      primary key fails. */
  function ClaimReply(s: State, r: Request): Reply {
    if r.Looked? && r.seen.None? && r.key in s.rows then DatabaseError else Admitted
  }

  function ClaimedRow(s: State, r: Request): Row {
    if r.key in s.rows
    then s.rows[r.key].(status := Processing, lockedUntil := Some(s.now + LOCK_MS))
    else Row(r.hash, Processing, 0, "", Some(s.now + LOCK_MS))
  }

  function FinishedRow(row: Row, code: int, body: string): Row {
    row.(status := if code >= 500 then Failed else Completed, code := code, body := body, lockedUntil := None)
  }

  datatype Step =
    | Lookup(id: nat, key: Key, hash: string)
    | Claim(id: nat)
    | Finish(id: nat, code: int, body: string)
    | Vanish(id: nat)
    | Tick(ms: nat)

  predicate Enabled(s: State, step: Step) {
    match step
    case Lookup(id, _, _) => id !in s.flight
    case Claim(id) => id in s.flight && s.flight[id].Looked?
    case Finish(id, _, _) => id in s.flight && s.flight[id].Running?
    case Vanish(id) => id in s.flight
    case Tick(_) => true
  }

  function Do(s: State, step: Step): State
    requires Enabled(s, step)
  {
    match step
    case Lookup(id, key, hash) =>
      if LookupReply(s, key, hash) == Admitted
      then s.(flight := s.flight[id := Looked(key, hash, RowAt(s, key))])
      else s
    case Claim(id) =>
      var r := s.flight[id];
      if ClaimReply(s, r) != Admitted then s.(flight := s.flight - {id})
      else s.(rows := s.rows[r.key := ClaimedRow(s, r)],
              flight := s.flight[id := Running(r.key, r.hash, s.now + LOCK_MS)])
    case Finish(id, code, body) =>
      var key := s.flight[id].key;
      s.(rows := if key in s.rows then s.rows[key := FinishedRow(s.rows[key], code, body)] else s.rows,
         flight := s.flight - {id})
    case Vanish(id) => s.(flight := s.flight - {id})
    case Tick(ms) => s.(now := s.now + ms)
  }

  const EMPTY := State(map[], map[], 0)

  /** `states[i]` is the state before `steps[i]`. */
  ghost predicate IsRun(states: seq<State>, steps: seq<Step>) {
    |states| == |steps| + 1 && states[0] == EMPTY &&
    forall i | 0 <= i < |steps| :: Enabled(states[i], steps[i]) && states[i + 1] == Do(states[i], steps[i])
  }

  lemma RunPrefix(states: seq<State>, steps: seq<Step>, n: nat)
    requires IsRun(states, steps) && n <= |steps|
    ensures IsRun(states[..n + 1], steps[..n])
  {
  }

  // ---------------------------------------------------------------- payload hashes, any interleaving

  /** Whoever got past the lookup of a recorded key, or runs, carries the recorded hash. */
  ghost predicate HashInv(s: State) {
    forall id | id in s.flight ::
      (s.flight[id].Running? || s.flight[id].seen.Some?) ==>
        s.flight[id].key in s.rows && s.rows[s.flight[id].key].hash == s.flight[id].hash
  }

  lemma {:induction false} RunKeepsHashInv(states: seq<State>, steps: seq<Step>)
    requires IsRun(states, steps)
    ensures HashInv(states[|steps|])
    decreases |steps|
  {
    if steps != [] {
      var n := |steps| - 1;
      RunPrefix(states, steps, n);
      RunKeepsHashInv(states[..n + 1], steps[..n]);
      var s := states[n];
      assert states[n + 1] == Do(s, steps[n]);
    }
  }

  /** A request whose hash differs from the recorded one never reaches the handler, in any
      interleaving and whatever the timing; and a key's recorded hash never changes. */
  lemma MismatchNeverRuns(states: seq<State>, steps: seq<Step>, id: nat)
    requires IsRun(states, steps)
    ensures var s := states[|steps|];
      id in s.flight && s.flight[id].Running? ==>
        s.flight[id].key in s.rows && s.rows[s.flight[id].key].hash == s.flight[id].hash
  {
    RunKeepsHashInv(states, steps);
  }

  lemma {:induction false} RecordedHashIsForever(states: seq<State>, steps: seq<Step>, i: nat, j: nat, key: Key)
    requires IsRun(states, steps) && i <= j <= |steps| && key in states[i].rows
    ensures key in states[j].rows && states[j].rows[key].hash == states[i].rows[key].hash
    decreases j - i
  {
    if i < j {
      RecordedHashIsForever(states, steps, i, j - 1, key);
      assert states[j] == Do(states[j - 1], steps[j - 1]);
    }
  }

  // ---------------------------------------------------------------- one handler at a time

  ghost predicate OneHandlerPerKey(s: State) {
    forall a, b | a in s.flight && b in s.flight && s.flight[a].Running? && s.flight[b].Running? ::
      s.flight[a].key == s.flight[b].key ==> a == b
  }

  /** An admitted claim finds no handler of its key running. */
  ghost predicate ClaimsFreeKey(s: State, step: Step) {
    step.Claim? && Enabled(s, step) && ClaimReply(s, s.flight[step.id]) == Admitted ==>
      forall id | id in s.flight && s.flight[id].Running? :: s.flight[id].key != s.flight[step.id].key
  }

  lemma StepKeepsOneHandlerIff(s: State, step: Step)
    requires Enabled(s, step) && OneHandlerPerKey(s)
    ensures OneHandlerPerKey(Do(s, step)) <==> ClaimsFreeKey(s, step)
  {
    var s' := Do(s, step);
    if step.Claim? && ClaimReply(s, s.flight[step.id]) == Admitted {
      assert s'.flight[step.id].Running?;
      forall id | id in s.flight && s.flight[id].Running? && s.flight[id].key == s.flight[step.id].key
        ensures !OneHandlerPerKey(s')
      {
        assert s'.flight[id].Running? && id != step.id;
      }
    }
  }

  /** Over any run, at most one handler is in flight per partner, scope and key in every state
      exactly if every admitted claim finds no handler of its key running. */
  lemma OneInFlightIffClaimsFree(states: seq<State>, steps: seq<Step>)
    requires IsRun(states, steps)
    ensures (forall i | 0 <= i <= |steps| :: OneHandlerPerKey(states[i])) <==>
      (forall i | 0 <= i < |steps| :: ClaimsFreeKey(states[i], steps[i]))
  {
    OneInFlightUpTo(states, steps, |steps|);
  }

  lemma {:induction false} OneInFlightUpTo(states: seq<State>, steps: seq<Step>, n: nat)
    requires IsRun(states, steps) && n <= |steps|
    ensures (forall i | 0 <= i <= n :: OneHandlerPerKey(states[i])) <==>
      (forall i | 0 <= i < n :: ClaimsFreeKey(states[i], steps[i]))
  {
    if n > 0 {
      OneInFlightUpTo(states, steps, n - 1);
      assert states[n] == Do(states[n - 1], steps[n - 1]);
      if OneHandlerPerKey(states[n - 1]) {
        StepKeepsOneHandlerIff(states[n - 1], steps[n - 1]);
      }
    }
  }

  /** While handlers have not overlapped, a running handler's row is PROCESSING under its own lock. */
  ghost predicate OwnLockInv(s: State) {
    forall id | id in s.flight && s.flight[id].Running? ::
      var key := s.flight[id].key;
      key in s.rows && s.rows[key].status == Processing && s.rows[key].lockedUntil == Some(s.flight[id].lock)
  }

  /** Whoever is about to claim a recorded key saw a row that is claimable now. */
  ghost predicate SeenInv(s: State) {
    forall id | id in s.flight && s.flight[id].Looked? && s.flight[id].seen.Some? ::
      s.flight[id].seen.value.status != Completed && !Live(s.flight[id].seen.value, s.now)
  }

  lemma StepKeepsOwnLock(s: State, step: Step)
    requires Enabled(s, step) && OwnLockInv(s) && SeenInv(s) && OneHandlerPerKey(s) && ClaimsFreeKey(s, step)
    ensures OwnLockInv(Do(s, step)) && SeenInv(Do(s, step))
  {
  }

  lemma {:induction false} RunKeepsOwnLock(states: seq<State>, steps: seq<Step>, n: nat)
    requires IsRun(states, steps) && n <= |steps| && forall i | 0 <= i <= n :: OneHandlerPerKey(states[i])
    ensures OwnLockInv(states[n]) && SeenInv(states[n])
  {
    if n > 0 {
      RunKeepsOwnLock(states, steps, n - 1);
      assert states[n] == Do(states[n - 1], steps[n - 1]);
      StepKeepsOneHandlerIff(states[n - 1], steps[n - 1]);
      StepKeepsOwnLock(states[n - 1], steps[n - 1]);
    }
  }

  /** How handlers first come to overlap, in any run: the claim that does it read a row that changed
      before it wrote, or the handler it joins has outlived its lock. */
  lemma FirstOverlap(states: seq<State>, steps: seq<Step>, running: nat)
    requires IsRun(states, steps) && forall i | 0 <= i <= |steps| :: OneHandlerPerKey(states[i])
    requires running in states[|steps|].flight && states[|steps|].flight[running].Running?
    ensures var s := states[|steps|];
      forall id | Enabled(s, Claim(id)) && ClaimReply(s, s.flight[id]) == Admitted
        && s.flight[id].key == s.flight[running].key ::
        !Undisturbed(s, Claim(id)) || s.flight[running].lock <= s.now
  {
    RunKeepsOwnLock(states, steps, |steps|);
  }

  /** The claim finds the row its lookup saw: no statement on that key came in between. A fresh
      INSERT needs no such luck, the primary key protects it. */
  predicate Undisturbed(s: State, step: Step) {
    step.Claim? && step.id in s.flight && s.flight[step.id].Looked? && s.flight[step.id].seen.Some? ==>
      RowAt(s, s.flight[step.id].key) == s.flight[step.id].seen
  }

  /** Time does not run past the lock of a running handler. */
  ghost predicate WithinLocks(s: State, step: Step) {
    step.Tick? ==> forall id | id in s.flight && s.flight[id].Running? :: s.now + step.ms < s.flight[id].lock
  }

  ghost predicate Disciplined(states: seq<State>, steps: seq<Step>)
    requires |states| == |steps| + 1
  {
    forall i | 0 <= i < |steps| :: Undisturbed(states[i], steps[i]) && WithinLocks(states[i], steps[i])
  }

  /** A running handler holds its key's row under its own unexpired lock. */
  ghost predicate LockInv(s: State) {
    OwnLockInv(s) && SeenInv(s) && forall id | id in s.flight && s.flight[id].Running? :: s.now < s.flight[id].lock
  }

  lemma StepKeepsOneHandler(s: State, step: Step)
    requires Enabled(s, step) && LockInv(s) && OneHandlerPerKey(s)
    requires Undisturbed(s, step) && WithinLocks(s, step)
    ensures LockInv(Do(s, step)) && OneHandlerPerKey(Do(s, step))
  {
    if step.Claim? && ClaimReply(s, s.flight[step.id]) == Admitted {
      var r := s.flight[step.id];
      forall id | id in s.flight && s.flight[id].Running? ensures s.flight[id].key != r.key {
        assert Live(s.rows[s.flight[id].key], s.now);
      }
    }
    StepKeepsOneHandlerIff(s, step);
  }

  lemma {:induction false} RunKeepsOneHandler(states: seq<State>, steps: seq<Step>)
    requires IsRun(states, steps) && Disciplined(states, steps)
    ensures LockInv(states[|steps|]) && OneHandlerPerKey(states[|steps|])
    decreases |steps|
  {
    if steps != [] {
      var n := |steps| - 1;
      RunPrefix(states, steps, n);
      RunKeepsOneHandler(states[..n + 1], steps[..n]);
      assert Undisturbed(states[n], steps[n]) && WithinLocks(states[n], steps[n]);
      StepKeepsOneHandler(states[n], steps[n]);
    }
  }

  /** In every run where claims of recorded keys are undisturbed and handlers finish inside their
      two-minute lock, at most one handler is in flight per partner, scope and key; first claims
      may interleave freely. */
  lemma AtMostOneInFlight(states: seq<State>, steps: seq<Step>, i: nat)
    requires IsRun(states, steps) && Disciplined(states, steps) && i <= |steps|
    ensures OneHandlerPerKey(states[i])
  {
    RunPrefix(states, steps, i);
    RunKeepsOneHandler(states[..i + 1], steps[..i]);
  }

  /** A claim takes the key for exactly two minutes: until then a request with its payload is told that one
      is in progress, from then on it is let through, and one with another payload is a conflict throughout. */
  lemma ClaimHoldsTwoMinutes(s: State, id: nat, ms: nat, hash: string)
    requires Enabled(s, Claim(id)) && ClaimReply(s, s.flight[id]) == Admitted
    ensures var key, after := s.flight[id].key, Do(Do(s, Claim(id)), Tick(ms));
      && key in after.rows
      && LookupReply(after, key, after.rows[key].hash) == (if ms < 120_000 then InProgress else Admitted)
      && (hash != after.rows[key].hash ==> LookupReply(after, key, hash) == Conflict)
      && (key !in s.rows ==> after.rows[key].hash == s.flight[id].hash)
  {
  }

  // ---------------------------------------------------------------- stored answers

  /** Stored answers are below 500 and unlocked. */
  ghost predicate CompletedInv(s: State) {
    forall key | key in s.rows && s.rows[key].status == Completed ::
      s.rows[key].code < 500 && s.rows[key].lockedUntil == None
  }

  lemma {:induction false} RunKeepsCompletedInv(states: seq<State>, steps: seq<Step>, i: nat)
    requires IsRun(states, steps) && i <= |steps|
    ensures CompletedInv(states[i])
  {
    if i > 0 {
      RunKeepsCompletedInv(states, steps, i - 1);
      assert states[i] == Do(states[i - 1], steps[i - 1]);
    }
  }

  /** An admitted claim of the key, or a handler of the key finishing with another response. */
  predicate Overwrites(s: State, step: Step, key: Key)
    requires key in s.rows && Enabled(s, step)
  {
    match step
    case Claim(id) => s.flight[id].key == key && ClaimReply(s, s.flight[id]) == Admitted
    case Finish(id, code, body) =>
      s.flight[id].key == key && (code != s.rows[key].code || body != s.rows[key].body)
    case _ => false
  }

  /** The key's row is still, in every state from `i` to `j`, what it is at `i`. */
  ghost predicate RowStays(states: seq<State>, i: nat, j: nat, key: Key)
    requires i <= j < |states| && key in states[i].rows
  {
    forall m | i <= m <= j :: key in states[m].rows && states[m].rows[key] == states[i].rows[key]
  }

  ghost predicate NeverOverwritten(states: seq<State>, steps: seq<Step>, i: nat, j: nat, key: Key)
    requires IsRun(states, steps) && i <= j <= |steps| && key in states[i].rows
  {
    forall m | i <= m < j :: key in states[m].rows && !Overwrites(states[m], steps[m], key)
  }

  /** A stored response below 500 stays, and is replayed to every lookup with its payload, exactly as
      long as no claim of its key is admitted and no handler of its key finishes with another one. */
  lemma {:induction false} StoredAnswerStaysIff(states: seq<State>, steps: seq<Step>, i: nat, j: nat, key: Key)
    requires IsRun(states, steps) && i <= j <= |steps|
    requires key in states[i].rows && states[i].rows[key].status == Completed
    ensures RowStays(states, i, j, key) <==> NeverOverwritten(states, steps, i, j, key)
    ensures RowStays(states, i, j, key) ==>
      LookupReply(states[j], key, states[i].rows[key].hash) ==
        Replay(states[i].rows[key].code, states[i].rows[key].body)
    decreases j - i
  {
    if i < j {
      StoredAnswerStaysIff(states, steps, i, j - 1, key);
      if RowStays(states, i, j - 1, key) {
        RunKeepsCompletedInv(states, steps, j - 1);
        assert states[j] == Do(states[j - 1], steps[j - 1]);
      }
    }
  }

  lemma CompletedStepStays(s: State, step: Step, key: Key)
    requires Enabled(s, step) && LockInv(s) && Undisturbed(s, step)
    requires key in s.rows && s.rows[key].status == Completed
    ensures key in Do(s, step).rows && Do(s, step).rows[key] == s.rows[key]
    ensures forall id | id in Do(s, step).flight && Do(s, step).flight[id].Running? ::
      Do(s, step).flight[id].key != key
  {
  }

  /** A stored response below 500 is replayed unchanged for ever: its row never changes again, every
      later lookup with the same payload replays it, and no handler of that key ever runs again. */
  lemma {:induction false} CompletedIsForever(states: seq<State>, steps: seq<Step>, i: nat, j: nat, key: Key)
    requires IsRun(states, steps) && Disciplined(states, steps) && i <= j <= |steps|
    requires key in states[i].rows && states[i].rows[key].status == Completed
    ensures key in states[j].rows && states[j].rows[key] == states[i].rows[key]
    ensures LookupReply(states[j], key, states[i].rows[key].hash) ==
      Replay(states[i].rows[key].code, states[i].rows[key].body)
    ensures forall id | id in states[j].flight && states[j].flight[id].Running? :: states[j].flight[id].key != key
    decreases j - i
  {
    if i < j {
      CompletedIsForever(states, steps, i, j - 1, key);
      RunPrefix(states, steps, j - 1);
      RunKeepsOneHandler(states[..j], steps[..j - 1]);
      assert Undisturbed(states[j - 1], steps[j - 1]);
      CompletedStepStays(states[j - 1], steps[j - 1], key);
    } else {
      RunPrefix(states, steps, i);
      RunKeepsOneHandler(states[..i + 1], steps[..i]);
    }
  }

  /** A handler that finishes inside the discipline stores exactly its response: COMPLETED below
      500, FAILED and claimable again from 500 up. */
  lemma FinishStores(states: seq<State>, steps: seq<Step>, i: nat)
    requires IsRun(states, steps) && Disciplined(states, steps) && i < |steps| && steps[i].Finish?
    ensures var key, code, body := states[i].flight[steps[i].id].key, steps[i].code, steps[i].body;
      && key in states[i + 1].rows
      && (code < 500 ==>
            LookupReply(states[i + 1], key, states[i].flight[steps[i].id].hash) == Replay(code, body))
      && (code >= 500 ==>
            LookupReply(states[i + 1], key, states[i].flight[steps[i].id].hash) == Admitted)
  {
    RunPrefix(states, steps, i);
    RunKeepsOneHandler(states[..i + 1], steps[..i]);
    RunKeepsHashInv(states[..i + 1], steps[..i]);
    assert states[i + 1] == Do(states[i], steps[i]);
  }

  // ---------------------------------------------------------------- both conditions are needed

  ghost predicate Reachable(s: State) {
    exists states, steps :: IsRun(states, steps) && states[|steps|] == s
  }

  lemma EmptyReachable()
    ensures Reachable(EMPTY)
  {
    assert IsRun([EMPTY], []);
  }

  lemma Further(s: State, step: Step) returns (s': State)
    requires Reachable(s) && Enabled(s, step)
    ensures Reachable(s') && s' == Do(s, step)
  {
    s' := Do(s, step);
    var states, steps :| IsRun(states, steps) && states[|steps|] == s;
    assert IsRun(states + [s'], steps + [step]);
  }

  /** Without undisturbed claims two handlers run at once: two retries of a FAILED key both look,
      then both claim. */
  lemma DisturbedClaimsRunTwice(key: Key, hash: string) returns (s: State)
    ensures Reachable(s) && !OneHandlerPerKey(s)
  {
    EmptyReachable();
    s := Further(EMPTY, Lookup(0, key, hash));
    s := Further(s, Claim(0));
    s := Further(s, Finish(0, 500, "error"));
    s := Further(s, Lookup(1, key, hash));
    s := Further(s, Lookup(2, key, hash));
    s := Further(s, Claim(1));
    s := Further(s, Claim(2));
    assert s.flight[1].Running? && s.flight[2].Running? && s.flight[1].key == s.flight[2].key;
  }

  /** Nor without the time bound: a retry after the lock expired runs beside the slow handler, and
      the slow one then overwrites the answer already stored. */
  lemma SlowHandlerOverwrites(key: Key, hash: string) returns (before: State, step: Step)
    ensures Reachable(before) && Enabled(before, step)
    ensures key in before.rows && before.rows[key].status == Completed
    ensures key in Do(before, step).rows && Do(before, step).rows[key] != before.rows[key]
  {
    EmptyReachable();
    before := Further(EMPTY, Lookup(0, key, hash));
    before := Further(before, Claim(0));
    before := Further(before, Tick(LOCK_MS));
    before := Further(before, Lookup(1, key, hash));
    before := Further(before, Claim(1));
    before := Further(before, Finish(1, 200, "second"));
    step := Finish(0, 200, "first");
  }

  // ---------------------------------------------------------------- the middleware

  class IdempotencyStore {
    var rows: map<Key, Row>
    var flight: map<nat, Request>
    var now: int

    ghost function Tables(): State
      reads this
    {
      State(rows, flight, now)
    }

    constructor ()
      ensures Tables() == EMPTY
    {
      rows, flight, now := map[], map[], 0;
    }

    /** The lookup half of `enforceIdempotency`. */
    method LookUp(id: nat, key: Key, hash: string) returns (reply: Reply)
      requires id !in flight
      modifies this`flight
      ensures reply == LookupReply(old(Tables()), key, hash)
      ensures Tables() == Do(old(Tables()), Lookup(id, key, hash))
    {
      if key in rows {
        var existing := rows[key];
        if existing.hash != hash {
          return Conflict;
        }
        if existing.status == Completed {
          return Replay(existing.code, existing.body);
        }
        if existing.status == Processing && existing.lockedUntil.Some? && existing.lockedUntil.value > now {
          return InProgress;
        }
        flight := flight[id := Looked(key, hash, Some(existing))];
      } else {
        flight := flight[id := Looked(key, hash, None)];
      }
      reply := Admitted;
    }

    /** The claim half: UPDATE a row the lookup saw, or INSERT a new one. */
    method ClaimKey(id: nat) returns (reply: Reply)
      requires id in flight && flight[id].Looked?
      modifies this`rows, this`flight
      ensures reply == ClaimReply(old(Tables()), old(flight)[id])
      ensures HashInv(old(Tables())) ==> Tables() == Do(old(Tables()), Claim(id))
    {
      var r := flight[id];
      if r.seen.Some? {
        if r.key in rows {
          rows := rows[r.key := rows[r.key].(status := Processing, lockedUntil := Some(now + LOCK_MS))];
        }
      } else if r.key in rows {
        flight := flight - {id};
        return DatabaseError;
      } else {
        rows := rows[r.key := Row(r.hash, Processing, 0, "", Some(now + LOCK_MS))];
      }
      flight := flight[id := Running(r.key, r.hash, now + LOCK_MS)];
      reply := Admitted;
    }

    /** The `finish` listener: record the response by key. */
    method OnFinish(id: nat, code: int, body: string)
      requires id in flight && flight[id].Running?
      modifies this`rows, this`flight
      ensures Tables() == Do(old(Tables()), Finish(id, code, body))
    {
      var key := flight[id].key;
      flight := flight - {id};
      if key in rows {
        if code >= 500 {
          rows := rows[key := rows[key].(status := Failed, code := code, body := body, lockedUntil := None)];
        } else {
          rows := rows[key := rows[key].(status := Completed, code := code, body := body, lockedUntil := None)];
        }
      }
    }
  }
}
