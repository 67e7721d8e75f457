/**
 Concurrent `reserveFunds` calls. A call reads the idempotency cache when it enters and writes it when
 it is done; in between it awaits screening, the chain and the ledger, while other calls run. A restart
 of the process empties the cache.
 */
module ConcurrentReserves {
  import opened Prelude
  import opened Ledger
  import opened HashChain
  import opened Totals
  import opened LedgerService
  import opened TreasuryFlows
  import opened TreasuryMoney

  /** How far a call has come. `Lost` has posted its row, but a restart lost its answer. */
  datatype Phase = Waiting | RowPosted(answer: Cached) | Stored | Refused | Failed | Lost

  datatype Reserving = Reserving(key: string, accountId: string, amount: int, phase: Phase)

  datatype Concurrent = Concurrent(service: Service, calls: map<nat, Reserving>)

  datatype Move =
    | Enter(id: nat, key: string, accountId: string, amount: int)
    | Refuse(id: nat, reason: string)
    | PostRow(id: nat, reservationId: string, row: Entry)
    | Store(id: nat)
    | Fail(id: nat)
    | Restart

  predicate HasPosted(c: Reserving) {
    c.phase.RowPosted? || c.phase.Stored? || c.phase.Lost?
  }

  ghost predicate CanMove(digest: Digest, s: Concurrent, move: Move) {
    match move
    case Enter(id, _, _, _) => id !in s.calls
    case Refuse(id, _) => id in s.calls && s.calls[id].phase.Waiting?
    case PostRow(id, reservationId, row) =>
      id in s.calls && s.calls[id].phase.Waiting? &&
      RowFor(digest, s.service.ledger, FundsReserved(s.calls[id].accountId, s.calls[id].amount, reservationId), row)
    case Store(id) => id in s.calls && s.calls[id].phase.RowPosted?
    case Fail(id) => id in s.calls && s.calls[id].phase.Waiting?
    case Restart => true
  }

  function AfterRestart(phase: Phase): Phase {
    match phase
    case Waiting => Failed
    case RowPosted(_) => Lost
    case Stored => Lost
    case _ => phase
  }

  function Reach(s: Concurrent, id: nat, phase: Phase): map<nat, Reserving>
    requires id in s.calls
  {
    s.calls[id := s.calls[id].(phase := phase)]
  }

  /** A call that finds its key cached, or its account unknown, returns at once. */
  ghost function Moved(digest: Digest, accounts: set<string>, s: Concurrent, move: Move): Concurrent
    requires CanMove(digest, s, move)
  {
    var service := s.service;
    match move
    case Enter(id, key, accountId, amount) =>
      if key in service.cache || accountId !in accounts then s
      else s.(calls := s.calls[id := Reserving(key, accountId, amount, Waiting)])
    case Refuse(id, reason) =>
      var c := s.calls[id];
      var refusal := CachedReservation(Reservation.Refused(c.accountId, c.amount, reason));
      Concurrent(service.(cache := service.cache[c.key := refusal]), Reach(s, id, Phase.Refused))
    case PostRow(id, reservationId, row) =>
      var c := s.calls[id];
      var answer := CachedReservation(Reserved(reservationId, c.accountId, c.amount, row.id));
      Concurrent(service.(ledger := Post(service.ledger, row)), Reach(s, id, RowPosted(answer)))
    case Store(id) =>
      var c := s.calls[id];
      Concurrent(service.(cache := service.cache[c.key := c.phase.answer]), Reach(s, id, Stored))
    case Fail(id) => s.(calls := Reach(s, id, Failed))
    case Restart =>
      Concurrent(service.(cache := map[]),
                 map id | id in s.calls :: s.calls[id].(phase := AfterRestart(s.calls[id].phase)))
  }

  /** `states[i]` is the state before `moves[i]`; no call has entered yet at the start. */
  ghost predicate IsInterleaving(digest: Digest, accounts: set<string>, states: seq<Concurrent>, moves: seq<Move>) {
    |states| == |moves| + 1 && states[0].calls == map[] &&
    forall i | 0 <= i < |moves| ::
      CanMove(digest, states[i], moves[i]) && states[i + 1] == Moved(digest, accounts, states[i], moves[i])
  }

  /** Every key has posted one RESERVE row at most. */
  ghost predicate OneRowPerKey(s: Concurrent) {
    forall a, b | a in s.calls && b in s.calls && HasPosted(s.calls[a]) && HasPosted(s.calls[b]) ::
      s.calls[a].key == s.calls[b].key ==> a == b
  }

  // ---------------------------------------------------------------- undisturbed calls

  /** Left undisturbed, the three moves of a successful call are the call of the sequential model. */
  lemma UndisturbedCall(
      digest: Digest, accounts: set<string>, s: Concurrent, id: nat, key: string, accountId: string, amount: int,
      reservationId: string, row: Entry)
    returns (s': Concurrent)
    requires id !in s.calls && key !in s.service.cache && accountId in accounts
    requires RowFor(digest, s.service.ledger, FundsReserved(accountId, amount, reservationId), row)
    ensures var entered := Moved(digest, accounts, s, Enter(id, key, accountId, amount));
      && CanMove(digest, entered, PostRow(id, reservationId, row))
      && var posted := Moved(digest, accounts, entered, PostRow(id, reservationId, row));
      CanMove(digest, posted, Store(id)) && s' == Moved(digest, accounts, posted, Store(id))
    ensures ReserveStep(digest, accounts, s.service, key, accountId, amount,
      Ok(CachedReservation(Reserved(reservationId, accountId, amount, row.id))), s'.service)
  {
    var entered := Moved(digest, accounts, s, Enter(id, key, accountId, amount));
    var posted := Moved(digest, accounts, entered, PostRow(id, reservationId, row));
    s' := Moved(digest, accounts, posted, Store(id));
  }

  /** So are the two moves of a call that is refused, whose refusal is then cached, too. */
  lemma UndisturbedRefusal(
      digest: Digest, accounts: set<string>, s: Concurrent, id: nat, key: string, accountId: string, amount: int,
      reason: string)
    returns (s': Concurrent)
    requires id !in s.calls && key !in s.service.cache && accountId in accounts
    ensures var entered := Moved(digest, accounts, s, Enter(id, key, accountId, amount));
      CanMove(digest, entered, Refuse(id, reason)) && s' == Moved(digest, accounts, entered, Refuse(id, reason))
    ensures ReserveStep(digest, accounts, s.service, key, accountId, amount,
      Ok(CachedReservation(Reservation.Refused(accountId, amount, reason))), s'.service)
    ensures key in s'.service.cache
  {
    var entered := Moved(digest, accounts, s, Enter(id, key, accountId, amount));
    s' := Moved(digest, accounts, entered, Refuse(id, reason));
  }

  // ---------------------------------------------------------------- rows and calls

  ghost function PostedCalls(s: Concurrent): set<nat> {
    set id | id in s.calls && HasPosted(s.calls[id])
  }

  lemma PostRowAddsOne(digest: Digest, accounts: set<string>, s: Concurrent, id: nat, reservationId: string, row: Entry)
    requires CanMove(digest, s, PostRow(id, reservationId, row))
    ensures var s' := Moved(digest, accounts, s, PostRow(id, reservationId, row));
      && ReserveRows(s'.service.ledger.entries) == ReserveRows(s.service.ledger.entries) + 1
      && |PostedCalls(s')| == |PostedCalls(s)| + 1
  {
    var s' := Moved(digest, accounts, s, PostRow(id, reservationId, row));
    assert s'.service.ledger.entries[..|s.service.ledger.entries|] == s.service.ledger.entries;
    assert PostedCalls(s') == PostedCalls(s) + {id};
  }

  lemma OthersAddNone(digest: Digest, accounts: set<string>, s: Concurrent, move: Move)
    requires CanMove(digest, s, move) && !move.PostRow?
    ensures var s' := Moved(digest, accounts, s, move);
      s'.service.ledger == s.service.ledger && PostedCalls(s') == PostedCalls(s)
  {
  }

  /** In any interleaving the RESERVE rows are those of the calls that have posted, one for each. */
  lemma {:induction false} RowsAreCalls(
      digest: Digest, accounts: set<string>, states: seq<Concurrent>, moves: seq<Move>, n: nat)
    requires IsInterleaving(digest, accounts, states, moves) && n <= |moves|
    ensures ReserveRows(states[n].service.ledger.entries) ==
      ReserveRows(states[0].service.ledger.entries) + |PostedCalls(states[n])|
  {
    if n == 0 {
      assert PostedCalls(states[0]) == {};
    } else {
      RowsAreCalls(digest, accounts, states, moves, n - 1);
      assert states[n] == Moved(digest, accounts, states[n - 1], moves[n - 1]);
      var move := moves[n - 1];
      if move.PostRow? {
        PostRowAddsOne(digest, accounts, states[n - 1], move.id, move.reservationId, move.row);
      } else {
        OthersAddNone(digest, accounts, states[n - 1], move);
      }
    }
  }

  // ---------------------------------------------------------------- when one key posts twice

  /** The answer of a call that stored it is still cached. */
  ghost predicate StoredInv(s: Concurrent) {
    forall id | id in s.calls && s.calls[id].phase.Stored? :: s.calls[id].key in s.service.cache
  }

  lemma {:induction false} StoredStaysCached(
      digest: Digest, accounts: set<string>, states: seq<Concurrent>, moves: seq<Move>, n: nat)
    requires IsInterleaving(digest, accounts, states, moves) && n <= |moves|
    ensures StoredInv(states[n])
  {
    if n > 0 {
      StoredStaysCached(digest, accounts, states, moves, n - 1);
      assert states[n] == Moved(digest, accounts, states[n - 1], moves[n - 1]);
    }
  }

  /** The call entered with the `i`-th move. */
  ghost predicate EntersAt(states: seq<Concurrent>, moves: seq<Move>, i: nat, id: nat)
    requires |states| == |moves| + 1
  {
    i < |moves| && moves[i].Enter? && moves[i].id == id && id !in states[i].calls && id in states[i + 1].calls
  }

  lemma {:induction false} FindEntry(
      digest: Digest, accounts: set<string>, states: seq<Concurrent>, moves: seq<Move>, n: nat, id: nat)
    returns (i: nat)
    requires IsInterleaving(digest, accounts, states, moves) && n <= |moves| && id in states[n].calls
    ensures i < n && EntersAt(states, moves, i, id)
  {
    assert n > 0;
    assert states[n] == Moved(digest, accounts, states[n - 1], moves[n - 1]);
    if id in states[n - 1].calls {
      i := FindEntry(digest, accounts, states, moves, n - 1, id);
    } else {
      i := n - 1;
    }
  }

  lemma {:induction false} CallsStay(
      digest: Digest, accounts: set<string>, states: seq<Concurrent>, moves: seq<Move>, m: nat, n: nat, id: nat)
    requires IsInterleaving(digest, accounts, states, moves) && m <= n <= |moves| && id in states[m].calls
    ensures id in states[n].calls && states[n].calls[id].key == states[m].calls[id].key
    decreases n - m
  {
    if m < n {
      CallsStay(digest, accounts, states, moves, m, n - 1, id);
      assert states[n] == Moved(digest, accounts, states[n - 1], moves[n - 1]);
    }
  }

  /** Call `later` enters while `earlier`, under the same key, is on its way or has been forgotten. */
  ghost predicate Overlaps(states: seq<Concurrent>, moves: seq<Move>, i: nat, earlier: nat, later: nat)
    requires |states| == |moves| + 1
  {
    EntersAt(states, moves, i, later) && earlier in states[i].calls && states[i].calls[earlier].key == moves[i].key &&
    (states[i].calls[earlier].phase.Waiting? || states[i].calls[earlier].phase.RowPosted? || states[i].calls[earlier].phase.Lost?)
  }

  /** Two calls of which the later entered beside the earlier one, both of which have posted. */
  ghost predicate OverlappingPosts(states: seq<Concurrent>, moves: seq<Move>)
    requires |states| == |moves| + 1
  {
    exists i: nat, a: nat, b: nat :: Overlaps(states, moves, i, a, b) && BothPosted(states[|moves|], a, b)
  }

  predicate BothPosted(s: Concurrent, a: nat, b: nat) {
    a in s.calls && b in s.calls && HasPosted(s.calls[a]) && HasPosted(s.calls[b])
  }

  /** What has posted in the end had not failed or been refused before. */
  lemma {:induction false} PosterWasAlive(
      digest: Digest, accounts: set<string>, states: seq<Concurrent>, moves: seq<Move>, m: nat, n: nat, id: nat)
    requires IsInterleaving(digest, accounts, states, moves) && m <= n <= |moves| && id in states[m].calls
    requires states[m].calls[id].phase.Failed? || states[m].calls[id].phase.Refused?
    ensures id in states[n].calls && states[n].calls[id].phase == states[m].calls[id].phase
    decreases n - m
  {
    if m < n {
      PosterWasAlive(digest, accounts, states, moves, m, n - 1, id);
      assert states[n] == Moved(digest, accounts, states[n - 1], moves[n - 1]);
    }
  }

  lemma LaterOverlaps(
      digest: Digest, accounts: set<string>, states: seq<Concurrent>, moves: seq<Move>, i: nat, a: nat, j: nat, b: nat)
    requires IsInterleaving(digest, accounts, states, moves) && i < j
    requires EntersAt(states, moves, i, a) && EntersAt(states, moves, j, b)
    requires BothPosted(states[|moves|], a, b) && states[|moves|].calls[a].key == states[|moves|].calls[b].key
    ensures Overlaps(states, moves, j, a, b)
  {
    var n := |moves|;
    CallsStay(digest, accounts, states, moves, i + 1, j, a);
    CallsStay(digest, accounts, states, moves, j, n, a);
    CallsStay(digest, accounts, states, moves, j + 1, n, b);
    StoredStaysCached(digest, accounts, states, moves, j);
    assert states[j + 1] == Moved(digest, accounts, states[j], moves[j]);
    if states[j].calls[a].phase.Failed? || states[j].calls[a].phase.Refused? {
      PosterWasAlive(digest, accounts, states, moves, j, n, a);
    }
  }

  lemma TwoPostersOverlap(
      digest: Digest, accounts: set<string>, states: seq<Concurrent>, moves: seq<Move>, a: nat, b: nat)
    requires IsInterleaving(digest, accounts, states, moves) && a != b
    requires BothPosted(states[|moves|], a, b) && states[|moves|].calls[a].key == states[|moves|].calls[b].key
    ensures OverlappingPosts(states, moves)
  {
    var i := FindEntry(digest, accounts, states, moves, |moves|, a);
    var j := FindEntry(digest, accounts, states, moves, |moves|, b);
    if i < j {
      LaterOverlaps(digest, accounts, states, moves, i, a, j, b);
      assert Overlaps(states, moves, j, a, b) && BothPosted(states[|moves|], a, b);
    } else {
      LaterOverlaps(digest, accounts, states, moves, j, b, i, a);
      assert Overlaps(states, moves, i, b, a) && BothPosted(states[|moves|], b, a);
    }
  }

  lemma OverlapSharesKey(
      digest: Digest, accounts: set<string>, states: seq<Concurrent>, moves: seq<Move>, i: nat, a: nat, b: nat)
    requires IsInterleaving(digest, accounts, states, moves) && Overlaps(states, moves, i, a, b)
    ensures var s := states[|moves|]; a in s.calls && b in s.calls && s.calls[a].key == s.calls[b].key && a != b
  {
    assert states[i + 1] == Moved(digest, accounts, states[i], moves[i]);
    CallsStay(digest, accounts, states, moves, i, |moves|, a);
    CallsStay(digest, accounts, states, moves, i + 1, |moves|, b);
  }

  /** In any interleaving, restarts included, some key posts twice exactly if a call entered while
      another of its key was on its way, or had been forgotten in a restart, and both of them posted. */
  lemma PostsTwiceIffOverlap(digest: Digest, accounts: set<string>, states: seq<Concurrent>, moves: seq<Move>)
    requires IsInterleaving(digest, accounts, states, moves)
    ensures !OneRowPerKey(states[|moves|]) <==> OverlappingPosts(states, moves)
  {
    var s := states[|moves|];
    if !OneRowPerKey(s) {
      var a: nat, b: nat :| a in s.calls && b in s.calls && HasPosted(s.calls[a]) && HasPosted(s.calls[b])
        && s.calls[a].key == s.calls[b].key && a != b;
      TwoPostersOverlap(digest, accounts, states, moves, a, b);
    }
    if OverlappingPosts(states, moves) {
      var i: nat, a: nat, b: nat :| Overlaps(states, moves, i, a, b) && BothPosted(s, a, b);
      OverlapSharesKey(digest, accounts, states, moves, i, a, b);
    }
  }

  lemma AppendMove(digest: Digest, accounts: set<string>, states: seq<Concurrent>, moves: seq<Move>, move: Move)
    returns (longer: seq<Concurrent>)
    requires IsInterleaving(digest, accounts, states, moves) && CanMove(digest, states[|moves|], move)
    ensures longer == states + [Moved(digest, accounts, states[|moves|], move)]
    ensures IsInterleaving(digest, accounts, longer, moves + [move])
  {
    longer := states + [Moved(digest, accounts, states[|moves|], move)];
    var all := moves + [move];
    forall i | 0 <= i < |all| ensures CanMove(digest, longer[i], all[i]) && longer[i + 1] == Moved(digest, accounts, longer[i], all[i]) {
      assert longer[i] == states[i];
      if i < |moves| {
        assert all[i] == moves[i] && longer[i + 1] == states[i + 1];
      }
    }
  }

  /** Two calls under one key enter a fresh service. */
  lemma TwoEnter(digest: Digest, key: string, accountId: string, amount: int)
    returns (states: seq<Concurrent>, moves: seq<Move>)
    ensures IsInterleaving(digest, {accountId}, states, moves) && |moves| == 2
    ensures states[0].service == states[2].service == Service(map[], map[], Initial())
    ensures var waiting := Reserving(key, accountId, amount, Waiting);
      states[2].calls == map[0 := waiting, 1 := waiting]
  {
    var s0 := Concurrent(Service(map[], map[], Initial()), map[]);
    states, moves := [s0], [];
    states := AppendMove(digest, {accountId}, states, moves, Enter(0, key, accountId, amount));
    moves := moves + [Enter(0, key, accountId, amount)];
    states := AppendMove(digest, {accountId}, states, moves, Enter(1, key, accountId, amount));
    moves := moves + [Enter(1, key, accountId, amount)];
  }

  /** It happens: two calls under one key enter a fresh service before either has posted, and both post. */
  lemma TwoCallsPostTwice(digest: Digest, key: string, accountId: string, amount: int)
    returns (states: seq<Concurrent>, moves: seq<Move>)
    requires Injective(digest) && amount > 0
    ensures IsInterleaving(digest, {accountId}, states, moves)
    ensures states[0].service == Service(map[], map[], Initial())
    ensures ReserveRows(states[|moves|].service.ledger.entries) == 2 && !OneRowPerKey(states[|moves|])
  {
    states, moves := TwoEnter(digest, key, accountId, amount);
    var post0 := PostNext(digest, {accountId}, states[2], 0, "res_1");
    states := AppendMove(digest, {accountId}, states, moves, post0);
    moves := moves + [post0];
    var post1 := PostNext(digest, {accountId}, states[3], 1, "res_2");
    states := AppendMove(digest, {accountId}, states, moves, post1);
    moves := moves + [post1];
    BothCount(states[4], key);
    RowsAreCalls(digest, {accountId}, states, moves, 4);
  }

  lemma BothCount(s: Concurrent, key: string)
    requires s.calls.Keys == {0, 1} && HasPosted(s.calls[0]) && HasPosted(s.calls[1])
    requires s.calls[0].key == s.calls[1].key == key
    ensures |PostedCalls(s)| == 2 && !OneRowPerKey(s)
  {
    assert PostedCalls(s) == {0, 1};
    assert BothPosted(s, 0, 1);
  }

  lemma PostNext(digest: Digest, accounts: set<string>, s: Concurrent, id: nat, reservationId: string)
    returns (move: Move)
    requires Healthy(digest, s.service.ledger.entries)
    requires id in s.calls && s.calls[id].phase.Waiting? && s.calls[id].amount > 0
    ensures CanMove(digest, s, move)
    ensures var s' := Moved(digest, accounts, s, move);
      && Healthy(digest, s'.service.ledger.entries) && s'.calls.Keys == s.calls.Keys
      && s'.calls[id].key == s.calls[id].key && HasPosted(s'.calls[id])
      && forall other | other in s.calls && other != id :: s'.calls[other] == s.calls[other]
  {
    var c := s.calls[id];
    var row := CanPost(digest, s.service.ledger, FundsReserved(c.accountId, c.amount, reservationId));
    move := PostRow(id, reservationId, row);
  }
}
