/**
 Saved recipients and their per-corridor default, over runs of POST and PATCH requests, where a request
 may die between the statement that unsets other defaults and its own; first handled one at a time, then
 interleaved under the unique index of the table.
 */
module Recipients {
  import opened Prelude

  datatype Status = Active | Suspended | Deleted

  datatype Recipient = Recipient(accountId: string, corridor: string, isDefault: bool, status: Status, memo: string)

  type Table = map<string, Recipient>

  /** The UPDATE that unsets defaults; POST spares nobody, PATCH spares the recipient patched. */
  function Unset(t: Table, accountId: string, corridor: string, spared: Option<string>): Table {
    map id | id in t ::
      if t[id].accountId == accountId && t[id].corridor == corridor && t[id].status == Active && Some(id) != spared
      then t[id].(isDefault := false) else t[id]
  }

  datatype Request =
    | Post(id: string, accountId: string, corridor: string, isDefault: bool)
    | Patch(id: string, setDefault: Option<bool>, memo: Option<string>)
    | Deactivate(id: string, status: Status)

  predicate IsActiveDefault(t: Table, id: string, accountId: string, corridor: string) {
    id in t && t[id].accountId == accountId && t[id].corridor == corridor && t[id].isDefault && t[id].status == Active
  }

  /** What the partial unique index of the table enforces. */
  ghost predicate AtMostOneDefault(t: Table) {
    forall a, b, accountId, corridor |
      IsActiveDefault(t, a, accountId, corridor) && IsActiveDefault(t, b, accountId, corridor) :: a == b
  }

  /** The table after the unsetting statement, if the request has one. */
  function AfterUnset(t: Table, r: Request): Table {
    match r
    case Post(_, accountId, corridor, isDefault) => if isDefault then Unset(t, accountId, corridor, None) else t
    case Patch(id, isDefault, _) =>
      if id in t && isDefault == Some(true) then Unset(t, t[id].accountId, t[id].corridor, Some(id)) else t
    case Deactivate(_, _) => t
  }

  /** The table after the request's own statement, which inserts or updates one row. */
  function AfterSet(t: Table, r: Request): Table {
    match r
    case Post(id, accountId, corridor, isDefault) =>
      if id in t then t else t[id := Recipient(accountId, corridor, isDefault, Active, "")]
    case Patch(id, isDefault, memo) =>
      if id !in t then t
      else
        t[id := t[id].(isDefault := if isDefault.Some? then isDefault.value else t[id].isDefault,
                       memo := if memo.Some? then memo.value else t[id].memo)]
    case Deactivate(id, status) =>
      if id !in t || status == Active then t else t[id := t[id].(status := status)]
  }

  /** A request, possibly cut off between its two statements. */
  function Handle(t: Table, r: Request, crash: bool): Table {
    if crash then AfterUnset(t, r) else AfterSet(AfterUnset(t, r), r)
  }

  lemma HandleKeepsOneDefault(t: Table, r: Request, crash: bool)
    requires AtMostOneDefault(t)
    ensures AtMostOneDefault(AfterUnset(t, r)) && AtMostOneDefault(Handle(t, r, crash))
  {
    var u := AfterUnset(t, r);
    forall a, b, accountId, corridor |
      IsActiveDefault(u, a, accountId, corridor) && IsActiveDefault(u, b, accountId, corridor)
      ensures a == b
    {
      assert IsActiveDefault(t, a, accountId, corridor) && IsActiveDefault(t, b, accountId, corridor);
    }
    if !crash {
      SetKeepsOneDefault(t, r);
    }
  }

  /** In the unset table, no other row is an active default where the request puts one. */
  lemma UnsetClears(t: Table, r: Request, other: string)
    requires other != r.id && IsActiveDefault(AfterSet(AfterUnset(t, r), r), r.id, AccountOf(t, r), CorridorOf(t, r))
    requires AtMostOneDefault(t)
    ensures !IsActiveDefault(AfterUnset(t, r), other, AccountOf(t, r), CorridorOf(t, r))
  {
    var u := AfterUnset(t, r);
    if IsActiveDefault(u, other, AccountOf(t, r), CorridorOf(t, r)) {
      assert IsActiveDefault(t, other, AccountOf(t, r), CorridorOf(t, r));
      assert r.id in t && IsActiveDefault(t, r.id, AccountOf(t, r), CorridorOf(t, r));
    }
  }

  function AccountOf(t: Table, r: Request): string {
    if r.id in t then t[r.id].accountId else if r.Post? then r.accountId else ""
  }

  function CorridorOf(t: Table, r: Request): string {
    if r.id in t then t[r.id].corridor else if r.Post? then r.corridor else ""
  }

  lemma SetKeepsOneDefault(t: Table, r: Request)
    requires AtMostOneDefault(t) && AtMostOneDefault(AfterUnset(t, r))
    ensures AtMostOneDefault(AfterSet(AfterUnset(t, r), r))
  {
    var u := AfterUnset(t, r);
    var s := AfterSet(u, r);
    forall a, b, accountId, corridor |
      IsActiveDefault(s, a, accountId, corridor) && IsActiveDefault(s, b, accountId, corridor)
      ensures a == b
    {
      assert a == r.id || IsActiveDefault(u, a, accountId, corridor);
      assert b == r.id || IsActiveDefault(u, b, accountId, corridor);
      if a == r.id && b != r.id {
        UnsetClears(t, r, b);
      }
      if b == r.id && a != r.id {
        UnsetClears(t, r, a);
      }
    }
  }

  // ---------------------------------------------------------------- what one request changes

  /** The request asks for a default at this account and corridor. */
  predicate AsksDefaultAt(t: Table, r: Request, accountId: string, corridor: string) {
    match r
    case Post(_, account, place, isDefault) => isDefault && account == accountId && place == corridor
    case Patch(id, isDefault, _) =>
      isDefault == Some(true) && id in t && t[id].accountId == accountId && t[id].corridor == corridor
    case Deactivate(_, _) => false
  }

  /** Whatever a request does, cut off or not: no recipient changes account or corridor; memo and status
      change only on the recipient named, as asked; and a default is set or cleared on the recipient named,
      as asked, and otherwise only cleared, on other active recipients of the account and corridor for which
      a default is asked. */
  lemma RowAfter(t: Table, r: Request, crash: bool, id: string)
    requires id in t
    ensures id in Handle(t, r, crash)
    ensures var before, after := t[id], Handle(t, r, crash)[id];
      && after.accountId == before.accountId && after.corridor == before.corridor
      && after.memo == (if !crash && r.Patch? && r.id == id && r.memo.Some? then r.memo.value else before.memo)
      && after.status == (if !crash && r.Deactivate? && r.id == id && r.status != Active then r.status else before.status)
      && after.isDefault ==
           if !crash && r.Patch? && r.id == id && r.setDefault.Some? then r.setDefault.value
           else if AsksDefaultAt(t, r, before.accountId, before.corridor) && before.status == Active
             && !(r.Patch? && r.id == id)
           then false else before.isDefault
  {
  }

  /** New recipients come from requests to create them, as asked, and from nowhere else. */
  lemma NewRows(t: Table, r: Request, crash: bool, id: string)
    requires id !in t
    ensures id in Handle(t, r, crash) <==> !crash && r.Post? && r.id == id
    ensures id in Handle(t, r, crash) ==>
      Handle(t, r, crash)[id] == Recipient(r.accountId, r.corridor, r.isDefault, Active, "")
  {
  }

  /** So what is the default of any other account or corridor stays so. */
  lemma OtherDefaultsStay(t: Table, r: Request, crash: bool, id: string, accountId: string, corridor: string)
    requires IsActiveDefault(t, id, accountId, corridor) && id != r.id
    ensures IsActiveDefault(Handle(t, r, crash), id, accountId, corridor) <==> !AsksDefaultAt(t, r, accountId, corridor)
  {
    RowAfter(t, r, crash, id);
  }

  function HandleAll(t: Table, requests: seq<(Request, bool)>): Table
    decreases |requests|
  {
    if requests == [] then t else HandleAll(Handle(t, requests[0].0, requests[0].1), requests[1..])
  }

  /** Over any run of creations, patches and deactivations, with crashes anywhere, every account and
      corridor has at most one active default: the handlers alone never trip the unique index. */
  lemma {:induction false} OneDefaultInEveryRun(t: Table, requests: seq<(Request, bool)>)
    requires AtMostOneDefault(t)
    ensures AtMostOneDefault(HandleAll(t, requests))
    decreases |requests|
  {
    if requests != [] {
      HandleKeepsOneDefault(t, requests[0].0, requests[0].1);
      OneDefaultInEveryRun(Handle(t, requests[0].0, requests[0].1), requests[1..]);
    }
  }

  /** An uninterrupted request that sets a default leaves exactly that recipient as the default. */
  lemma SettingADefaultSelectsIt(t: Table, r: Request, other: string)
    requires AtMostOneDefault(t)
    requires (r.Post? && r.isDefault && r.id !in t)
      || (r.Patch? && r.setDefault == Some(true) && r.id in t && t[r.id].status == Active)
    ensures var t' := Handle(t, r, false);
      var row := t'[r.id];
      IsActiveDefault(t', other, row.accountId, row.corridor) <==> other == r.id
  {
  }

  // ---------------------------------------------------------------- interleaved requests

  /** The table and the requests that have done their unsetting statement. */
  datatype Interleaved = Interleaved(table: Table, running: map<nat, Request>)

  datatype Step = Begin(h: nat, request: Request) | Finish(h: nat) | Die(h: nat)

  predicate Enabled(s: Interleaved, step: Step) {
    if step.Begin? then step.h !in s.running else step.h in s.running
  }

  /** The unique index refuses a statement that would leave two defaults. */
  ghost predicate Refused(t: Table, r: Request) {
    !AtMostOneDefault(AfterSet(t, r))
  }

  /** A PATCH of an unknown recipient is answered at once. */
  ghost function Do(s: Interleaved, step: Step): Interleaved
    requires Enabled(s, step)
  {
    match step
    case Begin(h, r) =>
      if r.Patch? && r.id !in s.table then s else Interleaved(AfterUnset(s.table, r), s.running[h := r])
    case Finish(h) =>
      var r := s.running[h];
      Interleaved(if Refused(s.table, r) then s.table else AfterSet(s.table, r), s.running - {h})
    case Die(h) => s.(running := s.running - {h})
  }

  ghost predicate IsRun(states: seq<Interleaved>, steps: seq<Step>) {
    |states| == |steps| + 1 && AtMostOneDefault(states[0].table) &&
    forall i | 0 <= i < |steps| :: Enabled(states[i], steps[i]) && states[i + 1] == Do(states[i], steps[i])
  }

  lemma UnsetKeepsOneDefault(t: Table, r: Request)
    requires AtMostOneDefault(t)
    ensures AtMostOneDefault(AfterUnset(t, r))
  {
    HandleKeepsOneDefault(t, r, true);
  }

  lemma {:induction false} OneDefaultWhenInterleaved(states: seq<Interleaved>, steps: seq<Step>, n: nat)
    requires IsRun(states, steps) && n <= |steps|
    ensures AtMostOneDefault(states[n].table)
  {
    if n > 0 {
      OneDefaultWhenInterleaved(states, steps, n - 1);
      var s, step := states[n - 1], steps[n - 1];
      assert states[n] == Do(s, step);
      if step.Begin? {
        UnsetKeepsOneDefault(s.table, step.request);
      }
    }
  }

  /** The row's own statement makes it a default beside another one: that is when it is refused. */
  lemma RefusedIffAnother(t: Table, r: Request)
    requires AtMostOneDefault(t)
    ensures Refused(t, r) <==> exists other :: Rival(t, r, other)
  {
    var s := AfterSet(t, r);
    forall a, b, accountId, corridor | IsActiveDefault(s, a, accountId, corridor) && IsActiveDefault(s, b, accountId, corridor)
      ensures a == b || exists other :: Rival(t, r, other)
    {
      assert a == r.id || IsActiveDefault(t, a, accountId, corridor);
      assert b == r.id || IsActiveDefault(t, b, accountId, corridor);
      if a == r.id && b != r.id {
        assert Rival(t, r, b);
      }
      if b == r.id && a != r.id {
        assert Rival(t, r, a);
      }
    }
    forall other | Rival(t, r, other) ensures Refused(t, r) {
      var row := s[r.id];
      assert IsActiveDefault(s, other, row.accountId, row.corridor) && IsActiveDefault(s, r.id, row.accountId, row.corridor);
    }
  }

  /** `other` is the active default where the request's own statement would put its recipient. */
  ghost predicate Rival(t: Table, r: Request, other: string) {
    var s := AfterSet(t, r);
    other != r.id && r.id in s && IsActiveDefault(s, r.id, s[r.id].accountId, s[r.id].corridor) &&
    IsActiveDefault(t, other, s[r.id].accountId, s[r.id].corridor)
  }

  /** Some request other than `r`'s recipient's made `other` an active default in step `m`. */
  ghost predicate MadeDefault(states: seq<Interleaved>, steps: seq<Step>, m: nat, other: string)
    requires |states| == |steps| + 1
  {
    m < |steps| && steps[m].Finish? && steps[m].h in states[m].running && states[m].running[steps[m].h].id == other &&
    other in states[m + 1].table && states[m + 1].table[other].isDefault && states[m + 1].table[other].status == Active
  }

  /** A recipient that is a default at `n` and was not at `m` was made one by its own request. */
  lemma {:induction false} BecameDefault(
      states: seq<Interleaved>, steps: seq<Step>, m: nat, n: nat, other: string, accountId: string, corridor: string)
    returns (k: nat)
    requires IsRun(states, steps) && m <= n <= |steps|
    requires !IsActiveDefault(states[m].table, other, accountId, corridor)
    requires IsActiveDefault(states[n].table, other, accountId, corridor)
    ensures m <= k < n && MadeDefault(states, steps, k, other)
    decreases n - m
  {
    assert m < n && states[n] == Do(states[n - 1], steps[n - 1]);
    if IsActiveDefault(states[n - 1].table, other, accountId, corridor) {
      k := BecameDefault(states, steps, m, n - 1, other, accountId, corridor);
    } else {
      k := n - 1;
    }
  }

  lemma {:induction false} RowsStay(states: seq<Interleaved>, steps: seq<Step>, m: nat, n: nat, id: string)
    requires IsRun(states, steps) && m <= n <= |steps| && id in states[m].table
    ensures id in states[n].table
    ensures states[n].table[id].accountId == states[m].table[id].accountId
    ensures states[n].table[id].corridor == states[m].table[id].corridor
    decreases n - m
  {
    if m < n {
      RowsStay(states, steps, m, n - 1, id);
      assert states[n] == Do(states[n - 1], steps[n - 1]);
    }
  }

  /** The request of step `i` gets as far as its unsetting statement. */
  ghost predicate Begun(states: seq<Interleaved>, steps: seq<Step>, i: nat)
    requires |states| == |steps| + 1
  {
    i < |steps| && steps[i].Begin? && steps[i].h in states[i + 1].running
  }

  lemma OwnRowIsNoRival(t: Table, r: Request, other: string)
    requires AtMostOneDefault(t) && Rival(t, r, other)
    ensures (r.Post? && r.isDefault && r.id !in t) || (r.Patch? && r.setDefault == Some(true) && r.id in t)
  {
    var row := AfterSet(t, r)[r.id];
    assert !IsActiveDefault(t, r.id, row.accountId, row.corridor);
  }

  /** Right after its unsetting statement a request has no rival, whatever its own statement meets later. */
  lemma NoRivalAtFirst(states: seq<Interleaved>, steps: seq<Step>, i: nat, j: nat, other: string)
    requires IsRun(states, steps) && i < j <= |steps| && Begun(states, steps, i)
    requires AtMostOneDefault(states[j].table) && Rival(states[j].table, steps[i].request, other)
    ensures var row := AfterSet(states[j].table, steps[i].request)[steps[i].request.id];
      !IsActiveDefault(states[i + 1].table, other, row.accountId, row.corridor)
  {
    var r := steps[i].request;
    assert states[i + 1] == Do(states[i], steps[i]);
    OwnRowIsNoRival(states[j].table, r, other);
    if r.Patch? {
      RowsStay(states, steps, i, j, r.id);
    }
  }

  /** Interleaved, at most one default still holds in every state, by the index; and a request's own
      statement is refused exactly if, since its unsetting statement, another recipient was made the
      default where it would put its own, and still is. */
  lemma RefusedIffOvertaken(states: seq<Interleaved>, steps: seq<Step>, i: nat, j: nat)
    requires IsRun(states, steps) && i < j <= |steps| && Begun(states, steps, i)
    ensures AtMostOneDefault(states[j].table)
    ensures Refused(states[j].table, steps[i].request) <==>
      exists k: nat, other: string ::
        i < k < j && MadeDefault(states, steps, k, other) && Rival(states[j].table, steps[i].request, other)
  {
    var t, r := states[j].table, steps[i].request;
    OneDefaultWhenInterleaved(states, steps, j);
    RefusedIffAnother(t, r);
    if Refused(t, r) {
      var other :| Rival(t, r, other);
      var row := AfterSet(t, r)[r.id];
      NoRivalAtFirst(states, steps, i, j, other);
      var k := BecameDefault(states, steps, i + 1, j, other, row.accountId, row.corridor);
      assert i < k < j && MadeDefault(states, steps, k, other);
    }
  }

  /** The repository of recipients: each handler issues its two statements in order. */
  class RecipientStore {
    var table: Table

    constructor ()
      ensures table == map[]
    {
      table := map[];
    }

    method UnsetDefaults(accountId: string, corridor: string, spared: Option<string>)
      modifies this
      ensures table == Unset(old(table), accountId, corridor, spared)
    {
      table := Unset(table, accountId, corridor, spared);
    }

    method PostRecipient(id: string, accountId: string, corridor: string, isDefault: bool, crash: bool)
      modifies this
      ensures table == Handle(old(table), Post(id, accountId, corridor, isDefault), crash)
      ensures old(AtMostOneDefault(table)) ==> AtMostOneDefault(table)
    {
      HandleKeepsOneDefaultIf(table, Post(id, accountId, corridor, isDefault), crash);
      if isDefault {
        UnsetDefaults(accountId, corridor, None);
      }
      if crash {
        return;
      }
      if id !in table {
        table := table[id := Recipient(accountId, corridor, isDefault, Active, "")];
      }
    }

    method PatchRecipient(id: string, isDefault: Option<bool>, memo: Option<string>, crash: bool) returns (found: bool)
      modifies this
      ensures found <==> id in old(table)
      ensures table == Handle(old(table), Patch(id, isDefault, memo), crash)
      ensures old(AtMostOneDefault(table)) ==> AtMostOneDefault(table)
    {
      HandleKeepsOneDefaultIf(table, Patch(id, isDefault, memo), crash);
      if id !in table {
        return false;
      }
      found := true;
      if isDefault == Some(true) {
        UnsetDefaults(table[id].accountId, table[id].corridor, Some(id));
      }
      if crash {
        return;
      }
      var row := table[id];
      if isDefault.Some? {
        row := row.(isDefault := isDefault.value);
      }
      if memo.Some? {
        row := row.(memo := memo.value);
      }
      table := table[id := row];
    }
  }

  lemma HandleKeepsOneDefaultIf(t: Table, r: Request, crash: bool)
    ensures AtMostOneDefault(t) ==> AtMostOneDefault(Handle(t, r, crash))
  {
    if AtMostOneDefault(t) {
      HandleKeepsOneDefault(t, r, crash);
    }
  }
}
