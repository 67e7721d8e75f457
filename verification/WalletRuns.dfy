/**
 Runs of registrations and account creations: ownership in every reachable state, links from
 identities to users that never change, and registering twice as registering once.
 */
module WalletRuns {
  import opened Prelude
  import opened WalletTables
  import opened WalletInvariants

  datatype Op =
    | Registering(input: Input, keys: Fresh)
    | Creating(id: string, ownerId: string, walletAddress: string, jurisdiction: string)

  /** A failed operation is rolled back. */
  function Apply(t: Tables, op: Op): Tables {
    match op
    case Registering(input, keys) =>
      var r := Register(t, input, keys);
      if r.Ok? then r.value.0 else t
    case Creating(id, ownerId, address, jurisdiction) =>
      var r := CreateAccount(t, id, ownerId, address, jurisdiction);
      if r.Ok? then r.value else t
  }

  function Run(t: Tables, ops: seq<Op>): Tables
    decreases |ops|
  {
    if ops == [] then t else Run(Apply(t, ops[0]), ops[1..])
  }

  const EMPTY := Tables([], [], [], [])

  /** No registration of the run takes over a colliding account and strands its wallets. */
  ghost predicate NoStranding(t: Tables, ops: seq<Op>)
    decreases |ops|
  {
    ops == [] ||
    ((ops[0].Registering? && Register(t, ops[0].input, ops[0].keys).Ok? ==>
        !CollisionStrands(t, ops[0].input, ops[0].keys)) &&
     NoStranding(Apply(t, ops[0]), ops[1..]))
  }

  lemma {:induction false} RunKeepsInv(t: Tables, ops: seq<Op>)
    requires Inv(t) && NoStranding(t, ops)
    ensures Inv(Run(t, ops))
    decreases |ops|
  {
    if ops != [] {
      match ops[0] {
        case Registering(input, keys) =>
          if Register(t, input, keys).Ok? {
            RegisterKeepsInvIff(t, input, keys);
          }
        case Creating(id, ownerId, address, jurisdiction) =>
          if CreateAccount(t, id, ownerId, address, jurisdiction).Ok? && AccountRow(t.accounts, id).None? {
            InsertStep(t, Account(id, ownerId, None, None, "GENESIS", address, jurisdiction));
          }
      }
      RunKeepsInv(Apply(t, ops[0]), ops[1..]);
    }
  }

  /** In every state reached from empty tables by registrations and account creations that strand no
      wallet, accounts, wallets and identities agree on their user, and rows stay unique. */
  lemma OwnershipAgrees(ops: seq<Op>)
    requires NoStranding(EMPTY, ops)
    ensures Inv(Run(EMPTY, ops))
  {
    RunKeepsInv(EMPTY, ops);
  }

  // ---------------------------------------------------------------- links are for ever

  lemma GivenKeepsDistinct(t: Tables, spec: WalletSpec, newId: string)
    requires DistinctRows(t) && UpsertIfGiven(t, spec, newId).Ok?
    ensures var t' := UpsertIfGiven(t, spec, newId).value.0;
      DistinctRows(t') && t'.users == t.users && t'.identities == t.identities && t'.accounts == t.accounts
  {
  }

  lemma RegisterOnKeepsDistinct(
      t: Tables, input: Input, keys: Fresh, userId: string, authIdentityId: string, accountId: string)
    requires DistinctRows(t) && RegisterOn(t, input, keys, userId, authIdentityId, accountId).Ok?
    ensures var t' := RegisterOn(t, input, keys, userId, authIdentityId, accountId).value.0;
      DistinctRows(t') && t'.identities == t.identities
  {
    var u := RegisterOnUnfolds(t, input, keys, userId, authIdentityId, accountId);
    GivenKeepsDistinct(t, EmbeddedSpec(input, userId, accountId, authIdentityId), keys.embedded);
    GivenKeepsDistinct(u.t1, SmartSpec(input, userId, accountId, authIdentityId, u.embeddedId), keys.smart);
    GivenKeepsDistinct(u.t2, ExternalSpec(input, userId, accountId, authIdentityId), keys.external);
  }

  /** Up to the account step, links and distinctness are kept. */
  lemma FindingsKeep(t: Tables, input: Input, keys: Fresh, f: Findings)
    requires DistinctRows(t) && AreFindings(t, input, keys, f)
    ensures DistinctRows(f.t3) && LinksKept(t, f.t3) && LinkedTo(f.t3, f.authIdentityId, f.userId)
    ensures DistinctRows(f.t1) && DistinctRows(f.t2)
  {
    UserMatchesIdentity(t, input, keys.user);
    IdentityStep(f.t1, f.userId, input, keys.identity);
    AccountKeepsDistinct(f.t2, f.userId, f.authIdentityId, input);
  }

  lemma RegisterKeepsLinks(t: Tables, input: Input, keys: Fresh)
    requires DistinctRows(t) && Register(t, input, keys).Ok?
    ensures DistinctRows(Register(t, input, keys).value.0) && LinksKept(t, Register(t, input, keys).value.0)
  {
    var f := RegisterUnfolds(t, input, keys);
    FindingsKeep(t, input, keys, f);
    RegisterOnKeepsDistinct(f.t3, input, keys, f.userId, f.authIdentityId, f.accountId);
  }

  lemma AccountKeepsDistinct(t: Tables, userId: string, authIdentityId: string, input: Input)
    requires DistinctRows(t) && EnsureTreasuryAccount(t, userId, authIdentityId, input).Ok?
    ensures var t' := EnsureTreasuryAccount(t, userId, authIdentityId, input).value.0;
      DistinctRows(t') && t'.identities == t.identities && t'.wallets == t.wallets && t'.users == t.users
  {
  }

  lemma {:induction false} RunKeepsLinks(t: Tables, ops: seq<Op>)
    requires DistinctRows(t)
    ensures DistinctRows(Run(t, ops)) && LinksKept(t, Run(t, ops))
    decreases |ops|
  {
    if ops != [] {
      var t' := Apply(t, ops[0]);
      if ops[0].Registering? && Register(t, ops[0].input, ops[0].keys).Ok? {
        RegisterKeepsLinks(t, ops[0].input, ops[0].keys);
      }
      assert DistinctRows(t') && LinksKept(t, t');
      RunKeepsLinks(t', ops[1..]);
    }
  }

  /** Identity-to-user links never change, over any further run, collisions or not. */
  lemma LinksAreForever(before: seq<Op>, after: seq<Op>)
    ensures LinksKept(Run(EMPTY, before), Run(Run(EMPTY, before), after))
  {
    RunKeepsLinks(EMPTY, before);
    RunKeepsLinks(Run(EMPTY, before), after);
  }

  // ---------------------------------------------------------------- registering twice

  /** Running a user update again, or running it on a user this request made, changes nothing. */
  lemma UserSettled(t: Tables, input: Input, newId: string)
    requires EnsureUser(t, input, newId).Ok?
    ensures var (t1, userId) := EnsureUser(t, input, newId).value;
      TouchUser(t1.users, userId, input) == t1.users
  {
  }

  lemma IdentitySettled(t: Tables, userId: string, input: Input, newId: string)
    requires EnsureAuthIdentity(t, userId, input, newId).Ok?
    ensures var (t', id) := EnsureAuthIdentity(t, userId, input, newId).value;
      var k := IdentityRow(t'.identities, input.providerUserId);
      && k.Some? && t'.identities[k.value].id == id && t'.identities[k.value].userId == userId
      && Relinked(t'.identities[k.value], userId, input) == t'.identities[k.value]
      && input.loginMethod in LOGIN_METHODS
  {
    var (t', id) := EnsureAuthIdentity(t, userId, input, newId).value;
    var k := IdentityRow(t.identities, input.providerUserId);
    var at := if k.Some? then k.value else |t.identities|;
    assert t'.identities[at].providerUserId == input.providerUserId;
    assert forall j | 0 <= j < at :: t'.identities[j].providerUserId != input.providerUserId;
  }

  /** The account step would pick the same account again and change nothing. */
  ghost predicate AccountSettled(t: Tables, userId: string, authIdentityId: string, input: Input, accountId: string) {
    AccountRow(t.accounts, accountId).Some? &&
    if Truthy(input.accountId).Some? then
      input.accountId.value == accountId && OwnedBy(t, accountId, userId)
    else
      var k := OwnedRow(t.accounts, userId, authIdentityId);
      k.Some? && t.accounts[k.value].id == accountId
  }

  lemma AccountStepSettles(t: Tables, userId: string, authIdentityId: string, input: Input)
    requires EnsureTreasuryAccount(t, userId, authIdentityId, input).Ok?
    ensures var (t', accountId) := EnsureTreasuryAccount(t, userId, authIdentityId, input).value;
      AccountSettled(t', userId, authIdentityId, input, accountId)
  {
    var (t', accountId) := EnsureTreasuryAccount(t, userId, authIdentityId, input).value;
    if Truthy(input.accountId).Some? {
    } else if OwnedRow(t.accounts, userId, authIdentityId).Some? {
    } else {
      var k := AccountRow(t.accounts, BuildAccountId(userId));
      var at := if k.Some? then k.value else |t.accounts|;
      assert t'.accounts[at].ownerId == userId && t'.accounts[at].id == accountId;
      assert forall j | 0 <= j < at :: t'.accounts[j] == t.accounts[j];
    }
  }

  lemma SettledAccountStep(t: Tables, userId: string, authIdentityId: string, input: Input, accountId: string)
    requires AccountSettled(t, userId, authIdentityId, input, accountId)
    ensures EnsureTreasuryAccount(t, userId, authIdentityId, input) == Ok((t, accountId))
  {
  }

  /** The wallet of `spec` is in the table exactly as an upsert of `spec` would leave it. */
  ghost predicate WalletSettled(t: Tables, spec: WalletSpec, id: Option<string>) {
    if spec.address.None? then id.None?
    else
      var address := NormaliseAddress(spec.address);
      address.Some? && id.Some? &&
      var k := WalletRow(t.wallets, WalletKey(spec.provider, spec.chainId, address.value));
      k.Some? && t.wallets[k.value].id == id.value && Reassigned(t.wallets[k.value], spec) == t.wallets[k.value]
  }

  lemma UpsertSettles(t: Tables, spec: WalletSpec, newId: string)
    requires UpsertIfGiven(t, spec, newId).Ok?
    ensures var (t', id) := UpsertIfGiven(t, spec, newId).value; WalletSettled(t', spec, id)
  {
    if spec.address.Some? {
      var (t', id) := UpsertIfGiven(t, spec, newId).value;
      var key := WalletKey(spec.provider, spec.chainId, NormaliseAddress(spec.address).value);
      var k := WalletRow(t.wallets, key);
      var at := if k.Some? then k.value else |t.wallets|;
      assert KeyOf(t'.wallets[at]) == key;
      assert forall j | 0 <= j < at :: t'.wallets[j] == t.wallets[j];
      assert WalletRow(t'.wallets, key) == Some(at);
    }
  }

  lemma SettledUpsert(t: Tables, spec: WalletSpec, id: Option<string>, newId: string)
    requires WalletSettled(t, spec, id)
    ensures UpsertIfGiven(t, spec, newId) == Ok((t, id))
  {
    if spec.address.Some? {
      var k := WalletRow(t.wallets, WalletKey(spec.provider, spec.chainId, NormaliseAddress(spec.address).value)).value;
      assert t.wallets[k := t.wallets[k]] == t.wallets;
    }
  }

  /** An upsert moves no row, keeps every key, and changes no row of another provider. */
  lemma UpsertInPlace(t: Tables, spec: WalletSpec, newId: string, j: nat)
    requires UpsertIfGiven(t, spec, newId).Ok? && j < |t.wallets|
    ensures var wallets := UpsertIfGiven(t, spec, newId).value.0.wallets;
      && j < |wallets| && KeyOf(wallets[j]) == KeyOf(t.wallets[j])
      && (t.wallets[j].provider != spec.provider ==> wallets[j] == t.wallets[j])
  {
  }

  lemma WalletRowStays(wallets: seq<Wallet>, wallets': seq<Wallet>, key: WalletKey)
    requires WalletRow(wallets, key).Some? && |wallets| <= |wallets'|
    requires forall j | 0 <= j < |wallets| :: KeyOf(wallets'[j]) == KeyOf(wallets[j])
    ensures WalletRow(wallets', key) == WalletRow(wallets, key)
  {
    var k := WalletRow(wallets, key).value;
    assert KeyOf(wallets'[k]) == key;
  }

  /** Upserting a wallet of another provider leaves a settled wallet settled. */
  lemma OtherUpsertKeepsSettled(t: Tables, spec: WalletSpec, id: Option<string>, other: WalletSpec, newId: string)
    requires WalletSettled(t, spec, id) && other.provider != spec.provider && UpsertIfGiven(t, other, newId).Ok?
    ensures WalletSettled(UpsertIfGiven(t, other, newId).value.0, spec, id)
  {
    var t' := UpsertIfGiven(t, other, newId).value.0;
    if spec.address.Some? {
      var key := WalletKey(spec.provider, spec.chainId, NormaliseAddress(spec.address).value);
      var k := WalletRow(t.wallets, key).value;
      forall j | 0 <= j < |t.wallets| ensures j < |t'.wallets| && KeyOf(t'.wallets[j]) == KeyOf(t.wallets[j]) {
        UpsertInPlace(t, other, newId, j);
      }
      UpsertInPlace(t, other, newId, k);
      UpsertGrows(t, other, newId);
      WalletRowStays(t.wallets, t'.wallets, key);
    }
  }

  lemma UpsertGrows(t: Tables, spec: WalletSpec, newId: string)
    requires UpsertIfGiven(t, spec, newId).Ok?
    ensures |t.wallets| <= |UpsertIfGiven(t, spec, newId).value.0.wallets|
  {
  }

  lemma AccountRowStays(accounts: seq<Account>, id: string, row: Account)
    requires AccountRow(accounts, id).Some? && row.id == id
    ensures AccountRow(accounts[AccountRow(accounts, id).value := row], id) == AccountRow(accounts, id)
  {
    var k := AccountRow(accounts, id).value;
    var updated := accounts[k := row];
    assert updated[k] == row;
    assert forall j | 0 <= j < k :: updated[j] == accounts[j];
  }

  /** The closing update writes what it would write again. */
  lemma CloseAgain(
      t: Tables, accountId: string, input: Input, authIdentityId: string, primary: Option<string>, smartId: Option<string>)
    requires AccountRow(t.accounts, accountId).Some?
    requires CloseAccount(t, accountId, input, authIdentityId, primary, smartId).Ok?
    ensures var t' := CloseAccount(t, accountId, input, authIdentityId, primary, smartId).value;
      CloseAccount(t', accountId, input, authIdentityId, primary, smartId) == Ok(t')
  {
    var k := AccountRow(t.accounts, accountId).value;
    var row := Closed(t.accounts[k], input, authIdentityId, primary, smartId);
    AccountRowStays(t.accounts, accountId, row);
    var accounts := t.accounts[k := row];
    assert row.walletAddress != "" && Closed(row, input, authIdentityId, primary, smartId) == row;
    assert accounts[k := row] == accounts;
  }

  lemma CloseSettles(
      t: Tables, accountId: string, userId: string, input: Input, authIdentityId: string,
      primary: Option<string>, smartId: Option<string>)
    requires DistinctRows(t) && AccountSettled(t, userId, authIdentityId, input, accountId)
    requires CloseAccount(t, accountId, input, authIdentityId, primary, smartId).Ok?
    ensures var t' := CloseAccount(t, accountId, input, authIdentityId, primary, smartId).value;
      && AccountSettled(t', userId, authIdentityId, input, accountId)
      && CloseAccount(t', accountId, input, authIdentityId, primary, smartId) == Ok(t')
      && t'.users == t.users && t'.identities == t.identities && t'.wallets == t.wallets
  {
    CloseAgain(t, accountId, input, authIdentityId, primary, smartId);
    var k := AccountRow(t.accounts, accountId).value;
    var row := Closed(t.accounts[k], input, authIdentityId, primary, smartId);
    AccountRowStays(t.accounts, accountId, row);
    ClosedRowChosen(t, k, row, userId, authIdentityId, input, accountId);
  }

  lemma ClosedRowChosen(
      t: Tables, k: nat, row: Account, userId: string, authIdentityId: string, input: Input, accountId: string)
    requires DistinctRows(t) && AccountSettled(t, userId, authIdentityId, input, accountId)
    requires AccountRow(t.accounts, accountId) == Some(k) && AccountRow(t.accounts[k := row], accountId) == Some(k)
    requires row.ownerId == t.accounts[k].ownerId && row.authIdentityId == Some(authIdentityId)
    ensures AccountSettled(t.(accounts := t.accounts[k := row]), userId, authIdentityId, input, accountId)
  {
  }

  /** Every row a registration writes is as it would write it again. */
  ghost predicate AllSettled(
      t: Tables, input: Input, userId: string, authIdentityId: string, accountId: string,
      embeddedId: Option<string>, smartId: Option<string>, externalId: Option<string>)
  {
    && WalletSettled(t, EmbeddedSpec(input, userId, accountId, authIdentityId), embeddedId)
    && WalletSettled(t, SmartSpec(input, userId, accountId, authIdentityId, embeddedId), smartId)
    && WalletSettled(t, ExternalSpec(input, userId, accountId, authIdentityId), externalId)
    && CloseAccount(t, accountId, input, authIdentityId, smartId.OrElse(embeddedId).OrElse(externalId), smartId) == Ok(t)
  }

  lemma SettledRegisterOn(
      t: Tables, input: Input, again: Fresh, userId: string, authIdentityId: string, accountId: string,
      embeddedId: Option<string>, smartId: Option<string>, externalId: Option<string>)
    requires AllSettled(t, input, userId, authIdentityId, accountId, embeddedId, smartId, externalId)
    ensures RegisterOn(t, input, again, userId, authIdentityId, accountId) ==
      Ok((t, Registration(userId, accountId, authIdentityId, smartId.OrElse(embeddedId).OrElse(externalId),
                          WalletsOf(t, accountId))))
  {
    SettledUpsert(t, EmbeddedSpec(input, userId, accountId, authIdentityId), embeddedId, again.embedded);
    SettledUpsert(t, SmartSpec(input, userId, accountId, authIdentityId, embeddedId), smartId, again.smart);
    SettledUpsert(t, ExternalSpec(input, userId, accountId, authIdentityId), externalId, again.external);
  }

  /** After the three upserts all three wallets are settled. */
  lemma UpsertsSettle(
      t: Tables, input: Input, keys: Fresh, userId: string, authIdentityId: string, accountId: string, u: Upserts)
    requires DistinctRows(t) && AreUpserts(t, input, keys, userId, authIdentityId, accountId, u)
    ensures WalletSettled(u.t3, EmbeddedSpec(input, userId, accountId, authIdentityId), u.embeddedId)
    ensures WalletSettled(u.t3, SmartSpec(input, userId, accountId, authIdentityId, u.embeddedId), u.smartId)
    ensures WalletSettled(u.t3, ExternalSpec(input, userId, accountId, authIdentityId), u.externalId)
    ensures DistinctRows(u.t3) && u.t3.users == t.users && u.t3.identities == t.identities && u.t3.accounts == t.accounts
  {
    var embedded := EmbeddedSpec(input, userId, accountId, authIdentityId);
    var smart := SmartSpec(input, userId, accountId, authIdentityId, u.embeddedId);
    var external := ExternalSpec(input, userId, accountId, authIdentityId);
    UpsertSettles(t, embedded, keys.embedded);
    GivenKeepsDistinct(t, embedded, keys.embedded);
    UpsertSettles(u.t1, smart, keys.smart);
    OtherUpsertKeepsSettled(u.t1, embedded, u.embeddedId, smart, keys.smart);
    GivenKeepsDistinct(u.t1, smart, keys.smart);
    UpsertSettles(u.t2, external, keys.external);
    OtherUpsertKeepsSettled(u.t2, embedded, u.embeddedId, external, keys.external);
    OtherUpsertKeepsSettled(u.t2, smart, u.smartId, external, keys.external);
    GivenKeepsDistinct(u.t2, external, keys.external);
  }

  /** The wallet and closing steps leave every row they wrote settled. */
  lemma RegisterOnSettles(
      t: Tables, input: Input, keys: Fresh, userId: string, authIdentityId: string, accountId: string)
    returns (embeddedId: Option<string>, smartId: Option<string>, externalId: Option<string>)
    requires DistinctRows(t) && AccountSettled(t, userId, authIdentityId, input, accountId)
    requires RegisterOn(t, input, keys, userId, authIdentityId, accountId).Ok?
    ensures var (t', r) := RegisterOn(t, input, keys, userId, authIdentityId, accountId).value;
      && r == Registration(userId, accountId, authIdentityId, smartId.OrElse(embeddedId).OrElse(externalId),
                           WalletsOf(t', accountId))
      && AllSettled(t', input, userId, authIdentityId, accountId, embeddedId, smartId, externalId)
      && AccountSettled(t', userId, authIdentityId, input, accountId)
      && t'.users == t.users && t'.identities == t.identities
  {
    var u := RegisterOnUnfolds(t, input, keys, userId, authIdentityId, accountId);
    UpsertsSettle(t, input, keys, userId, authIdentityId, accountId, u);
    embeddedId, smartId, externalId := u.embeddedId, u.smartId, u.externalId;
    assert AccountSettled(u.t3, userId, authIdentityId, input, accountId);
    CloseSettles(u.t3, accountId, userId, input, authIdentityId, smartId.OrElse(embeddedId).OrElse(externalId), smartId);
  }

  /** The wallet and closing steps, run again on their own result, reproduce it. */
  lemma RegisterOnTwice(
      t: Tables, input: Input, keys: Fresh, again: Fresh, userId: string, authIdentityId: string, accountId: string)
    requires DistinctRows(t) && AccountSettled(t, userId, authIdentityId, input, accountId)
    requires RegisterOn(t, input, keys, userId, authIdentityId, accountId).Ok?
    ensures var (t', r) := RegisterOn(t, input, keys, userId, authIdentityId, accountId).value;
      && RegisterOn(t', input, again, userId, authIdentityId, accountId) == Ok((t', r))
      && AccountSettled(t', userId, authIdentityId, input, accountId)
      && t'.users == t.users && t'.identities == t.identities
  {
    var embeddedId, smartId, externalId := RegisterOnSettles(t, input, keys, userId, authIdentityId, accountId);
    var t' := RegisterOn(t, input, keys, userId, authIdentityId, accountId).value.0;
    SettledRegisterOn(t', input, again, userId, authIdentityId, accountId, embeddedId, smartId, externalId);
  }

  /** What a registration returns is what its rows say: the request's identity is linked to the
      returned user, each given address has its wallet row, owned by the returned user and account,
      and the account row names the primary wallet: the smart one if given, else the embedded one,
      else the external one. */
  lemma RegistrationIsRecorded(t: Tables, input: Input, keys: Fresh)
    returns (embeddedId: Option<string>, smartId: Option<string>, externalId: Option<string>)
    requires DistinctRows(t) && Register(t, input, keys).Ok?
    ensures var (t', r) := Register(t, input, keys).value;
      && r.primaryWalletId == smartId.OrElse(embeddedId).OrElse(externalId)
      && AllSettled(t', input, r.userId, r.authIdentityId, r.accountId, embeddedId, smartId, externalId)
      && LinkedTo(t', r.authIdentityId, r.userId)
      && (var k := AccountRow(t'.accounts, r.accountId);
          k.Some? && t'.accounts[k.value].primaryWalletId == r.primaryWalletId
          && t'.accounts[k.value].authIdentityId == Some(r.authIdentityId))
  {
    var f := RegisterUnfolds(t, input, keys);
    FindingsKeep(t, input, keys, f);
    AccountStepSettles(f.t2, f.userId, f.authIdentityId, input);
    embeddedId, smartId, externalId := RegisterOnSettles(f.t3, input, keys, f.userId, f.authIdentityId, f.accountId);
    var (t', r) := Register(t, input, keys).value;
    ClosedFixpoint(t', r.accountId, input, r.authIdentityId, r.primaryWalletId, smartId);
  }

  /** An account row the closing update would not change names what the update sets. */
  lemma ClosedFixpoint(
      t: Tables, accountId: string, input: Input, authIdentityId: string, primary: Option<string>, smartId: Option<string>)
    requires AccountRow(t.accounts, accountId).Some?
    requires CloseAccount(t, accountId, input, authIdentityId, primary, smartId) == Ok(t)
    ensures var row := t.accounts[AccountRow(t.accounts, accountId).value];
      row.primaryWalletId == primary && row.authIdentityId == Some(authIdentityId)
  {
  }

  lemma UserAgain(t: Tables, input: Input, newId: string, again: string, t1: Tables, userId: string, t': Tables)
    requires DistinctRows(t) && EnsureUser(t, input, newId) == Ok((t1, userId))
    requires t'.users == t1.users
    requires IdentityRow(t'.identities, input.providerUserId).Some?
    requires t'.identities[IdentityRow(t'.identities, input.providerUserId).value].userId == userId
    ensures EnsureUser(t', input, again) == Ok((t', userId))
  {
    UserSettled(t, input, newId);
    assert TouchUser(t'.users, userId, input) == t'.users;
  }

  lemma IdentityAgain(
      t: Tables, userId: string, input: Input, newId: string, again: string, t2: Tables, id: string, t': Tables)
    requires EnsureAuthIdentity(t, userId, input, newId) == Ok((t2, id)) && t'.identities == t2.identities
    ensures IdentityRow(t'.identities, input.providerUserId).Some?
    ensures t'.identities[IdentityRow(t'.identities, input.providerUserId).value].userId == userId
    ensures EnsureAuthIdentity(t', userId, input, again) == Ok((t', id))
  {
    IdentitySettled(t, userId, input, newId);
    var k := IdentityRow(t'.identities, input.providerUserId).value;
    assert t'.identities[k := t'.identities[k]] == t'.identities;
  }

  /** The later steps leave users and identities alone. */
  lemma FindingsShare(t: Tables, input: Input, keys: Fresh, f: Findings)
    requires AreFindings(t, input, keys, f)
    ensures f.t3.users == f.t1.users && f.t3.identities == f.t2.identities
  {
  }

  /** Registering again with the same input, whatever fresh keys it is offered, returns the same
      user, identity, account, primary wallet and wallets, and leaves every modelled column of every
      table as it was. */
  lemma RegisteringTwiceIsRegisteringOnce(t: Tables, input: Input, keys: Fresh, again: Fresh)
    requires DistinctRows(t) && Register(t, input, keys).Ok?
    ensures var (t', r) := Register(t, input, keys).value;
      Register(t', input, again) == Ok((t', r))
  {
    var f := RegisterUnfolds(t, input, keys);
    FindingsKeep(t, input, keys, f);
    AccountStepSettles(f.t2, f.userId, f.authIdentityId, input);
    RegisterOnTwice(f.t3, input, keys, again, f.userId, f.authIdentityId, f.accountId);
    FindingsAgain(t, input, keys, again, f, Register(t, input, keys).value.0);
  }

  /** On the tables a registration left, the same request finds the same user, identity and account. */
  lemma FindingsAgain(t: Tables, input: Input, keys: Fresh, again: Fresh, f: Findings, t': Tables)
    requires DistinctRows(t) && AreFindings(t, input, keys, f)
    requires t'.users == f.t3.users && t'.identities == f.t3.identities
    requires AccountSettled(t', f.userId, f.authIdentityId, input, f.accountId)
    ensures Register(t', input, again) == RegisterOn(t', input, again, f.userId, f.authIdentityId, f.accountId)
  {
    FindingsShare(t, input, keys, f);
    IdentityAgain(f.t1, f.userId, input, keys.identity, again.identity, f.t2, f.authIdentityId, t');
    UserAgain(t, input, keys.user, again.user, f.t1, f.userId, t');
    SettledAccountStep(t', f.userId, f.authIdentityId, input, f.accountId);
    RegisterFrom(t', input, again, Findings(t', f.userId, t', f.authIdentityId, t', f.accountId));
  }
}
