/**
 Ownership across the four registration tables, over any run of registrations and account
 creations: who owns an account, a wallet and an identity always agree.
 */
module WalletInvariants {
  import opened Prelude
  import opened WalletTables

  ghost predicate DistinctRows(t: Tables) {
    (forall i, j | 0 <= i < j < |t.identities| ::
      t.identities[i].id != t.identities[j].id && t.identities[i].providerUserId != t.identities[j].providerUserId) &&
    (forall i, j | 0 <= i < j < |t.accounts| :: t.accounts[i].id != t.accounts[j].id) &&
    (forall i, j | 0 <= i < j < |t.wallets| ::
      t.wallets[i].id != t.wallets[j].id && KeyOf(t.wallets[i]) != KeyOf(t.wallets[j]))
  }

  /** The identity `id` exists and is linked to `userId`. */
  ghost predicate LinkedTo(t: Tables, id: string, userId: string) {
    exists i | i in t.identities :: i.id == id && i.userId == userId
  }

  ghost predicate OwnedBy(t: Tables, accountId: string, userId: string) {
    exists a | a in t.accounts :: a.id == accountId && a.ownerId == userId
  }

  ghost predicate AccountsLinked(t: Tables) {
    forall a | a in t.accounts && a.authIdentityId.Some? :: LinkedTo(t, a.authIdentityId.value, a.ownerId)
  }

  /** A wallet's user owns its account, and its identity is linked to its user. */
  ghost predicate WalletOwned(t: Tables, w: Wallet) {
    OwnedBy(t, w.accountId, w.userId) && LinkedTo(t, w.authIdentityId, w.userId)
  }

  ghost predicate Inv(t: Tables) {
    DistinctRows(t) && AccountsLinked(t) && forall w | w in t.wallets :: WalletOwned(t, w)
  }

  /** The invariant, excepting wallets of `accountId` that belong to someone other than `userId`. */
  ghost predicate InvBut(t: Tables, accountId: string, userId: string) {
    DistinctRows(t) && AccountsLinked(t) &&
    forall w | w in t.wallets :: (w.accountId == accountId ==> w.userId == userId) ==> WalletOwned(t, w)
  }

  lemma OwnerUnique(t: Tables, accountId: string, u: string, v: string)
    requires DistinctRows(t) && OwnedBy(t, accountId, u) && OwnedBy(t, accountId, v)
    ensures u == v
  {
  }

  lemma LinkUnique(t: Tables, id: string, u: string, v: string)
    requires DistinctRows(t) && LinkedTo(t, id, u) && LinkedTo(t, id, v)
    ensures u == v
  {
  }

  // ---------------------------------------------------------------- identities

  /** Every link of `t` is still a link of `t'`. */
  ghost predicate LinksKept(t: Tables, t': Tables) {
    forall i | i in t.identities :: exists j | j in t'.identities ::
      j.id == i.id && j.userId == i.userId && j.providerUserId == i.providerUserId
  }

  /** The user found or made for a request is the one its identity, if any, is linked to. */
  lemma UserMatchesIdentity(t: Tables, input: Input, newId: string)
    requires DistinctRows(t) && EnsureUser(t, input, newId).Ok?
    ensures var (t1, userId) := EnsureUser(t, input, newId).value;
      && t1.identities == t.identities && t1.accounts == t.accounts && t1.wallets == t.wallets
      && forall i | i in t.identities && i.providerUserId == input.providerUserId :: i.userId == userId
  {
  }

  lemma IdentityStep(t: Tables, userId: string, input: Input, newId: string)
    requires DistinctRows(t) && EnsureAuthIdentity(t, userId, input, newId).Ok?
    requires forall i | i in t.identities && i.providerUserId == input.providerUserId :: i.userId == userId
    ensures var (t', id) := EnsureAuthIdentity(t, userId, input, newId).value;
      && t'.accounts == t.accounts && t'.wallets == t.wallets
      && DistinctRows(t') && LinksKept(t, t') && LinkedTo(t', id, userId)
      && forall i | i in t'.identities && i.providerUserId == input.providerUserId :: i.userId == userId
  {
    var (t', id) := EnsureAuthIdentity(t, userId, input, newId).value;
    match IdentityRow(t.identities, input.providerUserId)
    case Some(k) =>
      var row := Relinked(t.identities[k], userId, input);
      assert t.identities[k] in t.identities;
      assert t'.identities[k] == row && row in t'.identities;
      forall i | i in t.identities
        ensures exists j | j in t'.identities :: j.id == i.id && j.userId == i.userId && j.providerUserId == i.providerUserId
      {
        var n :| 0 <= n < |t.identities| && t.identities[n] == i;
        assert t'.identities[n] in t'.identities;
      }
    case None =>
      assert t'.identities[|t.identities|] in t'.identities;
      forall i | i in t.identities ensures i in t'.identities {
      }
  }

  lemma LinksCarryInv(t: Tables, t': Tables)
    requires Inv(t) && LinksKept(t, t') && DistinctRows(t')
    requires t'.accounts == t.accounts && t'.wallets == t.wallets
    ensures Inv(t')
  {
  }

  // ---------------------------------------------------------------- accounts

  /** The account id was derived for this user but already names somebody else's account, whose
      owner the insert's conflict clause then overwrites. */
  predicate TakesOver(t: Tables, userId: string, authIdentityId: string, input: Input) {
    Truthy(input.accountId).None? && OwnedRow(t.accounts, userId, authIdentityId).None? &&
    AccountRow(t.accounts, BuildAccountId(userId)).Some?
  }

  lemma AccountStep(t: Tables, userId: string, authIdentityId: string, input: Input)
    requires Inv(t) && LinkedTo(t, authIdentityId, userId)
    requires EnsureTreasuryAccount(t, userId, authIdentityId, input).Ok?
    ensures var (t', accountId) := EnsureTreasuryAccount(t, userId, authIdentityId, input).value;
      && t'.identities == t.identities && t'.wallets == t.wallets
      && InvBut(t', accountId, userId) && OwnedBy(t', accountId, userId)
      && (!TakesOver(t, userId, authIdentityId, input) ==> Inv(t'))
  {
    var (t', accountId) := EnsureTreasuryAccount(t, userId, authIdentityId, input).value;
    if Truthy(input.accountId).Some? {
    } else if OwnedRow(t.accounts, userId, authIdentityId).Some? {
      var a := t.accounts[OwnedRow(t.accounts, userId, authIdentityId).value];
      assert a in t.accounts;
      if a.ownerId != userId {
        LinkUnique(t, authIdentityId, userId, a.ownerId);
      }
    } else if AccountRow(t.accounts, BuildAccountId(userId)).Some? {
      TakeoverStep(t, userId, authIdentityId, AccountRow(t.accounts, BuildAccountId(userId)).value);
    } else {
      InsertStep(t, t'.accounts[|t.accounts|]);
    }
  }

  lemma InsertStep(t: Tables, a: Account)
    requires Inv(t) && (forall x | x in t.accounts :: x.id != a.id)
    requires a.authIdentityId.Some? ==> LinkedTo(t, a.authIdentityId.value, a.ownerId)
    ensures Inv(t.(accounts := t.accounts + [a])) && OwnedBy(t.(accounts := t.accounts + [a]), a.id, a.ownerId)
  {
  }

  lemma TakeoverStep(t: Tables, userId: string, authIdentityId: string, k: nat)
    requires Inv(t) && LinkedTo(t, authIdentityId, userId) && k < |t.accounts|
    ensures var taken := t.accounts[k].(ownerId := userId, authIdentityId := Some(authIdentityId));
      var t' := t.(accounts := t.accounts[k := taken]);
      InvBut(t', taken.id, userId) && OwnedBy(t', taken.id, userId)
  {
    var taken := t.accounts[k].(ownerId := userId, authIdentityId := Some(authIdentityId));
    var t' := t.(accounts := t.accounts[k := taken]);
    assert t'.accounts[k] in t'.accounts;
    forall a | a in t'.accounts ensures a == taken || a in t.accounts {
    }
    forall w | w in t'.wallets && (w.accountId == taken.id ==> w.userId == userId) ensures WalletOwned(t', w) {
      assert WalletOwned(t, w);
      if w.accountId != taken.id {
        var a :| a in t.accounts && a.id == w.accountId && a.ownerId == w.userId;
        var n :| 0 <= n < |t.accounts| && t.accounts[n] == a;
        assert t'.accounts[n] in t'.accounts;
      }
    }
  }

  // ---------------------------------------------------------------- wallets

  /** `t'` is `t` with one wallet, keyed `key`, inserted or reassigned to this user and account. */
  ghost predicate WalletPut(
      t: Tables, t': Tables, key: WalletKey, userId: string, accountId: string, authIdentityId: string)
  {
    t'.accounts == t.accounts && t'.identities == t.identities &&
    (forall w | w in t.wallets && KeyOf(w) != key :: w in t'.wallets) &&
    (forall w | w in t'.wallets :: if KeyOf(w) == key
       then w.userId == userId && w.accountId == accountId && w.authIdentityId == authIdentityId
       else w in t.wallets)
  }

  lemma UpsertStep(t: Tables, spec: WalletSpec, newId: string)
    requires DistinctRows(t) && UpsertWallet(t, spec, newId).Ok?
    ensures var t' := UpsertWallet(t, spec, newId).value.0;
      && DistinctRows(t')
      && WalletPut(t, t', WalletKey(spec.provider, spec.chainId, NormaliseAddress(spec.address).value),
                   spec.userId, spec.accountId, spec.authIdentityId)
  {
    var t' := UpsertWallet(t, spec, newId).value.0;
    var key := WalletKey(spec.provider, spec.chainId, NormaliseAddress(spec.address).value);
    match WalletRow(t.wallets, key)
    case Some(k) =>
      forall w | w in t.wallets && KeyOf(w) != key ensures w in t'.wallets {
        var n :| 0 <= n < |t.wallets| && t.wallets[n] == w;
        assert t'.wallets[n] == w;
      }
      forall w | w in t'.wallets
        ensures if KeyOf(w) == key then w == t'.wallets[k] else w in t.wallets
      {
        var n :| 0 <= n < |t'.wallets| && t'.wallets[n] == w;
        if n != k {
          assert t.wallets[n] == w;
        }
      }
    case None =>
      assert forall w :: w in t'.wallets <==> w in t.wallets || w == t'.wallets[|t.wallets|];
  }

  lemma PutKeepsInvBut(t: Tables, t': Tables, key: WalletKey, userId: string, accountId: string, authIdentityId: string)
    requires InvBut(t, accountId, userId) && OwnedBy(t, accountId, userId) && LinkedTo(t, authIdentityId, userId)
    requires DistinctRows(t') && WalletPut(t, t', key, userId, accountId, authIdentityId)
    ensures InvBut(t', accountId, userId)
  {
  }

  /** A wallet of the account that belongs to another user and is not registered again. */
  ghost predicate Stranded(t: Tables, accountId: string, userId: string, keys: set<WalletKey>) {
    exists w | w in t.wallets :: w.accountId == accountId && w.userId != userId && KeyOf(w) !in keys
  }

  lemma PutStranded(
      t: Tables, t': Tables, key: WalletKey, userId: string, accountId: string, authIdentityId: string, rest: set<WalletKey>)
    requires WalletPut(t, t', key, userId, accountId, authIdentityId)
    ensures Stranded(t', accountId, userId, rest) <==> Stranded(t, accountId, userId, rest + {key})
  {
  }

  /** The key a wallet argument upserts, if it is given and well formed. */
  function SpecKeys(spec: WalletSpec): set<WalletKey> {
    match NormaliseAddress(spec.address)
    case Some(address) => {WalletKey(spec.provider, spec.chainId, address)}
    case None => {}
  }

  /** The tables between the account step and the end of a registration: `userId` owns the account and
      is who the identity is linked to. */
  ghost predicate Standing(t: Tables, userId: string, authIdentityId: string, accountId: string) {
    InvBut(t, accountId, userId) && OwnedBy(t, accountId, userId) && LinkedTo(t, authIdentityId, userId)
  }

  lemma GivenKeepsStanding(t: Tables, spec: WalletSpec, newId: string)
    requires Standing(t, spec.userId, spec.authIdentityId, spec.accountId) && UpsertIfGiven(t, spec, newId).Ok?
    ensures var t' := UpsertIfGiven(t, spec, newId).value.0;
      && Standing(t', spec.userId, spec.authIdentityId, spec.accountId)
      && t'.accounts == t.accounts && t'.identities == t.identities
  {
    var t' := UpsertIfGiven(t, spec, newId).value.0;
    if spec.address.Some? {
      var key := WalletKey(spec.provider, spec.chainId, NormaliseAddress(spec.address).value);
      UpsertStep(t, spec, newId);
      PutKeepsInvBut(t, t', key, spec.userId, spec.accountId, spec.authIdentityId);
    }
  }

  lemma GivenStrands(t: Tables, spec: WalletSpec, newId: string, rest: set<WalletKey>)
    requires DistinctRows(t) && UpsertIfGiven(t, spec, newId).Ok?
    ensures var t' := UpsertIfGiven(t, spec, newId).value.0;
      Stranded(t', spec.accountId, spec.userId, rest) <==>
      Stranded(t, spec.accountId, spec.userId, rest + SpecKeys(spec))
  {
    var t' := UpsertIfGiven(t, spec, newId).value.0;
    if spec.address.Some? {
      var key := WalletKey(spec.provider, spec.chainId, NormaliseAddress(spec.address).value);
      UpsertStep(t, spec, newId);
      PutStranded(t, t', key, spec.userId, spec.accountId, spec.authIdentityId, rest);
    } else {
      assert rest + SpecKeys(spec) == rest;
    }
  }

  lemma CloseStep(
      t: Tables, accountId: string, userId: string, input: Input, authIdentityId: string,
      primary: Option<string>, smartId: Option<string>)
    requires InvBut(t, accountId, userId) && OwnedBy(t, accountId, userId) && LinkedTo(t, authIdentityId, userId)
    requires CloseAccount(t, accountId, input, authIdentityId, primary, smartId).Ok?
    ensures var t' := CloseAccount(t, accountId, input, authIdentityId, primary, smartId).value;
      && InvBut(t', accountId, userId) && OwnedBy(t', accountId, userId)
      && t'.wallets == t.wallets && t'.identities == t.identities
  {
    var t' := CloseAccount(t, accountId, input, authIdentityId, primary, smartId).value;
    var k := AccountRow(t.accounts, accountId).value;
    var row := t.accounts[k];
    assert row in t.accounts;
    OwnerUnique(t, accountId, row.ownerId, userId);
    assert t'.accounts[k] in t'.accounts;
    forall u: string, a: string | OwnedBy(t, a, u) ensures OwnedBy(t', a, u) {
      var x :| x in t.accounts && x.id == a && x.ownerId == u;
      var n :| 0 <= n < |t.accounts| && t.accounts[n] == x;
      assert t'.accounts[n] in t'.accounts;
    }
    forall a | a in t'.accounts && a.authIdentityId.Some? ensures LinkedTo(t', a.authIdentityId.value, a.ownerId) {
      var n :| 0 <= n < |t'.accounts| && t'.accounts[n] == a;
      if n != k {
        assert t.accounts[n] == a;
      }
    }
    forall w | w in t'.wallets && (w.accountId == accountId ==> w.userId == userId) ensures WalletOwned(t', w) {
      assert WalletOwned(t, w);
    }
  }

  /** The intermediate tables and ids of the upserts of a successful registration. */
  datatype Upserts = Upserts(
    t1: Tables, embeddedId: Option<string>, t2: Tables, smartId: Option<string>, t3: Tables, externalId: Option<string>)

  ghost predicate AreUpserts(
      t: Tables, input: Input, keys: Fresh, userId: string, authIdentityId: string, accountId: string, u: Upserts)
  {
    && UpsertIfGiven(t, EmbeddedSpec(input, userId, accountId, authIdentityId), keys.embedded) == Ok((u.t1, u.embeddedId))
    && UpsertIfGiven(u.t1, SmartSpec(input, userId, accountId, authIdentityId, u.embeddedId), keys.smart)
         == Ok((u.t2, u.smartId))
    && UpsertIfGiven(u.t2, ExternalSpec(input, userId, accountId, authIdentityId), keys.external)
         == Ok((u.t3, u.externalId))
  }

  lemma RegisterOnUnfolds(
      t: Tables, input: Input, keys: Fresh, userId: string, authIdentityId: string, accountId: string)
    returns (u: Upserts)
    requires RegisterOn(t, input, keys, userId, authIdentityId, accountId).Ok?
    ensures AreUpserts(t, input, keys, userId, authIdentityId, accountId, u)
    ensures var primary := u.smartId.OrElse(u.embeddedId).OrElse(u.externalId);
      var closed := CloseAccount(u.t3, accountId, input, authIdentityId, primary, u.smartId);
      && closed.Ok?
      && RegisterOn(t, input, keys, userId, authIdentityId, accountId) == Ok((closed.value,
           Registration(userId, accountId, authIdentityId, primary, WalletsOf(closed.value, accountId))))
  {
    var (t1, embeddedId) := UpsertIfGiven(t, EmbeddedSpec(input, userId, accountId, authIdentityId), keys.embedded).value;
    var (t2, smartId) :=
      UpsertIfGiven(t1, SmartSpec(input, userId, accountId, authIdentityId, embeddedId), keys.smart).value;
    var (t3, externalId) := UpsertIfGiven(t2, ExternalSpec(input, userId, accountId, authIdentityId), keys.external).value;
    u := Upserts(t1, embeddedId, t2, smartId, t3, externalId);
  }

  /** The intermediate tables and ids of the user, identity and account steps. */
  datatype Findings = Findings(
    t1: Tables, userId: string, t2: Tables, authIdentityId: string, t3: Tables, accountId: string)

  ghost predicate AreFindings(t: Tables, input: Input, keys: Fresh, f: Findings) {
    && EnsureUser(t, input, keys.user) == Ok((f.t1, f.userId))
    && EnsureAuthIdentity(f.t1, f.userId, input, keys.identity) == Ok((f.t2, f.authIdentityId))
    && EnsureTreasuryAccount(f.t2, f.userId, f.authIdentityId, input) == Ok((f.t3, f.accountId))
  }

  lemma RegisterUnfolds(t: Tables, input: Input, keys: Fresh) returns (f: Findings)
    requires Register(t, input, keys).Ok?
    ensures AreFindings(t, input, keys, f)
    ensures Register(t, input, keys) == RegisterOn(f.t3, input, keys, f.userId, f.authIdentityId, f.accountId)
  {
    var (t1, userId) := EnsureUser(t, input, keys.user).value;
    var (t2, authIdentityId) := EnsureAuthIdentity(t1, userId, input, keys.identity).value;
    var (t3, accountId) := EnsureTreasuryAccount(t2, userId, authIdentityId, input).value;
    f := Findings(t1, userId, t2, authIdentityId, t3, accountId);
  }

  lemma RegisterFrom(t: Tables, input: Input, keys: Fresh, f: Findings)
    requires AreFindings(t, input, keys, f)
    ensures Register(t, input, keys) == RegisterOn(f.t3, input, keys, f.userId, f.authIdentityId, f.accountId)
  {
  }

  function RegisteredKeys(input: Input): set<WalletKey> {
    SpecKeys(ExternalSpec(input, "", "", "")) + SpecKeys(SmartSpec(input, "", "", "", None))
      + SpecKeys(EmbeddedSpec(input, "", "", ""))
  }

  lemma UpsertsKeepStanding(
      t: Tables, input: Input, keys: Fresh, userId: string, authIdentityId: string, accountId: string, u: Upserts)
    requires Standing(t, userId, authIdentityId, accountId)
    requires AreUpserts(t, input, keys, userId, authIdentityId, accountId, u)
    ensures Standing(u.t1, userId, authIdentityId, accountId) && Standing(u.t2, userId, authIdentityId, accountId)
    ensures Standing(u.t3, userId, authIdentityId, accountId) && u.t3.identities == t.identities
  {
    GivenKeepsStanding(t, EmbeddedSpec(input, userId, accountId, authIdentityId), keys.embedded);
    GivenKeepsStanding(u.t1, SmartSpec(input, userId, accountId, authIdentityId, u.embeddedId), keys.smart);
    GivenKeepsStanding(u.t2, ExternalSpec(input, userId, accountId, authIdentityId), keys.external);
  }

  lemma UpsertsStrand(
      t: Tables, input: Input, keys: Fresh, userId: string, authIdentityId: string, accountId: string, u: Upserts)
    requires DistinctRows(t) && DistinctRows(u.t1) && DistinctRows(u.t2)
    requires AreUpserts(t, input, keys, userId, authIdentityId, accountId, u)
    ensures Stranded(u.t3, accountId, userId, {}) <==> Stranded(t, accountId, userId, RegisteredKeys(input))
  {
    var embedded := EmbeddedSpec(input, userId, accountId, authIdentityId);
    var smart := SmartSpec(input, userId, accountId, authIdentityId, u.embeddedId);
    var external := ExternalSpec(input, userId, accountId, authIdentityId);
    GivenStrands(t, embedded, keys.embedded, {} + SpecKeys(external) + SpecKeys(smart));
    GivenStrands(u.t1, smart, keys.smart, {} + SpecKeys(external));
    GivenStrands(u.t2, external, keys.external, {});
    assert {} + SpecKeys(external) + SpecKeys(smart) + SpecKeys(embedded) == RegisteredKeys(input);
  }

  lemma RegisterOnStep(t: Tables, input: Input, keys: Fresh, userId: string, authIdentityId: string, accountId: string)
    requires Standing(t, userId, authIdentityId, accountId)
    requires RegisterOn(t, input, keys, userId, authIdentityId, accountId).Ok?
    ensures var (t', r) := RegisterOn(t, input, keys, userId, authIdentityId, accountId).value;
      && InvBut(t', accountId, userId) && OwnedBy(t', accountId, userId) && t'.identities == t.identities
      && r.userId == userId && r.accountId == accountId && r.authIdentityId == authIdentityId
      && (Stranded(t', accountId, userId, {}) <==> Stranded(t, accountId, userId, RegisteredKeys(input)))
  {
    var u := RegisterOnUnfolds(t, input, keys, userId, authIdentityId, accountId);
    UpsertsKeepStanding(t, input, keys, userId, authIdentityId, accountId, u);
    UpsertsStrand(t, input, keys, userId, authIdentityId, accountId, u);
    CloseStep(u.t3, accountId, userId, input, authIdentityId,
              u.smartId.OrElse(u.embeddedId).OrElse(u.externalId), u.smartId);
  }

  /** The invariant holds in full exactly when no wallet of the account is stranded. */
  lemma InvIffNotStranded(t: Tables, accountId: string, userId: string)
    requires InvBut(t, accountId, userId) && OwnedBy(t, accountId, userId)
    ensures Inv(t) <==> !Stranded(t, accountId, userId, {})
  {
  }

  /** What a registration was told or decided before it reached the account step. */
  ghost function Resolved(t: Tables, input: Input, keys: Fresh): (Tables, string, string)
    requires Register(t, input, keys).Ok?
  {
    var (t1, userId) := EnsureUser(t, input, keys.user).value;
    var (t2, authIdentityId) := EnsureAuthIdentity(t1, userId, input, keys.identity).value;
    (t2, userId, authIdentityId)
  }

  /** The derived account id collides with an account that has wallets this request leaves behind. */
  ghost predicate CollisionStrands(t: Tables, input: Input, keys: Fresh)
    requires Register(t, input, keys).Ok?
  {
    var (t2, userId, authIdentityId) := Resolved(t, input, keys);
    TakesOver(t2, userId, authIdentityId, input) &&
    Stranded(t, BuildAccountId(userId), userId, RegisteredKeys(input))
  }

  /** A registration keeps the ownership invariant if and only if it does not take over a colliding
      account and leave wallets stranded on it; it never breaks a link from identity to user, and
      the account it returns is owned by the user its identity is linked to. */
  lemma RegisterKeepsInvIff(t: Tables, input: Input, keys: Fresh)
    requires Inv(t) && Register(t, input, keys).Ok?
    ensures var (t', r) := Register(t, input, keys).value;
      && (Inv(t') <==> !CollisionStrands(t, input, keys))
      && LinksKept(t, t') && OwnedBy(t', r.accountId, r.userId) && LinkedTo(t', r.authIdentityId, r.userId)
  {
    var (t1, userId) := EnsureUser(t, input, keys.user).value;
    UserMatchesIdentity(t, input, keys.user);
    assert Inv(t1) by { LinksCarryInv(t, t1); }
    var (t2, authIdentityId) := EnsureAuthIdentity(t1, userId, input, keys.identity).value;
    IdentityStep(t1, userId, input, keys.identity);
    LinksCarryInv(t1, t2);
    AccountStep(t2, userId, authIdentityId, input);
    var (t3, accountId) := EnsureTreasuryAccount(t2, userId, authIdentityId, input).value;
    RegisterOnStep(t3, input, keys, userId, authIdentityId, accountId);
    var (t', r) := Register(t, input, keys).value;
    InvIffNotStranded(t', accountId, userId);
    if !TakesOver(t2, userId, authIdentityId, input) {
      InvIffNotStranded(t3, accountId, userId);
      assert !Stranded(t3, accountId, userId, RegisteredKeys(input));
    }
  }
}
