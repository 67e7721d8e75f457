/**
 What a registration leaves in its rows, column by column, and which user and account it picks.
 */
module WalletRows {
  import opened Prelude
  import opened WalletTables
  import opened WalletInvariants
  import opened WalletRuns

  // ---------------------------------------------------------------- wallets

  /** A row of `t.wallets` with exactly these columns. */
  ghost predicate HasWallet(
      t: Tables, id: Option<string>, userId: string, accountId: string, authIdentityId: string, provider: string,
      walletType: string, custodyModel: string, chainId: Option<int>, address: string, isPrimary: bool)
  {
    id.Some? && exists k | 0 <= k < |t.wallets| ::
      var w := t.wallets[k];
      && w.id == id.value && w.userId == userId && w.accountId == accountId && w.authIdentityId == authIdentityId
      && w.provider == provider && w.walletType == walletType && w.custodyModel == custodyModel
      && w.chainId == chainId && NormaliseAddress(Some(address)) == Some(w.address)
      && w.isPrimary == isPrimary && w.status == "ACTIVE"
  }

  predicate Given(text: Option<string>) {
    text.Some? && text.value != ""
  }

  lemma SettledWalletRow(t: Tables, spec: WalletSpec, id: Option<string>)
    requires WalletSettled(t, spec, id) && spec.address.Some?
    ensures HasWallet(t, id, spec.userId, spec.accountId, spec.authIdentityId, spec.provider, spec.walletType,
                      spec.custodyModel, spec.chainId, spec.address.value, spec.isPrimary)
  {
    var k := WalletRow(t.wallets, WalletKey(spec.provider, spec.chainId, NormaliseAddress(spec.address).value)).value;
    assert Reassigned(t.wallets[k], spec) == t.wallets[k];
  }

  ghost predicate HasParent(t: Tables, id: Option<string>, parentId: Option<string>) {
    exists w | w in t.wallets :: id == Some(w.id) && w.parentId == parentId
  }

  /** The wallet rows after a registration, column by column: the embedded wallet is primary unless a smart
      account is given, the smart account is primary and its parent is the embedded wallet, the external
      wallet is not primary. */
  lemma WalletRowsWritten(t: Tables, input: Input, keys: Fresh)
    returns (embeddedId: Option<string>, smartId: Option<string>, externalId: Option<string>)
    requires DistinctRows(t) && Register(t, input, keys).Ok?
    ensures var (t', r) := Register(t, input, keys).value;
      && (Given(input.embedded) ==>
            HasWallet(t', embeddedId, r.userId, r.accountId, r.authIdentityId, "PRIVY", "EMBEDDED_EOA", "USER_CONTROLLED",
                      input.chainId, input.embedded.value, !Given(input.smart)))
      && (Given(input.smart) ==>
            HasWallet(t', smartId, r.userId, r.accountId, r.authIdentityId, "ZERODEV", "SMART_ACCOUNT",
                      "DELEGATED_SMART_ACCOUNT", input.chainId, input.smart.value, true))
      && (Given(input.external) ==>
            HasWallet(t', externalId, r.userId, r.accountId, r.authIdentityId, "EXTERNAL", "EXTERNAL_EOA", "USER_CONTROLLED",
                      input.chainId, input.external.value, false))
      && (Given(input.smart) && Given(input.embedded) ==> HasParent(t', smartId, embeddedId))
      && (!Given(input.embedded) ==> embeddedId.None?) && (!Given(input.smart) ==> smartId.None?)
      && (!Given(input.external) ==> externalId.None?)
      && r.primaryWalletId == (if Given(input.smart) then smartId else if Given(input.embedded) then embeddedId else externalId)
  {
    var e, s, x := RegistrationIsRecorded(t, input, keys);
    embeddedId, smartId, externalId := e, s, x;
    var (t', r) := Register(t, input, keys).value;
    if Given(input.embedded) {
      SettledWalletRow(t', EmbeddedSpec(input, r.userId, r.accountId, r.authIdentityId), e);
    }
    if Given(input.smart) {
      var spec := SmartSpec(input, r.userId, r.accountId, r.authIdentityId, e);
      SettledWalletRow(t', spec, s);
      if Given(input.embedded) {
        var k := WalletRow(t'.wallets, WalletKey(spec.provider, spec.chainId, NormaliseAddress(spec.address).value)).value;
        assert Reassigned(t'.wallets[k], spec) == t'.wallets[k] && t'.wallets[k] in t'.wallets;
      }
    }
    if Given(input.external) {
      SettledWalletRow(t', ExternalSpec(input, r.userId, r.accountId, r.authIdentityId), x);
    }
  }

  /** The wallets a registration lists are exactly those of its account, the primary ones first. */
  lemma WalletsListed(t: Tables, input: Input, keys: Fresh)
    requires Register(t, input, keys).Ok?
    ensures var (t', r) := Register(t, input, keys).value;
      && (forall w :: w in r.wallets <==> w in t'.wallets && w.accountId == r.accountId)
      && forall i, j | 0 <= i < j < |r.wallets| && r.wallets[j].isPrimary :: r.wallets[i].isPrimary
  {
    var f := RegisterUnfolds(t, input, keys);
    var u := RegisterOnUnfolds(f.t3, input, keys, f.userId, f.authIdentityId, f.accountId);
    var (t', r) := Register(t, input, keys).value;
    ListedIn(t', r.accountId);
  }

  lemma ListedIn(t: Tables, accountId: string)
    ensures var listed := WalletsOf(t, accountId);
      && (forall w :: w in listed <==> w in t.wallets && w.accountId == accountId)
      && forall i, j | 0 <= i < j < |listed| && listed[j].isPrimary :: listed[i].isPrimary
  {
    var first := Filter(t.wallets, (w: Wallet) => w.accountId == accountId && w.isPrimary);
    var rest := Filter(t.wallets, (w: Wallet) => w.accountId == accountId && !w.isPrimary);
    var listed := WalletsOf(t, accountId);
    assert listed == first + rest;
    forall i | 0 <= i < |listed| ensures listed[i].isPrimary <==> i < |first| {
      assert i < |first| ==> listed[i] == first[i] && first[i] in first;
      assert i >= |first| ==> listed[i] == rest[i - |first|] && rest[i - |first|] in rest;
    }
  }

  // ---------------------------------------------------------------- the account chosen

  /** Which account a registration is for. An account asked for must exist and be the user's; else it is the
      first one that is the user's or linked to the identity; else the one derived for the user. */
  lemma AccountChosen(t: Tables, userId: string, authIdentityId: string, input: Input)
    ensures var r := EnsureTreasuryAccount(t, userId, authIdentityId, input);
      && (Given(input.accountId) ==>
            if exists a | a in t.accounts :: a.id == input.accountId.value && a.ownerId == userId
            then r == Ok((t, input.accountId.value)) else r == Err(AccountNotOwned))
      && (!Given(input.accountId) ==>
            && (forall k | 0 <= k < |t.accounts| && MineAt(t, k, userId, authIdentityId)
                  && (forall j | 0 <= j < k :: !MineAt(t, j, userId, authIdentityId)) :: r == Ok((t, t.accounts[k].id)))
            && ((forall k | 0 <= k < |t.accounts| :: !MineAt(t, k, userId, authIdentityId)) && r.Ok? ==>
                  r.value.1 == BuildAccountId(userId)))
  {
    forall k | 0 <= k < |t.accounts| ensures MineAt(t, k, userId, authIdentityId) <==> BelongsTo(t.accounts[k], userId, authIdentityId) {
    }
    if !Given(input.accountId) {
      OwnedRowIs(t, userId, authIdentityId);
    }
  }

  lemma OwnedRowIs(t: Tables, userId: string, authIdentityId: string)
    ensures var row := OwnedRow(t.accounts, userId, authIdentityId);
      && (row.None? <==> forall k | 0 <= k < |t.accounts| :: !MineAt(t, k, userId, authIdentityId))
      && forall k | 0 <= k < |t.accounts| && MineAt(t, k, userId, authIdentityId)
           && (forall j | 0 <= j < k :: !MineAt(t, j, userId, authIdentityId)) :: row == Some(k)
  {
    var row := OwnedRow(t.accounts, userId, authIdentityId);
    forall k | 0 <= k < |t.accounts| ensures MineAt(t, k, userId, authIdentityId) <==> BelongsTo(t.accounts[k], userId, authIdentityId) {
    }
    if row.Some? {
      assert MineAt(t, row.value, userId, authIdentityId);
    }
  }

  predicate MineAt(t: Tables, k: nat, userId: string, authIdentityId: string) {
    k < |t.accounts| && (t.accounts[k].ownerId == userId || t.accounts[k].authIdentityId == Some(authIdentityId))
  }

  /** The first address a request gives, in the order the service tries them; `fallback` after the wallets. */
  function AddressTried(input: Input, first: Option<string>, second: Option<string>): string {
    if NormaliseAddress(input.smart).Some? then NormaliseAddress(input.smart).value
    else if NormaliseAddress(input.embedded).Some? then NormaliseAddress(input.embedded).value
    else if NormaliseAddress(input.external).Some? then NormaliseAddress(input.external).value
    else if Given(first) then first.value
    else if Given(second) then second.value
    else "0x0000000000000000000000000000000000000001"
  }

  /** A new account has the derived id, the user and identity, the jurisdiction asked for, and the smart, else
      the embedded, else the external address, else the session's smart and then its plain one; it is
      refused exactly if that address is another account's. An account of that id is taken over instead. */
  lemma AccountMade(t: Tables, userId: string, authIdentityId: string, input: Input)
    requires !Given(input.accountId) && forall k | 0 <= k < |t.accounts| :: !MineAt(t, k, userId, authIdentityId)
    requires forall a | a in t.accounts :: a.id != BuildAccountId(userId)
    ensures var r, address := EnsureTreasuryAccount(t, userId, authIdentityId, input), AddressTried(input, input.authSmart, input.authWallet);
      && (r == Err(WalletAddressTaken) <==> exists a | a in t.accounts :: a.walletAddress == address)
      && (r.Ok? ==> r.value.0 == t.(accounts := t.accounts
            + [Account(BuildAccountId(userId), userId, Some(authIdentityId), None, "PRIVY", address, input.jurisdiction)]))
      && (r.Ok? || r == Err(WalletAddressTaken))
  {
    AddressesTried(input);
    OwnedRowIs(t, userId, authIdentityId);
    assert forall k | 0 <= k < |t.accounts| :: t.accounts[k] in t.accounts;
  }

  /** The update that closes a registration: identity, primary wallet and provider are set; owner and id stay; an
      empty address is filled in, the session's plain address before its smart one, and an empty jurisdiction; and
      no other account changes. */
  lemma ClosingWrites(
      t: Tables, accountId: string, input: Input, authIdentityId: string, primary: Option<string>, smartId: Option<string>,
      k: nat)
    requires CloseAccount(t, accountId, input, authIdentityId, primary, smartId).Ok? && k < |t.accounts|
    ensures var t' := CloseAccount(t, accountId, input, authIdentityId, primary, smartId).value;
      && |t'.accounts| == |t.accounts|
      && (AccountRow(t.accounts, accountId) != Some(k) ==> t'.accounts[k] == t.accounts[k])
      && (AccountRow(t.accounts, accountId) == Some(k) ==>
            var before, after := t.accounts[k], t'.accounts[k];
            && after.id == before.id && after.ownerId == before.ownerId
            && after.authIdentityId == Some(authIdentityId) && after.primaryWalletId == primary
            && after.walletAddress ==
                 (if before.walletAddress == "" then AddressTried(input, input.authWallet, input.authSmart) else before.walletAddress)
            && after.jurisdiction == (if before.jurisdiction == "" then input.jurisdiction else before.jurisdiction))
  {
    AddressesTried(input);
  }

  /** An account made outside registration has the figures asked for, and no identity or wallet; one of an id
      already taken changes nothing, and one of an address already taken is refused. */
  lemma AccountCreated(t: Tables, id: string, ownerId: string, address: string, jurisdiction: string)
    ensures (exists a | a in t.accounts :: a.id == id) ==> CreateAccount(t, id, ownerId, address, jurisdiction) == Ok(t)
    ensures (forall a | a in t.accounts :: a.id != id && a.walletAddress != address) ==>
      CreateAccount(t, id, ownerId, address, jurisdiction) ==
        Ok(t.(accounts := t.accounts + [Account(id, ownerId, None, None, "GENESIS", address, jurisdiction)]))
    ensures (forall a | a in t.accounts :: a.id != id) && (exists a | a in t.accounts :: a.walletAddress == address) ==>
      CreateAccount(t, id, ownerId, address, jurisdiction) == Err(WalletAddressTaken)
  {
    assert forall k | 0 <= k < |t.accounts| :: t.accounts[k] in t.accounts;
  }

  /** The login methods an identity row accepts. */
  lemma LoginMethodsAccepted(t: Tables, userId: string, input: Input, newId: string)
    ensures EnsureAuthIdentity(t, userId, input, newId) == Err(LoginMethodRejected) <==>
      input.loginMethod !in ["EMAIL", "SMS", "GOOGLE", "WALLET", "MAGIC_LINK", "OIDC"]
  {
  }

  lemma AddressesTried(input: Input)
    ensures InsertAddress(input) == AddressTried(input, input.authSmart, input.authWallet)
    ensures PrimaryAddress(input) == AddressTried(input, input.authWallet, input.authSmart)
  {
    assert NormaliseAddress(Truthy(input.smart)) == NormaliseAddress(input.smart);
    assert NormaliseAddress(Truthy(input.embedded)) == NormaliseAddress(input.embedded);
    assert NormaliseAddress(Truthy(input.external)) == NormaliseAddress(input.external);
  }

  // ---------------------------------------------------------------- users, identities and the account row

  predicate HasEmail(u: User, input: Input) {
    u.emailHash == if Given(input.emailHash) then input.emailHash.value else input.syntheticEmailHash
  }

  predicate KnownIdentity(t: Tables, input: Input) {
    exists i | i in t.identities :: i.providerUserId == input.providerUserId
  }

  lemma HasEmailIs(u: User, input: Input)
    ensures HasEmail(u, input) <==> u.emailHash == EmailHashOf(input)
  {
  }

  /** Which user a registration is for: the one its identity is linked to; else the first with its email hash,
      given or made up. */
  lemma UserFound(t: Tables, input: Input, newId: string, k: nat)
    requires DistinctRows(t) && EnsureUser(t, input, newId).Ok?
    requires k < |t.users| && HasEmail(t.users[k], input) && forall j | 0 <= j < k :: !HasEmail(t.users[j], input)
    ensures var userId := EnsureUser(t, input, newId).value.1;
      && (forall i | i in t.identities && i.providerUserId == input.providerUserId :: userId == i.userId)
      && (!KnownIdentity(t, input) ==> userId == t.users[k].id)
  {
    var row := IdentityRow(t.identities, input.providerUserId);
    if row.Some? {
      assert t.identities[row.value] in t.identities;
    }
    forall j | 0 <= j <= k ensures HasEmail(t.users[j], input) <==> t.users[j].emailHash == EmailHashOf(input) {
      HasEmailIs(t.users[j], input);
    }
  }

  /** Without either, a new one is made, with that email hash and the request's phone and country. */
  lemma UserMade(t: Tables, input: Input, newId: string)
    requires EnsureUser(t, input, newId).Ok? && !KnownIdentity(t, input)
    requires forall u | u in t.users :: !HasEmail(u, input)
    ensures var (t', userId) := EnsureUser(t, input, newId).value;
      userId == newId && |t'.users| == |t.users| + 1 &&
      var made := t'.users[|t.users|];
      && made.id == newId && HasEmail(made, input) && made.country == input.country && made.authSource == "PRIVY"
      && made.phoneHash == if Given(input.phoneHash) then input.phoneHash else None
  {
    forall j | 0 <= j < |t.identities| ensures t.identities[j].providerUserId != input.providerUserId {
      assert t.identities[j] in t.identities;
    }
    forall j | 0 <= j < |t.users| ensures t.users[j].emailHash != EmailHashOf(input) {
      HasEmailIs(t.users[j], input);
      assert t.users[j] in t.users;
    }
  }

  /** What it does to users there were: the one it is for is marked as a PRIVY user and gets the phone hash if one
      is given; email hash and country stay, and so does every other user. */
  lemma OldUsersAfter(t: Tables, input: Input, newId: string, k: nat)
    requires EnsureUser(t, input, newId).Ok? && k < |t.users|
    ensures var (t', userId) := EnsureUser(t, input, newId).value;
      && k < |t'.users| && t'.users[k].id == t.users[k].id && t'.users[k].emailHash == t.users[k].emailHash
      && t'.users[k].country == t.users[k].country
      && (if t.users[k].id == userId && |t'.users| == |t.users|
          then t'.users[k].authSource == "PRIVY"
               && t'.users[k].phoneHash == (if Given(input.phoneHash) then input.phoneHash else t.users[k].phoneHash)
          else t'.users[k] == t.users[k])
  {
  }

  /** The identity and account rows after a registration, column by column. */
  lemma IdentityAndAccountWritten(t: Tables, input: Input, keys: Fresh)
    requires DistinctRows(t) && Register(t, input, keys).Ok?
    ensures var (t', r) := Register(t, input, keys).value;
      && (exists i | i in t'.identities ::
            && i.id == r.authIdentityId && i.userId == r.userId && i.providerUserId == input.providerUserId
            && i.subject == input.subject && i.loginMethod == input.loginMethod && i.claims == input.claims
            && (Given(input.emailHash) ==> i.emailHash == input.emailHash)
            && (Given(input.phoneHash) ==> i.phoneHash == input.phoneHash))
      && (exists a | a in t'.accounts ::
            && a.id == r.accountId && a.authIdentityId == Some(r.authIdentityId) && a.primaryWalletId == r.primaryWalletId
            && a.walletAddress != ""
            && a.walletProvider == if Given(input.smart) || (!Given(input.embedded) && !Given(input.external))
                                   then "HYBRID" else "PRIVY")
  {
    var f := RegisterUnfolds(t, input, keys);
    FindingsKeep(t, input, keys, f);
    IdentitySettled(f.t1, f.userId, input, keys.identity);
    AccountStepSettles(f.t2, f.userId, f.authIdentityId, input);
    var e, s, x := RegisterOnSettles(f.t3, input, keys, f.userId, f.authIdentityId, f.accountId);
    var (t', r) := Register(t, input, keys).value;
    FindingsShare(t, input, keys, f);
    assert t'.identities[IdentityRow(t'.identities, input.providerUserId).value] in t'.identities;
    ProviderWritten(t', input, r, e, s, x);
  }

  lemma ProviderWritten(
      t: Tables, input: Input, r: Registration, e: Option<string>, s: Option<string>, x: Option<string>)
    requires AllSettled(t, input, r.userId, r.authIdentityId, r.accountId, e, s, x)
    requires AccountRow(t.accounts, r.accountId).Some? && r.primaryWalletId == s.OrElse(e).OrElse(x)
    ensures exists a | a in t.accounts ::
      && a.id == r.accountId && a.authIdentityId == Some(r.authIdentityId) && a.primaryWalletId == r.primaryWalletId
      && a.walletAddress != ""
      && a.walletProvider == if Given(input.smart) || (!Given(input.embedded) && !Given(input.external))
                             then "HYBRID" else "PRIVY"
  {
    var k := AccountRow(t.accounts, r.accountId).value;
    var row := t.accounts[k];
    assert row in t.accounts && Closed(row, input, r.authIdentityId, r.primaryWalletId, s) == row;
    DistinctIds(t, input, r, e, s, x);
  }

  /** The smart wallet is the primary one exactly if it is given, or none is. */
  lemma DistinctIds(
      t: Tables, input: Input, r: Registration, e: Option<string>, s: Option<string>, x: Option<string>)
    requires AllSettled(t, input, r.userId, r.authIdentityId, r.accountId, e, s, x)
    ensures s.OrElse(e).OrElse(x) == s <==> Given(input.smart) || (!Given(input.embedded) && !Given(input.external))
  {
  }
}
