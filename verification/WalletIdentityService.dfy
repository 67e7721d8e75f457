/**
 The wallet identity service: the ordered inserts and updates of a registration inside one
 transaction, which a thrown error rolls back.
 */
module WalletIdentityService {
  import opened Prelude
  import opened WalletTables

  class WalletIdentityService {
    var users: seq<User>
    var identities: seq<Identity>
    var accounts: seq<Account>
    var wallets: seq<Wallet>

    function State(): Tables
      reads this
    {
      Tables(users, identities, accounts, wallets)
    }

    constructor ()
      ensures State() == Tables([], [], [], [])
    {
      users, identities, accounts, wallets := [], [], [], [];
    }

    method EnsureUserRow(input: Input, newId: string) returns (r: Result<string, Error>)
      modifies this`users
      ensures EnsureUser(old(State()), input, newId) == if r.Ok? then Ok((State(), r.value)) else Err(r.error)
    {
      var known := IdentityRow(identities, input.providerUserId);
      if known.Some? {
        var userId := identities[known.value].userId;
        users := TouchUser(users, userId, input);
        return Ok(userId);
      }
      var emailHash := EmailHashOf(input);
      var byEmail := FindFirst(users, (u: User) => u.emailHash == EmailHashOf(input));
      if byEmail.Some? {
        var userId := users[byEmail.value].id;
        users := TouchUser(users, userId, input);
        return Ok(userId);
      }
      if exists k | 0 <= k < |users| :: users[k].id == newId {
        return Err(DuplicateKey);
      }
      users := users + [User(newId, emailHash, Truthy(input.phoneHash), input.country, "PRIVY")];
      r := Ok(newId);
    }

    method EnsureAuthIdentityRow(userId: string, input: Input, newId: string) returns (r: Result<string, Error>)
      modifies this`identities
      ensures EnsureAuthIdentity(old(State()), userId, input, newId) ==
        if r.Ok? then Ok((State(), r.value)) else Err(r.error)
    {
      if input.loginMethod !in LOGIN_METHODS {
        return Err(LoginMethodRejected);
      }
      var known := IdentityRow(identities, input.providerUserId);
      if known.Some? {
        var k := known.value;
        identities := identities[k := Relinked(identities[k], userId, input)];
        return Ok(identities[k].id);
      }
      if exists k | 0 <= k < |identities| :: identities[k].id == newId {
        return Err(DuplicateKey);
      }
      identities := identities + [
        Identity(newId, userId, input.providerUserId, input.subject, input.loginMethod,
                 Truthy(input.emailHash), Truthy(input.phoneHash), input.claims)];
      r := Ok(newId);
    }

    method EnsureTreasuryAccountRow(
        userId: string, authIdentityId: string, input: Input)
      returns (r: Result<string, Error>)
      modifies this`accounts
      ensures EnsureTreasuryAccount(old(State()), userId, authIdentityId, input) ==
        if r.Ok? then Ok((State(), r.value)) else Err(r.error)
    {
      if Truthy(input.accountId).Some? {
        var requested := input.accountId.value;
        if exists k | 0 <= k < |accounts| :: accounts[k].id == requested && accounts[k].ownerId == userId {
          return Ok(requested);
        }
        return Err(AccountNotOwned);
      }
      var existing := OwnedRow(accounts, userId, authIdentityId);
      if existing.Some? {
        return Ok(accounts[existing.value].id);
      }
      var id := BuildAccountId(userId);
      var conflict := AccountRow(accounts, id);
      if conflict.Some? {
        var k := conflict.value;
        accounts := accounts[k := accounts[k].(ownerId := userId, authIdentityId := Some(authIdentityId))];
        return Ok(id);
      }
      if AddressTaken(accounts, InsertAddress(input)) {
        return Err(WalletAddressTaken);
      }
      accounts := accounts + [Account(id, userId, Some(authIdentityId), None, "PRIVY", InsertAddress(input), input.jurisdiction)];
      r := Ok(id);
    }

    method UpsertWalletProfile(spec: WalletSpec, newId: string) returns (r: Result<string, Error>)
      modifies this`wallets
      ensures UpsertWallet(old(State()), spec, newId) == if r.Ok? then Ok((State(), r.value)) else Err(r.error)
    {
      var address := NormaliseAddress(spec.address);
      if address.None? {
        return Err(WalletAddressRequired);
      }
      var existing := WalletRow(wallets, WalletKey(spec.provider, spec.chainId, address.value));
      if existing.Some? {
        var k := existing.value;
        wallets := wallets[k := Reassigned(wallets[k], spec)];
        return Ok(wallets[k].id);
      }
      if exists k | 0 <= k < |wallets| :: wallets[k].id == newId {
        return Err(DuplicateKey);
      }
      wallets := wallets + [
        Wallet(newId, spec.userId, spec.accountId, spec.authIdentityId, spec.provider, spec.walletType,
               spec.custodyModel, spec.chainId, address.value, spec.parentId, spec.isPrimary, "ACTIVE")];
      r := Ok(newId);
    }

    method UpsertGivenWallet(spec: WalletSpec, newId: string) returns (r: Result<Option<string>, Error>)
      modifies this`wallets
      ensures UpsertIfGiven(old(State()), spec, newId) == if r.Ok? then Ok((State(), r.value)) else Err(r.error)
    {
      if spec.address.None? {
        return Ok(None);
      }
      var upserted := UpsertWalletProfile(spec, newId);
      r := if upserted.Ok? then Ok(Some(upserted.value)) else Err(upserted.error);
    }

    /** The UPDATE of the account row that closes a registration. */
    method CloseAccountRow(
        accountId: string, input: Input, authIdentityId: string, primary: Option<string>, smartId: Option<string>)
      returns (error: Option<Error>)
      modifies this`accounts
      ensures CloseAccount(old(State()), accountId, input, authIdentityId, primary, smartId) ==
        if error.None? then Ok(State()) else Err(error.value)
    {
      var row := AccountRow(accounts, accountId);
      if row.Some? {
        var k := row.value;
        if accounts[k].walletAddress == "" && AddressTaken(accounts, PrimaryAddress(input)) {
          return Some(WalletAddressTaken);
        }
        accounts := accounts[k := Closed(accounts[k], input, authIdentityId, primary, smartId)];
      }
      error := None;
    }

    method RegisterOnRows(input: Input, keys: Fresh, userId: string, authIdentityId: string, accountId: string)
      returns (r: Result<Registration, Error>)
      modifies this`wallets, this`accounts
      ensures RegisterOn(old(State()), input, keys, userId, authIdentityId, accountId) ==
        if r.Ok? then Ok((State(), r.value)) else Err(r.error)
    {
      var embedded := UpsertGivenWallet(EmbeddedSpec(input, userId, accountId, authIdentityId), keys.embedded);
      if embedded.Err? {
        return Err(embedded.error);
      }
      var smart := UpsertGivenWallet(SmartSpec(input, userId, accountId, authIdentityId, embedded.value), keys.smart);
      if smart.Err? {
        return Err(smart.error);
      }
      var external := UpsertGivenWallet(ExternalSpec(input, userId, accountId, authIdentityId), keys.external);
      if external.Err? {
        return Err(external.error);
      }
      var primary := smart.value.OrElse(embedded.value).OrElse(external.value);
      var failed := CloseAccountRow(accountId, input, authIdentityId, primary, smart.value);
      if failed.Some? {
        return Err(failed.value);
      }
      r := Ok(Registration(userId, accountId, authIdentityId, primary, WalletsOf(State(), accountId)));
    }

    /** A whole registration. One that throws leaves every table unchanged. */
    method RegisterWallets(input: Input, keys: Fresh) returns (r: Result<Registration, Error>)
      modifies this
      ensures Register(old(State()), input, keys) == if r.Ok? then Ok((State(), r.value)) else Err(r.error)
      ensures r.Err? ==> State() == old(State())
    {
      var saved := State();
      r := RegisterInTransaction(input, keys);
      if r.Err? {
        users, identities, accounts, wallets := saved.users, saved.identities, saved.accounts, saved.wallets;
      }
    }

    method RegisterInTransaction(input: Input, keys: Fresh) returns (r: Result<Registration, Error>)
      modifies this
      ensures Register(old(State()), input, keys) == if r.Ok? then Ok((State(), r.value)) else Err(r.error)
    {
      var user := EnsureUserRow(input, keys.user);
      if user.Err? {
        return Err(user.error);
      }
      var identity := EnsureAuthIdentityRow(user.value, input, keys.identity);
      if identity.Err? {
        return Err(identity.error);
      }
      var account := EnsureTreasuryAccountRow(user.value, identity.value, input);
      if account.Err? {
        return Err(account.error);
      }
      r := RegisterOnRows(input, keys, user.value, identity.value, account.value);
    }
  }
}
