/**
 Wallet registration as a function on the four tables it writes: users, auth identities, treasury
 accounts and wallet profiles. Tables are kept in insertion order, which is `created_at` order.
 */
module WalletTables {
  import opened Prelude

  datatype User = User(id: string, emailHash: string, phoneHash: Option<string>, country: string, authSource: string)

  datatype Identity = Identity(
    id: string, userId: string, providerUserId: string, subject: string, loginMethod: string,
    emailHash: Option<string>, phoneHash: Option<string>, claims: string)

  datatype Account = Account(
    id: string, ownerId: string, authIdentityId: Option<string>, primaryWalletId: Option<string>,
    walletProvider: string, walletAddress: string, jurisdiction: string)

  datatype Wallet = Wallet(
    id: string, userId: string, accountId: string, authIdentityId: string, provider: string, walletType: string,
    custodyModel: string, chainId: Option<int>, address: string, parentId: Option<string>, isPrimary: bool, status: string)

  datatype Tables = Tables(
    users: seq<User>, identities: seq<Identity>, accounts: seq<Account>, wallets: seq<Wallet>)

  /** A registration request; optional texts count as absent when empty. `loginMethod` is the chosen
      method in upper case, `country` and `jurisdiction` the derived two-letter codes. */
  datatype Input = Input(
    providerUserId: string, syntheticEmailHash: string, subject: string, emailHash: Option<string>,
    phoneHash: Option<string>, claims: string, loginMethod: string, country: string, jurisdiction: string,
    embedded: Option<string>, smart: Option<string>, external: Option<string>,
    authWallet: Option<string>, authSmart: Option<string>, chainId: Option<int>, accountId: Option<string>)

  /** Generated keys for rows that may be inserted. */
  datatype Fresh = Fresh(user: string, identity: string, embedded: string, smart: string, external: string)

  datatype Error =
    | DuplicateKey | LoginMethodRejected | AccountNotOwned | WalletAddressTaken | WalletAddressRequired

  const LOGIN_METHODS := {"EMAIL", "SMS", "GOOGLE", "WALLET", "MAGIC_LINK", "OIDC"}
  const FALLBACK_ADDRESS := "0x0000000000000000000000000000000000000001"

  /** JavaScript truthiness of an optional text. */
  function Truthy(text: Option<string>): Option<string> {
    if text.Some? && text.value != "" then text else None
  }

  predicate IsHexDigit(c: char) {
    '0' <= c <= '9' || 'a' <= c <= 'f' || 'A' <= c <= 'F'
  }

  function LowerHex(c: char): char {
    if 'A' <= c <= 'F' then ((c as int) + 32) as char else c
  }

  /** A 20-byte hex address in lower case, or nothing. */
  function NormaliseAddress(text: Option<string>): Option<string> {
    if text.Some? && |text.value| == 42 && text.value[0] == '0' && text.value[1] == 'x'
       && forall i | 2 <= i < 42 :: IsHexDigit(text.value[i])
    then Some(seq(42, i requires 0 <= i < 42 => LowerHex(text.value[i])))
    else None
  }

  /** A text is an address exactly if it is `0x` and forty hex digits; its normal form has each capital among
      them in lower case and every other character as it was. */
  lemma AddressMeans(a: string)
    ensures NormaliseAddress(Some(a)).Some? <==>
      |a| == 42 && a[0] == '0' && a[1] == 'x' && forall i | 2 <= i < 42 :: a[i] in "0123456789abcdefABCDEF"
    ensures NormaliseAddress(Some(a)).Some? ==>
      var n := NormaliseAddress(Some(a)).value;
      |n| == 42 && forall i | 0 <= i < 42 ::
        n[i] == if 'A' <= a[i] <= 'F' then "abcdef"[a[i] as int - 'A' as int] else a[i]
    ensures NormaliseAddress(None).None?
  {
    forall c: char ensures IsHexDigit(c) <==> c in "0123456789abcdefABCDEF" {
      HexDigits(c);
    }
    forall c: char | 'A' <= c <= 'F' ensures LowerHex(c) == "abcdef"[c as int - 'A' as int] {
      CapitalsLowered(c);
    }
  }

  lemma HexDigits(c: char)
    ensures IsHexDigit(c) <==> c in "0123456789abcdefABCDEF"
  {
  }

  lemma CapitalsLowered(c: char)
    requires 'A' <= c <= 'F'
    ensures LowerHex(c) == "abcdef"[c as int - 'A' as int]
  {
  }

  /** Normal addresses are their own normal form, and two addresses share one exactly if they differ
      in the case of hex digits only. */
  lemma NormalForms(a: string, b: string)
    ensures NormaliseAddress(NormaliseAddress(Some(a))) == NormaliseAddress(Some(a))
    ensures NormaliseAddress(Some(a)).Some? && NormaliseAddress(Some(b)).Some? ==>
      (NormaliseAddress(Some(a)) == NormaliseAddress(Some(b)) <==>
        forall i | 0 <= i < 42 :: LowerHex(a[i]) == LowerHex(b[i]))
  {
    var r := NormaliseAddress(Some(a));
    if r.Some? {
      assert r.value[0] == '0' && r.value[1] == 'x';
      assert NormaliseAddress(r).value == r.value;
    }
    var q := NormaliseAddress(Some(b));
    if r.Some? && q.Some? {
      assert forall i | 0 <= i < 42 :: r.value[i] == LowerHex(a[i]) && q.value[i] == LowerHex(b[i]);
      assert (forall i | 0 <= i < 42 :: LowerHex(a[i]) == LowerHex(b[i])) ==> r.value == q.value;
    }
  }

  function WithoutDashes(s: string): string {
    if s == "" then "" else (if s[0] == '-' then "" else [s[0]]) + WithoutDashes(s[1..])
  }

  /** The account id derived from a user id: dashes removed, twelve characters kept. */
  function BuildAccountId(userId: string): string {
    var compact := WithoutDashes(userId);
    "pta-" + if |compact| > 12 then compact[..12] else compact
  }

  function EmailHashOf(input: Input): string {
    match Truthy(input.emailHash)
    case Some(h) => h
    case None => input.syntheticEmailHash
  }

  // ---------------------------------------------------------------- users

  function Touched(u: User, input: Input): User {
    u.(authSource := "PRIVY", phoneHash := Truthy(input.phoneHash).OrElse(u.phoneHash))
  }

  function TouchUser(users: seq<User>, userId: string, input: Input): seq<User> {
    UpdateWhere(users, (u: User) => u.id == userId, (u: User) => Touched(u, input))
  }

  function IdentityRow(identities: seq<Identity>, providerUserId: string): (r: Option<nat>)
    ensures r.None? <==> forall j | 0 <= j < |identities| :: identities[j].providerUserId != providerUserId
    ensures r.Some? ==> r.value < |identities| && identities[r.value].providerUserId == providerUserId
    ensures r.Some? ==> forall j | 0 <= j < r.value :: identities[j].providerUserId != providerUserId
  {
    FindFirst(identities, (i: Identity) => i.providerUserId == providerUserId)
  }

  function EnsureUser(t: Tables, input: Input, newId: string): Result<(Tables, string), Error> {
    match IdentityRow(t.identities, input.providerUserId)
    case Some(k) =>
      var userId := t.identities[k].userId;
      Ok((t.(users := TouchUser(t.users, userId, input)), userId))
    case None =>
      match FindFirst(t.users, (u: User) => u.emailHash == EmailHashOf(input))
      case Some(k) =>
        var userId := t.users[k].id;
        Ok((t.(users := TouchUser(t.users, userId, input)), userId))
      case None =>
        if exists k | 0 <= k < |t.users| :: t.users[k].id == newId then Err(DuplicateKey)
        else
          var row := User(newId, EmailHashOf(input), Truthy(input.phoneHash), input.country, "PRIVY");
          Ok((t.(users := t.users + [row]), newId))
  }

  // ---------------------------------------------------------------- auth identities

  function Relinked(i: Identity, userId: string, input: Input): Identity {
    i.(userId := userId, subject := input.subject, loginMethod := input.loginMethod,
       emailHash := Truthy(input.emailHash).OrElse(i.emailHash),
       phoneHash := Truthy(input.phoneHash).OrElse(i.phoneHash), claims := input.claims)
  }

  function EnsureAuthIdentity(t: Tables, userId: string, input: Input, newId: string): Result<(Tables, string), Error> {
    if input.loginMethod !in LOGIN_METHODS then Err(LoginMethodRejected)
    else
      match IdentityRow(t.identities, input.providerUserId)
      case Some(k) =>
        Ok((t.(identities := t.identities[k := Relinked(t.identities[k], userId, input)]), t.identities[k].id))
      case None =>
        if exists k | 0 <= k < |t.identities| :: t.identities[k].id == newId then Err(DuplicateKey)
        else
          var row := Identity(newId, userId, input.providerUserId, input.subject, input.loginMethod,
                              Truthy(input.emailHash), Truthy(input.phoneHash), input.claims);
          Ok((t.(identities := t.identities + [row]), newId))
  }

  // ---------------------------------------------------------------- treasury accounts

  function FirstWalletAddress(input: Input): Option<string> {
    NormaliseAddress(Truthy(input.smart))
      .OrElse(NormaliseAddress(Truthy(input.embedded)))
      .OrElse(NormaliseAddress(Truthy(input.external)))
  }

  function OrFallback(text: Option<string>): string {
    match text
    case Some(a) => a
    case None => FALLBACK_ADDRESS
  }

  /** The address a new account row is inserted with. */
  function InsertAddress(input: Input): string {
    OrFallback(FirstWalletAddress(input).OrElse(Truthy(input.authSmart)).OrElse(Truthy(input.authWallet)))
  }

  /** The address that replaces an empty one in the closing update. */
  function PrimaryAddress(input: Input): (a: string)
    ensures a != ""
  {
    OrFallback(FirstWalletAddress(input).OrElse(Truthy(input.authWallet)).OrElse(Truthy(input.authSmart)))
  }

  function AccountRow(accounts: seq<Account>, id: string): (r: Option<nat>)
    ensures r.None? <==> forall j | 0 <= j < |accounts| :: accounts[j].id != id
    ensures r.Some? ==> r.value < |accounts| && accounts[r.value].id == id
    ensures r.Some? ==> forall j | 0 <= j < r.value :: accounts[j].id != id
  {
    FindFirst(accounts, (a: Account) => a.id == id)
  }

  predicate BelongsTo(a: Account, userId: string, authIdentityId: string) {
    a.ownerId == userId || a.authIdentityId == Some(authIdentityId)
  }

  function OwnedRow(accounts: seq<Account>, userId: string, authIdentityId: string): (r: Option<nat>)
    ensures r.None? <==> forall j | 0 <= j < |accounts| :: !BelongsTo(accounts[j], userId, authIdentityId)
    ensures r.Some? ==> r.value < |accounts| && BelongsTo(accounts[r.value], userId, authIdentityId)
    ensures r.Some? ==> forall j | 0 <= j < r.value :: !BelongsTo(accounts[j], userId, authIdentityId)
  {
    FindFirst(accounts, (a: Account) => BelongsTo(a, userId, authIdentityId))
  }

  predicate AddressTaken(accounts: seq<Account>, address: string) {
    exists k | 0 <= k < |accounts| :: accounts[k].walletAddress == address
  }

  function EnsureTreasuryAccount(
      t: Tables, userId: string, authIdentityId: string, input: Input)
    : Result<(Tables, string), Error>
  {
    if Truthy(input.accountId).Some? then
      var requested := input.accountId.value;
      if exists k | 0 <= k < |t.accounts| :: t.accounts[k].id == requested && t.accounts[k].ownerId == userId
      then Ok((t, requested))
      else Err(AccountNotOwned)
    else
      match OwnedRow(t.accounts, userId, authIdentityId)
      case Some(k) => Ok((t, t.accounts[k].id))
      case None =>
        var id := BuildAccountId(userId);
        match AccountRow(t.accounts, id)
        case Some(k) =>
          Ok((t.(accounts := t.accounts[k := t.accounts[k].(ownerId := userId, authIdentityId := Some(authIdentityId))]), id))
        case None =>
          if AddressTaken(t.accounts, InsertAddress(input)) then Err(WalletAddressTaken)
          else
            var row := Account(id, userId, Some(authIdentityId), None, "PRIVY", InsertAddress(input), input.jurisdiction);
            Ok((t.(accounts := t.accounts + [row]), id))
  }

  // ---------------------------------------------------------------- wallet profiles

  /** The arguments of one wallet upsert. */
  datatype WalletSpec = WalletSpec(
    userId: string, accountId: string, authIdentityId: string, provider: string, walletType: string,
    custodyModel: string, address: Option<string>, chainId: Option<int>, parentId: Option<string>, isPrimary: bool)

  datatype WalletKey = WalletKey(provider: string, chainId: Option<int>, address: string)

  function KeyOf(w: Wallet): WalletKey {
    WalletKey(w.provider, w.chainId, w.address)
  }

  function WalletRow(wallets: seq<Wallet>, key: WalletKey): (r: Option<nat>)
    ensures r.None? <==> forall j | 0 <= j < |wallets| :: KeyOf(wallets[j]) != key
    ensures r.Some? ==> r.value < |wallets| && KeyOf(wallets[r.value]) == key
    ensures r.Some? ==> forall j | 0 <= j < r.value :: KeyOf(wallets[j]) != key
  {
    FindFirst(wallets, (w: Wallet) => KeyOf(w) == key)
  }

  function Reassigned(w: Wallet, spec: WalletSpec): Wallet {
    w.(userId := spec.userId, accountId := spec.accountId, authIdentityId := spec.authIdentityId,
       walletType := spec.walletType, custodyModel := spec.custodyModel,
       parentId := spec.parentId.OrElse(w.parentId), isPrimary := spec.isPrimary, status := "ACTIVE")
  }

  function UpsertWallet(t: Tables, spec: WalletSpec, newId: string): Result<(Tables, string), Error> {
    match NormaliseAddress(spec.address)
    case None => Err(WalletAddressRequired)
    case Some(address) =>
      match WalletRow(t.wallets, WalletKey(spec.provider, spec.chainId, address))
      case Some(k) => Ok((t.(wallets := t.wallets[k := Reassigned(t.wallets[k], spec)]), t.wallets[k].id))
      case None =>
        if exists k | 0 <= k < |t.wallets| :: t.wallets[k].id == newId then Err(DuplicateKey)
        else
          var row := Wallet(newId, spec.userId, spec.accountId, spec.authIdentityId, spec.provider, spec.walletType,
                            spec.custodyModel, spec.chainId, address, spec.parentId, spec.isPrimary, "ACTIVE");
          Ok((t.(wallets := t.wallets + [row]), newId))
  }

  /** An upsert that happens only if its address was given. */
  function UpsertIfGiven(t: Tables, spec: WalletSpec, newId: string): Result<(Tables, Option<string>), Error> {
    if spec.address.None? then Ok((t, None))
    else
      var (t', id) :- UpsertWallet(t, spec, newId);
      Ok((t', Some(id)))
  }

  function EmbeddedSpec(input: Input, userId: string, accountId: string, authIdentityId: string): WalletSpec {
    WalletSpec(userId, accountId, authIdentityId, "PRIVY", "EMBEDDED_EOA", "USER_CONTROLLED",
               Truthy(input.embedded), input.chainId, None, Truthy(input.smart).None?)
  }

  function SmartSpec(
      input: Input, userId: string, accountId: string, authIdentityId: string, parentId: Option<string>)
    : WalletSpec
  {
    WalletSpec(userId, accountId, authIdentityId, "ZERODEV", "SMART_ACCOUNT", "DELEGATED_SMART_ACCOUNT",
               Truthy(input.smart), input.chainId, parentId, true)
  }

  function ExternalSpec(input: Input, userId: string, accountId: string, authIdentityId: string): WalletSpec {
    WalletSpec(userId, accountId, authIdentityId, "EXTERNAL", "EXTERNAL_EOA", "USER_CONTROLLED",
               Truthy(input.external), input.chainId, None, false)
  }

  // ---------------------------------------------------------------- the closing update

  function Closed(
      a: Account, input: Input, authIdentityId: string, primary: Option<string>, smartId: Option<string>)
    : Account
  {
    a.(authIdentityId := Some(authIdentityId), primaryWalletId := primary,
       walletProvider := if primary == smartId then "HYBRID" else "PRIVY",
       walletAddress := if a.walletAddress == "" then PrimaryAddress(input) else a.walletAddress,
       jurisdiction := if a.jurisdiction == "" then input.jurisdiction else a.jurisdiction)
  }

  function CloseAccount(
      t: Tables, accountId: string, input: Input, authIdentityId: string, primary: Option<string>, smartId: Option<string>)
    : Result<Tables, Error>
  {
    match AccountRow(t.accounts, accountId)
    case None => Ok(t)
    case Some(k) =>
      if t.accounts[k].walletAddress == "" && AddressTaken(t.accounts, PrimaryAddress(input)) then Err(WalletAddressTaken)
      else Ok(t.(accounts := t.accounts[k := Closed(t.accounts[k], input, authIdentityId, primary, smartId)]))
  }

  // ---------------------------------------------------------------- registration

  datatype Registration = Registration(
    userId: string, accountId: string, authIdentityId: string, primaryWalletId: Option<string>, wallets: seq<Wallet>)

  function WalletsOf(t: Tables, accountId: string): seq<Wallet> {
    Filter(t.wallets, (w: Wallet) => w.accountId == accountId && w.isPrimary) +
    Filter(t.wallets, (w: Wallet) => w.accountId == accountId && !w.isPrimary)
  }

  /** The wallet upserts and the closing update, once user, identity and account are known. */
  function RegisterOn(t: Tables, input: Input, keys: Fresh, userId: string, authIdentityId: string, accountId: string)
    : Result<(Tables, Registration), Error>
  {
    var (t1, embeddedId) :- UpsertIfGiven(t, EmbeddedSpec(input, userId, accountId, authIdentityId), keys.embedded);
    var (t2, smartId) :- UpsertIfGiven(t1, SmartSpec(input, userId, accountId, authIdentityId, embeddedId), keys.smart);
    var (t3, externalId) :- UpsertIfGiven(t2, ExternalSpec(input, userId, accountId, authIdentityId), keys.external);
    var primary := smartId.OrElse(embeddedId).OrElse(externalId);
    var t4 :- CloseAccount(t3, accountId, input, authIdentityId, primary, smartId);
    Ok((t4, Registration(userId, accountId, authIdentityId, primary, WalletsOf(t4, accountId))))
  }

  function Register(t: Tables, input: Input, keys: Fresh): Result<(Tables, Registration), Error> {
    var (t1, userId) :- EnsureUser(t, input, keys.user);
    var (t2, authIdentityId) :- EnsureAuthIdentity(t1, userId, input, keys.identity);
    var (t3, accountId) :- EnsureTreasuryAccount(t2, userId, authIdentityId, input);
    RegisterOn(t3, input, keys, userId, authIdentityId, accountId)
  }

  /** Accounts made outside registration: `ON CONFLICT (account_id) DO NOTHING`. */
  function CreateAccount(t: Tables, id: string, ownerId: string, walletAddress: string, jurisdiction: string)
    : Result<Tables, Error>
  {
    if AccountRow(t.accounts, id).Some? then Ok(t)
    else if AddressTaken(t.accounts, walletAddress) then Err(WalletAddressTaken)
    else Ok(t.(accounts := t.accounts + [Account(id, ownerId, None, None, "GENESIS", walletAddress, jurisdiction)]))
  }
}
