/**
 Derived account ids: they keep twelve characters of a user id, so two users can derive the same one.
 Runs without such a collision keep the ownership invariant; a collision can break it.
 */
module WalletCollisions {
  import opened Prelude
  import opened WalletTables
  import opened WalletInvariants
  import opened WalletRuns

  // ---------------------------------------------------------------- runs without collisions

  /** The user ids a run may generate. */
  function UserIds(ops: seq<Op>): set<string> {
    set op | op in ops && op.Registering? :: op.keys.user
  }

  function CreatedIds(ops: seq<Op>): set<string> {
    set op | op in ops && op.Creating? :: op.id
  }

  /** Different users derive different account ids, and none derives the id of an account created
      outside registration. */
  ghost predicate DerivedIdsDistinct(users: set<string>, created: set<string>) {
    (forall u, v | u in users && v in users :: BuildAccountId(u) == BuildAccountId(v) ==> u == v) &&
    forall u | u in users :: BuildAccountId(u) !in created
  }

  /** Users and links come from `users`, and an account is one created outside registration or the one
      its owner derives. */
  ghost predicate Derived(t: Tables, users: set<string>, created: set<string>) {
    (forall u | u in t.users :: u.id in users) && (forall i | i in t.identities :: i.userId in users) &&
    forall a | a in t.accounts :: a.id in created || (a.ownerId in users && a.id == BuildAccountId(a.ownerId))
  }

  lemma UserDerived(t: Tables, input: Input, newId: string, users: set<string>, created: set<string>)
    requires Derived(t, users, created) && newId in users && EnsureUser(t, input, newId).Ok?
    ensures var (t', userId) := EnsureUser(t, input, newId).value;
      userId in users && Derived(t', users, created)
  {
    var (t', userId) := EnsureUser(t, input, newId).value;
    forall u | u in t'.users ensures u.id in users {
      var k :| 0 <= k < |t'.users| && t'.users[k] == u;
      assert k < |t.users| ==> t'.users[k].id == t.users[k].id && t.users[k] in t.users;
    }
  }

  lemma IdentityDerived(t: Tables, userId: string, input: Input, newId: string, users: set<string>, created: set<string>)
    requires Derived(t, users, created) && userId in users && EnsureAuthIdentity(t, userId, input, newId).Ok?
    ensures Derived(EnsureAuthIdentity(t, userId, input, newId).value.0, users, created)
  {
  }

  lemma AccountDerived(
      t: Tables, userId: string, authIdentityId: string, input: Input, users: set<string>, created: set<string>)
    requires Derived(t, users, created) && DerivedIdsDistinct(users, created) && userId in users
    requires EnsureTreasuryAccount(t, userId, authIdentityId, input).Ok?
    ensures !TakesOver(t, userId, authIdentityId, input)
    ensures Derived(EnsureTreasuryAccount(t, userId, authIdentityId, input).value.0, users, created)
  {
    forall k | 0 <= k < |t.accounts| && t.accounts[k].id == BuildAccountId(userId)
      ensures t.accounts[k].ownerId == userId
    {
      assert t.accounts[k] in t.accounts;
    }
  }

  lemma GivenKeepsOthers(t: Tables, spec: WalletSpec, newId: string)
    requires UpsertIfGiven(t, spec, newId).Ok?
    ensures var t' := UpsertIfGiven(t, spec, newId).value.0;
      t'.users == t.users && t'.identities == t.identities && t'.accounts == t.accounts
  {
  }

  lemma RegisterOnDerived(
      t: Tables, input: Input, keys: Fresh, userId: string, authIdentityId: string, accountId: string,
      users: set<string>, created: set<string>)
    requires Derived(t, users, created) && RegisterOn(t, input, keys, userId, authIdentityId, accountId).Ok?
    ensures Derived(RegisterOn(t, input, keys, userId, authIdentityId, accountId).value.0, users, created)
  {
    var u := RegisterOnUnfolds(t, input, keys, userId, authIdentityId, accountId);
    GivenKeepsOthers(t, EmbeddedSpec(input, userId, accountId, authIdentityId), keys.embedded);
    GivenKeepsOthers(u.t1, SmartSpec(input, userId, accountId, authIdentityId, u.embeddedId), keys.smart);
    GivenKeepsOthers(u.t2, ExternalSpec(input, userId, accountId, authIdentityId), keys.external);
    CloseDerived(u.t3, accountId, input, authIdentityId,
                 u.smartId.OrElse(u.embeddedId).OrElse(u.externalId), u.smartId, users, created);
  }

  lemma CloseDerived(
      t: Tables, accountId: string, input: Input, authIdentityId: string, primary: Option<string>,
      smartId: Option<string>, users: set<string>, created: set<string>)
    requires Derived(t, users, created)
    requires CloseAccount(t, accountId, input, authIdentityId, primary, smartId).Ok?
    ensures Derived(CloseAccount(t, accountId, input, authIdentityId, primary, smartId).value, users, created)
  {
    var t' := CloseAccount(t, accountId, input, authIdentityId, primary, smartId).value;
    forall a | a in t'.accounts
      ensures a.id in created || (a.ownerId in users && a.id == BuildAccountId(a.ownerId))
    {
      var n :| 0 <= n < |t'.accounts| && t'.accounts[n] == a;
      assert t.accounts[n] in t.accounts && t.accounts[n].id == a.id && t.accounts[n].ownerId == a.ownerId;
    }
  }

  lemma RegisterDerived(t: Tables, input: Input, keys: Fresh, users: set<string>, created: set<string>)
    requires Derived(t, users, created) && DerivedIdsDistinct(users, created) && keys.user in users
    requires Register(t, input, keys).Ok?
    ensures !CollisionStrands(t, input, keys) && Derived(Register(t, input, keys).value.0, users, created)
  {
    var f := RegisterUnfolds(t, input, keys);
    UserDerived(t, input, keys.user, users, created);
    IdentityDerived(f.t1, f.userId, input, keys.identity, users, created);
    AccountDerived(f.t2, f.userId, f.authIdentityId, input, users, created);
    RegisterOnDerived(f.t3, input, keys, f.userId, f.authIdentityId, f.accountId, users, created);
  }

  lemma {:induction false} RunStrandsNothing(t: Tables, ops: seq<Op>, users: set<string>, created: set<string>)
    requires Derived(t, users, created) && DerivedIdsDistinct(users, created)
    requires UserIds(ops) <= users && CreatedIds(ops) <= created
    ensures NoStranding(t, ops)
    decreases |ops|
  {
    if ops != [] {
      var op := ops[0];
      assert op in ops;
      assert op.Registering? ==> op.keys.user in UserIds(ops);
      assert op.Creating? ==> op.id in CreatedIds(ops);
      if op.Registering? && Register(t, op.input, op.keys).Ok? {
        RegisterDerived(t, op.input, op.keys, users, created);
      }
      assert Derived(Apply(t, op), users, created);
      assert UserIds(ops[1..]) <= UserIds(ops) && CreatedIds(ops[1..]) <= CreatedIds(ops);
      RunStrandsNothing(Apply(t, op), ops[1..], users, created);
    }
  }

  // ---------------------------------------------------------------- what an account id keeps of a user id

  /** Dashes go, other characters stay in order. */
  lemma DashesGo(a: string, b: string)
    ensures WithoutDashes(a + "-" + b) == WithoutDashes(a + b)
    ensures (forall i | 0 <= i < |a| :: a[i] != '-') ==> WithoutDashes(a) == a
    ensures forall i | 0 <= i < |WithoutDashes(a)| :: WithoutDashes(a)[i] != '-'
  {
    DashesApart(a + "-", b);
    DashesApart(a, "-");
    DashesApart(a, b);
    assert WithoutDashes("-") == "";
    if forall i | 0 <= i < |a| :: a[i] != '-' {
      NoDashes(a);
    }
    NoneLeft(a);
  }

  lemma {:induction false} NoneLeft(s: string)
    ensures forall i | 0 <= i < |WithoutDashes(s)| :: WithoutDashes(s)[i] != '-'
  {
    if s != "" {
      NoneLeft(s[1..]);
    }
  }

  predicate AtLeastTwelve(userId: string) {
    |WithoutDashes(userId)| >= 12
  }

  /** The first twelve characters of a user id that are not dashes. */
  function FirstTwelve(userId: string): string
    requires AtLeastTwelve(userId)
  {
    WithoutDashes(userId)[..12]
  }

  /** A derived account id is `pta-` and the first twelve characters of the user id, dashes apart; so two
      users derive the same one exactly if those agree. */
  lemma DerivedIdsIff(u: string, v: string)
    requires AtLeastTwelve(u) && AtLeastTwelve(v)
    ensures BuildAccountId(u) == "pta-" + FirstTwelve(u)
    ensures BuildAccountId(u) == BuildAccountId(v) <==> FirstTwelve(u) == FirstTwelve(v)
  {
    TwelveKept(u);
    TwelveKept(v);
    assert ("pta-" + FirstTwelve(u))[4..] == FirstTwelve(u) && ("pta-" + FirstTwelve(v))[4..] == FirstTwelve(v);
  }

  lemma TwelveKept(u: string)
    requires AtLeastTwelve(u)
    ensures BuildAccountId(u) == "pta-" + FirstTwelve(u)
  {
    var compact := WithoutDashes(u);
    assert |compact| == 12 ==> compact[..12] == compact;
  }

  /** The shape of a UUID, as far as it matters: dashes after eight and after four more characters. */
  predicate UuidLike(userId: string) {
    |userId| >= 14 && userId[8] == '-' && userId[13] == '-' &&
    forall i | 0 <= i < 14 && i != 8 && i != 13 :: userId[i] != '-'
  }

  /** Of a UUID those are its first eight characters and the four after the first dash. */
  lemma TwelveOfUuid(userId: string)
    requires UuidLike(userId)
    ensures AtLeastTwelve(userId) && FirstTwelve(userId) == userId[..8] + userId[9..13]
  {
    var a, b, rest := userId[..8], userId[9..13], userId[14..];
    assert userId == a + ("-" + (b + ("-" + rest)));
    DashesApart(a, "-" + (b + ("-" + rest)));
    DashesApart("-", b + ("-" + rest));
    DashesApart(b, "-" + rest);
    NoDashes(a);
    NoDashes(b);
    assert WithoutDashes("-") == "";
    assert WithoutDashes(userId) == (a + b) + WithoutDashes("-" + rest);
  }

  /** Two UUIDs derive the same account id exactly if those twelve characters agree. */
  lemma UuidsDeriveIff(u: string, v: string)
    requires UuidLike(u) && UuidLike(v)
    ensures BuildAccountId(u) == "pta-" + u[..8] + u[9..13]
    ensures BuildAccountId(u) == BuildAccountId(v) <==> u[..8] == v[..8] && u[9..13] == v[9..13]
  {
    TwelveOfUuid(u);
    TwelveOfUuid(v);
    DerivedIdsIff(u, v);
    var x, y := u[..8] + u[9..13], v[..8] + v[9..13];
    assert x[..8] == u[..8] && x[8..] == u[9..13] && y[..8] == v[..8] && y[8..] == v[9..13];
    assert "pta-" + u[..8] + u[9..13] == "pta-" + x;
  }

  /** No two users agree in their first twelve characters, dashes apart, and no account created otherwise
      has an id made of `pta-` and those. */
  ghost predicate TwelvesDistinct(users: set<string>, created: set<string>) {
    (forall u | u in users :: AtLeastTwelve(u)) &&
    (forall u, v | u in users && v in users :: FirstTwelve(u) == FirstTwelve(v) ==> u == v) &&
    forall u | u in users :: "pta-" + FirstTwelve(u) !in created
  }

  /** If the users a run generates differ in the first twelve characters of their ids, dashes apart, and no
      account created otherwise is named after such twelve, ownership agrees in every state it reaches. */
  lemma OwnershipAgreesWithoutCollisions(ops: seq<Op>)
    requires TwelvesDistinct(UserIds(ops), CreatedIds(ops))
    ensures Inv(Run(EMPTY, ops))
  {
    var users, created := UserIds(ops), CreatedIds(ops);
    forall u, v | u in users && v in users
      ensures BuildAccountId(u) == BuildAccountId(v) ==> u == v
      ensures BuildAccountId(u) !in created
    {
      DerivedIdsIff(u, v);
    }
    assert DerivedIdsDistinct(users, created);
    RunStrandsNothing(EMPTY, ops, users, created);
    OwnershipAgrees(ops);
  }

  // ---------------------------------------------------------------- collisions happen

  lemma {:induction false} DashesApart(a: string, b: string)
    ensures WithoutDashes(a + b) == WithoutDashes(a) + WithoutDashes(b)
  {
    if a == "" {
      assert a + b == b;
    } else {
      assert (a + b)[1..] == a[1..] + b;
      DashesApart(a[1..], b);
    }
  }

  /** User ids that share twelve characters, dashes apart, derive the same account id. */
  lemma SharedPrefixCollides(prefix: string, x: string, y: string)
    requires |WithoutDashes(prefix)| >= 12
    ensures BuildAccountId(prefix + x) == BuildAccountId(prefix + y)
  {
    DashesApart(prefix, x);
    DashesApart(prefix, y);
    TakeTwelve(WithoutDashes(prefix), WithoutDashes(x));
    TakeTwelve(WithoutDashes(prefix), WithoutDashes(y));
  }

  lemma TakeTwelve(a: string, b: string)
    requires |a| >= 12
    ensures (if |a + b| > 12 then (a + b)[..12] else a + b) == a[..12]
  {
  }

  /** A request with an embedded wallet and nothing else that is optional. */
  function Person(name: string, wallet: string): Input {
    Input(name, "privy_" + name, "sub", None, None, "{}", "EMAIL", "US", "US",
          Some(wallet), None, None, None, None, None, None)
  }

  predicate NormalAddress(wallet: string) {
    NormaliseAddress(Some(wallet)) == Some(wallet)
  }

  /** The tables after one such registration. */
  function After(name: string, wallet: string, keys: Fresh): Tables {
    var accountId := BuildAccountId(keys.user);
    Tables([User(keys.user, "privy_" + name, None, "US", "PRIVY")],
           [Identity(keys.identity, keys.user, name, "sub", "EMAIL", None, None, "{}")],
           [Account(accountId, keys.user, Some(keys.identity), Some(keys.embedded), "PRIVY", wallet, "US")],
           [Wallet(keys.embedded, keys.user, accountId, keys.identity, "PRIVY", "EMBEDDED_EOA", "USER_CONTROLLED",
                   None, wallet, None, true, "ACTIVE")])
  }

  lemma FirstRegistration(name: string, wallet: string, keys: Fresh)
    requires NormalAddress(wallet)
    ensures Register(EMPTY, Person(name, wallet), keys).Ok?
    ensures Register(EMPTY, Person(name, wallet), keys).value.0 == After(name, wallet, keys)
  {
    var input, accountId := Person(name, wallet), BuildAccountId(keys.user);
    var after := After(name, wallet, keys);
    assert wallet != "";
    assert EMPTY.users + after.users == after.users && EMPTY.identities + after.identities == after.identities;
    var t1 := EMPTY.(users := after.users);
    assert EnsureUser(EMPTY, input, keys.user) == Ok((t1, keys.user));
    var t2 := t1.(identities := after.identities);
    assert EnsureAuthIdentity(t1, keys.user, input, keys.identity) == Ok((t2, keys.identity));
    var t3 := t2.(accounts := [Account(accountId, keys.user, Some(keys.identity), None, "PRIVY", wallet, "US")]);
    assert t2.accounts + t3.accounts == t3.accounts;
    assert EnsureTreasuryAccount(t2, keys.user, keys.identity, input) == Ok((t3, accountId));
    FirstWallet(t3, wallet, input, keys, accountId);
  }

  lemma FirstWallet(t: Tables, wallet: string, input: Input, keys: Fresh, accountId: string)
    requires NormalAddress(wallet) && input.embedded == Some(wallet) && input.smart.None? && input.external.None?
    requires input.chainId.None? && t.wallets == []
    requires t.accounts == [Account(accountId, keys.user, Some(keys.identity), None, "PRIVY", wallet, "US")]
    ensures var r := RegisterOn(t, input, keys, keys.user, keys.identity, accountId);
      r.Ok? && r.value.0 == t.(
        accounts := [Account(accountId, keys.user, Some(keys.identity), Some(keys.embedded), "PRIVY", wallet, "US")],
        wallets := [Wallet(keys.embedded, keys.user, accountId, keys.identity, "PRIVY", "EMBEDDED_EOA", "USER_CONTROLLED",
                           None, wallet, None, true, "ACTIVE")])
  {
    assert wallet != "";
    var t1 := t.(wallets := [Wallet(keys.embedded, keys.user, accountId, keys.identity, "PRIVY", "EMBEDDED_EOA",
                                    "USER_CONTROLLED", None, wallet, None, true, "ACTIVE")]);
    assert t.wallets + t1.wallets == t1.wallets;
    assert UpsertIfGiven(t, EmbeddedSpec(input, keys.user, accountId, keys.identity), keys.embedded)
        == Ok((t1, Some(keys.embedded)));
    assert AccountRow(t1.accounts, accountId) == Some(0);
  }

  /** A registration on tables that satisfy the ownership invariant, which succeeds, takes over a
      colliding account, strands a wallet on it, and so breaks the invariant. */
  ghost predicate Breaks(t: Tables, input: Input, keys: Fresh) {
    && Inv(t) && Register(t, input, keys).Ok? && CollisionStrands(t, input, keys)
    && !Inv(Register(t, input, keys).value.0)
  }

  /** Two people and the keys they register with. */
  datatype Pair = Pair(
    prefix: string, x: string, y: string, name1: string, name2: string, wallet1: string, wallet2: string,
    keys1: Fresh, keys2: Fresh)
  {
    predicate Collides() {
      && |WithoutDashes(prefix)| >= 12 && keys1.user == prefix + x && keys2.user == prefix + y && x != y
      && keys1.identity != keys2.identity && keys1.embedded != keys2.embedded && name1 != name2
      && NormalAddress(wallet1) && NormalAddress(wallet2) && wallet1 != wallet2
    }
  }

  /** Two people whose generated user ids share twelve characters: the second registration takes over
      the first one's account, strands her wallet on it, and breaks the ownership invariant. */
  lemma CollidingUsersStrandWallets(p: Pair)
    requires p.Collides()
    ensures Run(EMPTY, [Registering(Person(p.name1, p.wallet1), p.keys1)]) == After(p.name1, p.wallet1, p.keys1)
    ensures Breaks(After(p.name1, p.wallet1, p.keys1), Person(p.name2, p.wallet2), p.keys2)
  {
    FirstRegistration(p.name1, p.wallet1, p.keys1);
    OneRegistration(Person(p.name1, p.wallet1), p.keys1);
    SharedPrefixCollides(p.prefix, p.x, p.y);
    assert p.prefix + p.x != p.prefix + p.y by {
      assert (p.prefix + p.x)[|p.prefix|..] == p.x && (p.prefix + p.y)[|p.prefix|..] == p.y;
    }
    FirstKeepsInv(p.name1, p.wallet1, p.keys1);
    SecondRegistration(p.name1, p.wallet1, p.keys1, p.name2, p.wallet2, p.keys2);
    RegisterKeepsInvIff(After(p.name1, p.wallet1, p.keys1), Person(p.name2, p.wallet2), p.keys2);
  }

  lemma FirstKeepsInv(name: string, wallet: string, keys: Fresh)
    requires NormalAddress(wallet)
    ensures Inv(After(name, wallet, keys))
  {
    var t := After(name, wallet, keys);
    assert t.identities[0] in t.identities && t.accounts[0] in t.accounts;
  }

  lemma OneRegistration(input: Input, keys: Fresh)
    requires Register(EMPTY, input, keys).Ok?
    ensures Run(EMPTY, [Registering(input, keys)]) == Register(EMPTY, input, keys).value.0
  {
    assert [Registering(input, keys)][1..] == [];
  }

  lemma SecondRegistration(name1: string, wallet1: string, keys1: Fresh, name2: string, wallet2: string, keys2: Fresh)
    requires keys1.user != keys2.user && BuildAccountId(keys1.user) == BuildAccountId(keys2.user)
    requires keys1.identity != keys2.identity && keys1.embedded != keys2.embedded && name1 != name2
    requires NormalAddress(wallet1) && NormalAddress(wallet2) && wallet1 != wallet2
    ensures var t1 := After(name1, wallet1, keys1);
      Register(t1, Person(name2, wallet2), keys2).Ok? && CollisionStrands(t1, Person(name2, wallet2), keys2)
  {
    var t, input := After(name1, wallet1, keys1), Person(name2, wallet2);
    var f := SecondFindings(name1, wallet1, keys1, name2, wallet2, keys2);
    SecondWallet(f.t3, wallet1, wallet2, input, keys1, keys2, f.accountId);
    RegisterFrom(t, input, keys2, f);
    var w := t.wallets[0];
    assert w in t.wallets && w.userId != keys2.user && KeyOf(w) == WalletKey("PRIVY", None, wallet1);
    assert KeyOf(w) !in RegisteredKeys(input);
  }

  lemma SecondFindings(name1: string, wallet1: string, keys1: Fresh, name2: string, wallet2: string, keys2: Fresh)
    returns (f: Findings)
    requires keys1.user != keys2.user && BuildAccountId(keys1.user) == BuildAccountId(keys2.user)
    requires keys1.identity != keys2.identity && name1 != name2
    ensures AreFindings(After(name1, wallet1, keys1), Person(name2, wallet2), keys2, f)
    ensures f.userId == keys2.user && f.authIdentityId == keys2.identity && f.accountId == BuildAccountId(keys2.user)
    ensures TakesOver(f.t2, f.userId, f.authIdentityId, Person(name2, wallet2))
    ensures f.t3.wallets == After(name1, wallet1, keys1).wallets
    ensures f.t3.accounts == [Account(f.accountId, keys2.user, Some(keys2.identity), Some(keys1.embedded), "PRIVY", wallet1, "US")]
  {
    var t, input := After(name1, wallet1, keys1), Person(name2, wallet2);
    assert "privy_" + name1 != "privy_" + name2 by {
      assert ("privy_" + name1)[6..] == name1 && ("privy_" + name2)[6..] == name2;
    }
    var t1 := t.(users := t.users + [User(keys2.user, "privy_" + name2, None, "US", "PRIVY")]);
    assert EnsureUser(t, input, keys2.user) == Ok((t1, keys2.user));
    var t2 := t1.(identities := t1.identities
      + [Identity(keys2.identity, keys2.user, name2, "sub", "EMAIL", None, None, "{}")]);
    assert EnsureAuthIdentity(t1, keys2.user, input, keys2.identity) == Ok((t2, keys2.identity));
    var accountId := BuildAccountId(keys2.user);
    assert OwnedRow(t2.accounts, keys2.user, keys2.identity).None?;
    assert AccountRow(t2.accounts, accountId) == Some(0);
    var t3 := EnsureTreasuryAccount(t2, keys2.user, keys2.identity, input).value.0;
    f := Findings(t1, keys2.user, t2, keys2.identity, t3, accountId);
  }

  lemma SecondWallet(
      t: Tables, wallet1: string, wallet2: string, input: Input, keys1: Fresh, keys2: Fresh, accountId: string)
    requires NormalAddress(wallet1) && NormalAddress(wallet2) && wallet1 != wallet2 && keys1.embedded != keys2.embedded
    requires input.embedded == Some(wallet2) && input.smart.None? && input.external.None? && input.chainId.None?
    requires |t.wallets| == 1 && t.wallets[0].id == keys1.embedded
    requires KeyOf(t.wallets[0]) == WalletKey("PRIVY", None, wallet1)
    requires |t.accounts| == 1 && t.accounts[0].id == accountId && t.accounts[0].walletAddress == wallet1
    ensures RegisterOn(t, input, keys2, keys2.user, keys2.identity, accountId).Ok?
  {
    assert wallet1 != "" && wallet2 != "";
    assert UpsertIfGiven(t, EmbeddedSpec(input, keys2.user, accountId, keys2.identity), keys2.embedded).Ok?;
    assert AccountRow(t.accounts, accountId) == Some(0);
  }

  function Repeated(c: char): string {
    "0x" + seq(40, _ => c)
  }

  lemma RepeatedIsNormal(c: char)
    requires '0' <= c <= '9'
    ensures NormalAddress(Repeated(c)) && Repeated(c)[2] == c
  {
    assert NormaliseAddress(Some(Repeated(c))).value == Repeated(c);
  }

  /** The shape of the first fourteen characters of a UUID. */
  lemma TwelveInFourteen(s: string)
    requires |s| == 14 && forall i | 0 <= i < 14 && i != 8 && i != 13 :: s[i] != '-'
    ensures |WithoutDashes(s)| >= 12
  {
    var a, b, c, d := s[..8], s[8..9], s[9..13], s[13..];
    assert s == a + (b + (c + d));
    DashesApart(a, b + (c + d));
    DashesApart(b, c + d);
    DashesApart(c, d);
    NoDashes(a);
    NoDashes(c);
  }

  /** Some run of registrations leads from empty tables to `t`. */
  ghost predicate Reached(t: Tables) {
    exists ops :: Run(EMPTY, ops) == t
  }

  /** User ids as the database generates them can collide. */
  lemma UuidsCollide() returns (p: Pair)
    ensures p.Collides()
  {
    var shared, one, other := "3f2a9c1e-7b4d-", "4e6a-9c11-000000000001", "4e6a-9c11-000000000002";
    var a, b := "did:privy:a", "did:privy:b";
    p := Pair(shared, one, other, a, b, Repeated('1'), Repeated('2'),
              Fresh(shared + one, "i1", "w1", "w2", "w3"), Fresh(shared + other, "i2", "w4", "w5", "w6"));
    TwelveInFourteen(shared);
    RepeatedIsNormal('1');
    RepeatedIsNormal('2');
    assert one[21] != other[21] && a[10] != b[10];
    assert p.keys1.identity[1] != p.keys2.identity[1] && p.keys1.embedded[1] != p.keys2.embedded[1];
  }

  /** So some reachable tables satisfy the invariant and a registration on them breaks it. */
  lemma CollisionReached() returns (t: Tables, input: Input, keys: Fresh)
    ensures Reached(t) && Breaks(t, input, keys)
  {
    var p := UuidsCollide();
    CollidingUsersStrandWallets(p);
    t, input, keys := After(p.name1, p.wallet1, p.keys1), Person(p.name2, p.wallet2), p.keys2;
  }

  lemma {:induction false} NoDashes(s: string)
    requires forall i | 0 <= i < |s| :: s[i] != '-'
    ensures WithoutDashes(s) == s
  {
    if s != "" {
      NoDashes(s[1..]);
    }
  }
}
