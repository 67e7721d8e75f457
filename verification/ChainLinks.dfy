/**
 Which row a posting links to. With rows stamped in commit order, the previous-hash query finds the last
 row that debits or credits the account, so postings made one after the other form one chain an account,
 and two postings link to the same row exactly if no row of the account was committed between their reads.
 */
module ChainLinks {
  import opened Ledger
  import opened HashChain

  /** Rows are stamped in the order they were committed. */
  ghost predicate Clocked(entries: seq<Entry>) {
    forall i, j | 0 <= i < j < |entries| :: entries[i].createdAt < entries[j].createdAt
  }

  predicate DebitsOrCredits(e: Entry, account: string) {
    e.posting.debit == account || e.posting.credit == account
  }

  /** No row from `m` up to, not including, `n` debits or credits the account. */
  ghost predicate Untouched(entries: seq<Entry>, m: nat, n: nat, account: string)
    requires m <= n <= |entries|
  {
    forall j | m <= j < n :: !DebitsOrCredits(entries[j], account)
  }

  /** Among the first `n` rows, `k` is the last that debits or credits the account. */
  ghost predicate LastOf(entries: seq<Entry>, n: nat, account: string, k: nat)
    requires n <= |entries|
  {
    k < n && DebitsOrCredits(entries[k], account) && Untouched(entries, k + 1, n, account)
  }

  ghost predicate NeverZero(digest: Digest) {
    forall p :: digest(p) != ZERO_HASH
  }

  /** The string a chain starts from is sixty-four zeros. */
  lemma ZeroHashIsZeros()
    ensures |ZERO_HASH| == 64 && forall i | 0 <= i < 64 :: ZERO_HASH[i] == '0'
  {
  }

  // ---------------------------------------------------------------- one read

  /** The query takes the newest row of the account, whichever order the rows are in. */
  lemma NewestRowWins(entries: seq<Entry>, account: string, k: nat, h: string)
    requires k < |entries| && DebitsOrCredits(entries[k], account)
    requires forall j | 0 <= j < |entries| && j != k && DebitsOrCredits(entries[j], account) ::
      entries[j].createdAt < entries[k].createdAt
    requires PrevOf(entries, account, h)
    ensures h == entries[k].hash
  {
    assert Touches(entries[k], account);
    var i :| 0 <= i < |entries| && IsLatest(entries, account, i) && entries[i].hash == h;
    assert entries[k].createdAt <= entries[i].createdAt;
    assert DebitsOrCredits(entries[i], account);
  }

  lemma NoRowNoLink(entries: seq<Entry>, account: string, h: string)
    requires Untouched(entries, 0, |entries|, account) && PrevOf(entries, account, h)
    ensures h == ZERO_HASH
  {
    forall j | 0 <= j < |entries| ensures !Touches(entries[j], account) {
      assert !DebitsOrCredits(entries[j], account);
    }
  }

  lemma LastOrNone(entries: seq<Entry>, n: nat, account: string) returns (k: nat)
    requires n <= |entries|
    ensures Untouched(entries, 0, n, account) || LastOf(entries, n, account, k)
  {
    k := n;
    while k > 0 && !DebitsOrCredits(entries[k - 1], account)
      invariant k <= n && Untouched(entries, k, n, account)
    {
      k := k - 1;
    }
    if k > 0 {
      k := k - 1;
    }
  }

  /** What the query yields on the first `n` rows of a log stamped in commit order. */
  lemma ReadsLast(entries: seq<Entry>, n: nat, account: string, h: string)
    requires Clocked(entries) && n <= |entries| && PrevOf(entries[..n], account, h)
    ensures Untouched(entries, 0, n, account) ==> h == ZERO_HASH
    ensures forall k: nat | LastOf(entries, n, account, k) :: h == entries[k].hash
  {
    var seen := entries[..n];
    if Untouched(entries, 0, n, account) {
      assert Untouched(seen, 0, n, account);
      NoRowNoLink(seen, account, h);
    }
    forall k: nat | LastOf(entries, n, account, k) ensures h == entries[k].hash {
      forall j | 0 <= j < n && j != k && DebitsOrCredits(seen[j], account)
        ensures seen[j].createdAt < seen[k].createdAt
      {
        assert j < k;
      }
      NewestRowWins(seen, account, k, h);
    }
  }

  /** A sweep links to the newest row of the whole log as its statement saw it, whatever the accounts. */
  lemma SweepReadsNewest(entries: seq<Entry>, k: nat, h: string)
    requires NewestHash(entries, h)
    ensures entries == [] ==> h == ZERO_HASH
    ensures k < |entries| && (forall j | 0 <= j < |entries| && j != k :: entries[j].createdAt < entries[k].createdAt) ==>
      h == entries[k].hash
  {
    if entries != [] {
      var i :| 0 <= i < |entries| && IsNewest(entries, i) && entries[i].hash == h;
      if k < |entries| {
        assert entries[k].createdAt <= entries[i].createdAt;
      }
    }
  }

  /** On a log stamped in commit order that is the last row. */
  lemma SweepReadsLast(entries: seq<Entry>, h: string)
    requires Clocked(entries) && NewestHash(entries, h)
    ensures h == if entries == [] then ZERO_HASH else entries[|entries| - 1].hash
  {
    if entries != [] {
      SweepReadsNewest(entries, |entries| - 1, h);
    }
  }

  // ---------------------------------------------------------------- two reads

  /** Two reads of an account, one when the log had `m` rows and one when it had `n`, find the same hash
      exactly if no row of the account was committed in between. */
  lemma SameLinkIffNothingBetween(
      digest: Digest, entries: seq<Entry>, m: nat, n: nat, account: string, g: string, h: string)
    requires Clocked(entries) && Hashed(digest, entries) && NeverZero(digest) && m <= n <= |entries|
    requires PrevOf(entries[..m], account, g) && PrevOf(entries[..n], account, h)
    ensures g == h <==> Untouched(entries, m, n, account)
  {
    ReadsLast(entries, m, account, g);
    ReadsLast(entries, n, account, h);
    var j := LastOrNone(entries, m, account);
    var k := LastOrNone(entries, n, account);
    if Untouched(entries, m, n, account) {
      if Untouched(entries, 0, m, account) {
        assert Untouched(entries, 0, n, account);
      } else {
        assert LastOf(entries, n, account, j);
      }
    } else {
      assert LastOf(entries, n, account, k) && m <= k;
      assert entries[k].hash == digest(Record(entries[k]));
    }
  }

  /** Of two postings debiting one account, begun at different times of a run, the second links to the
      row the first links to exactly if no row of the account was committed between their begins. */
  lemma PostsForkIffNothingBetween(
      digest: Digest, first: seq<Step>, mid: State, tx: nat, p: Posting, id: string, g: string, ts: nat, at: nat,
      second: seq<Step>, s: State, tx': nat, p': Posting, id': string, h: string, ts': nat, at': nat)
    requires NeverZero(digest) && Clocked(s.entries)
    requires Leads(digest, Initial(), first, mid) && Enabled(digest, mid, Begin(tx, p, id, g, ts, at))
    requires Leads(digest, mid, second, s) && Enabled(digest, s, Begin(tx', p', id', h, ts', at'))
    requires p.debit == p'.debit
    ensures mid.entries <= s.entries
    ensures g == h <==> Untouched(s.entries, |mid.entries|, |s.entries|, p.debit)
  {
    LogGrows(digest, mid, second, s);
    LeadsConcat(digest, Initial(), first, mid, second, s);
    ReachableLinked(digest, first + second, s);
    assert s.entries[..|mid.entries|] == mid.entries && s.entries[..|s.entries|] == s.entries;
    SameLinkIffNothingBetween(digest, s.entries, |mid.entries|, |s.entries|, p.debit, g, h);
  }

  // ---------------------------------------------------------------- one posting after the other

  /** Every posting of the run is begun and at once committed. */
  ghost predicate OneByOne(steps: seq<Step>) {
    forall i | 0 <= i < |steps| && steps[i].Begin? && steps[i].posting.amount > 0 ::
      i + 1 < |steps| && steps[i + 1] == Commit(steps[i].tx)
  }

  /** Each posting links to the last earlier row of its debit account, or to the zero string. */
  ghost predicate LinksToLast(entries: seq<Entry>) {
    forall k | 0 <= k < |entries| && entries[k].Posted? :: LinkIsLast(entries, k)
  }

  ghost predicate LinkIsLast(entries: seq<Entry>, k: nat)
    requires k < |entries|
  {
    var account := entries[k].posting.debit;
    (Untouched(entries, 0, k, account) ==> entries[k].prevHash == ZERO_HASH) &&
    forall j: nat | LastOf(entries, k, account, j) :: entries[k].prevHash == entries[j].hash
  }

  lemma LinkStays(entries: seq<Entry>, e: Entry, k: nat)
    requires k < |entries| && LinkIsLast(entries, k)
    ensures LinkIsLast(entries + [e], k)
  {
    var grown, account := entries + [e], entries[k].posting.debit;
    forall j | 0 <= j < |entries| ensures grown[j] == entries[j] {
    }
    forall j: nat | LastOf(grown, k, account, j) ensures LastOf(entries, k, account, j) {
      forall i | j + 1 <= i < k ensures !DebitsOrCredits(entries[i], account) {
        assert !DebitsOrCredits(grown[i], account);
      }
    }
    if Untouched(grown, 0, k, account) {
      forall i | 0 <= i < k ensures !DebitsOrCredits(entries[i], account) {
        assert !DebitsOrCredits(grown[i], account);
      }
    }
  }

  lemma AppendKeepsLinks(entries: seq<Entry>, e: Entry)
    requires LinksToLast(entries) && Clocked(entries + [e])
    requires e.Posted? ==> PrevOf(entries, e.posting.debit, e.prevHash)
    ensures LinksToLast(entries + [e])
  {
    var grown, n := entries + [e], |entries|;
    forall k | 0 <= k < |grown| && grown[k].Posted? ensures LinkIsLast(grown, k) {
      if k < n {
        LinkStays(entries, e, k);
      } else {
        assert grown[..n] == entries;
        ReadsLast(grown, n, e.posting.debit, e.prevHash);
      }
    }
  }

  lemma PrefixClocked(entries: seq<Entry>, longer: seq<Entry>)
    requires entries <= longer && Clocked(longer)
    ensures Clocked(entries)
  {
  }

  lemma {:induction false} OneByOneLinks(digest: Digest, s: State, steps: seq<Step>, s': State)
    requires Leads(digest, s, steps, s') && OneByOne(steps) && s.pending == map[]
    requires LinksToLast(s.entries) && Clocked(s'.entries)
    ensures LinksToLast(s'.entries)
    decreases |steps|
  {
    if steps != [] {
      var s1 := Do(digest, s, steps[0]);
      assert OneByOne(steps[1..]) by {
        forall i | 0 <= i < |steps[1..]| ensures steps[1..][i] == steps[i + 1] {
        }
      }
      match steps[0]
      case Begin(tx, p, id, prevHash, ts, at) =>
        if p.amount > 0 {
          assert steps[1..][0] == Commit(tx) && OneByOne(steps[2..]) by {
            forall i | 0 <= i < |steps[2..]| ensures steps[2..][i] == steps[i + 2] {
            }
          }
          var s2, e := Do(digest, s1, Commit(tx)), MakeEntry(digest, p, id, prevHash, ts, at);
          assert s2.pending == map[] && steps[1..][1..] == steps[2..];
          LogGrows(digest, s2, steps[2..], s');
          PrefixClocked(s2.entries, s'.entries);
          if Insertable(s.entries, e) {
            AppendKeepsLinks(s.entries, e);
          }
          OneByOneLinks(digest, s2, steps[2..], s');
        } else {
          OneByOneLinks(digest, s1, steps[1..], s');
        }
      case SweepInsert(row) =>
        LogGrows(digest, s1, steps[1..], s');
        PrefixClocked(s1.entries, s'.entries);
        AppendKeepsLinks(s.entries, row);
        OneByOneLinks(digest, s1, steps[1..], s');
      case _ =>
    }
  }

  /** No two postings with the same debit account share a previous hash. */
  ghost predicate NoForks(entries: seq<Entry>) {
    forall k, l | 0 <= k < l < |entries| && entries[k].Posted? && entries[l].Posted?
      && entries[k].posting.debit == entries[l].posting.debit :: entries[k].prevHash != entries[l].prevHash
  }

  lemma LastLinksDiffer(digest: Digest, entries: seq<Entry>, k: nat, l: nat)
    requires Hashed(digest, entries) && NeverZero(digest) && k < l < |entries|
    requires LinkIsLast(entries, k) && LinkIsLast(entries, l) && entries[k].posting.debit == entries[l].posting.debit
    ensures entries[k].prevHash != entries[l].prevHash
  {
    var account := entries[l].posting.debit;
    assert DebitsOrCredits(entries[k], account);
    var i := LastOrNone(entries, k, account);
    var j := LastOrNone(entries, l, account);
    assert LastOf(entries, l, account, j) && k <= j;
    assert entries[j].hash == digest(Record(entries[j]));
    assert entries[l].prevHash == entries[j].hash;
  }

  /** Postings made one after the other, stamped in that order, form one chain for each account: each links
      to the last earlier row that debits or credits its debit account, or starts from the zero string if
      there is none, and no two of an account's postings share a previous hash. */
  lemma OneChainPerAccount(digest: Digest, steps: seq<Step>, s: State)
    requires NeverZero(digest) && Leads(digest, Initial(), steps, s) && OneByOne(steps) && Clocked(s.entries)
    ensures LinksToLast(s.entries) && NoForks(s.entries)
  {
    OneByOneLinks(digest, Initial(), steps, s);
    ReachableLinked(digest, steps, s);
    forall k, l | 0 <= k < l < |s.entries| && s.entries[k].Posted? && s.entries[l].Posted?
      && s.entries[k].posting.debit == s.entries[l].posting.debit
      ensures s.entries[k].prevHash != s.entries[l].prevHash
    {
      LastLinksDiffer(digest, s.entries, k, l);
    }
  }
}
