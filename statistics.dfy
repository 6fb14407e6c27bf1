/**
 * The account statistics registry (`Statistics`): an insertion-ordered table
 * of per-account records holding the counters of the current session, the
 * lifetime counters read from and written to the statistics file, and a
 * status. Each save attempt is recorded as the snapshot it would write, so
 * the model keeps every attempted write instead of a file; the clock reading
 * a save uses is a parameter.
 */
module Stats {
  import opened Wrappers

  datatype Status = Active | Inactive | Banned | FloodWait

  datatype AccountRecord = AccountRecord(
    sent: int, failed: int, status: Status,
    totalSent: int, totalFailed: int, lastActivity: string)

  /** One account's entry in the statistics file; each key may be absent. */
  datatype StoredEntry = StoredEntry(
    totalSent: Option<int>, totalFailed: Option<int>, lastActivity: Option<string>)

  /** A dictionary: keys in insertion order and the value of each. */
  datatype Table<V> = Table(keys: seq<string>, at: map<string, V>)

  type Registry = Table<AccountRecord>

  type Snapshot = Table<StoredEntry>

  /** What reading the statistics file gives. */
  datatype StoredFile = Missing | Unreadable | Stored(table: Snapshot)

  predicate Distinct(s: seq<string>) {
    forall i, j :: 0 <= i < j < |s| ==> s[i] != s[j]
  }

  /** Each key once, and exactly the keys that have a value. */
  ghost predicate WellFormed<V>(t: Table<V>) {
    Distinct(t.keys) && forall k :: k in t.at <==> k in t.keys
  }

  /** The record a counter or status update creates for an unknown account. */
  function Fresh(status: Status): AccountRecord {
    AccountRecord(0, 0, status, 0, 0, "")
  }

  /** The record of `account`, created with `status` if it has none. */
  function Ensure(reg: Registry, account: string, status: Status): (r: Registry)
    requires WellFormed(reg)
    ensures WellFormed(r) && account in r.at
    ensures r.keys == if account in reg.at then reg.keys else reg.keys + [account]
    ensures account !in reg.at ==> r.at[account] == Fresh(status)
    ensures forall k :: k in reg.at ==> r.at[k] == reg.at[k]
  {
    if account in reg.at then reg
    else
      var r := Table(reg.keys + [account], reg.at[account := Fresh(status)]);
      assert forall i :: 0 <= i < |reg.keys| ==> r.keys[i] == reg.keys[i];
      r
  }

  /** `add_sent`: an empty account name only raises the global counter. */
  function AfterSent(reg: Registry, account: string): (r: Registry)
    requires WellFormed(reg)
    ensures WellFormed(r)
    ensures account != "" ==> account in r.at && r.at[account].status == (if account in reg.at then reg.at[account].status else Active)
  {
    if account == "" then reg
    else
      var t := Ensure(reg, account, Active);
      var c := t.at[account];
      Table(t.keys, t.at[account := c.(sent := c.sent + 1, totalSent := c.totalSent + 1)])
  }

  /** `add_failed`. */
  function AfterFailed(reg: Registry, account: string): (r: Registry)
    requires WellFormed(reg)
    ensures WellFormed(r)
    ensures account != "" ==> account in r.at && r.at[account].status == (if account in reg.at then reg.at[account].status else Active)
  {
    if account == "" then reg
    else
      var t := Ensure(reg, account, Active);
      var c := t.at[account];
      Table(t.keys, t.at[account := c.(failed := c.failed + 1, totalFailed := c.totalFailed + 1)])
  }

  /** `set_account_status`: a new account starts with zero counters. */
  function WithStatus(reg: Registry, account: string, status: Status): (r: Registry)
    requires WellFormed(reg)
    ensures WellFormed(r) && account in r.at && r.at[account].status == status
  {
    var t := Ensure(reg, account, status);
    Table(t.keys, t.at[account := t.at[account].(status := status)])
  }

  /** The statuses whose setting saves the statistics file. */
  predicate SavesOnStatus(status: Status) {
    status == Banned || status == FloodWait || status == Inactive
  }

  /** The session part of a record cleared, the lifetime part kept. */
  function Cleared(rec: AccountRecord): AccountRecord {
    rec.(sent := 0, failed := 0, status := Inactive)
  }

  /** `cleanup_and_save` before the save: every record cleared. */
  function Reset(reg: Registry): (r: Registry)
    requires WellFormed(reg)
    ensures WellFormed(r)
  {
    Table(reg.keys, map k | k in reg.at :: Cleared(reg.at[k]))
  }

  /** What a save attempts to write for one record at clock reading `now`. */
  function EntryOf(rec: AccountRecord, now: string): StoredEntry {
    StoredEntry(Some(rec.totalSent), Some(rec.totalFailed),
                Some(if rec.status == Active then now else rec.lastActivity))
  }

  /** `save_account_stats`: the file contents it attempts to write at clock reading `now`. */
  function SaveOf(reg: Registry, now: string): (s: Snapshot)
    requires WellFormed(reg)
    ensures WellFormed(s)
  {
    Table(reg.keys, map k | k in reg.at :: EntryOf(reg.at[k], now))
  }

  /** The record the load step builds from one stored entry. */
  function RecordOf(e: StoredEntry): AccountRecord {
    AccountRecord(0, 0, Inactive, e.totalSent.GetOr(0), e.totalFailed.GetOr(0), e.lastActivity.GetOr(""))
  }

  /** `load_account_stats`: a missing or unreadable file gives no records. */
  function Restore(file: StoredFile): (r: Registry)
    requires file.Stored? ==> WellFormed(file.table)
    ensures WellFormed(r)
  {
    match file
    case Stored(t) => Table(t.keys, map k | k in t.at :: RecordOf(t.at[k]))
    case _ => Table([], map[])
  }

  function SentOf(rec: AccountRecord): int { rec.totalSent }

  function FailedOf(rec: AccountRecord): int { rec.totalFailed }

  /** The sum of `f` over the records of `keys`, in order. */
  function SumOf(keys: seq<string>, at: map<string, AccountRecord>, f: AccountRecord -> int): int
    requires forall k :: k in keys ==> k in at
  {
    if keys == [] then 0 else SumOf(keys[..|keys| - 1], at, f) + f(at[keys[|keys| - 1]])
  }

  /** `get_total_sent`. */
  function TotalSent(reg: Registry): int
    requires WellFormed(reg)
  {
    SumOf(reg.keys, reg.at, SentOf)
  }

  /** `get_total_failed`. */
  function TotalFailed(reg: Registry): int
    requires WellFormed(reg)
  {
    SumOf(reg.keys, reg.at, FailedOf)
  }

  /** Records that agree on `f` have the same sum. */
  lemma {:induction false} SumSame(keys: seq<string>, at1: map<string, AccountRecord>, at2: map<string, AccountRecord>, f: AccountRecord -> int)
    requires forall k :: k in keys ==> k in at1 && k in at2 && f(at1[k]) == f(at2[k])
    ensures SumOf(keys, at1, f) == SumOf(keys, at2, f)
  {
    if keys != [] {
      SumSame(keys[..|keys| - 1], at1, at2, f);
    }
  }

  /** Replacing one record changes the sum by the difference it makes. */
  lemma {:induction false} SumUpdate(keys: seq<string>, at: map<string, AccountRecord>, a: string, rec: AccountRecord, f: AccountRecord -> int)
    requires Distinct(keys) && a in keys
    requires forall k :: k in keys ==> k in at
    ensures SumOf(keys, at[a := rec], f) == SumOf(keys, at, f) - f(at[a]) + f(rec)
  {
    var init := keys[..|keys| - 1];
    var last := keys[|keys| - 1];
    if last == a {
      assert a !in init by {
        forall i | 0 <= i < |init| ensures init[i] != a {
          assert keys[i] == init[i];
        }
      }
      SumSame(init, at[a := rec], at, f);
    } else {
      assert a in init by {
        var i :| 0 <= i < |keys| && keys[i] == a;
        assert init[i] == a;
      }
      SumUpdate(init, at, a, rec, f);
    }
  }

  /** Creating a record with zero lifetime counters changes no sum. */
  lemma EnsureSums(reg: Registry, account: string, status: Status, f: AccountRecord -> int)
    requires WellFormed(reg)
    requires f(Fresh(status)) == 0
    ensures SumOf(Ensure(reg, account, status).keys, Ensure(reg, account, status).at, f) == SumOf(reg.keys, reg.at, f)
  {
    if account !in reg.at {
      var keys := reg.keys + [account];
      var at := reg.at[account := Fresh(status)];
      assert Ensure(reg, account, status) == Table(keys, at);
      assert keys[..|keys| - 1] == reg.keys;
      SumSame(reg.keys, at, reg.at, f);
    }
  }

  /** Replacing the record of a listed account moves each total by the difference it makes. */
  lemma UpdateTotals(t: Registry, account: string, n: AccountRecord)
    requires WellFormed(t) && account in t.at
    ensures WellFormed(Table(t.keys, t.at[account := n]))
    ensures TotalSent(Table(t.keys, t.at[account := n])) == TotalSent(t) - t.at[account].totalSent + n.totalSent
    ensures TotalFailed(Table(t.keys, t.at[account := n])) == TotalFailed(t) - t.at[account].totalFailed + n.totalFailed
  {
    SumUpdate(t.keys, t.at, account, n, SentOf);
    SumUpdate(t.keys, t.at, account, n, FailedOf);
  }

  /** A sent message adds exactly one to the lifetime sent total and nothing to the failed one. */
  lemma TotalsAfterSent(reg: Registry, account: string)
    requires WellFormed(reg) && account != ""
    ensures TotalSent(AfterSent(reg, account)) == TotalSent(reg) + 1
    ensures TotalFailed(AfterSent(reg, account)) == TotalFailed(reg)
  {
    var t := Ensure(reg, account, Active);
    var c := t.at[account];
    var n := c.(sent := c.sent + 1, totalSent := c.totalSent + 1);
    assert AfterSent(reg, account) == Table(t.keys, t.at[account := n]);
    EnsureSums(reg, account, Active, SentOf);
    EnsureSums(reg, account, Active, FailedOf);
    UpdateTotals(t, account, n);
  }

  /** A failure adds exactly one to the lifetime failed total and nothing to the sent one. */
  lemma TotalsAfterFailed(reg: Registry, account: string)
    requires WellFormed(reg) && account != ""
    ensures TotalFailed(AfterFailed(reg, account)) == TotalFailed(reg) + 1
    ensures TotalSent(AfterFailed(reg, account)) == TotalSent(reg)
  {
    var t := Ensure(reg, account, Active);
    var c := t.at[account];
    var n := c.(failed := c.failed + 1, totalFailed := c.totalFailed + 1);
    assert AfterFailed(reg, account) == Table(t.keys, t.at[account := n]);
    EnsureSums(reg, account, Active, SentOf);
    EnsureSums(reg, account, Active, FailedOf);
    UpdateTotals(t, account, n);
  }

  /**
   * `add_sent` on a known account raises its session and lifetime sent
   * counters by one and changes nothing else in the registry; an unknown
   * account is appended with a zeroed active record first.
   */
  lemma SentRecord(reg: Registry, account: string, b: string)
    requires WellFormed(reg) && account != ""
    ensures AfterSent(reg, account).keys == if account in reg.at then reg.keys else reg.keys + [account]
    ensures var old_ := if account in reg.at then reg.at[account] else Fresh(Active);
            AfterSent(reg, account).at[account] == old_.(sent := old_.sent + 1, totalSent := old_.totalSent + 1)
    ensures b != account && b in reg.at ==> b in AfterSent(reg, account).at && AfterSent(reg, account).at[b] == reg.at[b]
  {
  }

  /** The counterpart of `SentRecord` for `add_failed`. */
  lemma FailedRecord(reg: Registry, account: string, b: string)
    requires WellFormed(reg) && account != ""
    ensures AfterFailed(reg, account).keys == if account in reg.at then reg.keys else reg.keys + [account]
    ensures var old_ := if account in reg.at then reg.at[account] else Fresh(Active);
            AfterFailed(reg, account).at[account] == old_.(failed := old_.failed + 1, totalFailed := old_.totalFailed + 1)
    ensures b != account && b in reg.at ==> b in AfterFailed(reg, account).at && AfterFailed(reg, account).at[b] == reg.at[b]
  {
  }

  /** Setting a status changes only that status: no counter and no other account moves. */
  lemma StatusRecord(reg: Registry, account: string, status: Status, b: string)
    requires WellFormed(reg)
    ensures var old_ := if account in reg.at then reg.at[account] else Fresh(status);
            WithStatus(reg, account, status).at[account] == old_.(status := status)
    ensures b != account && b in reg.at ==> b in WithStatus(reg, account, status).at && WithStatus(reg, account, status).at[b] == reg.at[b]
  {
  }

  lemma StatusKeepsTotals(reg: Registry, account: string, status: Status)
    requires WellFormed(reg)
    ensures TotalSent(WithStatus(reg, account, status)) == TotalSent(reg)
    ensures TotalFailed(WithStatus(reg, account, status)) == TotalFailed(reg)
  {
    var t := Ensure(reg, account, status);
    var n := t.at[account].(status := status);
    assert WithStatus(reg, account, status) == Table(t.keys, t.at[account := n]);
    EnsureSums(reg, account, status, SentOf);
    EnsureSums(reg, account, status, FailedOf);
    UpdateTotals(t, account, n);
  }

  /**
   * Clearing the session keeps the accounts, their order and both lifetime
   * totals, and leaves every record at zero session counters and inactive.
   */
  lemma ResetKeepsTotals(reg: Registry)
    requires WellFormed(reg)
    ensures Reset(reg).keys == reg.keys
    ensures TotalSent(Reset(reg)) == TotalSent(reg)
    ensures TotalFailed(Reset(reg)) == TotalFailed(reg)
    ensures forall k :: k in Reset(reg).at ==> var r := Reset(reg).at[k];
              r.sent == 0 && r.failed == 0 && r.status == Inactive
  {
    SumSame(reg.keys, Reset(reg).at, reg.at, SentOf);
    SumSame(reg.keys, Reset(reg).at, reg.at, FailedOf);
  }

  /**
   * Loading what a save wrote gives every account back in the same order,
   * cleared, with its lifetime totals, and with the save's clock reading as
   * last activity exactly when it was active.
   */
  lemma ReloadAfterSave(reg: Registry, now: string)
    requires WellFormed(reg)
    ensures Restore(Stored(SaveOf(reg, now))).keys == reg.keys
    ensures forall k :: k in reg.at ==>
              (k in Restore(Stored(SaveOf(reg, now))).at &&
               Restore(Stored(SaveOf(reg, now))).at[k] ==
                 Cleared(reg.at[k]).(lastActivity := if reg.at[k].status == Active then now else reg.at[k].lastActivity))
    ensures TotalSent(Restore(Stored(SaveOf(reg, now)))) == TotalSent(reg)
  {
    var r := Restore(Stored(SaveOf(reg, now)));
    SumSame(reg.keys, r.at, reg.at, SentOf);
  }

  /**
   * What `cleanup_and_save` writes loads back as exactly the registry it
   * left in memory, whatever the clock said.
   */
  lemma ReloadAfterCleanup(reg: Registry, now: string)
    requires WellFormed(reg)
    ensures Restore(Stored(SaveOf(Reset(reg), now))) == Reset(reg)
  {
    var r := Restore(Stored(SaveOf(Reset(reg), now)));
    assert r.at == Reset(reg).at;
  }

  /** What happens to one account: a message sent, a failure, a status set. */
  datatype Event = SentEvent | FailedEvent | StatusEvent(status: Status)

  /** The registry after an event. */
  function Apply(reg: Registry, account: string, e: Event): (r: Registry)
    requires WellFormed(reg)
    ensures WellFormed(r)
  {
    match e
    case SentEvent => AfterSent(reg, account)
    case FailedEvent => AfterFailed(reg, account)
    case StatusEvent(s) => WithStatus(reg, account, s)
  }

  /**
   * Whether the event saves the statistics file: the lifetime sent count
   * reaching a multiple of ten, any failure of a named account, and the
   * statuses of `SavesOnStatus`.
   */
  predicate Persists(reg: Registry, account: string, e: Event)
    requires WellFormed(reg)
  {
    match e
    case SentEvent => account != "" && AfterSent(reg, account).at[account].totalSent % 10 == 0
    case FailedEvent => account != ""
    case StatusEvent(s) => SavesOnStatus(s)
  }

  /** Everything `Statistics` keeps: counters, the registry and the save attempts. */
  datatype Ledger = Ledger(
    sentCount: int, failedCount: int, activeAccounts: int, totalAccounts: int,
    accounts: Registry, saved: seq<Snapshot>)

  /** One event recorded atomically at clock reading `now`. */
  function Record(l: Ledger, account: string, e: Event, now: string): (r: Ledger)
    requires WellFormed(l.accounts)
    ensures WellFormed(r.accounts)
  {
    var reg := Apply(l.accounts, account, e);
    l.(sentCount := l.sentCount + (if e.SentEvent? then 1 else 0),
       failedCount := l.failedCount + (if e.FailedEvent? then 1 else 0),
       accounts := reg,
       saved := l.saved + if Persists(l.accounts, account, e) then [SaveOf(reg, now)] else [])
  }

  /** `cleanup_and_save`: every record cleared, then one save. */
  function Cleanup(l: Ledger, now: string): (r: Ledger)
    requires WellFormed(l.accounts)
    ensures WellFormed(r.accounts)
  {
    l.(accounts := Reset(l.accounts), saved := l.saved + [SaveOf(Reset(l.accounts), now)])
  }

  /**
   * Only a failure raises the failed counters and only a sent message the sent
   * ones; a status event moves no counter at all.
   */
  lemma RecordCounters(l: Ledger, account: string, e: Event, now: string)
    requires WellFormed(l.accounts) && account != ""
    ensures Record(l, account, e, now).sentCount == l.sentCount + (if e.SentEvent? then 1 else 0)
    ensures Record(l, account, e, now).failedCount == l.failedCount + (if e.FailedEvent? then 1 else 0)
    ensures TotalSent(Record(l, account, e, now).accounts) == TotalSent(l.accounts) + (if e.SentEvent? then 1 else 0)
    ensures TotalFailed(Record(l, account, e, now).accounts) == TotalFailed(l.accounts) + (if e.FailedEvent? then 1 else 0)
  {
    match e
    case SentEvent => TotalsAfterSent(l.accounts, account);
    case FailedEvent => TotalsAfterFailed(l.accounts, account);
    case StatusEvent(s) => StatusKeepsTotals(l.accounts, account, s);
  }

  /**
   * When an event saves the statistics file: a sent message whose new
   * lifetime count is a multiple of ten, every failure, and the statuses
   * banned, flood_wait and inactive. A save appends the table as it is
   * after the event; earlier saves are kept.
   */
  lemma RecordSaves(l: Ledger, account: string, e: Event, now: string)
    requires WellFormed(l.accounts) && account != ""
    ensures var r := Record(l, account, e, now);
            var before := if account in l.accounts.at then l.accounts.at[account].totalSent else 0;
            var writes := match e
              case SentEvent => (before + 1) % 10 == 0
              case FailedEvent => true
              case StatusEvent(s) => s == Banned || s == FloodWait || s == Inactive;
            && |r.saved| == |l.saved| + (if writes then 1 else 0)
            && r.saved[..|l.saved|] == l.saved
            && (writes ==> r.saved[|l.saved|] == SaveOf(r.accounts, now))
  {
    if e.SentEvent? {
      SentRecord(l.accounts, account, account);
    }
    var r := Record(l, account, e, now);
    assert r.saved[..|l.saved|] == l.saved;
  }

  /** An event on one account leaves every other account's record, and its absence, as it was. */
  lemma ApplyElsewhere(reg: Registry, account: string, e: Event, b: string)
    requires WellFormed(reg) && b != account
    ensures b in Apply(reg, account, e).at <==> b in reg.at
    ensures b in reg.at ==> Apply(reg, account, e).at[b] == reg.at[b]
  {
  }

  /**
   * A counter event keeps the status of a known account and gives a new one
   * `active`; a status event sets its status. So only a status event can make
   * an account inactive.
   */
  lemma ApplyStatus(reg: Registry, account: string, e: Event)
    requires WellFormed(reg) && account != ""
    ensures account in Apply(reg, account, e).at
    ensures Apply(reg, account, e).at[account].status ==
              match e
              case StatusEvent(s) => s
              case _ => if account in reg.at then reg.at[account].status else Active
  {
  }

  /** The loop of `save_account_stats` that builds what it writes. */
  method SaveData(reg: Registry, now: string) returns (s: Snapshot)
    requires WellFormed(reg)
    ensures s == SaveOf(reg, now)
  {
    var data: map<string, StoredEntry> := map[];
    for i := 0 to |reg.keys|
      invariant data == map k | k in reg.at && k in reg.keys[..i] :: EntryOf(reg.at[k], now)
    {
      assert reg.keys[..i + 1] == reg.keys[..i] + [reg.keys[i]];
      data := data[reg.keys[i] := EntryOf(reg.at[reg.keys[i]], now)];
    }
    assert data == SaveOf(reg, now).at by {
      assert reg.keys[..|reg.keys|] == reg.keys;
      assert forall k :: k in reg.at ==> k in reg.keys;
    }
    s := Table(reg.keys, data);
  }

  /** The records of the first `i` keys cleared, the others as they were. */
  ghost predicate ClearedUpTo(reg: Registry, at: map<string, AccountRecord>, i: nat)
    requires i <= |reg.keys|
  {
    && at.Keys == reg.at.Keys
    && forall k :: k in at ==> at[k] == if k in reg.keys[..i] then Cleared(reg.at[k]) else reg.at[k]
  }

  /** Clearing the record of key `i` extends the cleared prefix by one. */
  lemma ClearStep(reg: Registry, at: map<string, AccountRecord>, i: nat)
    requires WellFormed(reg) && i < |reg.keys| && ClearedUpTo(reg, at, i)
    ensures reg.keys[i] in at
    ensures ClearedUpTo(reg, at[reg.keys[i] := Cleared(at[reg.keys[i]])], i + 1)
  {
    assert reg.keys[..i + 1] == reg.keys[..i] + [reg.keys[i]];
  }

  /** With every key cleared, the records are those of `Reset`. */
  lemma ClearedAll(reg: Registry, at: map<string, AccountRecord>)
    requires WellFormed(reg) && ClearedUpTo(reg, at, |reg.keys|)
    ensures at == Reset(reg).at
  {
    assert reg.keys[..|reg.keys|] == reg.keys;
  }

  /** The registry together with the global counters and every file write. */
  class Statistics {
    var sentCount: int
    var failedCount: int
    var activeAccounts: int
    var totalAccounts: int
    var accountStats: Registry
    /** Every write of the statistics file, oldest first. */
    var saved: seq<Snapshot>

    ghost predicate Valid()
      reads this
    {
      WellFormed(accountStats)
    }

    function State(): Ledger
      reads this
    {
      Ledger(sentCount, failedCount, activeAccounts, totalAccounts, accountStats, saved)
    }

    /** `__init__` with `load_account_stats`. */
    constructor (file: StoredFile)
      requires file.Stored? ==> WellFormed(file.table)
      ensures Valid()
      ensures State() == Ledger(0, 0, 0, 0, Restore(file), [])
    {
      sentCount, failedCount, activeAccounts, totalAccounts := 0, 0, 0, 0;
      saved := [];
      if file.Stored? {
        var t := file.table;
        var keys: seq<string> := [];
        var at: map<string, AccountRecord> := map[];
        for i := 0 to |t.keys|
          invariant keys == t.keys[..i]
          invariant at == map k | k in t.at && k in keys :: RecordOf(t.at[k])
        {
          keys := keys + [t.keys[i]];
          at := at[t.keys[i] := RecordOf(t.at[t.keys[i]])];
        }
        assert keys == t.keys;
        accountStats := Table(keys, at);
      } else {
        accountStats := Table([], map[]);
      }
    }

    /** `save_account_stats` at clock reading `now`. */
    method Save(now: string)
      requires Valid()
      modifies this
      ensures Valid()
      ensures State() == old(State()).(saved := old(saved) + [SaveOf(accountStats, now)])
    {
      var data := SaveData(accountStats, now);
      saved := saved + [data];
    }

    /** `add_sent`. */
    method AddSent(account: string, now: string)
      requires Valid()
      modifies this
      ensures Valid()
      ensures State() == Record(old(State()), account, SentEvent, now)
    {
      sentCount := sentCount + 1;
      accountStats := AfterSent(accountStats, account);
      if account != "" && accountStats.at[account].totalSent % 10 == 0 {
        Save(now);
      }
    }

    /** `add_failed`. */
    method AddFailed(account: string, now: string)
      requires Valid()
      modifies this
      ensures Valid()
      ensures State() == Record(old(State()), account, FailedEvent, now)
    {
      failedCount := failedCount + 1;
      accountStats := AfterFailed(accountStats, account);
      if account != "" {
        Save(now);
      }
    }

    /** `set_account_status`. */
    method SetAccountStatus(account: string, status: Status, now: string)
      requires Valid()
      modifies this
      ensures Valid()
      ensures State() == Record(old(State()), account, StatusEvent(status), now)
    {
      accountStats := WithStatus(accountStats, account, status);
      if status in {Banned, FloodWait, Inactive} {
        Save(now);
      }
    }

    /** `update_active_accounts`. */
    method UpdateActiveAccounts(active: int, total: int)
      modifies this
      ensures State() == old(State()).(activeAccounts := active, totalAccounts := total)
    {
      activeAccounts, totalAccounts := active, total;
    }

    /** `cleanup_and_save`: every record cleared in place, then one write. */
    method CleanupAndSave(now: string)
      requires Valid()
      modifies this
      ensures Valid()
      ensures State() == Cleanup(old(State()), now)
    {
      var reg := accountStats;
      var at := reg.at;
      for i := 0 to |reg.keys|
        invariant unchanged(this)
        invariant ClearedUpTo(reg, at, i)
      {
        ClearStep(reg, at, i);
        at := at[reg.keys[i] := Cleared(at[reg.keys[i]])];
      }
      ClearedAll(reg, at);
      accountStats := Table(reg.keys, at);
      assert accountStats == Reset(reg);
      Save(now);
    }
  }
}
