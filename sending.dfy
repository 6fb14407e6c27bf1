/**
 * The rules of `TelegramSender` as functions on a value `World` holding
 * everything the sender and its statistics change. The transport, the
 * connection attempts, the random choices and `stop_sending` calls arriving
 * from elsewhere are oracles handed in as parameters.
 */
module Sending {
  import opened Wrappers
  import opened Text
  import opened Quota
  import opened Stats
  import opened Template
  import opened Dispatch
  import Loader

  /** How the transport answers an attempt that is not a flood wait. */
  datatype Reply = Delivered | PrivacyRestricted | UserDeactivated | InputUserDeactivated | BannedInChannel | OtherError

  /**
   * The transport's answers to the successive attempts at one message: a
   * flood wait of `floods[k]` seconds for each attempt `k < |floods|`, then
   * `final`; `spin(k)` is the random choice oracle of attempt `k`.
   */
  datatype Attempts = Attempts(floods: seq<int>, final: Reply, spin: nat -> nat -> nat)

  /**
   * The configuration values the sender reads: `limits.daily_limit`,
   * `settings.flood_wait_threshold`, `settings.button.text` and `.url` (an
   * unset value is ""), `limits.max_concurrent_accounts`,
   * `limits.accounts_per_api` and `limits.accounts_per_proxy`.
   */
  datatype Options = Options(
    dailyLimit: int, floodThreshold: int, buttonText: string, buttonUrl: string,
    maxConcurrent: int, perApi: int, perProxy: int)

  /** The date used by the quota and the clock reading used by file writes, one for the whole run. */
  datatype Clock = Clock(today: Day, now: string)

  /** A message handed to the transport and accepted. */
  datatype Delivery = Delivery(user: string, text: string, markup: Option<ButtonData>)

  /**
   * The state: `daily_counts`, the statistics, the sent-users file as the
   * list of lines appended to it, the accepted messages, `is_running` and
   * `active_clients` (account to session file).
   */
  datatype World = World(
    daily: DailyCounts, ledger: Ledger, sentLog: seq<string>, outbox: seq<Delivery>,
    running: bool, active: map<string, string>)

  ghost predicate Good(w: World) {
    Stats.WellFormed(w.ledger.accounts)
  }

  /** How one call of `send_message_to_user` ends. */
  datatype Outcome = OverQuota | Sent(attempt: nat) | FloodTooLong(attempt: nat, wait: int) | Refused(attempt: nat, reply: Reply)

  /**
   * The attempts from `k` on: every flood wait within the threshold is slept
   * through and retried, the first longer one ends the call, and after the
   * flood waits the final reply decides.
   */
  function Resolve(at: Attempts, threshold: int, k: nat): (o: Outcome)
    decreases |at.floods| - k
    ensures !o.OverQuota? && o.attempt >= k
    ensures forall j :: k <= j < o.attempt && j < |at.floods| ==> at.floods[j] <= threshold
    ensures o.FloodTooLong? <==> o.attempt < |at.floods|
    ensures o.FloodTooLong? ==> at.floods[o.attempt] > threshold && o.wait == at.floods[o.attempt]
    ensures o.Sent? <==> !o.FloodTooLong? && at.final == Delivered
    ensures o.Refused? ==> o.reply == at.final
  {
    if k < |at.floods| then
      if at.floods[k] > threshold then FloodTooLong(k, at.floods[k]) else Resolve(at, threshold, k + 1)
    else if at.final == Delivered then Sent(k)
    else Refused(k, at.final)
  }

  /** The quota is checked first; then the attempts decide. */
  function Classify(daily: DailyCounts, opt: Options, clk: Clock, account: string, at: Attempts): Outcome {
    if !CanSend(daily, account, clk.today, opt.dailyLimit) then OverQuota
    else Resolve(at, opt.floodThreshold, 0)
  }

  /**
   * What the statistics record: a delivery is a sent message, a flood wait
   * over the threshold and a ban set a status, every other refusal is a
   * failure, and an exhausted quota records nothing.
   */
  function EventOf(o: Outcome): Option<Event> {
    match o
    case OverQuota => None
    case Sent(_) => Some(SentEvent)
    case FloodTooLong(_, _) => Some(StatusEvent(FloodWait))
    case Refused(_, r) => if r == BannedInChannel then Some(StatusEvent(Banned)) else Some(FailedEvent)
  }

  function RecordOutcome(l: Ledger, account: string, o: Outcome, now: string): (r: Ledger)
    requires Stats.WellFormed(l.accounts)
    ensures Stats.WellFormed(r.accounts)
  {
    match EventOf(o)
    case None => l
    case Some(e) => Record(l, account, e, now)
  }

  /** The message text and button markup of attempt `k`. */
  function Prepared(opt: Options, message: string, at: Attempts, k: nat): (string, Option<ButtonData>) {
    var (text, button) := ProcessSpintax(message, at.spin(k));
    (text, SendMarkup(button, opt.buttonText, opt.buttonUrl))
  }

  /** `send_message_to_user`: the new state and whether the message went out. */
  function SendStep(w: World, opt: Options, clk: Clock, user: string, message: string, account: string, at: Attempts): (r: (World, bool))
    requires Good(w)
    ensures Good(r.0)
  {
    var o := Classify(w.daily, opt, clk, account, at);
    var touched := Touch(w.daily, account, clk.today);
    var ledger := RecordOutcome(w.ledger, account, o, clk.now);
    if o.Sent? then
      var (text, markup) := Prepared(opt, message, at, o.attempt);
      (w.(daily := Bump(touched, account, clk.today), ledger := ledger,
          sentLog := w.sentLog + [user], outbox := w.outbox + [Delivery(user, text, markup)]),
       true)
    else
      (w.(daily := touched, ledger := ledger), false)
  }

  /** The environment's part in one iteration of the worker loop. */
  datatype Turn = Turn(stop: bool, choice: nat, attempts: Attempts)

  /** Why a worker left its loop, with the index of the user it was at. */
  datatype Exit = Finished | Stopped(at: nat) | QuotaReached(at: nat) | NoMessages(at: nat) | AccountDown(at: nat)

  /** How far the worker got through its `n` users: the users from there on were never tried. */
  function Reached(e: Exit, n: nat): nat {
    match e
    case Finished => n
    case Stopped(at) => at
    case QuotaReached(at) => at
    case NoMessages(at) => at
    case AccountDown(at) => at + 1
  }

  /** `account_stats.get(account, {}).get("status", "active")`. */
  function StatusOf(reg: Registry, account: string): Status {
    if account in reg.at then reg.at[account].status else Active
  }

  /** The statuses after which a failed send ends the worker. */
  predicate Down(s: Status) {
    s == Banned || s == FloodWait
  }

  /** The end of one iteration of the worker loop: on to the next user, or out of the loop. */
  datatype Step = Continue(w: World) | Leave(w: World, exit: Exit)

  /**
   * Iteration `i` of the worker loop. `turns(i).stop` is a `stop_sending`
   * call arriving before it; the message is chosen by `turns(i).choice`, and
   * an empty message list makes `random.choice` raise.
   */
  function WorkerStep(w: World, opt: Options, clk: Clock, account: string, users: seq<string>,
                      messages: seq<string>, turns: nat -> Turn, i: nat): (s: Step)
    requires Good(w) && i < |users|
    ensures Good(s.w) && s.w.active == w.active
    ensures s.w.ledger.activeAccounts == w.ledger.activeAccounts && s.w.ledger.totalAccounts == w.ledger.totalAccounts
    ensures s.Continue? ==> s.w.running
    ensures s.Leave? && s.exit.Stopped? ==> s.exit.at == i && !s.w.running
    ensures s.Leave? && s.exit.QuotaReached? ==> s.exit.at == i && s.w.running && !CanSend(s.w.daily, account, clk.today, opt.dailyLimit)
    ensures s.Leave? && s.exit.NoMessages? ==> s.exit.at == i && messages == []
    ensures s.Leave? && s.exit.AccountDown? ==> s.exit.at == i && Down(StatusOf(s.w.ledger.accounts, account))
    ensures s.Leave? ==> !s.exit.Finished?
  {
    var w1 := if turns(i).stop then w.(running := false) else w;
    if !w1.running then Leave(w1, Stopped(i))
    else
      var w2 := w1.(daily := Touch(w1.daily, account, clk.today));
      if !CanSend(w1.daily, account, clk.today, opt.dailyLimit) then
        TouchKeepsCounts(w1.daily, account, clk.today, account, clk.today);
        Leave(w2, QuotaReached(i))
      else if messages == [] then Leave(w2, NoMessages(i))
      else
        var message := messages[turns(i).choice % |messages|];
        var (w3, ok) := SendStep(w2, opt, clk, users[i], message, account, turns(i).attempts);
        if !ok && Down(StatusOf(w3.ledger.accounts, account)) then Leave(w3, AccountDown(i))
        else Continue(w3)
  }

  /** The worker loop from user `i` on. */
  function WorkerFrom(w: World, opt: Options, clk: Clock, account: string, users: seq<string>,
                      messages: seq<string>, turns: nat -> Turn, i: nat): (r: (World, Exit))
    requires Good(w) && i <= |users|
    decreases |users| - i
    ensures Good(r.0)
    ensures r.0.active == w.active
    ensures r.0.ledger.activeAccounts == w.ledger.activeAccounts && r.0.ledger.totalAccounts == w.ledger.totalAccounts
    ensures r.1.Finished? && i < |users| ==> r.0.running
    ensures r.1.Stopped? ==> i <= r.1.at < |users| && !r.0.running
    ensures r.1.QuotaReached? ==> i <= r.1.at < |users| && r.0.running && !CanSend(r.0.daily, account, clk.today, opt.dailyLimit)
    ensures r.1.NoMessages? ==> i <= r.1.at < |users| && messages == []
    ensures r.1.AccountDown? ==> i <= r.1.at < |users| && Down(StatusOf(r.0.ledger.accounts, account))
  {
    if i == |users| then (w, Finished)
    else
      match WorkerStep(w, opt, clk, account, users, messages, turns, i)
      case Leave(w1, e) => (w1, e)
      case Continue(w1) => WorkerFrom(w1, opt, clk, account, users, messages, turns, i + 1)
  }

  /** An iteration that leaves the loop is where the worker ends, at its own user or just after it. */
  lemma LeaveEnds(w: World, opt: Options, clk: Clock, account: string, users: seq<string>,
                  messages: seq<string>, turns: nat -> Turn, i: nat)
    requires Good(w) && i < |users|
    requires WorkerStep(w, opt, clk, account, users, messages, turns, i).Leave?
    ensures var s := WorkerStep(w, opt, clk, account, users, messages, turns, i);
            && WorkerFrom(w, opt, clk, account, users, messages, turns, i) == (s.w, s.exit)
            && i <= Reached(s.exit, |users|) <= i + 1
  {
  }

  /** An iteration that goes on to the next user leaves the rest of the run to the next iteration. */
  lemma ContinueOn(w: World, opt: Options, clk: Clock, account: string, users: seq<string>,
                   messages: seq<string>, turns: nat -> Turn, i: nat)
    requires Good(w) && i < |users|
    requires WorkerStep(w, opt, clk, account, users, messages, turns, i).Continue?
    ensures var s := WorkerStep(w, opt, clk, account, users, messages, turns, i);
            WorkerFrom(w, opt, clk, account, users, messages, turns, i) == WorkerFrom(s.w, opt, clk, account, users, messages, turns, i + 1)
  {
  }

  /** `worker`: the loop, then, however it ended, the account leaves `active_clients`. */
  function WorkerRun(w: World, opt: Options, clk: Clock, account: string, users: seq<string>,
                  messages: seq<string>, turns: nat -> Turn): (r: (World, Exit))
    requires Good(w)
    ensures Good(r.0)
    ensures r.0.active == w.active - {account}
    ensures r.0.ledger.activeAccounts == w.ledger.activeAccounts && r.0.ledger.totalAccounts == w.ledger.totalAccounts
  {
    var (w1, e) := WorkerFrom(w, opt, clk, account, users, messages, turns, 0);
    (w1.(active := w1.active - {account}), e)
  }

  /** What `create_client` is called with for a task. */
  datatype Credentials = Credentials(session: string, api: (int, string), proxy: Option<Loader.Proxy>)

  /** The demands of `start_sending` that the source relies on without checking. */
  predicate Dispatchable(opt: Options, api: seq<(int, string)>, proxies: seq<Loader.Proxy>) {
    opt.maxConcurrent > 0 && |api| > 0 && opt.perApi != 0 && (proxies != [] ==> opt.perProxy != 0)
  }

  /**
   * What `start_sending` relies on, needed only once the early returns are
   * passed and there are users left to contact.
   */
  predicate Startable(opt: Options, users: seq<string>, messages: seq<string>, sessions: seq<string>,
                      api: seq<(int, string)>, proxies: seq<Loader.Proxy>, sent: set<string>) {
    users != [] && messages != [] && sessions != [] && FilterSent(users, sent) != [] ==> Dispatchable(opt, api, proxies)
  }

  /** The credentials of task `i`. */
  function TaskFor(opt: Options, sessions: seq<string>, api: seq<(int, string)>, proxies: seq<Loader.Proxy>, i: nat): Credentials
    requires Dispatchable(opt, api, proxies) && i < |sessions|
  {
    Credentials(sessions[i], api[BlockIndex(i, opt.perApi, |api|)],
                if proxies == [] then None else Some(proxies[BlockIndex(i, opt.perProxy, |proxies|)]))
  }

  /** A connected client: its session file, the account it is known by, and the users its worker gets. */
  datatype Job = Job(session: string, account: string, users: seq<string>)

  /**
   * The task loop of `start_sending` over its first `i` tasks: each task whose
   * client connects becomes a job for the account named by its session file.
   */
  function TasksUpTo(opt: Options, sessions: seq<string>, api: seq<(int, string)>, proxies: seq<Loader.Proxy>,
                     chunks: seq<seq<string>>, connect: (nat, Credentials) -> bool, i: nat): (jobs: seq<Job>)
    requires Dispatchable(opt, api, proxies)
    requires i <= |sessions| && i <= |chunks|
    ensures |jobs| <= i
  {
    if i == 0 then []
    else
      var jobs := TasksUpTo(opt, sessions, api, proxies, chunks, connect, i - 1);
      if connect(i - 1, TaskFor(opt, sessions, api, proxies, i - 1))
      then jobs + [Job(sessions[i - 1], Basename(sessions[i - 1]), chunks[i - 1])]
      else jobs
  }

  /** Task `i` adds its job exactly when its client connects. */
  lemma TasksUpToNext(opt: Options, sessions: seq<string>, api: seq<(int, string)>, proxies: seq<Loader.Proxy>,
                      chunks: seq<seq<string>>, connect: (nat, Credentials) -> bool, i: nat)
    requires Dispatchable(opt, api, proxies)
    requires i < |sessions| && i < |chunks|
    ensures TasksUpTo(opt, sessions, api, proxies, chunks, connect, i + 1) ==
            TasksUpTo(opt, sessions, api, proxies, chunks, connect, i) +
            if connect(i, TaskFor(opt, sessions, api, proxies, i)) then [Job(sessions[i], Basename(sessions[i]), chunks[i])] else []
  {
  }

  /** A connected client: its account is in `active_clients` and has status active. */
  function Activate(w: World, job: Job, now: string): (r: World)
    requires Good(w)
    ensures Good(r)
  {
    w.(active := w.active[job.account := job.session],
       ledger := Record(w.ledger, job.account, StatusEvent(Active), now))
  }

  /** The registrations of the task loop, one job after another. */
  function ActivateAll(w: World, jobs: seq<Job>, now: string): (r: World)
    requires Good(w)
    ensures Good(r)
  {
    if jobs == [] then w
    else Activate(ActivateAll(w, jobs[..|jobs| - 1], now), jobs[|jobs| - 1], now)
  }

  /** Registering one more job is one more `Activate` after the others. */
  lemma ActivateAllSnoc(w: World, jobs: seq<Job>, job: Job, now: string)
    requires Good(w)
    ensures ActivateAll(w, jobs + [job], now) == Activate(ActivateAll(w, jobs, now), job, now)
  {
    assert (jobs + [job])[..|jobs|] == jobs;
  }

  /** The workers, run one after another in task order from job `j` on. */
  function RunFrom(w: World, opt: Options, clk: Clock, messages: seq<string>, jobs: seq<Job>,
                   turns: nat -> nat -> Turn, j: nat): (r: World)
    requires Good(w) && j <= |jobs|
    decreases |jobs| - j
    ensures Good(r)
    ensures r.ledger.activeAccounts == w.ledger.activeAccounts && r.ledger.totalAccounts == w.ledger.totalAccounts
  {
    if j == |jobs| then w
    else
      var (w1, _) := WorkerRun(w, opt, clk, jobs[j].account, jobs[j].users, messages, turns(j));
      RunFrom(w1, opt, clk, messages, jobs, turns, j + 1)
  }

  /**
   * `start_sending`. Missing users, messages or sessions leave everything as
   * it was; when every user was already contacted the call returns with
   * `is_running` still set.
   */
  function StartRun(w: World, opt: Options, clk: Clock, users: seq<string>, messages: seq<string>,
                    sessions: seq<string>, api: seq<(int, string)>, proxies: seq<Loader.Proxy>, sent: set<string>,
                    connect: (nat, Credentials) -> bool, turns: nat -> nat -> Turn): (r: World)
    requires Good(w) && Startable(opt, users, messages, sessions, api, proxies, sent)
    ensures Good(r)
  {
    if users == [] || messages == [] || sessions == [] then w
    else
      var w1 := w.(running := true);
      var left := FilterSent(users, sent);
      if left == [] then w1
      else SendChunks(w1, opt, clk, left, messages, sessions, api, proxies, connect, turns)
  }

  /**
   * The rest of `start_sending` once `left`, the users not yet contacted, is
   * known: cut it into chunks, connect one client per chunk, run the workers
   * and clear `is_running`.
   */
  function SendChunks(w: World, opt: Options, clk: Clock, left: seq<string>, messages: seq<string>,
                      sessions: seq<string>, api: seq<(int, string)>, proxies: seq<Loader.Proxy>,
                      connect: (nat, Credentials) -> bool, turns: nat -> nat -> Turn): (r: World)
    requires Good(w) && Dispatchable(opt, api, proxies) && sessions != []
    ensures Good(r)
  {
    var m := MaxAccounts(|sessions|, opt.maxConcurrent);
    var chunks := Chunks(left, ChunkSize(|left|, m));
    var n := TaskCount(m, |chunks|);
    var jobs := TasksUpTo(opt, sessions, api, proxies, chunks, connect, n);
    var w2 := ActivateAll(w, jobs, clk.now);
    var w3 := w2.(ledger := w2.ledger.(activeAccounts := |jobs|, totalAccounts := |sessions|));
    RunFrom(w3, opt, clk, messages, jobs, turns, 0).(running := false)
  }
}
