/**
 * `TelegramSender`: the daily quota, the send of one message with its flood
 * wait retries, the per-account worker loop and `start_sending`, each proved
 * to change the sender and its statistics exactly as the functions of
 * `Sending` say.
 */
module Sender {
  import opened Wrappers
  import opened Quota
  import opened Stats
  import opened Template
  import opened Dispatch
  import opened Sending
  import Text
  import Loader

  class TelegramSender {
    const opt: Options
    const stats: Statistics
    var dailyCounts: DailyCounts
    var isRunning: bool
    var activeClients: map<string, string>
    /** The lines appended to the sent-users file. */
    var sentLog: seq<string>
    /** The messages the transport accepted. */
    var outbox: seq<Delivery>

    ghost predicate Valid()
      reads this, stats
    {
      stats.Valid()
    }

    function WorldOf(): World
      reads this, stats
    {
      World(dailyCounts, stats.State(), sentLog, outbox, isRunning, activeClients)
    }

    constructor (opt: Options, stats: Statistics)
      ensures this.opt == opt && this.stats == stats
      ensures dailyCounts == map[] && !isRunning && activeClients == map[]
      ensures sentLog == [] && outbox == []
    {
      this.opt := opt;
      this.stats := stats;
      dailyCounts := map[];
      isRunning := false;
      activeClients := map[];
      sentLog := [];
      outbox := [];
    }

    /**
     * The opening of both `can_send_today` and `increment_daily_count`: an
     * empty map for an unknown account, then a zero count for today.
     */
    method TouchEntry(account: string, today: Day)
      modifies this
      ensures dailyCounts == Touch(old(dailyCounts), account, today)
      ensures WorldOf() == old(WorldOf()).(daily := dailyCounts)
    {
      ghost var d0 := dailyCounts;
      if account !in dailyCounts {
        dailyCounts := dailyCounts[account := map[]];
      }
      if today !in dailyCounts[account] {
        var days: map<Day, nat> := dailyCounts[account][today := 0];
        dailyCounts := dailyCounts[account := days];
        assert account in d0 ==> dailyCounts == d0[account := d0[account][today := 0]];
        assert account !in d0 ==> dailyCounts == d0[account := map[today := 0]];
      }
    }

    /** `can_send_today`, which also creates the entry it reads. */
    method CanSendToday(account: string, today: Day) returns (ok: bool)
      modifies this
      ensures ok == CanSend(old(dailyCounts), account, today, opt.dailyLimit)
      ensures WorldOf() == old(WorldOf()).(daily := Touch(old(dailyCounts), account, today))
    {
      TouchEntry(account, today);
      TouchKeepsCounts(old(dailyCounts), account, today, account, today);
      ok := dailyCounts[account][today] < opt.dailyLimit;
    }

    /** `increment_daily_count`. */
    method IncrementDailyCount(account: string, today: Day)
      modifies this
      ensures WorldOf() == old(WorldOf()).(daily := Bump(old(dailyCounts), account, today))
    {
      TouchEntry(account, today);
      var days: map<Day, nat> := dailyCounts[account][today := dailyCounts[account][today] + 1];
      dailyCounts := dailyCounts[account := days];
    }

    /**
     * The attempts of `send_message_to_user` up to the one that ends it: the
     * quota check, the template, and a retry after each flood wait within
     * the threshold (the recursive call of the source is this loop).
     */
    method Attempt(message: string, account: string, at: Attempts, clk: Clock)
      returns (o: Outcome, text: string, markup: Option<ButtonData>)
      modifies this
      ensures o == Classify(old(dailyCounts), opt, clk, account, at)
      ensures o.Sent? ==> (text, markup) == Prepared(opt, message, at, o.attempt)
      ensures WorldOf() == old(WorldOf()).(daily := Touch(old(dailyCounts), account, clk.today))
    {
      ghost var w0 := WorldOf();
      var k := 0;
      while true
        invariant k <= |at.floods|
        invariant Resolve(at, opt.floodThreshold, 0) == Resolve(at, opt.floodThreshold, k)
        invariant k > 0 ==> CanSend(w0.daily, account, clk.today, opt.dailyLimit)
        invariant WorldOf() == if k == 0 then w0 else w0.(daily := Touch(w0.daily, account, clk.today))
        decreases |at.floods| - k
      {
        TouchKeepsCounts(w0.daily, account, clk.today, account, clk.today);
        TouchIdempotent(w0.daily, account, clk.today);
        var can := CanSendToday(account, clk.today);
        if !can {
          return OverQuota, "", None;
        }
        var prepared := ProcessSpintax(message, at.spin(k));
        text, markup := prepared.0, SendMarkup(prepared.1, opt.buttonText, opt.buttonUrl);
        if k < |at.floods| {
          if at.floods[k] > opt.floodThreshold {
            return FloodTooLong(k, at.floods[k]), text, markup;
          }
          k := k + 1;
        } else if at.final == Delivered {
          return Sent(k), text, markup;
        } else {
          return Refused(k, at.final), text, markup;
        }
      }
    }

    /** The statistics handlers of a call that did not deliver. */
    method RecordFailure(account: string, o: Outcome, clk: Clock)
      requires Valid() && !o.Sent?
      modifies stats
      ensures Valid()
      ensures WorldOf() == old(WorldOf()).(ledger := RecordOutcome(old(stats.State()), account, o, clk.now))
    {
      match o
      case OverQuota =>
      case FloodTooLong(_, _) =>
        stats.SetAccountStatus(account, FloodWait, clk.now);
      case Refused(_, r) =>
        if r == BannedInChannel {
          stats.SetAccountStatus(account, Banned, clk.now);
        } else {
          stats.AddFailed(account, clk.now);
        }
    }

    /** The bookkeeping after the transport accepted a message. */
    method Deliver(user: string, account: string, text: string, markup: Option<ButtonData>, clk: Clock)
      requires Valid()
      modifies this, stats
      ensures Valid()
      ensures WorldOf() == old(WorldOf()).(daily := Bump(old(dailyCounts), account, clk.today),
                                           ledger := Record(old(stats.State()), account, SentEvent, clk.now),
                                           sentLog := old(sentLog) + [user],
                                           outbox := old(outbox) + [Delivery(user, text, markup)])
    {
      IncrementDailyCount(account, clk.today);
      stats.AddSent(account, clk.now);
      sentLog := sentLog + [user];
      outbox := outbox + [Delivery(user, text, markup)];
    }

    /** `send_message_to_user`. */
    method SendMessageToUser(user: string, message: string, account: string, at: Attempts, clk: Clock)
      returns (ok: bool)
      requires Valid()
      modifies this, stats
      ensures Valid()
      ensures (WorldOf(), ok) == SendStep(old(WorldOf()), opt, clk, user, message, account, at)
    {
      var o, text, markup := Attempt(message, account, at, clk);
      if o.Sent? {
        Deliver(user, account, text, markup, clk);
        ok := true;
      } else {
        RecordFailure(account, o, clk);
        ok := false;
      }
    }

    /** `stop_sending`. */
    method StopSending()
      modifies this
      ensures WorldOf() == old(WorldOf()).(running := false)
    {
      isRunning := false;
    }

    /**
     * `worker`: the loop over the account's users and, however it ends,
     * the removal of the account from `active_clients`.
     */
    method Worker(account: string, users: seq<string>, messages: seq<string>, turns: nat -> Turn, clk: Clock)
      returns (exit: Exit)
      requires Valid()
      modifies this, stats
      ensures Valid()
      ensures (WorldOf(), exit) == WorkerRun(old(WorldOf()), opt, clk, account, users, messages, turns)
    {
      ghost var w0 := WorldOf();
      exit := Finished;
      var i := 0;
      while i < |users|
        invariant Valid()
        invariant i <= |users|
        invariant WorkerFrom(w0, opt, clk, account, users, messages, turns, 0)
               == WorkerFrom(WorldOf(), opt, clk, account, users, messages, turns, i)
        invariant exit == Finished
      {
        ghost var w := WorldOf();
        var leave, e := Iteration(account, users, messages, turns, clk, i);
        if leave {
          LeaveEnds(w, opt, clk, account, users, messages, turns, i);
          exit := e;
          break;
        }
        ContinueOn(w, opt, clk, account, users, messages, turns, i);
        i := i + 1;
      }
      assert WorkerFrom(w0, opt, clk, account, users, messages, turns, 0) == (WorldOf(), exit);
      activeClients := activeClients - {account};
    }

    /** One pass of the `worker` loop, for user `i`: whether the loop ends there, and why. */
    method Iteration(account: string, users: seq<string>, messages: seq<string>, turns: nat -> Turn, clk: Clock, i: nat)
      returns (leave: bool, exit: Exit)
      requires Valid() && i < |users|
      modifies this, stats
      ensures Valid()
      ensures var s := WorkerStep(old(WorldOf()), opt, clk, account, users, messages, turns, i);
              && WorldOf() == s.w && leave == s.Leave? && (leave ==> exit == s.exit)
    {
      leave, exit := true, Finished;
      if turns(i).stop {
        StopSending();
      }
      if !isRunning {
        exit := Stopped(i);
        return;
      }
      var can := CanSendToday(account, clk.today);
      if !can {
        exit := QuotaReached(i);
        return;
      }
      if |messages| == 0 {
        exit := NoMessages(i);
        return;
      }
      var message := messages[turns(i).choice % |messages|];
      var ok := SendMessageToUser(users[i], message, account, turns(i).attempts, clk);
      if !ok && Down(StatusOf(stats.accountStats, account)) {
        exit := AccountDown(i);
        return;
      }
      leave := false;
    }

    /** The task loop of `start_sending` over the first `n` chunks. */
    method Launch(sessions: seq<string>, api: seq<(int, string)>, proxies: seq<Loader.Proxy>,
                  chunks: seq<seq<string>>, connect: (nat, Credentials) -> bool, n: nat, clk: Clock)
      returns (jobs: seq<Job>)
      requires Valid() && Dispatchable(opt, api, proxies)
      requires n <= |sessions| && n <= |chunks|
      modifies this, stats
      ensures Valid()
      ensures jobs == TasksUpTo(opt, sessions, api, proxies, chunks, connect, n)
      ensures WorldOf() == ActivateAll(old(WorldOf()), jobs, clk.now)
    {
      ghost var w0 := WorldOf();
      jobs := [];
      var i := 0;
      while i < n
        invariant Valid()
        invariant 0 <= i <= n
        invariant jobs == TasksUpTo(opt, sessions, api, proxies, chunks, connect, i)
        invariant WorldOf() == ActivateAll(w0, jobs, clk.now)
      {
        TasksUpToNext(opt, sessions, api, proxies, chunks, connect, i);
        if connect(i, TaskFor(opt, sessions, api, proxies, i)) {
          var job := Job(sessions[i], Text.Basename(sessions[i]), chunks[i]);
          ActivateAllSnoc(w0, jobs, job, clk.now);
          Register(job, clk);
          assert WorldOf() == ActivateAll(w0, jobs + [job], clk.now);
          jobs := jobs + [job];
        } else {
          assert jobs + [] == jobs;
        }
        i := i + 1;
      }
    }

    /** A connected client: the account becomes active in both places. */
    method Register(job: Job, clk: Clock)
      requires Valid()
      modifies this, stats
      ensures Valid()
      ensures WorldOf() == Activate(old(WorldOf()), job, clk.now)
    {
      activeClients := activeClients[job.account := job.session];
      stats.SetAccountStatus(job.account, Active, clk.now);
    }

    /** The workers of the connected accounts, in task order. */
    method RunWorkers(messages: seq<string>, jobs: seq<Job>, turns: nat -> nat -> Turn, clk: Clock)
      requires Valid()
      modifies this, stats
      ensures Valid()
      ensures WorldOf() == RunFrom(old(WorldOf()), opt, clk, messages, jobs, turns, 0)
    {
      ghost var w0 := WorldOf();
      var j := 0;
      while j < |jobs|
        invariant Valid()
        invariant j <= |jobs|
        invariant RunFrom(w0, opt, clk, messages, jobs, turns, 0) == RunFrom(WorldOf(), opt, clk, messages, jobs, turns, j)
      {
        var _ := Worker(jobs[j].account, jobs[j].users, messages, turns(j), clk);
        j := j + 1;
      }
    }

    /**
     * `start_sending`, with `sentFile` the sent-users file, `connect` the
     * outcome of `create_client` for each task and `turns(j)` the
     * environment of the `j`-th worker. The workers run one after another.
     */
    method StartSending(users: seq<string>, messages: seq<string>, sessions: seq<string>,
                        api: seq<(int, string)>, proxies: seq<Loader.Proxy>, sentFile: Option<seq<string>>,
                        connect: (nat, Credentials) -> bool, turns: nat -> nat -> Turn, clk: Clock)
      requires Valid()
      requires Startable(opt, users, messages, sessions, api, proxies,
                         if sentFile.None? then {} else Loader.ParseSentUsers(sentFile.value))
      modifies this, stats
      ensures Valid()
      ensures WorldOf() == StartRun(old(WorldOf()), opt, clk, users, messages, sessions, api, proxies,
                                    if sentFile.None? then {} else Loader.ParseSentUsers(sentFile.value), connect, turns)
    {
      if |users| == 0 || |messages| == 0 || |sessions| == 0 {
        return;
      }
      ghost var w0 := WorldOf();
      isRunning := true;
      var sent := Loader.LoadSentUsers(sentFile);
      var left := FilterSent(users, sent);
      if |left| == 0 {
        return;
      }
      SendChunks(left, messages, sessions, api, proxies, connect, turns, clk);
    }

    /** The rest of `start_sending`, from the users left to contact on. */
    method SendChunks(left: seq<string>, messages: seq<string>, sessions: seq<string>,
                      api: seq<(int, string)>, proxies: seq<Loader.Proxy>,
                      connect: (nat, Credentials) -> bool, turns: nat -> nat -> Turn, clk: Clock)
      requires Valid() && Dispatchable(opt, api, proxies) && |sessions| > 0
      modifies this, stats
      ensures Valid()
      ensures WorldOf() == Sending.SendChunks(old(WorldOf()), opt, clk, left, messages, sessions, api, proxies, connect, turns)
    {
      var m := MaxAccounts(|sessions|, opt.maxConcurrent);
      var chunks := Chunks(left, ChunkSize(|left|, m));
      var n := TaskCount(m, |chunks|);
      var jobs := Launch(sessions, api, proxies, chunks, connect, n, clk);
      ghost var w2 := WorldOf();
      stats.UpdateActiveAccounts(|jobs|, |sessions|);
      ghost var w3 := WorldOf();
      assert w3 == w2.(ledger := w2.ledger.(activeAccounts := |jobs|, totalAccounts := |sessions|));
      RunWorkers(messages, jobs, turns, clk);
      isRunning := false;
    }
  }
}
