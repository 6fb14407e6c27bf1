/**
 * What the sender guarantees, stated over the functions of `Sending`: how one
 * call of `send_message_to_user` ends for each answer of the transport, what
 * a worker does with its users and its account, and what `start_sending`
 * leaves behind.
 */
module SenderFacts {
  import opened Wrappers
  import opened Text
  import opened Quota
  import opened Stats
  import opened Template
  import opened Dispatch
  import opened Sending
  import Loader

  // ------------------------------------------------------------ sequences

  /** `d` is `u` with some elements left out, the rest in their order. */
  ghost predicate Subseq(d: seq<string>, u: seq<string>)
    decreases |u|
  {
    if d == [] then true
    else if u == [] then false
    else (d[0] == u[0] && Subseq(d[1..], u[1..])) || Subseq(d, u[1..])
  }

  lemma {:induction false} SubseqMembers(d: seq<string>, u: seq<string>, x: string)
    requires Subseq(d, u) && x in d
    ensures x in u
    decreases |u|
  {
    if d[0] == u[0] && Subseq(d[1..], u[1..]) {
      if x != d[0] {
        assert x in d[1..];
        SubseqMembers(d[1..], u[1..], x);
      }
    } else {
      SubseqMembers(d, u[1..], x);
    }
  }

  // ------------------------------------------------------------- one send

  /** Whether an outcome records a failure: a refusal other than a ban. */
  predicate CountsFailure(o: Outcome) {
    o.Refused? && o.reply != BannedInChannel
  }

  /**
   * The outcomes of `send_message_to_user`: a delivery is the only `true`,
   * logs the user, and raises the sent counters by one; a refusal other than
   * a ban is exactly one failure; a flood wait over the threshold and a ban
   * set a status and count no failure; an exhausted quota changes no
   * statistics at all.
   */
  lemma SendOutcome(w: World, opt: Options, clk: Clock, user: string, message: string, account: string, at: Attempts)
    requires Good(w) && account != ""
    ensures var r := SendStep(w, opt, clk, user, message, account, at);
            var o := Classify(w.daily, opt, clk, account, at);
            && (r.1 <==> o.Sent?)
            && (o.OverQuota? <==> !CanSend(w.daily, account, clk.today, opt.dailyLimit))
            && r.0.running == w.running && r.0.active == w.active
            && r.0.sentLog == (if r.1 then w.sentLog + [user] else w.sentLog)
            && |r.0.outbox| == |w.outbox| + (if r.1 then 1 else 0)
            && r.0.ledger.sentCount == w.ledger.sentCount + (if r.1 then 1 else 0)
            && TotalSent(r.0.ledger.accounts) == TotalSent(w.ledger.accounts) + (if r.1 then 1 else 0)
            && r.0.ledger.failedCount == w.ledger.failedCount + (if CountsFailure(o) then 1 else 0)
            && TotalFailed(r.0.ledger.accounts) == TotalFailed(w.ledger.accounts) + (if CountsFailure(o) then 1 else 0)
            && (o.OverQuota? ==> r.0.ledger == w.ledger)
            && (o.FloodTooLong? ==> StatusOf(r.0.ledger.accounts, account) == FloodWait)
            && (o.Refused? && o.reply == BannedInChannel ==> StatusOf(r.0.ledger.accounts, account) == Banned)
            && (o.Sent? || o.OverQuota? || CountsFailure(o) ==>
                  StatusOf(r.0.ledger.accounts, account) == StatusOf(w.ledger.accounts, account))
  {
    var o := Classify(w.daily, opt, clk, account, at);
    match EventOf(o)
    case None =>
    case Some(e) =>
      RecordCounters(w.ledger, account, e, clk.now);
      ApplyStatus(w.ledger.accounts, account, e);
  }

  /**
   * The daily counts after a send: only a delivery raises a count, and only
   * today's count of the sending account, by one.
   */
  lemma SendDaily(w: World, opt: Options, clk: Clock, user: string, message: string, account: string, at: Attempts, b: string, e: Day)
    requires Good(w)
    ensures var r := SendStep(w, opt, clk, user, message, account, at);
            && CountOn(r.0.daily, b, e) == CountOn(w.daily, b, e) + (if r.1 && b == account && e == clk.today then 1 else 0)
            && (r.1 ==> CanSend(w.daily, account, clk.today, opt.dailyLimit))
  {
    var touched := Touch(w.daily, account, clk.today);
    TouchKeepsCounts(w.daily, account, clk.today, b, e);
    BumpCounts(touched, account, clk.today, b, e);
  }

  /** A send touches no other account: neither its record nor its daily counts. */
  lemma SendElsewhere(w: World, opt: Options, clk: Clock, user: string, message: string, account: string, at: Attempts, b: string)
    requires Good(w) && b != account
    ensures var r := SendStep(w, opt, clk, user, message, account, at);
            && (b in r.0.ledger.accounts.at <==> b in w.ledger.accounts.at)
            && (b in w.ledger.accounts.at ==> r.0.ledger.accounts.at[b] == w.ledger.accounts.at[b])
            && (b in r.0.daily <==> b in w.daily)
            && (b in w.daily ==> r.0.daily[b] == w.daily[b])
  {
    var o := Classify(w.daily, opt, clk, account, at);
    var r := SendStep(w, opt, clk, user, message, account, at);
    assert r.0.ledger == RecordOutcome(w.ledger, account, o, clk.now);
    match EventOf(o)
    case None =>
    case Some(ev) => ApplyElsewhere(w.ledger.accounts, account, ev, b);
    var touched := Touch(w.daily, account, clk.today);
    assert r.0.daily == if o.Sent? then Bump(touched, account, clk.today) else touched;
    if b in w.daily {
      BumpCounts(touched, account, clk.today, b, clk.today);
    }
  }

  /**
   * A flood wait is slept through and the same user is tried again: when
   * every wait is within the threshold and the transport then accepts, the
   * message goes to that user, with the template drawn on the attempt after
   * the last wait.
   */
  lemma FloodRetriesSameUser(w: World, opt: Options, clk: Clock, user: string, message: string, account: string, at: Attempts)
    requires Good(w)
    requires CanSend(w.daily, account, clk.today, opt.dailyLimit)
    requires forall k :: 0 <= k < |at.floods| ==> at.floods[k] <= opt.floodThreshold
    requires at.final == Delivered
    ensures var r := SendStep(w, opt, clk, user, message, account, at);
            var p := Prepared(opt, message, at, |at.floods|);
            r.1 && r.0.sentLog == w.sentLog + [user] && r.0.outbox == w.outbox + [Delivery(user, p.0, p.1)]
  {
    RetryChain(at, opt.floodThreshold, 0);
  }

  lemma {:induction false} RetryChain(at: Attempts, threshold: int, k: nat)
    requires k <= |at.floods|
    requires forall j :: k <= j < |at.floods| ==> at.floods[j] <= threshold
    ensures Resolve(at, threshold, k) == Resolve(at, threshold, |at.floods|)
    decreases |at.floods| - k
  {
    if k < |at.floods| {
      RetryChain(at, threshold, k + 1);
    }
  }

  /** A call ends in a flood-wait abandonment exactly when some wait exceeds the threshold. */
  lemma FloodTooLongIff(at: Attempts, threshold: int)
    ensures Resolve(at, threshold, 0).FloodTooLong? <==> exists k :: 0 <= k < |at.floods| && at.floods[k] > threshold
  {
    var o := Resolve(at, threshold, 0);
    if o.FloodTooLong? {
      assert at.floods[o.attempt] > threshold;
    }
  }

  // --------------------------------------------------------------- worker

  /**
   * One iteration delivers to its user or to nobody; a delivery counts once as
   * sent and once in today's quota, happens only below the limit, and never
   * ends the loop.
   */
  lemma StepDelivers(w: World, opt: Options, clk: Clock, account: string, users: seq<string>,
                     messages: seq<string>, turns: nat -> Turn, i: nat) returns (sentNow: bool)
    requires Good(w) && i < |users| && account != ""
    ensures var s := WorkerStep(w, opt, clk, account, users, messages, turns, i);
            && s.w.sentLog == w.sentLog + (if sentNow then [users[i]] else [])
            && s.w.ledger.sentCount == w.ledger.sentCount + (if sentNow then 1 else 0)
            && CountOn(s.w.daily, account, clk.today) == CountOn(w.daily, account, clk.today) + (if sentNow then 1 else 0)
            && (sentNow ==> s.Continue? && CountOn(s.w.daily, account, clk.today) <= opt.dailyLimit)
  {
    sentNow := false;
    var w1 := if turns(i).stop then w.(running := false) else w;
    if w1.running {
      var w2 := w1.(daily := Touch(w1.daily, account, clk.today));
      TouchKeepsCounts(w1.daily, account, clk.today, account, clk.today);
      if CanSend(w1.daily, account, clk.today, opt.dailyLimit) && messages != [] {
        var message := messages[turns(i).choice % |messages|];
        var r := SendStep(w2, opt, clk, users[i], message, account, turns(i).attempts);
        SendOutcome(w2, opt, clk, users[i], message, account, turns(i).attempts);
        SendDaily(w2, opt, clk, users[i], message, account, turns(i).attempts, account, clk.today);
        sentNow := r.1;
      }
    }
  }

  /**
   * The users a worker delivers to, `d`, are its users from `i` up to where
   * it stopped, some left out, in their order: each is logged once, counted
   * once as sent and once in today's quota, and a worker that delivers at
   * least once never takes the day's count past the limit.
   */
  lemma {:induction false} WorkerDelivers(w: World, opt: Options, clk: Clock, account: string, users: seq<string>,
                                          messages: seq<string>, turns: nat -> Turn, i: nat) returns (d: seq<string>)
    requires Good(w) && i <= |users| && account != ""
    ensures var r := WorkerFrom(w, opt, clk, account, users, messages, turns, i);
            && i <= Reached(r.1, |users|) <= |users|
            && r.0.sentLog == w.sentLog + d
            && Subseq(d, users[i..Reached(r.1, |users|)])
            && r.0.ledger.sentCount == w.ledger.sentCount + |d|
            && CountOn(r.0.daily, account, clk.today) == CountOn(w.daily, account, clk.today) + |d|
            && (d != [] ==> CountOn(r.0.daily, account, clk.today) <= opt.dailyLimit)
    decreases |users| - i
  {
    if i == |users| {
      return [];
    }
    var sentNow := StepDelivers(w, opt, clk, account, users, messages, turns, i);
    var s := WorkerStep(w, opt, clk, account, users, messages, turns, i);
    if s.Leave? {
      LeaveEnds(w, opt, clk, account, users, messages, turns, i);
      d := [];
    } else {
      ContinueOn(w, opt, clk, account, users, messages, turns, i);
      var r := WorkerFrom(s.w, opt, clk, account, users, messages, turns, i + 1);
      var rest := WorkerDelivers(s.w, opt, clk, account, users, messages, turns, i + 1);
      d := JoinDeliveries(w, s.w, r.0, account, clk.today, opt.dailyLimit, users, i, Reached(r.1, |users|), sentNow, rest);
    }
  }

  /** One iteration's delivery (`sentNow`) followed by the deliveries of the rest of the run. */
  lemma JoinDeliveries(w: World, sw: World, rw: World, account: string, day: Day, limit: int,
                       users: seq<string>, i: nat, e: nat, sentNow: bool, rest: seq<string>) returns (d: seq<string>)
    requires i < |users| && i + 1 <= e <= |users|
    requires sw.sentLog == w.sentLog + (if sentNow then [users[i]] else [])
    requires sw.ledger.sentCount == w.ledger.sentCount + (if sentNow then 1 else 0)
    requires CountOn(sw.daily, account, day) == CountOn(w.daily, account, day) + (if sentNow then 1 else 0)
    requires sentNow ==> CountOn(sw.daily, account, day) <= limit
    requires rw.sentLog == sw.sentLog + rest && Subseq(rest, users[i + 1..e])
    requires rw.ledger.sentCount == sw.ledger.sentCount + |rest|
    requires CountOn(rw.daily, account, day) == CountOn(sw.daily, account, day) + |rest|
    requires rest != [] ==> CountOn(rw.daily, account, day) <= limit
    ensures rw.sentLog == w.sentLog + d && Subseq(d, users[i..e])
    ensures rw.ledger.sentCount == w.ledger.sentCount + |d|
    ensures CountOn(rw.daily, account, day) == CountOn(w.daily, account, day) + |d|
    ensures d != [] ==> CountOn(rw.daily, account, day) <= limit
  {
    var now := if sentNow then [users[i]] else [];
    assert users[i..e][1..] == users[i + 1..e];
    SubseqStep(rest, users[i..e], sentNow);
    AppendAssoc(w.sentLog, now, rest);
    d := now + rest;
  }

  /** Putting the head of `u` in front or not keeps a subsequence of its tail a subsequence of `u`. */
  lemma SubseqStep(rest: seq<string>, u: seq<string>, keep: bool)
    requires u != [] && Subseq(rest, u[1..])
    ensures Subseq((if keep then [u[0]] else []) + rest, u)
  {
    var d := (if keep then [u[0]] else []) + rest;
    if keep {
      assert d[0] == u[0] && d[1..] == rest;
    } else {
      assert d == rest;
    }
  }

  /** One iteration changes no other account's record or daily counts. */
  lemma StepElsewhere(w: World, opt: Options, clk: Clock, account: string, users: seq<string>,
                      messages: seq<string>, turns: nat -> Turn, i: nat, b: string)
    requires Good(w) && i < |users| && b != account
    ensures var s := WorkerStep(w, opt, clk, account, users, messages, turns, i);
            && (b in s.w.ledger.accounts.at <==> b in w.ledger.accounts.at)
            && (b in w.ledger.accounts.at ==> s.w.ledger.accounts.at[b] == w.ledger.accounts.at[b])
            && (b in s.w.daily <==> b in w.daily)
            && (b in w.daily ==> s.w.daily[b] == w.daily[b])
  {
    var w1 := if turns(i).stop then w.(running := false) else w;
    if w1.running {
      var w2 := w1.(daily := Touch(w1.daily, account, clk.today));
      if CanSend(w1.daily, account, clk.today, opt.dailyLimit) && messages != [] {
        var message := messages[turns(i).choice % |messages|];
        SendElsewhere(w2, opt, clk, users[i], message, account, turns(i).attempts, b);
      }
    }
  }

  /** A worker changes no other account's record or daily counts. */
  lemma {:induction false} WorkerElsewhere(w: World, opt: Options, clk: Clock, account: string, users: seq<string>,
                                           messages: seq<string>, turns: nat -> Turn, i: nat, b: string)
    requires Good(w) && i <= |users| && b != account
    ensures var r := WorkerFrom(w, opt, clk, account, users, messages, turns, i);
            && (b in r.0.ledger.accounts.at <==> b in w.ledger.accounts.at)
            && (b in w.ledger.accounts.at ==> r.0.ledger.accounts.at[b] == w.ledger.accounts.at[b])
            && (b in r.0.daily <==> b in w.daily)
            && (b in w.daily ==> r.0.daily[b] == w.daily[b])
    decreases |users| - i
  {
    if i < |users| {
      StepElsewhere(w, opt, clk, account, users, messages, turns, i, b);
      var s := WorkerStep(w, opt, clk, account, users, messages, turns, i);
      if s.Leave? {
        LeaveEnds(w, opt, clk, account, users, messages, turns, i);
      } else {
        ContinueOn(w, opt, clk, account, users, messages, turns, i);
        WorkerElsewhere(s.w, opt, clk, account, users, messages, turns, i + 1, b);
      }
    }
  }

  /** An iteration that does not end the worker for its account leaves the account's status alone. */
  lemma StepKeepsStatus(w: World, opt: Options, clk: Clock, account: string, users: seq<string>,
                        messages: seq<string>, turns: nat -> Turn, i: nat)
    requires Good(w) && i < |users| && account != ""
    ensures var s := WorkerStep(w, opt, clk, account, users, messages, turns, i);
            !(s.Leave? && s.exit.AccountDown?) ==> StatusOf(s.w.ledger.accounts, account) == StatusOf(w.ledger.accounts, account)
  {
    var w1 := if turns(i).stop then w.(running := false) else w;
    if w1.running {
      var w2 := w1.(daily := Touch(w1.daily, account, clk.today));
      if CanSend(w1.daily, account, clk.today, opt.dailyLimit) && messages != [] {
        var message := messages[turns(i).choice % |messages|];
        SendOutcome(w2, opt, clk, users[i], message, account, turns(i).attempts);
      }
    }
  }

  /**
   * A worker changes its account's status only on the way out after a ban or
   * a flood wait over the threshold; otherwise the status is as it found it.
   * In particular a worker never makes its account inactive.
   */
  lemma {:induction false} WorkerKeepsStatus(w: World, opt: Options, clk: Clock, account: string, users: seq<string>,
                                             messages: seq<string>, turns: nat -> Turn, i: nat)
    requires Good(w) && i <= |users| && account != ""
    ensures var r := WorkerFrom(w, opt, clk, account, users, messages, turns, i);
            && (!r.1.AccountDown? ==> StatusOf(r.0.ledger.accounts, account) == StatusOf(w.ledger.accounts, account))
            && (StatusOf(r.0.ledger.accounts, account) == Inactive ==> StatusOf(w.ledger.accounts, account) == Inactive)
    decreases |users| - i
  {
    if i < |users| {
      StepKeepsStatus(w, opt, clk, account, users, messages, turns, i);
      var s := WorkerStep(w, opt, clk, account, users, messages, turns, i);
      if s.Leave? {
        LeaveEnds(w, opt, clk, account, users, messages, turns, i);
      } else {
        ContinueOn(w, opt, clk, account, users, messages, turns, i);
        WorkerKeepsStatus(s.w, opt, clk, account, users, messages, turns, i + 1);
      }
    }
  }

  /**
   * A flood wait over the threshold on a user ends the worker right there:
   * status `flood_wait`, no failure counted, nobody after that user tried.
   */
  lemma WorkerStopsOnLongFlood(w: World, opt: Options, clk: Clock, account: string, users: seq<string>,
                               messages: seq<string>, turns: nat -> Turn, i: nat)
    requires Good(w) && i < |users| && account != "" && messages != []
    requires w.running && !turns(i).stop && CanSend(w.daily, account, clk.today, opt.dailyLimit)
    requires |turns(i).attempts.floods| > 0 && turns(i).attempts.floods[0] > opt.floodThreshold
    ensures var r := WorkerFrom(w, opt, clk, account, users, messages, turns, i);
            && r.1 == AccountDown(i)
            && StatusOf(r.0.ledger.accounts, account) == FloodWait
            && r.0.sentLog == w.sentLog
            && r.0.ledger.failedCount == w.ledger.failedCount
  {
    var w2 := w.(daily := Touch(w.daily, account, clk.today));
    TouchKeepsCounts(w.daily, account, clk.today, account, clk.today);
    var message := messages[turns(i).choice % |messages|];
    SendOutcome(w2, opt, clk, users[i], message, account, turns(i).attempts);
  }

  /**
   * A ban ends the worker right there: status `banned`, and, as the code is
   * written, no failure counted for the message that was refused.
   */
  lemma WorkerStopsOnBan(w: World, opt: Options, clk: Clock, account: string, users: seq<string>,
                         messages: seq<string>, turns: nat -> Turn, i: nat)
    requires Good(w) && i < |users| && account != "" && messages != []
    requires w.running && !turns(i).stop && CanSend(w.daily, account, clk.today, opt.dailyLimit)
    requires forall k :: 0 <= k < |turns(i).attempts.floods| ==> turns(i).attempts.floods[k] <= opt.floodThreshold
    requires turns(i).attempts.final == BannedInChannel
    ensures var r := WorkerFrom(w, opt, clk, account, users, messages, turns, i);
            && r.1 == AccountDown(i)
            && StatusOf(r.0.ledger.accounts, account) == Banned
            && r.0.sentLog == w.sentLog
            && r.0.ledger.failedCount == w.ledger.failedCount
  {
    var w2 := w.(daily := Touch(w.daily, account, clk.today));
    TouchKeepsCounts(w.daily, account, clk.today, account, clk.today);
    var message := messages[turns(i).choice % |messages|];
    RetryChain(turns(i).attempts, opt.floodThreshold, 0);
    SendOutcome(w2, opt, clk, users[i], message, account, turns(i).attempts);
  }

  // ------------------------------------------------------- start_sending

  /**
   * The task loop's jobs are the tasks whose client connected, in task order
   * (`idx` lists their task numbers): job `j` is session `idx[j]`, the account
   * that session file names, and chunk `idx[j]`.
   */
  lemma {:induction false} LaunchJobs(opt: Options, sessions: seq<string>, api: seq<(int, string)>,
                                      proxies: seq<Loader.Proxy>, chunks: seq<seq<string>>, connect: (nat, Credentials) -> bool,
                                      i: nat) returns (idx: seq<nat>)
    requires Dispatchable(opt, api, proxies)
    requires i <= |sessions| && i <= |chunks|
    ensures JobsOf(opt, sessions, api, proxies, chunks, connect, i, TasksUpTo(opt, sessions, api, proxies, chunks, connect, i), idx)
  {
    if i == 0 {
      idx := [];
    } else {
      var prev := LaunchJobs(opt, sessions, api, proxies, chunks, connect, i - 1);
      var jobs := TasksUpTo(opt, sessions, api, proxies, chunks, connect, i - 1);
      var now := TasksUpTo(opt, sessions, api, proxies, chunks, connect, i);
      if connect(i - 1, TaskFor(opt, sessions, api, proxies, i - 1)) {
        idx := prev + [i - 1];
        assert now == jobs + [Job(sessions[i - 1], Basename(sessions[i - 1]), chunks[i - 1])];
        JobsOfConnected(opt, sessions, api, proxies, chunks, connect, i, jobs, prev);
      } else {
        idx := prev;
        assert now == jobs;
        JobsOfRefused(opt, sessions, api, proxies, chunks, connect, i, jobs, prev);
      }
      assert JobsOf(opt, sessions, api, proxies, chunks, connect, i, now, idx);
    }
  }

  /** `idx` lists, in increasing order, the tasks below `i` whose client connected, and `jobs` are their jobs. */
  ghost predicate JobsOf(opt: Options, sessions: seq<string>, api: seq<(int, string)>, proxies: seq<Loader.Proxy>,
                         chunks: seq<seq<string>>, connect: (nat, Credentials) -> bool, i: nat, jobs: seq<Job>, idx: seq<nat>)
    requires Dispatchable(opt, api, proxies)
    requires i <= |sessions| && i <= |chunks|
  {
    && |idx| == |jobs|
    && (forall j :: 0 <= j < |idx| ==> idx[j] < i && connect(idx[j], TaskFor(opt, sessions, api, proxies, idx[j])))
    && (forall j :: 0 <= j < |idx| ==> jobs[j] == Job(sessions[idx[j]], Basename(sessions[idx[j]]), chunks[idx[j]]))
    && (forall j, l :: 0 <= j < l < |idx| ==> idx[j] < idx[l])
    && (forall k :: 0 <= k < i && k !in idx ==> !connect(k, TaskFor(opt, sessions, api, proxies, k)))
  }

  /** A task whose client connects adds its job at the end. */
  lemma JobsOfConnected(opt: Options, sessions: seq<string>, api: seq<(int, string)>, proxies: seq<Loader.Proxy>,
                        chunks: seq<seq<string>>, connect: (nat, Credentials) -> bool, i: nat, jobs: seq<Job>, idx: seq<nat>)
    requires Dispatchable(opt, api, proxies)
    requires 0 < i <= |sessions| && i <= |chunks|
    requires JobsOf(opt, sessions, api, proxies, chunks, connect, i - 1, jobs, idx)
    requires connect(i - 1, TaskFor(opt, sessions, api, proxies, i - 1))
    ensures JobsOf(opt, sessions, api, proxies, chunks, connect, i,
                   jobs + [Job(sessions[i - 1], Basename(sessions[i - 1]), chunks[i - 1])], idx + [i - 1])
  {
    var idx' := idx + [i - 1];
    assert forall j :: 0 <= j < |idx| ==> idx'[j] == idx[j];
  }

  /** A task whose client does not connect adds nothing. */
  lemma JobsOfRefused(opt: Options, sessions: seq<string>, api: seq<(int, string)>, proxies: seq<Loader.Proxy>,
                      chunks: seq<seq<string>>, connect: (nat, Credentials) -> bool, i: nat, jobs: seq<Job>, idx: seq<nat>)
    requires Dispatchable(opt, api, proxies)
    requires 0 < i <= |sessions| && i <= |chunks|
    requires JobsOf(opt, sessions, api, proxies, chunks, connect, i - 1, jobs, idx)
    requires !connect(i - 1, TaskFor(opt, sessions, api, proxies, i - 1))
    ensures JobsOf(opt, sessions, api, proxies, chunks, connect, i, jobs, idx)
  {
  }

  /** When every client connects there is one job per task, in task order. */
  lemma AllConnected(opt: Options, sessions: seq<string>, api: seq<(int, string)>,
                     proxies: seq<Loader.Proxy>, chunks: seq<seq<string>>, connect: (nat, Credentials) -> bool, i: nat)
    requires Dispatchable(opt, api, proxies)
    requires i <= |sessions| && i <= |chunks|
    requires forall k :: 0 <= k < i ==> connect(k, TaskFor(opt, sessions, api, proxies, k))
    ensures var jobs := TasksUpTo(opt, sessions, api, proxies, chunks, connect, i);
            |jobs| == i && forall k :: 0 <= k < i ==> jobs[k].users == chunks[k]
  {
    var idx := LaunchJobs(opt, sessions, api, proxies, chunks, connect, i);
    IncreasingIsIdentity(idx, i);
  }

  /** Strictly increasing indices below `n` that leave none out are `0, 1, ..., n - 1`. */
  lemma {:induction false} IncreasingIsIdentity(idx: seq<nat>, n: nat)
    requires forall j :: 0 <= j < |idx| ==> idx[j] < n
    requires forall j, l :: 0 <= j < l < |idx| ==> idx[j] < idx[l]
    requires forall k :: 0 <= k < n ==> k in idx
    ensures |idx| == n && forall k :: 0 <= k < n ==> idx[k] == k
    decreases n
  {
    if idx == [] {
      assert n == 0 || 0 in idx;
    } else {
      assert idx[0] < n;
      assert n - 1 in idx;
      var p :| 0 <= p < |idx| && idx[p] == n - 1;
      var last := |idx| - 1;
      assert idx[last] == n - 1;
      assert p == last;
      var init := idx[..last];
      forall k | 0 <= k < n - 1 ensures k in init {
        assert k in idx;
        var q :| 0 <= q < |idx| && idx[q] == k;
        assert q != last;
        assert init[q] == k;
      }
      IncreasingIsIdentity(init, n - 1);
    }
  }

  /** `active_clients` after registering `jobs` one after another. */
  function Registered(active: map<string, string>, jobs: seq<Job>): map<string, string> {
    if jobs == [] then active
    else Registered(active, jobs[..|jobs| - 1])[jobs[|jobs| - 1].account := jobs[|jobs| - 1].session]
  }

  /** The accounts of `jobs`. */
  function AccountsOf(jobs: seq<Job>): set<string> {
    set j | 0 <= j < |jobs| :: jobs[j].account
  }

  /** Registering the jobs sends nothing and adds exactly the jobs' accounts to `active_clients`. */
  lemma {:induction false} ActivateAllState(w: World, jobs: seq<Job>, now: string)
    requires Good(w)
    ensures var r := ActivateAll(w, jobs, now);
            && r.active == Registered(w.active, jobs)
            && r.sentLog == w.sentLog && r.daily == w.daily && r.running == w.running
  {
    if jobs != [] {
      ActivateAllState(w, jobs[..|jobs| - 1], now);
    }
  }

  /**
   * After registering, every job's account is in `active_clients`, and every
   * other account is there exactly when it was before, with the same session.
   */
  lemma {:induction false} RegisteredKeeps(active: map<string, string>, jobs: seq<Job>, a: string)
    ensures a in AccountsOf(jobs) ==> a in Registered(active, jobs)
    ensures a !in AccountsOf(jobs) ==> (a in Registered(active, jobs) <==> a in active)
    ensures a !in AccountsOf(jobs) && a in active ==> Registered(active, jobs)[a] == active[a]
  {
    if jobs != [] {
      var init := jobs[..|jobs| - 1];
      RegisteredKeeps(active, init, a);
      assert AccountsOf(jobs) == AccountsOf(init) + {jobs[|jobs| - 1].account} by {
        assert forall j :: 0 <= j < |init| ==> init[j] == jobs[j];
      }
    }
  }

  /**
   * The workers run in job order: the users they deliver to all come from
   * the jobs' chunks, and afterwards no job's account is left in
   * `active_clients`.
   */
  lemma {:induction false} RunDelivers(w: World, opt: Options, clk: Clock, messages: seq<string>, jobs: seq<Job>,
                                       turns: nat -> nat -> Turn, j: nat, pool: set<string>) returns (d: seq<string>)
    requires Good(w) && j <= |jobs|
    requires forall k :: 0 <= k < |jobs| ==> jobs[k].account != ""
    requires forall k, x :: 0 <= k < |jobs| && x in jobs[k].users ==> x in pool
    ensures var r := RunFrom(w, opt, clk, messages, jobs, turns, j);
            && r.sentLog == w.sentLog + d
            && (forall x :: x in d ==> x in pool)
            && r.active == w.active - AccountsOf(jobs[j..])
    decreases |jobs| - j
  {
    if j == |jobs| {
      d := [];
      assert jobs[j..] == [];
    } else {
      var job := jobs[j];
      var wr := WorkerRun(w, opt, clk, job.account, job.users, messages, turns(j));
      RunStep(w, opt, clk, messages, jobs, turns, j);
      var mine := WorkerDelivers(w, opt, clk, job.account, job.users, messages, turns(j), 0);
      var e := Reached(WorkerFrom(w, opt, clk, job.account, job.users, messages, turns(j), 0).1, |job.users|);
      assert wr.0.sentLog == w.sentLog + mine;
      var rest := RunDelivers(wr.0, opt, clk, messages, jobs, turns, j + 1, pool);
      AppendAssoc(w.sentLog, mine, rest);
      d := mine + rest;
      assert forall x :: x in job.users ==> x in pool;
      SubseqInPool(mine, job.users, e, pool);
      AccountsOfCons(jobs[j..]);
      assert jobs[j..][1..] == jobs[j + 1..];
    }
  }

  /** Concatenation regroups. */
  lemma AppendAssoc(a: seq<string>, b: seq<string>, c: seq<string>)
    ensures a + b + c == a + (b + c)
  {
  }

  /** The workers run one after another: the run from job `j` is job `j`'s worker, then the run from `j + 1`. */
  lemma RunStep(w: World, opt: Options, clk: Clock, messages: seq<string>, jobs: seq<Job>,
                turns: nat -> nat -> Turn, j: nat)
    requires Good(w) && j < |jobs|
    ensures var wr := WorkerRun(w, opt, clk, jobs[j].account, jobs[j].users, messages, turns(j));
            RunFrom(w, opt, clk, messages, jobs, turns, j) == RunFrom(wr.0, opt, clk, messages, jobs, turns, j + 1)
  {
  }

  /** Users picked from a prefix of a list drawn from `pool` are in `pool`. */
  lemma SubseqInPool(d: seq<string>, users: seq<string>, e: nat, pool: set<string>)
    requires e <= |users| && Subseq(d, users[0..e])
    requires forall x :: x in users ==> x in pool
    ensures forall x :: x in d ==> x in pool
  {
    forall x | x in d ensures x in pool {
      SubseqMembers(d, users[0..e], x);
    }
  }

  /** The accounts of a non-empty job list are its head's and those of its tail. */
  lemma AccountsOfCons(jobs: seq<Job>)
    requires jobs != []
    ensures AccountsOf(jobs) == {jobs[0].account} + AccountsOf(jobs[1..])
  {
    forall a | a in AccountsOf(jobs) ensures a in {jobs[0].account} + AccountsOf(jobs[1..]) {
      var j :| 0 <= j < |jobs| && jobs[j].account == a;
      if j > 0 {
        assert jobs[1..][j - 1].account == a;
      }
    }
    forall a | a in AccountsOf(jobs[1..]) ensures a in AccountsOf(jobs) {
      var j :| 0 <= j < |jobs[1..]| && jobs[1..][j].account == a;
      assert jobs[j + 1].account == a;
    }
  }

  /** Every user of a chunk is one of the users that were cut. */
  lemma ChunkMembers(users: seq<string>, size: nat, k: nat, x: string)
    requires size > 0 && k < |Chunks(users, size)| && x in Chunks(users, size)[k]
    ensures x in users
  {
    var i := k * size;
    ChunkStart(|users|, size, k);
    var c := users[i..Min(i + size, |users|)];
    var p :| 0 <= p < |c| && c[p] == x;
    assert users[i + p] == x;
  }

  /**
   * `start_sending` with missing users, messages or sessions changes nothing;
   * when every user was already contacted only `is_running` is set, and it is
   * left set.
   */
  lemma StartEarly(w: World, opt: Options, clk: Clock, users: seq<string>, messages: seq<string>,
                   sessions: seq<string>, api: seq<(int, string)>, proxies: seq<Loader.Proxy>, sent: set<string>,
                   connect: (nat, Credentials) -> bool, turns: nat -> nat -> Turn)
    requires Good(w) && Startable(opt, users, messages, sessions, api, proxies, sent)
    ensures var r := StartRun(w, opt, clk, users, messages, sessions, api, proxies, sent, connect, turns);
            && (users == [] || messages == [] || sessions == [] ==> r == w)
            && (users != [] && messages != [] && sessions != [] && FilterSent(users, sent) == [] ==> r == w.(running := true))
  {
  }

  /** The jobs `start_sending` launches for the users `left`, and the users their chunks hold. */
  lemma StartJobs(opt: Options, left: seq<string>, sessions: seq<string>, api: seq<(int, string)>,
                  proxies: seq<Loader.Proxy>, connect: (nat, Credentials) -> bool)
    returns (jobs: seq<Job>)
    requires Dispatchable(opt, api, proxies) && sessions != []
    requires forall k :: 0 <= k < |sessions| ==> Basename(sessions[k]) != ""
    ensures var m := MaxAccounts(|sessions|, opt.maxConcurrent);
            var chunks := Chunks(left, ChunkSize(|left|, m));
            && jobs == TasksUpTo(opt, sessions, api, proxies, chunks, connect, TaskCount(m, |chunks|))
            && |jobs| <= m
            && (forall k :: 0 <= k < |jobs| ==> jobs[k].account != "")
            && (forall k, x :: 0 <= k < |jobs| && x in jobs[k].users ==> x in left)
  {
    var m := MaxAccounts(|sessions|, opt.maxConcurrent);
    var size := ChunkSize(|left|, m);
    var chunks := Chunks(left, size);
    var n := TaskCount(m, |chunks|);
    jobs := TasksUpTo(opt, sessions, api, proxies, chunks, connect, n);
    var idx := LaunchJobs(opt, sessions, api, proxies, chunks, connect, n);
    forall k, x | 0 <= k < |jobs| && x in jobs[k].users ensures x in left {
      ChunkMembers(left, size, idx[k], x);
    }
  }

  /**
   * The sending part of `start_sending`: the log only grows, and every user it
   * gains is one of the users `left` to contact.
   */
  lemma ChunksDeliver(w: World, opt: Options, clk: Clock, left: seq<string>, messages: seq<string>,
                      sessions: seq<string>, api: seq<(int, string)>, proxies: seq<Loader.Proxy>,
                      connect: (nat, Credentials) -> bool, turns: nat -> nat -> Turn)
    requires Good(w) && Dispatchable(opt, api, proxies) && sessions != []
    requires forall k :: 0 <= k < |sessions| ==> Basename(sessions[k]) != ""
    ensures var r := SendChunks(w, opt, clk, left, messages, sessions, api, proxies, connect, turns);
            && |w.sentLog| <= |r.sentLog| && r.sentLog[..|w.sentLog|] == w.sentLog
            && (forall x :: x in r.sentLog[|w.sentLog|..] ==> x in left)
  {
    var jobs := StartJobs(opt, left, sessions, api, proxies, connect);
    var w2 := ActivateAll(w, jobs, clk.now);
    ActivateAllState(w, jobs, clk.now);
    var pool := set x | x in left;
    var w3 := w2.(ledger := w2.ledger.(activeAccounts := |jobs|, totalAccounts := |sessions|));
    var d := RunDelivers(w3, opt, clk, messages, jobs, turns, 0, pool);
    var r := SendChunks(w, opt, clk, left, messages, sessions, api, proxies, connect, turns);
    assert r.sentLog == RunFrom(w3, opt, clk, messages, jobs, turns, 0).sentLog;
    assert r.sentLog[|w.sentLog|..] == d;
  }

  /**
   * How `start_sending` leaves things: `is_running` false, the live-worker
   * count at most `max_accounts`, the account count that of the sessions, and
   * every connected account out of `active_clients` again.
   */
  lemma ChunksSettle(w: World, opt: Options, clk: Clock, left: seq<string>, messages: seq<string>,
                     sessions: seq<string>, api: seq<(int, string)>, proxies: seq<Loader.Proxy>,
                     connect: (nat, Credentials) -> bool, turns: nat -> nat -> Turn)
    requires Good(w) && Dispatchable(opt, api, proxies) && sessions != []
    requires forall k :: 0 <= k < |sessions| ==> Basename(sessions[k]) != ""
    ensures var r := SendChunks(w, opt, clk, left, messages, sessions, api, proxies, connect, turns);
            && !r.running
            && r.ledger.activeAccounts <= MaxAccounts(|sessions|, opt.maxConcurrent)
            && r.ledger.totalAccounts == |sessions|
            && forall a :: a in r.active ==> a in w.active && r.active[a] == w.active[a]
  {
    var jobs := StartJobs(opt, left, sessions, api, proxies, connect);
    var w2 := ActivateAll(w, jobs, clk.now);
    ActivateAllState(w, jobs, clk.now);
    var pool := set x | x in left;
    var w3 := w2.(ledger := w2.ledger.(activeAccounts := |jobs|, totalAccounts := |sessions|));
    var _ := RunDelivers(w3, opt, clk, messages, jobs, turns, 0, pool);
    var r := SendChunks(w, opt, clk, left, messages, sessions, api, proxies, connect, turns);
    assert r == RunFrom(w3, opt, clk, messages, jobs, turns, 0).(running := false);
    assert jobs[0..] == jobs;
    forall a | a in r.active ensures a in w.active && r.active[a] == w.active[a] {
      RegisteredKeeps(w.active, jobs, a);
    }
  }

  /**
   * `start_sending` with users left to contact: the users sent to are all
   * users of the list that were not already contacted, the live-worker count
   * is at most `max_accounts`, the run ends with `is_running` false, and every
   * connected account has left `active_clients` again.
   */
  lemma StartFacts(w: World, opt: Options, clk: Clock, users: seq<string>, messages: seq<string>,
                   sessions: seq<string>, api: seq<(int, string)>, proxies: seq<Loader.Proxy>, sent: set<string>,
                   connect: (nat, Credentials) -> bool, turns: nat -> nat -> Turn)
    requires Good(w) && Dispatchable(opt, api, proxies)
    requires forall k :: 0 <= k < |sessions| ==> Basename(sessions[k]) != ""
    requires users != [] && messages != [] && sessions != [] && FilterSent(users, sent) != []
    ensures var r := StartRun(w, opt, clk, users, messages, sessions, api, proxies, sent, connect, turns);
            && |w.sentLog| <= |r.sentLog| && r.sentLog[..|w.sentLog|] == w.sentLog
            && (forall x :: x in r.sentLog[|w.sentLog|..] ==> x in users && x !in sent)
            && !r.running
            && r.ledger.activeAccounts <= MaxAccounts(|sessions|, opt.maxConcurrent)
            && r.ledger.totalAccounts == |sessions|
            && forall a :: a in r.active ==> a in w.active && r.active[a] == w.active[a]
  {
    var w1 := w.(running := true);
    var left := FilterSent(users, sent);
    assert StartRun(w, opt, clk, users, messages, sessions, api, proxies, sent, connect, turns)
        == SendChunks(w1, opt, clk, left, messages, sessions, api, proxies, connect, turns);
    ChunksDeliver(w1, opt, clk, left, messages, sessions, api, proxies, connect, turns);
    ChunksSettle(w1, opt, clk, left, messages, sessions, api, proxies, connect, turns);
  }
}
