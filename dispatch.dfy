/**
 * How `TelegramSender.start_sending` shares the work out: users already
 * contacted are dropped, the rest are cut into contiguous chunks, and task
 * `i` gets session `i`, an API credential and possibly a proxy chosen
 * round-robin in blocks.
 */
module Dispatch {

  /** `[u for u in users if u not in sent]`. */
  function FilterSent(users: seq<string>, sent: set<string>): (r: seq<string>)
    ensures |r| <= |users|
    ensures forall u :: u in r <==> u in users && u !in sent
  {
    if users == [] then []
    else
      var init := FilterSent(users[..|users| - 1], sent);
      var u := users[|users| - 1];
      assert users == users[..|users| - 1] + [u];
      if u in sent then init else init + [u]
  }

  /** Filtering a concatenation filters each part. */
  lemma {:induction false} FilterSentAppend(a: seq<string>, b: seq<string>, sent: set<string>)
    ensures FilterSent(a + b, sent) == FilterSent(a, sent) + FilterSent(b, sent)
  {
    if b != [] {
      var b0 := b[..|b| - 1];
      assert (a + b)[..|a + b| - 1] == a + b0;
      assert (a + b)[|a + b| - 1] == b[|b| - 1];
      FilterSentAppend(a, b0, sent);
    } else {
      assert a + b == a;
    }
  }

  /**
   * `idx` lists the positions in `users` of the entries of `kept`, strictly
   * increasing, and every position it skips holds a user in `sent`.
   */
  ghost predicate Positions(users: seq<string>, kept: seq<string>, idx: seq<nat>, sent: set<string>) {
    && |idx| == |kept|
    && (forall j :: 0 <= j < |idx| ==> idx[j] < |users| && kept[j] == users[idx[j]])
    && (forall j, l :: 0 <= j < l < |idx| ==> idx[j] < idx[l])
    && (forall i :: 0 <= i < |users| && i !in idx ==> users[i] in sent)
  }

  /** The kept users are exactly the users not in `sent`, in their original order. */
  lemma {:induction false} FilterSentOrder(users: seq<string>, sent: set<string>) returns (idx: seq<nat>)
    ensures |idx| == |FilterSent(users, sent)|
    ensures forall j :: 0 <= j < |idx| ==> idx[j] < |users| && FilterSent(users, sent)[j] == users[idx[j]]
    ensures forall j, l :: 0 <= j < l < |idx| ==> idx[j] < idx[l]
    ensures forall i :: 0 <= i < |users| && i !in idx ==> users[i] in sent
  {
    if users == [] {
      idx := [];
    } else {
      var n := |users| - 1;
      var prev := FilterSentOrder(users[..n], sent);
      var r0 := FilterSent(users[..n], sent);
      assert Positions(users[..n], r0, prev, sent);
      if users[n] in sent {
        assert FilterSent(users, sent) == r0;
        idx := prev;
        PositionsSkip(users, r0, prev, sent);
      } else {
        assert FilterSent(users, sent) == r0 + [users[n]];
        idx := prev + [n];
        PositionsKeep(users, r0, prev, sent);
      }
      assert Positions(users, FilterSent(users, sent), idx, sent);
    }
  }

  /** A last user in `sent` is skipped. */
  lemma PositionsSkip(users: seq<string>, kept: seq<string>, idx: seq<nat>, sent: set<string>)
    requires users != [] && users[|users| - 1] in sent
    requires Positions(users[..|users| - 1], kept, idx, sent)
    ensures Positions(users, kept, idx, sent)
  {
    var n := |users| - 1;
    forall i | 0 <= i < |users| && i !in idx ensures users[i] in sent {
      if i < n {
        assert users[..n][i] == users[i];
      }
    }
  }

  /** A last user not in `sent` is kept, at its position. */
  lemma PositionsKeep(users: seq<string>, kept: seq<string>, idx: seq<nat>, sent: set<string>)
    requires users != [] && users[|users| - 1] !in sent
    requires Positions(users[..|users| - 1], kept, idx, sent)
    ensures Positions(users, kept + [users[|users| - 1]], idx + [|users| - 1], sent)
  {
    var n := |users| - 1;
    var idx' := idx + [n];
    var kept' := kept + [users[n]];
    forall j | 0 <= j < |idx'| ensures idx'[j] < |users| && kept'[j] == users[idx'[j]] {
      if j < |idx| {
        assert users[..n][idx[j]] == users[idx[j]];
      }
    }
    forall i | 0 <= i < |users| && i !in idx' ensures users[i] in sent {
      assert i !in idx && i != n;
      assert users[..n][i] == users[i];
    }
  }

  /** Python's `//`: the quotient rounded down, also for a negative divisor. */
  function FloorDiv(a: int, b: int): int
    requires b != 0
  {
    if b > 0 then a / b else (-a) / (-b)
  }

  /** `FloorDiv` is the floor of the exact quotient, whatever the signs. */
  lemma FloorDivIsFloor(a: int, b: int)
    requires b != 0
    ensures b > 0 ==> b * FloorDiv(a, b) <= a < b * FloorDiv(a, b) + b
    ensures b < 0 ==> b * FloorDiv(a, b) + b < a <= b * FloorDiv(a, b)
  {
  }

  function Min(a: int, b: int): int {
    if a <= b then a else b
  }

  /** `max_accounts`. */
  function MaxAccounts(sessions: nat, maxConcurrent: int): int {
    Min(sessions, maxConcurrent)
  }

  /** `users_per_account`: one more than the even share, so the chunks never outnumber the accounts. */
  function ChunkSize(users: nat, maxAccounts: int): (size: nat)
    requires maxAccounts > 0
    ensures size >= 1
  {
    users / maxAccounts + 1
  }

  /** The number of values of `range(0, n, size)`. */
  function ChunkCount(n: nat, size: nat): nat
    requires size > 0
  {
    (n + size - 1) / size
  }

  /** `users[i:i + size]`, which Python cuts off at the end of `users`. */
  function Slice(users: seq<string>, i: nat, size: nat): seq<string> {
    if i >= |users| then [] else users[i..Min(i + size, |users|)]
  }

  /** `user_chunks`: the slice starting at each multiple of `size`. */
  function Chunks(users: seq<string>, size: nat): seq<seq<string>>
    requires size > 0
  {
    seq(ChunkCount(|users|, size), k requires 0 <= k => Slice(users, k * size, size))
  }

  function Flatten(cs: seq<seq<string>>): seq<string> {
    if cs == [] then [] else Flatten(cs[..|cs| - 1]) + cs[|cs| - 1]
  }

  /** `k * size` lies in the users exactly for the first `ChunkCount` values of `k`. */
  lemma ChunkStart(n: nat, size: nat, k: nat)
    requires size > 0
    ensures k < ChunkCount(n, size) <==> k * size < n
  {
    var c := ChunkCount(n, size);
    assert size * c <= n + size - 1 < size * c + size;
    assert size * c == c * size;
    if k < c {
      MulMono(size, k, c - 1);
      assert (c - 1) * size + size == c * size;
      assert k * size == size * k && (c - 1) * size == size * (c - 1);
    } else {
      MulMono(size, c, k);
      assert k * size == size * k;
    }
  }

  /** The first `k` chunks glued together are the first `k * size` users. */
  lemma {:induction false} FlattenPrefix(users: seq<string>, size: nat, k: nat)
    requires size > 0 && k <= ChunkCount(|users|, size)
    ensures Flatten(Chunks(users, size)[..k]) == users[..Min(k * size, |users|)]
  {
    if k > 0 {
      var cs := Chunks(users, size);
      var a := (k - 1) * size;
      var b := Min(k * size, |users|);
      ChunkStart(|users|, size, k - 1);
      assert (k - 1) * size + size == k * size;
      assert Min(a, |users|) == a;
      assert cs[k - 1] == users[a..b] by {
        ChunkIs(users, size, k - 1, a);
      }
      FlattenPrefix(users, size, k - 1);
      FlattenStep(cs, users, k, a, b);
    }
  }

  /** One more chunk that continues the users extends the glued prefix by it. */
  lemma FlattenStep(cs: seq<seq<string>>, users: seq<string>, k: nat, a: nat, b: nat)
    requires 0 < k <= |cs| && a <= b <= |users|
    requires Flatten(cs[..k - 1]) == users[..a] && cs[k - 1] == users[a..b]
    ensures Flatten(cs[..k]) == users[..b]
  {
    FlattenLast(cs[..k]);
    assert cs[..k][..k - 1] == cs[..k - 1];
    assert users[..b] == users[..a] + users[a..b];
  }

  /** Chunk `k` is the slice that starts at `k * size`. */
  lemma ChunkIs(users: seq<string>, size: nat, k: nat, a: nat)
    requires size > 0 && k < ChunkCount(|users|, size) && a == k * size && a < |users|
    ensures Chunks(users, size)[k] == users[a..Min(a + size, |users|)]
  {
  }

  /** Gluing chunks together ends with the last chunk. */
  lemma FlattenLast(cs: seq<seq<string>>)
    requires cs != []
    ensures Flatten(cs) == Flatten(cs[..|cs| - 1]) + cs[|cs| - 1]
  {
  }

  /**
   * The chunks, in order, are the users exactly; every chunk holds between
   * one and `size` users, and every chunk but the last exactly `size`.
   */
  lemma ChunksPartition(users: seq<string>, size: nat)
    requires size > 0
    ensures Flatten(Chunks(users, size)) == users
    ensures forall k :: 0 <= k < |Chunks(users, size)| ==> 0 < |Chunks(users, size)[k]| <= size
    ensures forall k :: 0 <= k < |Chunks(users, size)| - 1 ==> |Chunks(users, size)[k]| == size
  {
    var cs := Chunks(users, size);
    var c := |cs|;
    FlattenPrefix(users, size, c);
    assert cs[..c] == cs;
    ChunkStart(|users|, size, c);
    forall k | 0 <= k < c
      ensures 0 < |cs[k]| <= size
      ensures k < c - 1 ==> |cs[k]| == size
    {
      ChunkLength(users, size, k);
    }
  }

  /** Chunk `k` holds between one and `size` users, and exactly `size` unless it is the last. */
  lemma ChunkLength(users: seq<string>, size: nat, k: nat)
    requires size > 0 && k < ChunkCount(|users|, size)
    ensures 0 < |Chunks(users, size)[k]| <= size
    ensures k < ChunkCount(|users|, size) - 1 ==> |Chunks(users, size)[k]| == size
  {
    var a := k * size;
    ChunkStart(|users|, size, k);
    assert Chunks(users, size)[k] == users[a..Min(a + size, |users|)];
    if k < ChunkCount(|users|, size) - 1 {
      ChunkStart(|users|, size, k + 1);
      assert a + size == (k + 1) * size;
    }
  }

  /** With `ChunkSize` there are never more chunks than accounts. */
  lemma ChunksFit(users: nat, maxAccounts: int)
    requires maxAccounts > 0
    ensures ChunkCount(users, ChunkSize(users, maxAccounts)) <= maxAccounts
  {
    var q := users / maxAccounts;
    var size := q + 1;
    assert users < maxAccounts * size by {
      assert users == maxAccounts * q + users % maxAccounts;
      assert maxAccounts * size == maxAccounts * q + maxAccounts;
    }
    var c := ChunkCount(users, size);
    assert size * c < size * (maxAccounts + 1) by {
      assert size * c <= users + size - 1;
      assert size * (maxAccounts + 1) == maxAccounts * size + size;
    }
    if c >= maxAccounts + 1 {
      MulMono(size, maxAccounts + 1, c);
    }
  }

  /** The number of tasks the loop of `start_sending` visits. */
  function TaskCount(maxAccounts: int, chunks: nat): int {
    Min(maxAccounts, chunks)
  }

  /**
   * The entry of a list of `count` that task `i` gets when each entry serves
   * `per` consecutive tasks: `i // per % count`, the rule for both the API
   * credential and the proxy.
   */
  function BlockIndex(i: nat, per: int, count: nat): (j: nat)
    requires per != 0 && count > 0
    ensures j < count
  {
    FloorDiv(i, per) % count
  }

  /**
   * The assignment is round-robin in blocks: within cycle `cycle`, the `per`
   * consecutive tasks of block `k` all get credential (or proxy) `k`.
   */
  lemma RoundRobin(cycle: nat, k: nat, r: nat, per: int, count: nat)
    requires per > 0 && k < count && r < per
    ensures BlockIndex((cycle * count + k) * per + r, per, count) == k
  {
    var q := cycle * count + k;
    assert FloorDiv(q * per + r, per) == q by {
      FloorDivIsFloor(q * per + r, per);
      QuotientUnique(q * per + r, per, FloorDiv(q * per + r, per), q);
    }
    assert q % count == k by {
      ModOfCycle(cycle, k, count);
    }
  }

  /** Two quotients of the same floor division by a positive divisor agree. */
  lemma QuotientUnique(a: int, b: int, x: int, y: int)
    requires b > 0
    requires b * x <= a < b * x + b
    requires y * b <= a < y * b + b
    ensures x == y
  {
    if x < y {
      MulMono(b, x + 1, y);
    } else if y < x {
      MulMono(b, y + 1, x);
    }
  }

  /** Multiplying by a non-negative factor keeps the order. */
  lemma MulMono(a: int, b: int, c: int)
    requires a >= 0 && b <= c
    ensures a * b <= a * c
  {
  }

  lemma ModOfCycle(cycle: nat, k: nat, count: nat)
    requires k < count
    ensures (cycle * count + k) % count == k
  {
    var a := cycle * count + k;
    assert count * cycle == cycle * count;
    assert (a / count) * count <= a < (a / count) * count + count;
    QuotientUnique(a, count, cycle, a / count);
  }

  /**
   * The two guards inside the task loop never fire: every task index has a
   * session and a non-empty chunk.
   */
  lemma GuardsUnreachable(users: seq<string>, sessions: nat, maxConcurrent: int, i: nat)
    requires |users| > 0 && sessions > 0 && maxConcurrent > 0
    requires i < TaskCount(MaxAccounts(sessions, maxConcurrent), |Chunks(users, ChunkSize(|users|, MaxAccounts(sessions, maxConcurrent)))|)
    ensures i < sessions
    ensures Chunks(users, ChunkSize(|users|, MaxAccounts(sessions, maxConcurrent)))[i] != []
  {
    ChunksPartition(users, ChunkSize(|users|, MaxAccounts(sessions, maxConcurrent)));
  }

  /**
   * Every chunk gets a task: the loop visits them all, so the tasks together
   * cover each remaining user once.
   */
  lemma EveryChunkTasked(users: seq<string>, sessions: nat, maxConcurrent: int)
    requires |users| > 0 && sessions > 0 && maxConcurrent > 0
    ensures var m := MaxAccounts(sessions, maxConcurrent);
            TaskCount(m, |Chunks(users, ChunkSize(|users|, m))|) == |Chunks(users, ChunkSize(|users|, m))| <= m
  {
    var m := MaxAccounts(sessions, maxConcurrent);
    ChunksFit(|users|, m);
  }
}
