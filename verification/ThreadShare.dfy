/** thread_consider_migration when no other CPU interferes: what it does to the run
    queues, and that the shares come out even. */
module ThreadShare {
  import opened ThreadSystem
  import opened ThreadSteps
  import opened Words

  // ----- Counting -----

  /** Threads queued on CPUs i and up. */
  function Total(rq: seq<seq<int>>, i: int): (r: int)
    requires 0 <= i <= |rq|
    ensures r >= 0
    decreases |rq| - i
  {
    if i == |rq| then 0 else |rq[i]| + Total(rq, i + 1)
  }

  function Short(q: seq<int>, share: int): (r: int)
    ensures r >= 0
  {
    if |q| < share then share - |q| else 0
  }

  /** How many more threads CPUs i and up, other than `me`, can take without exceeding
      their share. */
  function Room(rq: seq<seq<int>>, me: int, share: int, i: int): (r: int)
    requires 0 <= i <= |rq|
    ensures r >= 0
    decreases |rq| - i
  {
    if i == |rq| then 0 else (if i == me then 0 else Short(rq[i], share)) + Room(rq, me, share, i + 1)
  }

  /** The share is the least with which all CPUs together hold all threads. */
  lemma ShareIsLeast(total: int, n: int)
    requires total >= 0 && n > 0
    ensures total <= n * Share(total, n)
    ensures total > 0 ==> n * (Share(total, n) - 1) < total
    ensures Share(total, n) >= 0
  {
    var share := Share(total, n);
    assert share == (total + n - 1) / n;
    assert total + n - 1 == n * share + (total + n - 1) % n;
    assert n * (share - 1) == n * share - n;
  }

  /** What one CPU has above its share, the others are short of. */
  lemma {:induction false} RoomForExcess(rq: seq<seq<int>>, me: int, share: int, i: int)
    requires 0 <= i <= |rq| && 0 <= me < |rq|
    ensures Room(rq, me, share, i) >= (|rq| - i) * share - Total(rq, i) - (if i <= me then share - |rq[me]| else 0)
    decreases |rq| - i
  {
    if i < |rq| {
      RoomForExcess(rq, me, share, i + 1);
      assert (|rq| - i) * share == (|rq| - (i + 1)) * share + share;
    }
  }

  lemma {:induction false} RoomSame(rq: seq<seq<int>>, rq': seq<seq<int>>, me: int, share: int, i: int)
    requires 0 <= i <= |rq| == |rq'| && forall c :: i <= c < |rq| && c != me ==> rq'[c] == rq[c]
    ensures Room(rq', me, share, i) == Room(rq, me, share, i)
    decreases |rq| - i
  {
    if i < |rq| {
      RoomSame(rq, rq', me, share, i + 1);
    }
  }

  // ----- Who went where -----

  function Without(ts: seq<int>, cur: int): seq<int>
  {
    if |ts| == 0 then []
    else Without(ts[..|ts| - 1], cur) + (if ts[|ts| - 1] == cur then [] else [ts[|ts| - 1]])
  }

  /** The threads added to CPUs below i, in the order of the CPUs. */
  function Gains(was: seq<seq<int>>, rq: seq<seq<int>>, me: int, i: int): seq<int>
    requires 0 <= i <= |was| == |rq| && forall c :: 0 <= c < |was| && c != me ==> |was[c]| <= |rq[c]|
  {
    if i == 0 then [] else Gains(was, rq, me, i - 1) + (if i - 1 == me then [] else rq[i - 1][|was[i - 1]|..])
  }

  lemma {:induction false} NoGains(was: seq<seq<int>>, rq: seq<seq<int>>, me: int, i: int)
    requires 0 <= i <= |was| == |rq| && forall c :: 0 <= c < |was| && c != me ==> rq[c] == was[c]
    ensures Gains(was, rq, me, i) == []
  {
    if i > 0 {
      NoGains(was, rq, me, i - 1);
    }
  }

  lemma {:induction false} GainsGrow(was: seq<seq<int>>, rq: seq<seq<int>>, me: int, d: int, t: int, i: int)
    requires 0 <= i <= |was| == |rq| && forall c :: 0 <= c < |was| && c != me ==> |was[c]| <= |rq[c]|
    requires 0 <= d < |rq| && d != me && forall c :: d < c < |was| && c != me ==> rq[c] == was[c]
    ensures Gains(was, rq[d := rq[d] + [t]], me, i) == Gains(was, rq, me, i) + (if d < i then [t] else [])
  {
    var rq' := rq[d := rq[d] + [t]];
    if i > 0 {
      GainsGrow(was, rq, me, d, t, i - 1);
      var c := i - 1;
      if c == d {
        assert rq'[c][|was[c]|..] == rq[c][|was[c]|..] + [t];
      } else if c > d && c != me {
        assert rq'[c][|was[c]|..] == [];
      }
    }
  }

  // ----- The outcome -----

  /** A balanced outcome: `me` keeps its first `share` threads, and the current thread
      if it was queued behind them; the others each keep what they had, in order, get
      at most up to their share, and together get exactly the rest, in order, the
      CPUs with low numbers first. */
  ghost predicate Balanced(was: seq<seq<int>>, rq: seq<seq<int>>, me: int, cur: int, share: int)
  {
    && |rq| == |was| && 0 <= me < |was| && 0 <= share <= |was[me]|
    && rq[me] == was[me][..share] + (if cur in was[me][share..] then [cur] else [])
    && (forall c :: 0 <= c < |was| && c != me ==> was[c] <= rq[c] && (rq[c] == was[c] || |rq[c]| <= share))
    && Gains(was, rq, me, |was|) == Without(was[me][share..], cur)
    && (forall c, d :: 0 <= c < d < |was| && c != me && d != me && |rq[d]| > |was[d]| ==> |rq[c]| >= share)
  }

  /** Threads that moved have their new CPU in t_cpu; all others, the current thread
      above all, are untouched. */
  ghost predicate Relocated(was: seq<seq<int>>, rq: seq<seq<int>>, me: int, cur: int, sent: seq<int>, before: map<int, int>, tcpu: map<int, int>)
  {
    && |rq| == |was|
    && (forall c, k :: 0 <= c < |was| && c != me && |was[c]| <= k < |rq[c]| ==> rq[c][k] in tcpu && tcpu[rq[c][k]] == c)
    && (forall t :: t in before ==> t in tcpu && ((t in sent && t != cur) || tcpu[t] == before[t]))
  }

  /** Idle CPUs that got a thread are interrupted, no others. */
  ghost predicate Roused(was: seq<seq<int>>, rq: seq<seq<int>>, me: int, idle: seq<bool>, before: seq<bool>, ipi: seq<bool>)
  {
    && |rq| == |was| == |idle| == |before| == |ipi|
    && forall c :: 0 <= c < |was| ==> ipi[c] == (before[c] || (idle[c] && c != me && |rq[c]| > |was[c]|))
  }

  lemma {:induction false} GainsCount(was: seq<seq<int>>, rq: seq<seq<int>>, me: int, i: int)
    requires 0 <= i <= |was| == |rq| && forall c :: 0 <= c < |was| && c != me ==> |was[c]| <= |rq[c]|
    ensures Total(rq, 0) - Total(rq, i) ==
            Total(was, 0) - Total(was, i) + |Gains(was, rq, me, i)| + (if 0 <= me < i then |rq[me]| - |was[me]| else 0)
  {
    if i > 0 {
      GainsCount(was, rq, me, i - 1);
      assert Total(rq, i - 1) == |rq[i - 1]| + Total(rq, i);
      assert Total(was, i - 1) == |was[i - 1]| + Total(was, i);
    }
  }

  lemma {:induction false} WithoutCount(ts: seq<int>, cur: int)
    requires NoDup(ts)
    ensures |Without(ts, cur)| == |ts| - (if cur in ts then 1 else 0)
  {
    if |ts| > 0 {
      var front, last := ts[..|ts| - 1], ts[|ts| - 1];
      WithoutCount(front, cur);
      assert last !in front;
      assert cur in ts <==> cur in front || cur == last;
    }
  }

  /** A balanced outcome loses and makes no thread, and with the current thread not
      queued leaves exactly the share behind. */
  lemma NoThreadLost(was: seq<seq<int>>, rq: seq<seq<int>>, me: int, cur: int, share: int)
    requires Balanced(was, rq, me, cur, share) && NoDup(was[me])
    ensures Total(rq, 0) == Total(was, 0)
    ensures cur !in was[me] ==> |rq[me]| == share
    ensures cur in rq[me] <==> cur in was[me]
  {
    GainsCount(was, rq, me, |was|);
    TailNoDup(was[me], share);
    WithoutCount(was[me][share..], cur);
    InParts(was[me], share, cur);
  }

  lemma TailNoDup(q: seq<int>, k: int)
    requires NoDup(q) && 0 <= k <= |q|
    ensures NoDup(q[k..])
  {
    forall i, j | 0 <= i < j < |q[k..]|
      ensures q[k..][i] != q[k..][j]
    {
      assert q[k..][i] == q[k + i] && q[k..][j] == q[k + j];
    }
  }

  lemma InParts(q: seq<int>, k: int, t: int)
    requires 0 <= k <= |q|
    ensures t in q <==> t in q[..k] || t in q[k..]
  {
    assert q == q[..k] + q[k..];
  }

  // ----- In the middle of handing out -----

  /** What stays the same during one migration: the run queues before it, whose CPU it
      is, its current thread, the share, t_cpu and pending interrupts before it. */
  datatype Job = Job(was: seq<seq<int>>, me: int, cur: int, share: int, idle: seq<bool>, tcpu: map<int, int>, ipi: seq<bool>)

  datatype Now = Now(rq: seq<seq<int>>, tcpu: map<int, int>, ipi: seq<bool>, victims: seq<int>, done: int)

  predicate JobOk(j: Job)
  {
    0 <= j.me < |j.was| && 0 <= j.share <= |j.was[j.me]| && NoDup(j.was[j.me])
  }

  /** The victims dealt with so far. */
  function Sent(j: Job, done: int): (r: seq<int>)
    requires JobOk(j) && 0 <= done <= |j.was[j.me]| - j.share
    ensures |r| == done
  {
    j.was[j.me][j.share..j.share + done]
  }

  ghost predicate OwnOk(j: Job, n: Now)
    requires JobOk(j)
  {
    && |n.rq| == |j.was| && 0 <= n.done <= |j.was[j.me]| - j.share
    && n.rq[j.me] == j.was[j.me][..j.share]
    && n.victims == j.was[j.me][j.share + n.done..] + (if j.cur in Sent(j, n.done) then [j.cur] else [])
  }

  ghost predicate OthersOk(was: seq<seq<int>>, rq: seq<seq<int>>, me: int, share: int, i: int)
    requires |was| == |rq|
  {
    forall c :: 0 <= c < |was| && c != me ==>
      && was[c] <= rq[c] && (rq[c] == was[c] || |rq[c]| <= share)
      && (c > i ==> rq[c] == was[c]) && (c < i ==> |rq[c]| >= share)
  }

  ghost predicate HandedOut(j: Job, n: Now, i: int)
  {
    && JobOk(j) && OwnOk(j, n) && OthersOk(j.was, n.rq, j.me, j.share, i)
    && Gains(j.was, n.rq, j.me, |j.was|) == Without(Sent(j, n.done), j.cur)
    && Relocated(j.was, n.rq, j.me, j.cur, Sent(j, n.done), j.tcpu, n.tcpu)
    && Roused(j.was, n.rq, j.me, j.idle, j.ipi, n.ipi)
  }

  /** Folded, so that the loops below carry it whole. */
  ghost predicate Handing(j: Job, n: Now, i: int)
  {
    forall k: int {:trigger Spelled(k)} :: k == 0 ==> HandedOut(j, n, i)
  }

  lemma Open(j: Job, n: Now, i: int)
    requires Handing(j, n, i)
    ensures HandedOut(j, n, i)
  {
    assert Spelled(0);
  }

  lemma WithoutGrows(ts: seq<int>, n: int, cur: int)
    requires 0 <= n < |ts|
    ensures Without(ts[..n + 1], cur) == Without(ts[..n], cur) + (if ts[n] == cur then [] else [ts[n]])
  {
    assert ts[..n + 1][..n] == ts[..n];
  }

  /** The victim after the ones dealt with is at the head of the list. */
  lemma NextVictim(j: Job, n: Now)
    requires JobOk(j) && OwnOk(j, n) && n.done < |j.was[j.me]| - j.share
    ensures |n.victims| > 0 && n.victims[0] == j.was[j.me][j.share + n.done] && n.victims[0] !in Sent(j, n.done)
    ensures Sent(j, n.done + 1) == Sent(j, n.done) + [n.victims[0]]
    ensures j.was[j.me][j.share + n.done..][1..] == j.was[j.me][j.share + n.done + 1..]
    ensures Without(Sent(j, n.done + 1), j.cur) == Without(Sent(j, n.done), j.cur) + (if n.victims[0] == j.cur then [] else [n.victims[0]])
  {
    var q := j.was[j.me];
    assert q[j.share..j.share + n.done] == q[j.share..][..n.done];
    assert q[j.share..j.share + n.done + 1] == q[j.share..][..n.done + 1];
    WithoutGrows(q[j.share..], n.done, j.cur);
  }

  /** The current thread goes to the end of the victims. */
  function Skipped(n: Now): Now
    requires |n.victims| > 0
  {
    n.(victims := n.victims[1..] + [n.victims[0]], done := n.done + 1)
  }

  lemma SkippedOwn(j: Job, n: Now)
    requires JobOk(j) && OwnOk(j, n) && n.done < |j.was[j.me]| - j.share && |n.victims| > 0 && n.victims[0] == j.cur
    ensures OwnOk(j, Skipped(n))
  {
    NextVictim(j, n);
    assert n.victims == j.was[j.me][j.share + n.done..];
    assert Skipped(n).victims == j.was[j.me][j.share + n.done + 1..] + [j.cur];
  }

  lemma SkippedRelocates(j: Job, n: Now, sent: seq<int>)
    requires |j.was| == |n.rq| && Relocated(j.was, n.rq, j.me, j.cur, sent, j.tcpu, n.tcpu)
    ensures Relocated(j.was, n.rq, j.me, j.cur, sent + [j.cur], j.tcpu, n.tcpu)
  {
  }

  lemma SkipStep(j: Job, n: Now, i: int)
    requires Handing(j, n, i) && JobOk(j) && n.done < |j.was[j.me]| - j.share
    requires |n.victims| > 0 && n.victims[0] == j.cur
    ensures Handing(j, Skipped(n), i)
  {
    Open(j, n, i);
    NextVictim(j, n);
    SkippedOwn(j, n);
    SkippedRelocates(j, n, Sent(j, n.done));
    assert HandedOut(j, Skipped(n), i);
  }

  /** Any other victim goes to the end of CPU i's queue, which is woken if it idles. */
  function Given(n: Now, idle: seq<bool>, i: int): Now
    requires |n.victims| > 0 && 0 <= i < |n.rq| == |n.ipi| == |idle|
  {
    Now(n.rq[i := n.rq[i] + [n.victims[0]]], n.tcpu[n.victims[0] := i], if idle[i] then n.ipi[i := true] else n.ipi,
        n.victims[1..], n.done + 1)
  }

  lemma GivenOthers(was: seq<seq<int>>, rq: seq<seq<int>>, me: int, share: int, i: int, t: int)
    requires |was| == |rq| && OthersOk(was, rq, me, share, i) && 0 <= i < |rq| && i != me && |rq[i]| < share
    ensures OthersOk(was, rq[i := rq[i] + [t]], me, share, i)
  {
  }

  lemma GivenRelocates(j: Job, rq: seq<seq<int>>, tcpu: map<int, int>, i: int, t: int, sent: seq<int>)
    requires |rq| == |j.was| && 0 <= i < |rq| && i != j.me && t != j.cur && t !in sent
    requires GainedFrom(j.was, rq, j.me, sent)
    requires Relocated(j.was, rq, j.me, j.cur, sent, j.tcpu, tcpu)
    ensures Relocated(j.was, rq[i := rq[i] + [t]], j.me, j.cur, sent + [t], j.tcpu, tcpu[t := i])
  {
    var rq' := rq[i := rq[i] + [t]];
    forall c, k | 0 <= c < |j.was| && c != j.me && |j.was[c]| <= k < |rq'[c]|
      ensures rq'[c][k] in tcpu[t := i] && tcpu[t := i][rq'[c][k]] == c
    {
      if c != i || k < |rq[i]| {
        assert rq[c][k] == rq'[c][k];
      }
    }
  }

  /** Gained threads are among those sent. */
  ghost predicate GainedFrom(was: seq<seq<int>>, rq: seq<seq<int>>, me: int, sent: seq<int>)
    requires |rq| == |was|
  {
    forall c, k :: 0 <= c < |was| && c != me && |was[c]| <= k < |rq[c]| ==> rq[c][k] in sent
  }

  lemma {:induction false} WithoutIn(ts: seq<int>, cur: int, t: int)
    requires t in Without(ts, cur)
    ensures t in ts
  {
    if |ts| > 0 && t in Without(ts[..|ts| - 1], cur) {
      WithoutIn(ts[..|ts| - 1], cur, t);
    }
  }

  lemma {:induction false} GainIsIn(was: seq<seq<int>>, rq: seq<seq<int>>, me: int, c: int, k: int, i: int)
    requires 0 <= i <= |was| == |rq| && forall d :: 0 <= d < |was| && d != me ==> |was[d]| <= |rq[d]|
    requires 0 <= c < i && c != me && |was[c]| <= k < |rq[c]|
    ensures rq[c][k] in Gains(was, rq, me, i)
  {
    var t, front := rq[c][k], Gains(was, rq, me, i - 1);
    if c == i - 1 {
      var part := rq[c][|was[c]|..];
      assert part[k - |was[c]|] == t;
      assert t in front + part;
    } else {
      GainIsIn(was, rq, me, c, k, i - 1);
      assert t in front;
    }
  }

  lemma GainedFromSent(was: seq<seq<int>>, rq: seq<seq<int>>, me: int, sent: seq<int>, cur: int)
    requires |was| == |rq| && forall d :: 0 <= d < |was| && d != me ==> |was[d]| <= |rq[d]|
    requires Gains(was, rq, me, |was|) == Without(sent, cur)
    ensures GainedFrom(was, rq, me, sent)
  {
    forall c, k | 0 <= c < |was| && c != me && |was[c]| <= k < |rq[c]|
      ensures rq[c][k] in sent
    {
      GainIsIn(was, rq, me, c, k, |was|);
      WithoutIn(sent, cur, rq[c][k]);
    }
  }

  lemma DropFirst(q: seq<int>, tail: seq<int>)
    requires |q| > 0
    ensures (q + tail)[1..] == q[1..] + tail
  {
  }

  lemma VictimsLeft(j: Job, n: Now)
    requires JobOk(j) && OwnOk(j, n) && n.done < |j.was[j.me]| - j.share && |n.victims| > 0 && n.victims[0] != j.cur
    ensures n.victims[1..] == j.was[j.me][j.share + n.done + 1..] + (if j.cur in Sent(j, n.done + 1) then [j.cur] else [])
  {
    NextVictim(j, n);
    var tail := if j.cur in Sent(j, n.done) then [j.cur] else [];
    DropFirst(j.was[j.me][j.share + n.done..], tail);
  }

  lemma GivenOwn(j: Job, n: Now, i: int)
    requires JobOk(j) && OwnOk(j, n) && n.done < |j.was[j.me]| - j.share && |n.victims| > 0 && n.victims[0] != j.cur
    requires 0 <= i < |n.rq| == |n.ipi| == |j.idle| && i != j.me
    ensures OwnOk(j, Given(n, j.idle, i))
  {
    VictimsLeft(j, n);
    assert Given(n, j.idle, i).victims == n.victims[1..];
    assert Given(n, j.idle, i).rq[j.me] == n.rq[j.me];
  }

  lemma GivenRouses(was: seq<seq<int>>, rq: seq<seq<int>>, me: int, idle: seq<bool>, before: seq<bool>, ipi: seq<bool>, i: int, t: int)
    requires Roused(was, rq, me, idle, before, ipi) && 0 <= i < |rq| && i != me && |was[i]| <= |rq[i]|
    ensures Roused(was, rq[i := rq[i] + [t]], me, idle, before, if idle[i] then ipi[i := true] else ipi)
  {
  }

  lemma GiveStep(j: Job, n: Now, i: int)
    requires Handing(j, n, i) && JobOk(j) && n.done < |j.was[j.me]| - j.share
    requires |n.victims| > 0 && n.victims[0] != j.cur && 0 <= i < |n.rq| == |n.ipi| == |j.idle| && i != j.me && |n.rq[i]| < j.share
    ensures Handing(j, Given(n, j.idle, i), i)
  {
    Open(j, n, i);
    var t, sent := n.victims[0], Sent(j, n.done);
    NextVictim(j, n);
    GivenOwn(j, n, i);
    GivenOthers(j.was, n.rq, j.me, j.share, i, t);
    GainsGrow(j.was, n.rq, j.me, i, t, |j.was|);
    GainedFromSent(j.was, n.rq, j.me, sent, j.cur);
    GivenRelocates(j, n.rq, n.tcpu, i, t, sent);
    GivenRouses(j.was, n.rq, j.me, j.idle, j.ipi, n.ipi, i, t);
    assert HandedOut(j, Given(n, j.idle, i), i);
  }

  /** CPU i is done with. */
  lemma NextCpu(j: Job, n: Now, i: int)
    requires Handing(j, n, i) && 0 <= i < |n.rq| && (i == j.me || |n.rq[i]| >= j.share)
    ensures Handing(j, n, i + 1)
  {
    Open(j, n, i);
    assert OthersOk(j.was, n.rq, j.me, j.share, i + 1);
    assert HandedOut(j, n, i + 1);
  }

  /** What the loops need to know. */
  lemma Sizes(j: Job, n: Now, i: int)
    requires Handing(j, n, i)
    ensures JobOk(j) && |n.rq| == |n.ipi| == |j.idle| == |j.was| && 0 <= n.done <= |j.was[j.me]| - j.share
    ensures n.done < |j.was[j.me]| - j.share ==> |n.victims| > 0
  {
    Open(j, n, i);
  }

  lemma NothingYet(j: Job, n: Now)
    requires JobOk(j) && |j.idle| == |j.ipi| == |j.was|
    requires n == Now(j.was[j.me := j.was[j.me][..j.share]], j.tcpu, j.ipi, j.was[j.me][j.share..], 0)
    ensures Handing(j, n, 0)
  {
    NoGains(j.was, n.rq, j.me, |j.was|);
    assert Sent(j, 0) == [];
    assert OwnOk(j, n);
    assert OthersOk(j.was, n.rq, j.me, j.share, 0);
    assert Relocated(j.was, n.rq, j.me, j.cur, [], j.tcpu, n.tcpu);
    assert HandedOut(j, n, 0);
  }

  lemma RoomShrinks(rq: seq<seq<int>>, me: int, share: int, i: int, t: int)
    requires 0 <= i < |rq| && i != me && |rq[i]| < share
    ensures Room(rq[i := rq[i] + [t]], me, share, i) == Room(rq, me, share, i) - 1
  {
    RoomSame(rq, rq[i := rq[i] + [t]], me, share, i + 1);
  }

  lemma {:induction false} GainsSame(was: seq<seq<int>>, rq: seq<seq<int>>, rq': seq<seq<int>>, me: int, i: int)
    requires 0 <= i <= |was| == |rq| == |rq'| && forall c :: 0 <= c < |was| && c != me ==> |was[c]| <= |rq[c]| && rq'[c] == rq[c]
    ensures Gains(was, rq', me, i) == Gains(was, rq, me, i)
  {
    if i > 0 {
      GainsSame(was, rq, rq', me, i - 1);
    }
  }

  /** What is left when all victims are dealt with. */
  lemma Leftovers(j: Job, n: Now, i: int)
    requires Handing(j, n, i) && JobOk(j) && n.done == |j.was[j.me]| - j.share
    ensures n.victims == (if j.cur in j.was[j.me][j.share..] then [j.cur] else [])
  {
    Open(j, n, i);
    assert Sent(j, n.done) == j.was[j.me][j.share..];
  }

  /** All victims dealt with and the leftovers put back. */
  lemma Settled(j: Job, n: Now, i: int, rq: seq<seq<int>>)
    requires Handing(j, n, i) && JobOk(j) && n.done == |j.was[j.me]| - j.share && |n.rq| == |j.was|
    requires rq == n.rq[j.me := n.rq[j.me] + (if j.cur in j.was[j.me][j.share..] then [j.cur] else [])]
    ensures Balanced(j.was, rq, j.me, j.cur, j.share)
    ensures Relocated(j.was, rq, j.me, j.cur, j.was[j.me][j.share..], j.tcpu, n.tcpu)
    ensures Roused(j.was, rq, j.me, j.idle, j.ipi, n.ipi)
  {
    Open(j, n, i);
    assert Sent(j, n.done) == j.was[j.me][j.share..];
    assert forall c :: 0 <= c < |j.was| && c != j.me ==> rq[c] == n.rq[c];
    GainsSame(j.was, n.rq, rq, j.me, |j.was|);
  }

  class Kernel {
    /** c_runqueue, c_isidle and the pending IPI_UNIDLE of each CPU */
    var rq: seq<seq<int>>
    var idle: seq<bool>
    var ipi: seq<bool>
    /** t_cpu of each thread */
    var tcpu: map<int, int>

    ghost predicate Sized()
      reads this
    {
      |rq| == |idle| == |ipi|
    }

    ghost function Snap(victims: seq<int>, done: int): Now
      reads this
    {
      Now(rq, tcpu, ipi, victims, done)
    }

    /** The first loop. */
    method CountThreads(me: nat) returns (mine: int, total: int)
      requires me < |rq|
      ensures mine == |rq[me]| && total == Total(rq, 0)
    {
      mine, total := 0, 0;
      var i := 0;
      while i < |rq|
        invariant 0 <= i <= |rq|
        invariant total + Total(rq, i) == Total(rq, 0)
        invariant me < i ==> mine == |rq[me]|
      {
        total := total + |rq[i]|;
        if i == me {
          mine := |rq[i]|;
        }
        i := i + 1;
      }
    }

    /** Take threads from the tail of the own run queue; they keep their order. */
    method TakeVictims(me: nat, send: nat) returns (victims: seq<int>)
      requires me < |rq| && send <= |rq[me]|
      modifies this`rq
      ensures victims == old(rq)[me][|old(rq)[me]| - send..]
      ensures rq == old(rq)[me := old(rq)[me][..|old(rq)[me]| - send]]
    {
      victims := [];
      ghost var q := rq[me];
      assert q[..|q|] == q;
      assert rq == old(rq)[me := q[..|q|]];
      var i := 0;
      while i < send
        invariant 0 <= i <= send
        invariant rq == old(rq)[me := q[..|q| - i]]
        invariant victims == q[|q| - i..]
      {
        var last := |rq[me]| - 1;
        var t := rq[me][last];
        rq := rq[me := rq[me][..last]];
        victims := [t] + victims;
        assert q[..|q| - i][..last] == q[..|q| - i - 1];
        i := i + 1;
      }
    }

    /** Hand the first victim to CPU i. */
    method MoveVictim(cur: int, i: nat, victims: seq<int>, ghost j: Job, ghost done: int) returns (victims': seq<int>)
      requires Handing(j, Snap(victims, done), i) && JobOk(j) && done < |j.was[j.me]| - j.share && i < |j.was| && i != j.me
      requires Sized() && |rq| == |j.was| && |rq[i]| < j.share && cur == j.cur && idle == j.idle && |victims| > 0
      modifies this`rq, this`tcpu, this`ipi
      ensures Handing(j, Snap(victims', done + 1), i) && Sized() && |rq| == |j.was|
      ensures rq == if victims[0] == cur then old(rq) else old(rq)[i := old(rq)[i] + [victims[0]]]
    {
      ghost var n := Snap(victims, done);
      var t := victims[0];
      victims' := victims[1..];
      if t == cur {
        SkipStep(j, n, i);
        victims' := victims' + [t];
        assert Snap(victims', done + 1) == Skipped(n);
      } else {
        GiveStep(j, n, i);
        tcpu := tcpu[t := i];
        rq := rq[i := rq[i] + [t]];
        if idle[i] {
          ipi := ipi[i := true];
        }
        assert Snap(victims', done + 1) == Given(n, j.idle, i);
      }
    }

    /** Hand victims to CPU i until it has its share or none is left to send. */
    method FillCpu(i: nat, cur: int, share: int, victims: seq<int>, send: int, ghost j: Job)
      returns (victims': seq<int>, send': int)
      requires JobOk(j) && send >= 0 && Handing(j, Snap(victims, |j.was[j.me]| - j.share - send), i) && i < |j.was| && i != j.me
      requires Sized() && |rq| == |j.was| && share == j.share && cur == j.cur && idle == j.idle
      requires send <= Room(rq, j.me, j.share, i)
      modifies this`rq, this`tcpu, this`ipi
      ensures Sized() && |rq| == |j.was| && 0 <= send' <= Room(rq, j.me, j.share, i)
      ensures Handing(j, Snap(victims', |j.was[j.me]| - j.share - send'), i)
      ensures send' == 0 || |rq[i]| >= share
    {
      victims', send' := victims, send;
      while |rq[i]| < share && send' > 0
        invariant Sized() && |rq| == |j.was| && 0 <= send' <= Room(rq, j.me, j.share, i)
        invariant Handing(j, Snap(victims', |j.was[j.me]| - j.share - send'), i)
        decreases send'
      {
        ghost var done := |j.was[j.me]| - j.share - send';
        Sizes(j, Snap(victims', done), i);
        RoomShrinks(rq, j.me, share, i, victims'[0]);
        victims' := MoveVictim(cur, i, victims', j, done);
        send' := send' - 1;
      }
    }

    /** The second loop: the other CPUs in turn. With nobody interfering they take all
        there is to send. */
    method SendVictims(me: nat, cur: int, share: int, victims: seq<int>, send: int, ghost j: Job)
      returns (left: seq<int>, ghost last: int)
      requires JobOk(j) && Handing(j, Snap(victims, 0), 0) && me == j.me && send == |j.was[me]| - share
      requires Sized() && |rq| == |j.was| && share == j.share && cur == j.cur && idle == j.idle
      requires send <= Room(rq, me, share, 0)
      modifies this`rq, this`tcpu, this`ipi
      ensures Sized() && |rq| == |j.was|
      ensures Handing(j, Snap(left, send), last)
    {
      var toSend := send;
      left, last := victims, 0;
      var i := 0;
      while i < |rq| && toSend > 0
        invariant Sized() && |rq| == |j.was| && 0 <= i <= |rq| && 0 <= toSend && (toSend > 0 ==> last == i)
        invariant toSend > 0 ==> toSend <= Room(rq, me, share, i)
        invariant Handing(j, Snap(left, send - toSend), last)
        decreases |rq| - i
      {
        if i != me {
          left, toSend := FillCpu(i, cur, share, left, toSend, j);
        }
        if toSend > 0 {
          NextCpu(j, Snap(left, send - toSend), i);
          last := i + 1;
        }
        i := i + 1;
      }
    }

    /** Put leftovers on the own run queue. */
    method ReturnVictims(me: nat, left: seq<int>)
      requires me < |rq|
      modifies this`rq
      ensures rq == old(rq)[me := old(rq)[me] + left]
    {
      var victims := left;
      ghost var done: seq<int>, was := [], rq;
      assert was[me] + done == was[me];
      while |victims| > 0
        invariant done + victims == left
        invariant |rq| == |was| && rq == was[me := was[me] + done]
        decreases |victims|
      {
        assert was[me] + (done + [victims[0]]) == rq[me] + [victims[0]];
        done := done + [victims[0]];
        rq := rq[me := rq[me] + [victims[0]]];
        victims := victims[1..];
      }
      assert done == left;
    }

    /** thread_consider_migration: a CPU with less than its share does nothing; any
        other is left with exactly its share -- and the current thread, if that was
        queued too far behind to stay -- and pushes nobody above the share. */
    method ConsiderMigration(me: nat, cur: int)
      requires Sized() && me < |rq| && NoDup(rq[me])
      modifies this`rq, this`tcpu, this`ipi
      ensures var share := Share(Total(old(rq), 0), |old(rq)|);
              if |old(rq)[me]| < share then rq == old(rq) && tcpu == old(tcpu) && ipi == old(ipi)
              else
                && Balanced(old(rq), rq, me, cur, share)
                && Relocated(old(rq), rq, me, cur, old(rq)[me][share..], old(tcpu), tcpu)
                && Roused(old(rq), rq, me, idle, old(ipi), ipi)
    {
      var mine, total := CountThreads(me);
      var share := Share(total, |rq|);
      ShareIsLeast(total, |rq|);
      if mine < share {
        return;
      }
      var toSend := mine - share;
      ghost var j := Job(rq, me, cur, share, idle, tcpu, ipi);
      RoomForExcess(rq, me, share, 0);
      var victims := TakeVictims(me, toSend);
      RoomSame(j.was, rq, me, share, 0);
      NothingYet(j, Snap(victims, 0));
      var left, last := SendVictims(me, cur, share, victims, toSend, j);
      ghost var n := Snap(left, toSend);
      Leftovers(j, n, last);
      ReturnVictims(me, left);
      Settled(j, n, last, rq);
    }
  }
}
