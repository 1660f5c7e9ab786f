/** The calls that fork_join_sort makes of itself, under every schedule (fork_join.cpp). */
module SortCalls {
  import opened ForkJoinSort

  predicate LeftForked(pc: Pc) {
    pc.ForkRight? || RightForked(pc)
  }

  predicate RightForked(pc: Pc) {
    pc.Joining? || pc.Merging? || pc.Finished? || pc.Returned?
  }

  ghost predicate Half(js: seq<Job>, t: nat, c: nat, lo: nat, hi: nat) {
    t < c < |js| && js[c].lo == lo && js[c].hi == hi && js[c].parent == t
  }

  /** Call t was made by a call on more than 32768 elements, as one of its halves. */
  ghost predicate ForkedBy(js: seq<Job>, t: nat, p: nat) {
    && p < t < |js| && js[p].lo <= js[p].hi && js[p].hi - js[p].lo > 32768
    && ((LeftForked(js[p].pc) && js[p].left == t) || (RightForked(js[p].pc) && js[p].right == t))
  }

  ghost predicate CallOk(js: seq<Job>, t: nat)
    requires t < |js|
  {
    var j := js[t];
    && j.lo <= j.hi
    && (j.hi - j.lo <= 32768 ==> !Forked(j.pc))
    && (j.hi - j.lo > 32768 ==>
          && (LeftForked(j.pc) ==> Half(js, t, j.left, j.lo, j.lo + (j.hi - j.lo) / 2))
          && (RightForked(j.pc) ==> Half(js, t, j.right, j.lo + (j.hi - j.lo) / 2, j.hi)))
    && (t > 0 ==> ForkedBy(js, t, j.parent))
  }

  ghost predicate CallsOk(js: seq<Job>, n: nat) {
    && js != [] && js[0].lo == 0 && js[0].hi == n
    && forall t | 0 <= t < |js| :: CallOk(js, t)
  }

  /** A call keeps its range and its caller, and the halves that it has forked. */
  ghost predicate Keeps(j: Job, j': Job) {
    && j'.lo == j.lo && j'.hi == j.hi && j'.parent == j.parent
    && (LeftForked(j.pc) ==> LeftForked(j'.pc) && j'.left == j.left)
    && (RightForked(j.pc) ==> RightForked(j'.pc) && j'.right == j.right)
  }

  ghost predicate AllKeep(js: seq<Job>, js': seq<Job>) {
    |js| <= |js'| && forall u | 0 <= u < |js| :: Keeps(js[u], js'[u])
  }

  ghost predicate CanGoOn(z: Sys, t: nat) {
    && t < |z.jobs| && z.jobs[t].lo <= z.jobs[t].hi && !z.jobs[t].pc.Returned?
    && (z.jobs[t].pc.Merging? ==> z.jobs[t].left < |z.jobs| && z.jobs[t].right < |z.jobs|)
  }

  lemma JobsKeep(z: Sys, t: nat)
    requires CanGoOn(z, t)
    ensures AllKeep(z.jobs, Jobs(z, t))
    ensures forall u | 0 <= u < |z.jobs| && u != t :: Jobs(z, t)[u].pc == z.jobs[u].pc
  {
  }

  lemma StaysForked(js: seq<Job>, js': seq<Job>, u: nat, p: nat)
    requires ForkedBy(js, u, p) && AllKeep(js, js')
    ensures ForkedBy(js', u, p)
  {
    assert Keeps(js[p], js'[p]) && Keeps(js[u], js'[u]);
  }

  lemma StaysHalf(js: seq<Job>, js': seq<Job>, u: nat, c: nat, lo: nat, hi: nat)
    requires Half(js, u, c, lo, hi) && AllKeep(js, js')
    ensures Half(js', u, c, lo, hi)
  {
    assert Keeps(js[c], js'[c]);
  }

  lemma OtherCallOk(js: seq<Job>, js': seq<Job>, u: nat)
    requires u < |js| && CallOk(js, u) && AllKeep(js, js') && js'[u].pc == js[u].pc
    ensures CallOk(js', u)
  {
    var j := js[u];
    assert Keeps(j, js'[u]);
    if u > 0 { StaysForked(js, js', u, j.parent); }
    if j.hi - j.lo > 32768 {
      var mid := j.lo + (j.hi - j.lo) / 2;
      if LeftForked(j.pc) { StaysHalf(js, js', u, j.left, j.lo, mid); }
      if RightForked(j.pc) { StaysHalf(js, js', u, j.right, mid, j.hi); }
    }
  }

  lemma OwnCallOk(z: Sys, t: nat)
    requires CanGoOn(z, t) && CallOk(z.jobs, t)
    ensures CallOk(Jobs(z, t), t)
  {
    var js, js', j := z.jobs, Jobs(z, t), z.jobs[t];
    JobsKeep(z, t);
    assert Keeps(j, js'[t]);
    if t > 0 { StaysForked(js, js', t, j.parent); }
    if j.hi - j.lo > 32768 {
      var mid := j.lo + (j.hi - j.lo) / 2;
      if LeftForked(j.pc) { StaysHalf(js, js', t, j.left, j.lo, mid); }
      if RightForked(j.pc) { StaysHalf(js, js', t, j.right, mid, j.hi); }
    }
  }

  lemma NewCallOk(z: Sys, t: nat)
    requires CanGoOn(z, t) && CallOk(z.jobs, t) && |Jobs(z, t)| > |z.jobs|
    ensures |Jobs(z, t)| == |z.jobs| + 1 && CallOk(Jobs(z, t), |z.jobs|)
  {
    var js' := Jobs(z, t);
    assert ForkedBy(js', |z.jobs|, t);
  }

  lemma JobsCallsOk(z: Sys, t: nat, n: nat)
    requires CallsOk(z.jobs, n) && CanGoOn(z, t)
    ensures CallsOk(Jobs(z, t), n)
  {
    var js := Jobs(z, t);
    assert CallOk(z.jobs, t);
    JobsKeep(z, t);
    OwnCallOk(z, t);
    if |js| > |z.jobs| { NewCallOk(z, t); }
    forall u | 0 <= u < |js| ensures CallOk(js, u) {
      if u < |z.jobs| && u != t { OtherCallOk(z.jobs, js, u); }
    }
    assert Keeps(z.jobs[0], js[0]);
  }

  lemma {:induction false} RunCallsOk(z: Sys, ms: seq<Move>, n: nat)
    requires CallsOk(z.jobs, n) && Possible(z, ms)
    ensures CallsOk(After(z, ms).jobs, n)
    decreases |ms|
  {
    if ms != [] {
      if ms[0].Body? { JobsCallsOk(z, TopJob(z, ms[0].i), n); }
      RunCallsOk(Do(z, ms[0]), ms[1..], n);
    }
  }

  /** In every run the first call is on the whole input; a call on at most 32768 elements makes no
      other call; a call on more makes exactly two, on its halves, before it is over. */
  lemma ForksExactlyWhenLarge(workers: nat, input: seq<real>, ms: seq<Move>, t: nat)
    requires Possible(Init(workers, input), ms) && t < |After(Init(workers, input), ms).jobs|
    ensures var js := After(Init(workers, input), ms).jobs;
            && js[t].lo <= js[t].hi && (t == 0 ==> js[t].lo == 0 && js[t].hi == |input|)
            && (js[t].hi - js[t].lo <= 32768 ==> forall c | 0 < c < |js| :: js[c].parent != t)
            && (js[t].hi - js[t].lo > 32768 && (js[t].pc.Finished? || js[t].pc.Returned?) ==>
                  && 0 < js[t].left < |js| && 0 < js[t].right < |js|
                  && (forall c | 0 < c < |js| :: js[c].parent == t <==> c == js[t].left || c == js[t].right)
                  && js[js[t].left].lo == js[t].lo && js[js[t].right].hi == js[t].hi
                  && js[js[t].left].hi == js[js[t].right].lo == js[t].lo + (js[t].hi - js[t].lo) / 2)
  {
    assert CallsOk(Init(workers, input).jobs, |input|);
    RunCallsOk(Init(workers, input), ms, |input|);
    var js := After(Init(workers, input), ms).jobs;
    assert CallOk(js, t);
    forall c | 0 < c < |js| && js[c].parent == t
      ensures js[t].hi - js[t].lo > 32768 && (c == js[t].left || c == js[t].right)
    {
      assert CallOk(js, c);
    }
  }
}
