/** Vocabulary shared by every part of the model: task states, machine words and
    the geometry of the thread and process tables. */
module Tasks {

  datatype Option<+T> = None | Some(value: T)

  const WORD := 0x1_0000_0000

  type Word = x: int | 0 <= x < WORD
  type Count = x: int | 0 < x < WORD witness 1
  type Byte = x: int | 0 <= x < 256

  /** Entries of a first-level translation table. */
  const PGD_ENTRIES := 4096

  datatype TaskState = Ready | Running | Blocked | Dead

  predicate Runnable(s: TaskState) {
    s.Ready? || s.Running?
  }

  /** Table sizes and process names: `procs` address spaces, each running `perProc`
      threads. Threads are grouped by process, in blocks of perProc. */
  datatype Config = Config(procs: nat, perProc: nat, names: seq<Option<string>>) {
    predicate Valid() {
      procs > 0 && perProc > 0 && |names| == procs
    }

    /** The first thread of process p. */
    function First(p: nat): nat {
      if p == 0 then 0 else First(p - 1) + perProc
    }

    function Threads(): (n: nat)
      ensures Valid() ==> n > 0
    {
      First(procs)
    }

    function Pid(t: nat): nat
      requires Valid()
    {
      if t < perProc then 0 else 1 + Pid(t - perProc)
    }

    /** The thread's number within its process. */
    function Index(t: nat): (i: nat)
      requires Valid()
      ensures i < perProc
    {
      if t < perProc then t else Index(t - perProc)
    }
  }

  /** In the source's terms: NUM_THREADS is a product, and pid and index of a thread are
      quotient and remainder. */
  lemma {:induction false} FirstIsProduct(c: Config, p: nat)
    ensures c.First(p) == p * c.perProc
  {
    if p > 0 {
      FirstIsProduct(c, p - 1);
      assert p * c.perProc == (p - 1) * c.perProc + c.perProc;
    }
  }

  lemma {:induction false} PidIsQuotient(c: Config, t: nat)
    requires c.Valid()
    ensures t == c.Pid(t) * c.perProc + c.Index(t)
    ensures c.Pid(t) == t / c.perProc && c.Index(t) == t % c.perProc
  {
    if t >= c.perProc {
      PidIsQuotient(c, t - c.perProc);
      assert c.Pid(t) * c.perProc == (c.Pid(t) - 1) * c.perProc + c.perProc;
    }
    ModUnique(t, c.perProc, c.Pid(t), c.Index(t));
  }

  lemma {:induction false} FirstOfPid(c: Config, t: nat)
    requires c.Valid()
    ensures t == c.First(c.Pid(t)) + c.Index(t)
  {
    if t >= c.perProc {
      FirstOfPid(c, t - c.perProc);
    }
  }

  lemma {:induction false} FirstMonotone(c: Config, p: nat, q: nat)
    ensures p < q ==> c.First(p) + c.perProc <= c.First(q)
  {
    if p + 1 < q {
      FirstMonotone(c, p, q - 1);
    }
  }

  /** The threads of process p are exactly a block of perProc consecutive ones. */
  lemma PidBlock(c: Config, p: nat, t: nat)
    requires c.Valid()
    ensures c.Pid(t) == p <==> c.First(p) <= t < c.First(p) + c.perProc
  {
    FirstOfPid(c, t);
    FirstMonotone(c, c.Pid(t), p);
    FirstMonotone(c, p, c.Pid(t));
  }

  /** Slot i of process p is a thread of the table. */
  lemma SlotInRange(c: Config, p: nat, i: nat)
    requires c.Valid() && p < c.procs && i < c.perProc
    ensures c.First(p) + i < c.Threads()
    ensures c.Pid(c.First(p) + i) == p
  {
    FirstMonotone(c, p, c.procs);
    PidBlock(c, p, c.First(p) + i);
  }

  lemma PidInRange(c: Config, t: nat)
    requires c.Valid() && t < c.Threads()
    ensures c.Pid(t) < c.procs
  {
    FirstOfPid(c, t);
    FirstMonotone(c, c.procs, c.Pid(t));
  }

  lemma ModOnce(x: nat, n: nat)
    requires x < 2 * n
    ensures x % n == if x < n then x else x - n
  {
    if x >= n {
      ModUnique(x, n, 1, x - n);
    }
  }

  lemma ModUnique(x: nat, n: nat, q: nat, r: nat)
    requires r < n && x == q * n + r
    ensures x % n == r && x / n == q
  {
    var q', r' := x / n, x % n;
    assert x == q' * n + r';
    MulMonotone(q' + 1, q, n);
    MulMonotone(q + 1, q', n);
  }

  lemma MulMonotone(a: nat, b: nat, n: nat)
    ensures a <= b ==> a * n <= b * n
  {
    if a <= b {
      assert b * n == a * n + (b - a) * n;
    }
  }

  ghost predicate NoDup(q: seq<nat>) {
    forall i, j :: 0 <= i < j < |q| ==> q[i] != q[j]
  }

  /** Pigeonhole: a duplicate-free sequence of numbers below n has at most n entries. */
  lemma {:induction false} Pigeonhole(q: seq<nat>, n: nat)
    requires NoDup(q) && forall i :: 0 <= i < |q| ==> q[i] < n
    ensures |q| <= n
    decreases n
  {
    if q != [] {
      assert q[0] < n;
      if n - 1 in q {
        var i :| 0 <= i < |q| && q[i] == n - 1;
        Pigeonhole(q[..i] + q[i + 1..], n - 1);
      } else {
        Pigeonhole(q, n - 1);
      }
    }
  }
}
