/** The HTTP connection pool as a step system. Any number of calls overlap; each step is one
    critical section or one atomic update. The tests of a connection's health and age are
    arbitrary. */
module Pool {
  import opened Common

  type Conn = nat

  /** A getConnection that has left the lock: how many invalid connections it must still take off
      the total, and whether it found none to use. */
  datatype Settling = Settling(invalid: nat, empty: bool)

  datatype State = State(
    idle: seq<Conn>,          // m_conns
    out: set<Conn>,           // handed out and not yet released
    returning: set<Conn>,     // released, not yet pushed back
    dead: set<Conn>,          // deleted
    dropped: nat,             // deleted by a release, not yet taken off the total
    settling: seq<Settling>,
    creating: nat,            // calls about to connect
    total: int,               // m_total
    uses: map<Conn, nat>,     // m_request
    handed: map<Conn, nat>,   // times handed out
    made: nat)                // connections made so far: 0, 1, ..., made - 1

  const Init := State([], {}, {}, {}, 0, [], 0, 0, map[], map[], 0)

  datatype Action =
    | Take(invalid: nat)      // the locked loop: drop some invalid ones, use the next if there is one
    | Settle(i: nat)          // m_total -= invalid_conns.size()
    | Create(ok: bool)        // connect, and ++m_total
    | Release(c: Conn, unfit: bool)
    | PushBack(c: Conn)       // back into m_conns, under the lock
    | Uncount                 // --m_total

  function Bump(m: map<Conn, nat>, c: Conn): map<Conn, nat> { m[c := (if c in m then m[c] else 0) + 1] }

  /** One step, when it is possible. */
  function Step(s: State, a: Action, maxRequest: nat): Option<State> {
    match a
    case Take(k) =>
      if k > |s.idle| then None
      else if k == |s.idle| then
        Some(s.(idle := [], dead := s.dead + Members(s.idle), settling := s.settling + [Settling(k, true)]))
      else
        var c := s.idle[k];
        Some(s.(idle := s.idle[k + 1..], dead := s.dead + Members(s.idle[..k]), out := s.out + {c},
                handed := Bump(s.handed, c), settling := s.settling + [Settling(k, false)]))
    case Settle(i) =>
      if i >= |s.settling| then None
      else
        var x := s.settling[i];
        Some(s.(settling := s.settling[..i] + s.settling[i + 1..], total := s.total - x.invalid,
                creating := s.creating + if x.empty then 1 else 0))
    case Create(ok) =>
      if s.creating == 0 then None
      else if !ok then Some(s.(creating := s.creating - 1))
      else
        Some(s.(creating := s.creating - 1, made := s.made + 1, out := s.out + {s.made}, total := s.total + 1,
                uses := s.uses[s.made := 0], handed := s.handed[s.made := 1]))
    case Release(c, unfit) =>
      if c !in s.out then None
      else
        var t := s.(out := s.out - {c}, uses := Bump(s.uses, c));
        if unfit || t.uses[c] >= maxRequest then Some(t.(dead := t.dead + {c}, dropped := t.dropped + 1))
        else Some(t.(returning := t.returning + {c}))
    case PushBack(c) =>
      if c !in s.returning then None
      else Some(s.(returning := s.returning - {c}, idle := s.idle + [c]))
    case Uncount =>
      if s.dropped == 0 then None else Some(s.(dropped := s.dropped - 1, total := s.total - 1))
  }

  ghost predicate Run(s: State, acts: seq<Action>, maxRequest: nat, t: State)
    decreases |acts|
  {
    if acts == [] then s == t
    else Step(s, acts[0], maxRequest).Some? && Run(Step(s, acts[0], maxRequest).value, acts[1..], maxRequest, t)
  }

  ghost predicate Reachable(s: State, maxRequest: nat) { exists acts :: Run(Init, acts, maxRequest, s) }

  // ---------- the invariant ----------

  function Invalid(x: Settling): nat { x.invalid }

  function Cap(maxRequest: nat): nat { if maxRequest > 1 then maxRequest else 1 }

  /** In how many of the four places connection c is. */
  function Places(s: State, c: Conn): nat {
    (if c in s.idle then 1 else 0) + (if c in s.out then 1 else 0)
    + (if c in s.returning then 1 else 0) + (if c in s.dead then 1 else 0)
  }

  /** The uses of connection c agree with where it is. */
  predicate UsesOk(s: State, c: Conn, maxRequest: nat) {
    && c in s.uses && c in s.handed
    && s.handed[c] == s.uses[c] + (if c in s.out then 1 else 0)
    && 1 <= s.handed[c] <= Cap(maxRequest)
    && (c in s.idle || c in s.returning ==> s.uses[c] < maxRequest)
  }

  ghost predicate Inv(s: State, maxRequest: nat) {
    && Distinct(s.idle)
    && (forall c: Conn :: Places(s, c) == if c < s.made then 1 else 0)
    && (forall c: Conn :: c < s.made ==> UsesOk(s, c, maxRequest))
    && (forall c: Conn :: c in s.handed ==> c < s.made)
    && s.total == |s.idle| + |s.out| + |s.returning| + s.dropped + Sum(s.settling, Invalid)
  }

  /** A distinct list cut at k: every member is in exactly one part. */
  lemma CutAt(xs: seq<Conn>, k: nat)
    requires Distinct(xs) && k < |xs|
    ensures Distinct(xs[k + 1..])
    ensures forall c :: c in xs <==> c in Members(xs[..k]) || c == xs[k] || c in xs[k + 1..]
    ensures forall c :: c in Members(xs[..k]) ==> c != xs[k] && c !in xs[k + 1..]
    ensures xs[k] !in xs[k + 1..]
  {
    assert xs == xs[..k] + [xs[k]] + xs[k + 1..];
  }

  lemma TakeKeeps(s: State, k: nat, maxRequest: nat)
    requires Inv(s, maxRequest) && k <= |s.idle|
    ensures Inv(Step(s, Take(k), maxRequest).value, maxRequest)
  {
    var t := Step(s, Take(k), maxRequest).value;
    SumAppend(s.settling, t.settling[|s.settling|], Invalid);
    if k < |s.idle| {
      CutAt(s.idle, k);
      assert Places(s, s.idle[k]) == 1;
    }
    forall c: Conn ensures Places(t, c) == if c < s.made then 1 else 0 {
      assert Places(s, c) == if c < s.made then 1 else 0;
    }
    forall c: Conn | c < s.made ensures UsesOk(t, c, maxRequest) {
      assert UsesOk(s, c, maxRequest) && Places(s, c) == 1;
    }
  }

  lemma SettleKeeps(s: State, i: nat, maxRequest: nat)
    requires Inv(s, maxRequest) && i < |s.settling|
    ensures Inv(Step(s, Settle(i), maxRequest).value, maxRequest)
  {
    var t := Step(s, Settle(i), maxRequest).value;
    SumRemove(s.settling, i, Invalid);
    forall c: Conn ensures Places(t, c) == if c < s.made then 1 else 0 {
      assert Places(s, c) == if c < s.made then 1 else 0;
    }
    forall c: Conn | c < s.made ensures UsesOk(t, c, maxRequest) {
      assert UsesOk(s, c, maxRequest);
    }
  }

  lemma CreateKeeps(s: State, ok: bool, maxRequest: nat)
    requires Inv(s, maxRequest) && s.creating > 0
    ensures Inv(Step(s, Create(ok), maxRequest).value, maxRequest)
  {
    var t := Step(s, Create(ok), maxRequest).value;
    assert Places(s, s.made) == 0;
    forall c: Conn ensures Places(t, c) == if c < t.made then 1 else 0 {
      assert Places(s, c) == if c < s.made then 1 else 0;
    }
    forall c: Conn | c < t.made ensures UsesOk(t, c, maxRequest) {
      if c < s.made { assert UsesOk(s, c, maxRequest); }
    }
  }

  lemma ReleaseKeeps(s: State, c: Conn, unfit: bool, maxRequest: nat)
    requires Inv(s, maxRequest) && c in s.out
    ensures Inv(Step(s, Release(c, unfit), maxRequest).value, maxRequest)
  {
    var t := Step(s, Release(c, unfit), maxRequest).value;
    assert Places(s, c) == 1;
    assert UsesOk(s, c, maxRequest);
    forall d: Conn ensures Places(t, d) == if d < s.made then 1 else 0 {
      assert Places(s, d) == if d < s.made then 1 else 0;
    }
    forall d: Conn | d < s.made ensures UsesOk(t, d, maxRequest) {
      assert UsesOk(s, d, maxRequest);
    }
  }

  lemma PushBackKeeps(s: State, c: Conn, maxRequest: nat)
    requires Inv(s, maxRequest) && c in s.returning
    ensures Inv(Step(s, PushBack(c), maxRequest).value, maxRequest)
  {
    var t := Step(s, PushBack(c), maxRequest).value;
    assert Places(s, c) == 1;
    forall d: Conn ensures Places(t, d) == if d < s.made then 1 else 0 {
      assert Places(s, d) == if d < s.made then 1 else 0;
    }
    forall d: Conn | d < s.made ensures UsesOk(t, d, maxRequest) {
      assert UsesOk(s, d, maxRequest);
    }
  }

  lemma StepKeeps(s: State, a: Action, maxRequest: nat)
    requires Inv(s, maxRequest) && Step(s, a, maxRequest).Some?
    ensures Inv(Step(s, a, maxRequest).value, maxRequest)
  {
    match a
    case Take(k) => TakeKeeps(s, k, maxRequest);
    case Settle(i) => SettleKeeps(s, i, maxRequest);
    case Create(ok) => CreateKeeps(s, ok, maxRequest);
    case Release(c, unfit) => ReleaseKeeps(s, c, unfit, maxRequest);
    case PushBack(c) => PushBackKeeps(s, c, maxRequest);
    case Uncount => UncountKeeps(s, maxRequest);
  }

  lemma UncountKeeps(s: State, maxRequest: nat)
    requires Inv(s, maxRequest) && s.dropped > 0
    ensures Inv(Step(s, Uncount, maxRequest).value, maxRequest)
  {
    var t := Step(s, Uncount, maxRequest).value;
    forall c: Conn ensures Places(t, c) == if c < s.made then 1 else 0 {
      assert Places(s, c) == if c < s.made then 1 else 0;
    }
    forall c: Conn | c < s.made ensures UsesOk(t, c, maxRequest) {
      assert UsesOk(s, c, maxRequest);
    }
  }

  lemma {:induction false} RunKeeps(s: State, acts: seq<Action>, maxRequest: nat, t: State)
    requires Inv(s, maxRequest) && Run(s, acts, maxRequest, t)
    ensures Inv(t, maxRequest)
    decreases |acts|
  {
    if acts != [] {
      StepKeeps(s, acts[0], maxRequest);
      RunKeeps(Step(s, acts[0], maxRequest).value, acts[1..], maxRequest, t);
    }
  }

  lemma ReachableInv(s: State, maxRequest: nat)
    requires Reachable(s, maxRequest)
    ensures Inv(s, maxRequest)
  {
    var acts :| Run(Init, acts, maxRequest, s);
    RunKeeps(Init, acts, maxRequest, s);
  }

  // ---------- what holds over every run ----------

  /** No call is between a critical section and its update of the total. */
  predicate Quiet(s: State) { s.settling == [] && s.dropped == 0 && s.returning == {} }

  /** Every connection ever made is idle, handed out, on its way back or deleted, and only one of
      these; it has been used at most max(1, maxRequest) times; and the total is exact but for
      the updates still owed. */
  lemma Conserved(s: State, maxRequest: nat, c: Conn)
    requires Reachable(s, maxRequest)
    ensures c < s.made <==> c in s.idle || c in s.out || c in s.returning || c in s.dead
    ensures c in s.idle ==> c !in s.out && c !in s.returning && c !in s.dead
    ensures c in s.out ==> c !in s.returning && c !in s.dead
    ensures c in s.returning ==> c !in s.dead
    ensures c < s.made ==> c in s.handed && s.handed[c] <= Cap(maxRequest)
    ensures s.total == |s.idle| + |s.out| + |s.returning| + s.dropped + Sum(s.settling, Invalid)
    ensures Quiet(s) ==> s.total == |s.idle| + |s.out|
  {
    ReachableInv(s, maxRequest);
    assert Places(s, c) == if c < s.made then 1 else 0;
    if c < s.made { assert UsesOk(s, c, maxRequest); }
  }

  /** A connection is handed out only when nobody holds it, once at a time. */
  lemma NeverSharedOut(s: State, a: Action, maxRequest: nat, c: Conn)
    requires Reachable(s, maxRequest) && Step(s, a, maxRequest).Some? && c in s.handed
    requires c in Step(s, a, maxRequest).value.handed
    requires Step(s, a, maxRequest).value.handed[c] != s.handed[c]
    ensures c !in s.out && c in Step(s, a, maxRequest).value.out
    ensures Step(s, a, maxRequest).value.handed[c] == s.handed[c] + 1
  {
    ReachableInv(s, maxRequest);
    assert Places(s, c) == if c < s.made then 1 else 0;
  }

  // ---------- the size limit ----------

  lemma {:induction false} RunOn(s: State, acts: seq<Action>, maxRequest: nat, t: State, a: Action)
    requires Run(s, acts, maxRequest, t) && Step(t, a, maxRequest).Some?
    ensures Run(s, acts + [a], maxRequest, Step(t, a, maxRequest).value)
    decreases |acts|
  {
    if acts != [] {
      assert (acts + [a])[1..] == acts[1..] + [a];
      RunOn(Step(s, acts[0], maxRequest).value, acts[1..], maxRequest, t, a);
    } else {
      assert [a][1..] == [];
      assert Run(Step(t, a, maxRequest).value, [], maxRequest, Step(t, a, maxRequest).value);
    }
  }

  lemma ReachOn(s: State, a: Action, maxRequest: nat)
    requires Reachable(s, maxRequest) && Step(s, a, maxRequest).Some?
    ensures Reachable(Step(s, a, maxRequest).value, maxRequest)
  {
    var acts :| Run(Init, acts, maxRequest, s);
    RunOn(Init, acts, maxRequest, s, a);
  }

  /** Reachable, with n connections handed out for the first time, j idle ones and nothing owed. */
  ghost predicate Busy(s: State, maxRequest: nat, n: nat, j: nat) {
    && Reachable(s, maxRequest) && Quiet(s) && |s.out| == n && |s.idle| == j
    && forall c :: c in s.out ==> c in s.uses && s.uses[c] == 0
  }

  lemma {:induction false} HandOutMany(n: nat, maxRequest: nat) returns (s: State)
    ensures Busy(s, maxRequest, n, 0)
  {
    if n == 0 {
      s := Init;
      assert Run(Init, [], maxRequest, Init);
    } else {
      var r := HandOutMany(n - 1, maxRequest);
      ReachableInv(r, maxRequest);
      assert Places(r, r.made) == 0;
      ReachOn(r, Take(0), maxRequest);
      var t := Step(r, Take(0), maxRequest).value;
      ReachOn(t, Settle(0), maxRequest);
      var u := Step(t, Settle(0), maxRequest).value;
      ReachOn(u, Create(true), maxRequest);
      s := Step(u, Create(true), maxRequest).value;
    }
  }

  lemma {:induction false} ReleaseMany(s: State, n: nat, j: nat, maxRequest: nat) returns (t: State)
    requires maxRequest > 1 && Busy(s, maxRequest, n, j)
    ensures Busy(t, maxRequest, 0, n + j)
    decreases n
  {
    if n == 0 {
      t := s;
    } else {
      var c :| c in s.out;
      ReachOn(s, Release(c, false), maxRequest);
      var u := Step(s, Release(c, false), maxRequest).value;
      ReachOn(u, PushBack(c), maxRequest);
      var v := Step(u, PushBack(c), maxRequest).value;
      t := ReleaseMany(v, n - 1, j + 1, maxRequest);
    }
  }

  lemma IdleReused(s: State, maxRequest: nat)
    requires Inv(s, maxRequest)
    ensures s.idle != [] ==> maxRequest > 1
  {
    if s.idle != [] {
      var c := s.idle[0];
      assert Places(s, c) == 1;
      assert UsesOk(s, c, maxRequest);
    }
  }

  /** The pool's maximum size is stored and never consulted: whatever it is, more connections than
      that can lie idle at once, if connections may be used more than once; and if not, none ever
      does. */
  lemma IdleBoundedExactly(maxSize: nat, maxRequest: nat)
    ensures (forall s :: Reachable(s, maxRequest) ==> |s.idle| <= maxSize) <==> maxRequest <= 1
  {
    if maxRequest <= 1 {
      forall s | Reachable(s, maxRequest) ensures |s.idle| <= maxSize {
        ReachableInv(s, maxRequest);
        IdleReused(s, maxRequest);
      }
    } else {
      var s := HandOutMany(maxSize + 1, maxRequest);
      var t := ReleaseMany(s, maxSize + 1, 0, maxRequest);
      assert Reachable(t, maxRequest) && |t.idle| == maxSize + 1;
    }
  }
}
