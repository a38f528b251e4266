/** HttpConnectionPool: its list, its total and the request count of each connection, moved by
    the calls themselves. Each call is proved to be a run of steps of Pool. */
module ConnectionPool {
  import opened Common
  import opened Pool

  class Connection {
    ghost const id: Conn     // which connection of the state this is
    const createTime: nat := 0   // m_createTime, which nothing ever sets
    var request: nat
    var connected: bool      // what isConnected answers; the network may change it between calls

    constructor (ghost id: Conn)
      ensures this.id == id && request == 0 && connected
    {
      this.id := id;
      request, connected := 0, true;
    }
  }

  class HttpConnectionPool {
    const maxRequest: nat
    const maxAlive: nat      // m_maxAliveTime, in milliseconds
    var conns: seq<Connection>
    var total: int
    ghost var state: State

    /** The fields are those of the state, which calls in progress elsewhere may have moved on. */
    ghost predicate Valid()
      reads this, conns
    {
      && Inv(state, maxRequest) && total == state.total && |conns| == |state.idle|
      && (forall i :: 0 <= i < |conns| ==> conns[i].id == state.idle[i] && Counted(conns[i]))
    }

    ghost predicate Counted(c: Connection)
      reads this, c
    {
      c.id in state.uses && c.request == state.uses[c.id]
    }

    constructor (maxAlive: nat, maxRequest: nat)
      ensures Valid() && state == Init && this.maxRequest == maxRequest && this.maxAlive == maxAlive
    {
      this.maxAlive, this.maxRequest := maxAlive, maxRequest;
      conns := [];
      total := 0;
      state := Init;
    }

    /** getConnection's two tests of an idle connection. */
    predicate Usable(c: Connection, now: nat)
      reads c
    {
      c.connected && c.createTime + maxAlive <= now
    }

    /** The locked loop of getConnection. */
    method TakeIdle(now: nat) returns (ptr: Connection?, invalid: nat)
      requires Valid()
      modifies this`conns, this`state
      ensures Valid() && invalid <= |old(conns)| && Step(old(state), Take(invalid), maxRequest) == Some(state)
      ensures if invalid == |old(conns)| then ptr == null && conns == []
              else ptr == old(conns)[invalid] && Usable(ptr, now) && conns == old(conns)[invalid + 1..]
      ensures forall i :: 0 <= i < invalid ==> !old(conns)[i].connected || old(conns)[i].createTime + maxAlive > now
    {
      invalid := 0;
      ptr := null;
      while conns != [] && ptr == null
        invariant invalid + |conns| + (if ptr == null then 0 else 1) == |old(conns)|
        invariant conns == old(conns)[|old(conns)| - |conns|..] && state == old(state)
        invariant ptr != null ==> ptr == old(conns)[invalid] && Usable(ptr, now)
        invariant forall i :: 0 <= i < invalid ==> !Usable(old(conns)[i], now)
        decreases |conns|
      {
        var conn := conns[0];
        conns := conns[1..];
        if !conn.connected {
          invalid := invalid + 1;
        } else if conn.createTime + maxAlive > now {
          invalid := invalid + 1;
        } else {
          ptr := conn;
        }
      }
      TakeKeeps(state, invalid, maxRequest);
      state := Step(state, Take(invalid), maxRequest).value;
    }

    /** getConnection: an idle connection that passes the tests, or a new one, or none if
        connecting fails. Whoever gets it is its only holder. */
    method GetConnection(now: nat, connects: bool) returns (ptr: Connection?, ghost acts: seq<Action>)
      requires Valid()
      modifies this`conns, this`total, this`state
      ensures Valid() && Run(old(state), acts, maxRequest, state)
      ensures state.settling == old(state).settling && state.creating == old(state).creating
      ensures ptr != null ==> state.out == old(state).out + {ptr.id} && ptr.id !in old(state).out
      ensures ptr != null ==> Counted(ptr) && (fresh(ptr) || ptr in old(conns))
      ensures ptr == null ==> state.out == old(state).out && conns == []
      ensures var k := |old(conns)| - |conns|;
        if ptr != null && !fresh(ptr) then
          k > 0 && ptr == old(conns)[k - 1] && conns == old(conns)[k..] && total == old(total) - (k - 1)
        else conns == [] && total == old(total) - |old(conns)| + (if ptr == null then 0 else 1) && (ptr != null <==> connects)
    {
      ghost var s0 := state;
      var invalid;
      ptr, invalid := TakeIdle(now);
      ghost var s1 := state;
      ghost var i := |s0.settling|;
      SettleKeeps(s1, i, maxRequest);
      state := Step(s1, Settle(i), maxRequest).value;
      ghost var s2 := state;
      total := total - invalid;
      acts := [Take(invalid), Settle(i)];
      RunTwo(s0, Take(invalid), Settle(i), maxRequest);
      assert s2.settling == s0.settling;
      if ptr == null {
        CreateKeeps(s2, connects, maxRequest);
        state := Step(s2, Create(connects), maxRequest).value;
        RunOn(s0, acts, maxRequest, s2, Create(connects));
        acts := acts + [Create(connects)];
        assert Places(s0, s0.made) == 0;
        if connects {
          ptr := new Connection(s2.made);
          total := total + 1;
        }
      } else {
        assert Places(s0, ptr.id) == 1;
        assert UsesOk(s0, ptr.id, maxRequest);
      }
    }

    /** ReleasePtr: counted, then deleted if it is unfit or used up, else put back. */
    method ReleasePtr(c: Connection, now: nat) returns (ghost acts: seq<Action>)
      requires Valid() && c.id in state.out && Counted(c)
      modifies this`conns, this`total, this`state, c`request
      ensures Valid() && Run(old(state), acts, maxRequest, state)
      ensures c.request == old(c.request) + 1 && state.out == old(state).out - {c.id}
      ensures if !c.connected || c.createTime + maxAlive >= now || c.request >= maxRequest then conns == old(conns) && total == old(total) - 1 && c.id in state.dead
              else conns == old(conns) + [c] && total == old(total)
    {
      var unfit := !c.connected || c.createTime + maxAlive >= now;
      Released(state, c.id, unfit, maxRequest);
      ghost var s := state;
      acts, state := ReleaseActs(s, c.id, unfit, maxRequest), AfterRelease(s, c.id, unfit, maxRequest);
      assert forall i :: 0 <= i < |conns| ==> conns[i].id == s.idle[i];
      c.request := c.request + 1;
      if unfit || c.request >= maxRequest {
        total := total - 1;
      } else {
        conns := conns + [c];
      }
    }
  }

  /** A connection is never too old. Its time of creation stays 0, so with a 32-bit maximum age both tests
      of the age pass once the clock is past 2^32 milliseconds, which is fifty days after its epoch. */
  lemma NeverTooOld(pool: HttpConnectionPool, c: Connection, now: nat)
    requires pool.maxAlive < 0x1_0000_0000 <= now
    ensures pool.Usable(c, now) <==> c.connected
    ensures !(c.createTime + pool.maxAlive >= now)
  {
  }

  ghost function ReleaseActs(s: State, c: Conn, unfit: bool, maxRequest: nat): seq<Action> {
    [Release(c, unfit), if c in s.uses && !unfit && s.uses[c] + 1 < maxRequest then PushBack(c) else Uncount]
  }

  /** The two steps of a release. */
  ghost function AfterRelease(s: State, c: Conn, unfit: bool, maxRequest: nat): State
    requires c in s.out && c in s.uses
  {
    Step(Step(s, Release(c, unfit), maxRequest).value, ReleaseActs(s, c, unfit, maxRequest)[1], maxRequest).value
  }

  lemma Released(s: State, c: Conn, unfit: bool, maxRequest: nat)
    requires Inv(s, maxRequest) && c in s.out
    ensures c in s.uses && c !in s.idle
    ensures var t := AfterRelease(s, c, unfit, maxRequest);
            && Inv(t, maxRequest) && Run(s, ReleaseActs(s, c, unfit, maxRequest), maxRequest, t)
            && t.out == s.out - {c} && t.uses == s.uses[c := s.uses[c] + 1]
            && if unfit || s.uses[c] + 1 >= maxRequest then t.idle == s.idle && t.total == s.total - 1 && c in t.dead
               else t.idle == s.idle + [c] && t.total == s.total
  {
    assert Places(s, c) == 1;
    assert UsesOk(s, c, maxRequest);
    ReleaseKeeps(s, c, unfit, maxRequest);
    var u := Step(s, Release(c, unfit), maxRequest).value;
    StepKeeps(u, ReleaseActs(s, c, unfit, maxRequest)[1], maxRequest);
    RunTwo(s, Release(c, unfit), ReleaseActs(s, c, unfit, maxRequest)[1], maxRequest);
  }

  lemma RunTwo(s: State, a: Action, b: Action, maxRequest: nat)
    requires Step(s, a, maxRequest).Some? && Step(Step(s, a, maxRequest).value, b, maxRequest).Some?
    ensures Run(s, [a, b], maxRequest, Step(Step(s, a, maxRequest).value, b, maxRequest).value)
  {
    var t := Step(s, a, maxRequest).value;
    var u := Step(t, b, maxRequest).value;
    assert [a, b][1..] == [b] && [b][1..] == [];
    assert Run(u, [], maxRequest, u) && Run(t, [b], maxRequest, u);
  }
}
