/** The web gateway's sessions and its login limiter. Times are seconds of one clock. */
module Sessions {
  import opened Sets

  const MINUTE := 60
  const LIFETIME := 12 * 60 * MINUTE
  const IDLE_LIMIT := 30 * MINUTE
  const MAX_SESSIONS := 16
  const MAX_ATTEMPTS := 10

  // ---- the limiter ----

  datatype Window = Window(start: int, attempts: nat)

  /** The window after one more attempt: a new one when the old is more than a minute past. */
  function Attempt(w: Window, now: int): Window
  {
    if now - w.start > MINUTE then Window(now, 1) else w.(attempts := w.attempts + 1)
  }

  function WindowAfter(times: seq<int>): Window
  {
    if times == [] then Window(0, 0) else Attempt(WindowAfter(times[..|times| - 1]), times[|times| - 1])
  }

  ghost predicate Ordered(times: seq<int>)
  {
    forall i | 0 <= i < |times| :: times[i] >= 0 && forall j | i <= j < |times| :: times[i] <= times[j]
  }

  /** The window the attempt fell into, and its number there. */
  function WindowOf(times: seq<int>, k: nat): Window
    requires k < |times|
  {
    WindowAfter(times[..k + 1])
  }

  predicate Admitted(times: seq<int>, k: nat)
    requires k < |times|
  {
    WindowOf(times, k).attempts <= MAX_ATTEMPTS
  }

  lemma {:induction false} WindowHolds(times: seq<int>, k: nat)
    requires Ordered(times) && k < |times|
    ensures WindowOf(times, k).start <= times[k] <= WindowOf(times, k).start + MINUTE
    ensures WindowOf(times, k).attempts >= 1
  {
    var before := times[..k + 1];
    assert before[..k] == times[..k] && before[k] == times[k];
    if k > 0 {
      WindowHolds(times, k - 1);
      assert WindowOf(times, k - 1) == WindowAfter(times[..k]);
      assert times[k - 1] <= times[k];
    }
  }

  /** Later attempts fall into the same window with a higher number, or into one that starts more
      than a minute later. */
  lemma {:induction false} WindowsApart(times: seq<int>, i: nat, j: nat)
    requires Ordered(times) && i < j < |times|
    ensures var w, x := WindowOf(times, i), WindowOf(times, j);
            if x.start == w.start then x.attempts > w.attempts else x.start > w.start + MINUTE
  {
    hide WindowOf;
    assert WindowOf(times, j) == Attempt(WindowOf(times, j - 1), times[j]) by { OneMore(times, j); }
    WindowHolds(times, j - 1);
    if i < j - 1 {
      WindowsApart(times, i, j - 1);
    }
  }

  lemma OneMore(times: seq<int>, j: nat)
    requires 0 < j < |times|
    ensures WindowOf(times, j) == Attempt(WindowOf(times, j - 1), times[j])
  {
    var before := times[..j + 1];
    assert before[..j] == times[..j] && before[j] == times[j];
  }

  /** The admitted attempts of one window. */
  ghost function AdmittedIn(times: seq<int>, start: int): set<nat>
  {
    set k: nat | k < |times| && Admitted(times, k) && WindowOf(times, k).start == start
  }

  /** The admitted attempts within a minute from `a`. */
  ghost function AdmittedWithin(times: seq<int>, a: int): set<nat>
  {
    set k: nat | k < |times| && Admitted(times, k) && a <= times[k] <= a + MINUTE
  }

  /** The numbers are different and lie between 1 and 10. */
  lemma TenPerWindow(times: seq<int>, start: int)
    requires Ordered(times)
    ensures |AdmittedIn(times, start)| <= 10
  {
    var all := AdmittedIn(times, start);
    TenPerPart(times, start, all, MAX_ATTEMPTS);
  }

  /** An attempt is refused only if the ten before it were made within the same minute. */
  lemma {:induction false} RefusedAfterTen(times: seq<int>, k: nat)
    requires Ordered(times) && k < |times| && !Admitted(times, k)
    ensures k >= 10 && times[k] - times[k - 10] <= 60
  {
    WindowReaches(times, k, 10);
    WindowHolds(times, k);
    WindowHolds(times, k - 10);
  }

  lemma {:induction false} WindowReaches(times: seq<int>, k: nat, n: nat)
    requires Ordered(times) && k < |times| && n < WindowOf(times, k).attempts
    ensures n <= k && WindowOf(times, k - n) == WindowOf(times, k).(attempts := WindowOf(times, k).attempts - n)
    decreases n
  {
    var upTo := times[..k + 1];
    assert upTo[..k] == times[..k] && upTo[k] == times[k];
    assert WindowOf(times, k) == Attempt(WindowAfter(times[..k]), times[k]);
    if n > 0 {
      assert k > 0;
      assert WindowOf(times, k - 1) == WindowAfter(times[..k]);
      WindowReaches(times, k - 1, n - 1);
    }
  }

  lemma {:induction false} TenPerPart(times: seq<int>, start: int, part: set<nat>, bound: nat)
    requires Ordered(times)
    requires forall k | k in part :: k < |times| && WindowOf(times, k).start == start && WindowOf(times, k).attempts <= bound
    ensures |part| <= bound
  {
    if part != {} {
      var last := Largest(part);
      WindowHolds(times, last);
      forall k | k in part && k != last
        ensures WindowOf(times, k).attempts <= bound - 1
      {
        WindowsApart(times, k, last);
      }
      TenPerPart(times, start, part - {last}, bound - 1);
    }
  }

  lemma {:induction false} Largest(part: set<nat>) returns (k: nat)
    requires part != {}
    ensures k in part && forall j | j in part :: j <= k
  {
    k :| k in part;
    if part != {k} {
      var rest := part - {k};
      assert part == rest + {k};
      var j := Largest(rest);
      k := if j > k then j else k;
    }
  }

  /** No minute, wherever it starts, sees more than twenty attempts admitted. */
  lemma TwentyPerMinute(times: seq<int>, a: int)
    requires Ordered(times)
    ensures |AdmittedWithin(times, a)| <= 20
  {
    hide WindowOf, Admitted;
    var within := AdmittedWithin(times, a);
    if within != {} {
      var last := Largest(within);
      var w := WindowOf(times, last).start;
      WindowHolds(times, last);
      var late := AdmittedIn(times, w);
      var early := within - late;
      TenPerWindow(times, w);
      assert |within| <= |early| + |late| by { SubsetIsSmaller(within, early + late); }
      if early != {} {
        var first := Largest(early);
        var v := WindowOf(times, first).start;
        forall k | k in early
          ensures k in AdmittedIn(times, v)
        {
          WindowHolds(times, k);
          WindowHolds(times, first);
          WindowsApart(times, first, last);
          if k < first {
            WindowsApart(times, k, first);
          }
        }
        TenPerWindow(times, v);
        SubsetIsSmaller(early, AdmittedIn(times, v));
      }
    }
  }

  // ---- sessions ----

  /** A session, with the channel that tells its streams to end; closing that twice would panic. */
  class Session {
    const created: int
    var last: int
    var closed: bool

    constructor (now: int)
      ensures created == now && last == now && !closed
    {
      created, last, closed := now, now, false;
    }

    method Close()
      requires !closed
      modifies this
      ensures closed && last == old(last)
    {
      closed := true;
    }
  }

  predicate Expired(created: int, last: int, now: int)
  {
    now - created >= LIFETIME || now - last >= IDLE_LIMIT
  }

  ghost predicate LimiterOk(window: Window, attempts: seq<int>)
  {
    Ordered(attempts) && window == WindowAfter(attempts)
  }

  lemma AttemptKeepsLimiter(window: Window, attempts: seq<int>, now: int)
    requires LimiterOk(window, attempts) && now >= 0 && forall t | t in attempts :: t <= now
    ensures LimiterOk(Attempt(window, now), attempts + [now])
    ensures Admitted(attempts + [now], |attempts|) <==> Attempt(window, now).attempts <= MAX_ATTEMPTS
  {
    var next := attempts + [now];
    assert forall i | 0 <= i < |attempts| :: next[i] == attempts[i] && attempts[i] in attempts;
    assert next[..|attempts|] == attempts && next[..|next|] == next;
  }

  /** Sessions in the map are distinct and open; all others that were ever issued are closed. */
  ghost predicate SessionsOk(sessions: map<string, Session>, issued: set<Session>)
    reads issued
  {
    && (forall id | id in sessions :: sessions[id] in issued)
    && (forall id, other | id in sessions && other in sessions && id != other :: sessions[id] != sessions[other])
    && (forall s | s in issued :: s.closed <==> s !in sessions.Values)
  }

  lemma AddingKeepsOk(sessions: map<string, Session>, issued: set<Session>, id: string, s: Session)
    requires SessionsOk(sessions, issued) && id !in sessions && s !in issued && !s.closed
    ensures SessionsOk(sessions[id := s], issued + {s}) && |sessions[id := s]| == |sessions| + 1
  {
    ValuesWith(sessions, id, s);
  }

  datatype Access = Denied | Granted(id: string, created: int, last: int, session: Session)

  datatype Login = RateLimited | Unauthorized | Full | LoggedIn

  class Server {
    var sessions: map<string, Session>
    var window: Window
    var closed: bool
    /** Every session ever issued, and the time of every login attempt. */
    ghost var issued: set<Session>
    ghost var attempts: seq<int>

    ghost function Repr(): set<object>
      reads this
    {
      {this} + issued
    }

    ghost predicate Valid()
      reads this, issued
    {
      LimiterOk(window, attempts) && SessionsOk(sessions, issued) && |sessions| <= MAX_SESSIONS
    }

    constructor ()
      ensures Valid() && sessions == map[] && fresh(Repr())
    {
      sessions, window, closed := map[], Window(0, 0), false;
      issued, attempts := {}, [];
    }

    /** Ends one session: its channel is closed, this once, and it leaves the map. */
    method Drop(id: string)
      requires Valid() && id in sessions
      modifies this, sessions[id]
      ensures Valid()
      ensures sessions == old(sessions) - {id} && old(sessions[id]).closed && old(sessions[id]).last == old(sessions[id].last)
      ensures issued == old(issued) && attempts == old(attempts) && window == old(window) && closed == old(closed)
    {
      var s := sessions[id];
      s.Close();
      sessions := sessions - {id};
      ValuesWithout(old(sessions), id);
    }

    /** Grants access to a session that is young and was used lately, and ends one that is not. */
    method GetSession(cookie: string, now: int) returns (r: Access)
      requires Valid()
      modifies Repr()
      ensures Valid() && issued == old(issued) && attempts == old(attempts)
      ensures r.Granted? <==> cookie in old(sessions)
                              && now - old(sessions[cookie]).created < 12 * 3600
                              && now - old(sessions[cookie].last) < 30 * 60
      ensures r.Granted? ==>
                && sessions == old(sessions) && cookie in sessions
                && r == Granted(cookie, sessions[cookie].created, sessions[cookie].last, sessions[cookie])
                && now - r.created < LIFETIME && now - r.last < IDLE_LIMIT && !r.session.closed
      ensures !r.Granted? ==> sessions == old(sessions) - {cookie}
      ensures forall s | s in old(issued) :: s.last == old(s.last)
    {
      if cookie !in sessions {
        assert sessions - {cookie} == sessions;
        return Denied;
      }
      var s := sessions[cookie];
      if Expired(s.created, s.last, now) {
        Drop(cookie);
        return Denied;
      }
      r := Granted(cookie, s.created, s.last, s);
    }

    method Revoke(id: string)
      requires Valid()
      modifies Repr()
      ensures Valid() && sessions == old(sessions) - {id} && issued == old(issued) && attempts == old(attempts)
      ensures forall s | s in old(issued) :: s.last == old(s.last)
    {
      if id in sessions {
        Drop(id);
      } else {
        assert sessions - {id} == sessions;
      }
    }

    /** Use moves the idle limit only. */
    method Refresh(id: string, now: int)
      requires Valid()
      modifies Repr()
      ensures Valid() && sessions == old(sessions) && issued == old(issued) && attempts == old(attempts)
      ensures forall s | s in issued :: s.last == if id in sessions && s == sessions[id] then now else old(s.last)
    {
      if id in sessions {
        sessions[id].last := now;
      }
    }

    /** Ends everything, on shutdown. */
    method Close()
      requires Valid()
      modifies Repr()
      ensures Valid() && closed && issued == old(issued)
      ensures !old(closed) ==> sessions == map[] && forall s | s in issued :: s.closed
    {
      if closed {
        return;
      }
      closed := true;
      while sessions != map[]
        invariant Valid() && closed && issued == old(issued)
        decreases |sessions|
      {
        NonEmptyHasKey(sessions);
        var id :| id in sessions;
        FewerEntries(sessions, id);
        Drop(id);
      }
    }

    /** Ends what has expired, in any order. */
    method Sweep(now: int)
      requires Valid()
      modifies Repr()
      ensures Valid() && issued == old(issued) && attempts == old(attempts) && window == old(window)
      ensures forall k :: k in sessions
                <==> k in old(sessions) && !Expired(old(sessions[k]).created, old(sessions[k].last), now)
      ensures forall k | k in sessions :: sessions[k] == old(sessions[k])
      ensures forall s | s in issued :: s.last == old(s.last)
    {
      hide LimiterOk, Expired;
      var left := sessions.Keys;
      while left != {}
        invariant Valid() && issued == old(issued) && attempts == old(attempts) && window == old(window)
        invariant left <= old(sessions.Keys)
        invariant forall k | k in sessions :: k in old(sessions) && sessions[k] == old(sessions[k])
        invariant forall k | k in left :: k in sessions
        invariant forall k | k in old(sessions) && k !in left ::
                    k in sessions <==> !Expired(old(sessions[k]).created, old(sessions[k].last), now)
        invariant forall s | s in issued :: s.last == old(s.last)
        decreases |left|
      {
        var key :| key in left;
        if Expired(sessions[key].created, sessions[key].last, now) {
          Drop(key);
        }
        left := left - {key};
      }
    }

    /** A new session, if there is room once the expired ones are gone. */
    method IssueSession(id: string, now: int) returns (issuedNow: bool)
      requires Valid() && id !in sessions
      modifies Repr()
      ensures Valid() && old(issued) <= issued && fresh(issued - old(issued)) && attempts == old(attempts)
      ensures window == old(window)
      ensures forall k | k != id :: k in sessions
                <==> k in old(sessions) && !Expired(old(sessions[k]).created, old(sessions[k].last), now)
      ensures forall k | k in sessions && k != id :: sessions[k] == old(sessions[k])
      ensures issuedNow <==> id in sessions
      ensures issuedNow ==> sessions[id].created == now && sessions[id].last == now && sessions[id] !in old(issued)
      ensures !issuedNow ==> |sessions| >= MAX_SESSIONS
      ensures var live := set k | k in old(sessions) && !Expired(old(sessions[k]).created, old(sessions[k].last), now);
              issuedNow <==> |live| < 16
      ensures forall s | s in old(issued) :: s.last == old(s.last)
    {
      hide LimiterOk, SessionsOk;
      ghost var live := set k | k in sessions && !Expired(sessions[k].created, sessions[k].last, now);
      Sweep(now);
      assert sessions.Keys == live;
      if |sessions| >= MAX_SESSIONS {
        return false;
      }
      issuedNow := true;
      Add(id, now);
    }

    method Add(id: string, now: int)
      requires Valid() && id !in sessions && |sessions| < MAX_SESSIONS
      modifies this
      ensures Valid() && attempts == old(attempts) && window == old(window)
      ensures id in sessions && sessions == old(sessions)[id := sessions[id]]
      ensures sessions[id].created == now && sessions[id].last == now
      ensures fresh(sessions[id]) && issued == old(issued) + {sessions[id]}
    {
      hide LimiterOk, SessionsOk;
      var s := new Session(now);
      AddingKeepsOk(sessions, issued, id, s);
      sessions := sessions[id := s];
      issued := issued + {s};
    }

    /** A login attempt. Whether the password is right, and whether another one is being checked, is
        decided elsewhere. */
    method TryLogin(now: int, busy: bool, passwordOk: bool, id: string) returns (r: Login)
      requires Valid() && id !in sessions
      requires now >= 0 && forall t | t in attempts :: t <= now
      modifies Repr()
      ensures Valid() && attempts == old(attempts) + [now]
      ensures r.LoggedIn? <==> id in sessions
      ensures r.RateLimited? <==> busy || !Admitted(attempts, |attempts| - 1)
      ensures r.Unauthorized? <==> !r.RateLimited? && !passwordOk
      ensures r.LoggedIn? || r.Full? ==>
                var live := set k | k in old(sessions) && !Expired(old(sessions[k]).created, old(sessions[k].last), now);
                r.LoggedIn? <==> |live| < 16
      ensures r.RateLimited? || r.Unauthorized? ==> sessions == old(sessions)
      ensures !Admitted(attempts, |attempts| - 1) ==> r.RateLimited? && sessions == old(sessions)
    {
      hide SessionsOk, LimiterOk, Admitted;
      ghost var live := set k | k in sessions && !Expired(sessions[k].created, sessions[k].last, now);
      AttemptKeepsLimiter(window, attempts, now);
      window := Attempt(window, now);
      attempts := attempts + [now];
      var limited := window.attempts > MAX_ATTEMPTS;
      if limited || busy {
        return RateLimited;
      }
      if !passwordOk {
        return Unauthorized;
      }
      assert live == set k | k in sessions && !Expired(sessions[k].created, sessions[k].last, now);
      var ok := IssueSession(id, now);
      r := if ok then LoggedIn else Full;
    }
  }

  lemma FewerEntries(m: map<string, Session>, id: string)
    requires id in m
    ensures |m - {id}| == |m| - 1
  {
    assert (m - {id}).Keys == m.Keys - {id};
  }

  lemma ValuesWithout(m: map<string, Session>, id: string)
    requires id in m && forall k | k in m && k != id :: m[k] != m[id]
    ensures (m - {id}).Values == m.Values - {m[id]} && |m - {id}| < |m|
  {
    FewerEntries(m, id);
    forall t | t in m.Values && t != m[id]
      ensures t in (m - {id}).Values
    {
      var k :| k in m && m[k] == t;
      assert k in m - {id} && (m - {id})[k] == t;
    }
  }

  lemma ValuesWith(m: map<string, Session>, id: string, s: Session)
    requires id !in m
    ensures m[id := s].Values == m.Values + {s} && |m[id := s]| == |m| + 1
  {
    var n := m[id := s];
    assert n.Keys == m.Keys + {id};
    forall t | t in m.Values
      ensures t in n.Values
    {
      var k :| k in m && m[k] == t;
      assert n[k] == t;
    }
    assert n[id] == s;
  }

  lemma NonEmptyHasKey(m: map<string, Session>)
    requires m != map[]
    ensures exists id :: id in m
  {
    assert |m| > 0;
    assert m.Keys != {};
  }
}
