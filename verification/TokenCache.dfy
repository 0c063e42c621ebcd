// src/auth/cache.rs: the IAM token cache, its getters and its background refresher.

module TokenCache {
  import opened Prelude

  const TTL := 600       // seconds a stored token is served for
  const PERIOD := 300    // seconds the refresher sleeps

  datatype Cached = Cached(token: bytes, expiresAt: nat)

  predicate IsFresh(c: Option<Cached>, now: nat) {
    c.Some? && now < c.value.expiresAt
  }

  /** Where a task stands.  Steps that hold a lock without waiting are one step here. */
  datatype Pc =
    | GetRead                    // a getter before its look under the read lock
    | GetWrite                   // a getter waiting for the write lock
    | GetFetching                // a getter in the provider, holding the write lock
    | Returned(result: Option<bytes>)
    | RefreshSleeping(until: nat)
    | RefreshFetching            // the refresher in the provider, holding no lock
    | RefreshStoring(fetched: bytes)

  datatype State = State(now: nat, cached: Option<Cached>, writer: Option<nat>, tasks: seq<Pc>)

  /** One atomic step of the system, with the outcome of the provider where it has one. */
  datatype Act =
    | Tick(seconds: nat)
    | NewGetter
    | Run(task: nat, answer: Option<bytes>)

  datatype Event =
    | Nothing
    | Served(token: bytes)       // a getter returns the cached token
    | Called                     // a getter calls the provider
    | Stored(token: bytes)       // a getter or the refresher stores a token

  function Init(): State {
    State(0, None, None, [RefreshSleeping(PERIOD)])
  }

  function Set(s: State, t: nat, pc: Pc): State
    requires t < |s.tasks|
  {
    s.(tasks := s.tasks[t := pc])
  }

  function Store(s: State, token: bytes): State {
    s.(cached := Some(Cached(token, s.now + TTL)))
  }

  /** What a task does next; a task that has to wait for the write lock stays where it is. */
  function StepTask(s: State, t: nat, answer: Option<bytes>): (r: (State, Event))
    requires t < |s.tasks|
  {
    match s.tasks[t]
    case GetRead =>
      if s.writer.Some? then (s, Nothing)
      else if IsFresh(s.cached, s.now)
      then (Set(s, t, Returned(Some(s.cached.value.token))), Served(s.cached.value.token))
      else (Set(s, t, GetWrite), Nothing)
    case GetWrite =>
      if s.writer.Some? then (s, Nothing)
      else if IsFresh(s.cached, s.now)
      then (Set(s, t, Returned(Some(s.cached.value.token))), Served(s.cached.value.token))
      else (Set(s, t, GetFetching).(writer := Some(t)), Called)
    case GetFetching =>
      var s1 := s.(writer := None);
      (match answer
       case None => (Set(s1, t, Returned(None)), Nothing)
       case Some(token) => (Set(Store(s1, token), t, Returned(Some(token))), Stored(token)))
    case Returned(_) => (s, Nothing)
    case RefreshSleeping(until) =>
      if s.now < until || s.writer.Some? then (s, Nothing)
      else if IsFresh(s.cached, s.now) then (Set(s, t, RefreshSleeping(s.now + PERIOD)), Nothing)
      else (Set(s, t, RefreshFetching), Nothing)
    case RefreshFetching =>
      (match answer
       case None => (Set(s, t, RefreshSleeping(s.now + PERIOD)), Nothing)
       case Some(token) => (Set(s, t, RefreshStoring(token)), Nothing))
    case RefreshStoring(token) =>
      if s.writer.Some? then (s, Nothing)
      else (Set(Store(s, token), t, RefreshSleeping(s.now + PERIOD)), Stored(token))
  }

  function Step(s: State, a: Act): (State, Event) {
    match a
    case Tick(d) => (s.(now := s.now + d), Nothing)
    case NewGetter => (s.(tasks := s.tasks + [GetRead]), Nothing)
    case Run(t, answer) => if t < |s.tasks| then StepTask(s, t, answer) else (s, Nothing)
  }

  /** The state a run has reached after its first `n` steps, from any start. */
  function After(s: State, acts: seq<Act>, n: nat): State
    requires n <= |acts|
  {
    if n == 0 then s else Step(After(s, acts, n - 1), acts[n - 1]).0
  }

  function EventAt(s: State, acts: seq<Act>, i: nat): Event
    requires i < |acts|
  {
    Step(After(s, acts, i), acts[i]).1
  }

  function TimeAt(s: State, acts: seq<Act>, i: nat): nat
    requires i <= |acts|
  {
    After(s, acts, i).now
  }

  // ---- Invariant ----

  predicate Inv(s: State) {
    && (s.cached.Some? ==> s.cached.value.expiresAt <= s.now + TTL)
    && (s.writer.Some? ==> s.writer.value < |s.tasks| && s.tasks[s.writer.value].GetFetching?)
    && (forall t :: 0 <= t < |s.tasks| && s.tasks[t].GetFetching? ==> s.writer == Some(t))
  }

  predicate NotBefore(a: State, b: State) {
    && a.now <= b.now
    && (a.cached.Some? ==> b.cached.Some? && a.cached.value.expiresAt <= b.cached.value.expiresAt)
  }

  lemma StepKeepsInv(s: State, a: Act)
    requires Inv(s)
    ensures Inv(Step(s, a).0)
    ensures NotBefore(s, Step(s, a).0)
  {
  }

  lemma {:induction false} RunKeepsInv(s: State, acts: seq<Act>, n: nat)
    requires Inv(s) && n <= |acts|
    ensures Inv(After(s, acts, n))
  {
    if n > 0 {
      RunKeepsInv(s, acts, n - 1);
      StepKeepsInv(After(s, acts, n - 1), acts[n - 1]);
    }
  }

  // ---- Theorems over every run ----

  /** Between any two moments of a run the expiry never decreases, and a cached token stays. */
  lemma {:induction false} ExpiryNeverDecreases(acts: seq<Act>, i: nat, j: nat)
    requires i <= j <= |acts|
    ensures NotBefore(After(Init(), acts, i), After(Init(), acts, j))
    decreases j - i
  {
    if i < j {
      ExpiryNeverDecreases(acts, i, j - 1);
      RunKeepsInv(Init(), acts, j - 1);
      StepKeepsInv(After(Init(), acts, j - 1), acts[j - 1]);
    }
  }

  /** Getters exclude each other from the provider. */
  lemma OneGetterInProvider(acts: seq<Act>, n: nat, t: nat, u: nat)
    requires n <= |acts|
    requires var s := After(Init(), acts, n);
      t < |s.tasks| && u < |s.tasks| && s.tasks[t].GetFetching? && s.tasks[u].GetFetching?
    ensures t == u
  {
    RunKeepsInv(Init(), acts, n);
  }

  /** Whatever is in the cache was stored by some step of the run, 600 s before it expires. */
  lemma {:induction false} CachedWasStored(acts: seq<Act>, n: nat) returns (i: nat)
    requires n <= |acts| && After(Init(), acts, n).cached.Some?
    ensures i < n
    ensures var c := After(Init(), acts, n).cached.value;
      EventAt(Init(), acts, i) == Stored(c.token) && TimeAt(Init(), acts, i) + 600 == c.expiresAt
    ensures forall k :: i < k < n ==> !EventAt(Init(), acts, k).Stored?
  {
    if n > 0 {
      var before := After(Init(), acts, n - 1);
      if EventAt(Init(), acts, n - 1).Stored? {
        i := n - 1;
      } else {
        assert After(Init(), acts, n).cached == before.cached;
        i := CachedWasStored(acts, n - 1);
      }
    }
  }

  /** A token served from the cache is the last that was stored in the run, less than 600 s ago. */
  lemma ServedWasStoredRecently(acts: seq<Act>, j: nat) returns (i: nat)
    requires j < |acts| && EventAt(Init(), acts, j).Served?
    ensures i < j && EventAt(Init(), acts, i) == Stored(EventAt(Init(), acts, j).token)
    ensures TimeAt(Init(), acts, i) <= TimeAt(Init(), acts, j) < TimeAt(Init(), acts, i) + 600
    ensures forall k :: i < k < j ==> !EventAt(Init(), acts, k).Stored?
  {
    i := CachedWasStored(acts, j);
    ExpiryNeverDecreases(acts, i, j);
  }

  /** After any token is stored, no getter calls the provider for at least 600 s. */
  lemma NoCallSoonAfterStore(acts: seq<Act>, i: nat, j: nat)
    requires i < j < |acts|
    requires EventAt(Init(), acts, i).Stored? && EventAt(Init(), acts, j).Called?
    ensures TimeAt(Init(), acts, j) >= TimeAt(Init(), acts, i) + 600
  {
    var stored := After(Init(), acts, i + 1);
    assert stored.cached.value.expiresAt == TimeAt(Init(), acts, i) + TTL;
    ExpiryNeverDecreases(acts, i + 1, j);
  }

  /** Before step `j` a token was stored less than 600 s ago. */
  predicate StoredRecently(acts: seq<Act>, j: nat)
    requires j <= |acts|
  {
    exists i :: 0 <= i < j && StoredAt(acts, i) && TimeAt(Init(), acts, j) < TimeAt(Init(), acts, i) + 600
  }

  predicate StoredAt(acts: seq<Act>, i: nat)
    requires i < |acts|
  {
    EventAt(Init(), acts, i).Stored?
  }

  lemma FreshIsStoredRecently(acts: seq<Act>, j: nat)
    requires j <= |acts|
    ensures IsFresh(After(Init(), acts, j).cached, TimeAt(Init(), acts, j)) <==> StoredRecently(acts, j)
  {
    hide After, Step;
    if IsFresh(After(Init(), acts, j).cached, TimeAt(Init(), acts, j)) {
      var i := CachedWasStored(acts, j);
      assert StoredAt(acts, i);
    }
    if StoredRecently(acts, j) {
      var i :| 0 <= i < j && StoredAt(acts, i) && TimeAt(Init(), acts, j) < TimeAt(Init(), acts, i) + 600;
      StoresExpiry(acts, i);
      ExpiryNeverDecreases(acts, i + 1, j);
    }
  }

  lemma StoresExpiry(acts: seq<Act>, i: nat)
    requires i < |acts| && StoredAt(acts, i)
    ensures var c := After(Init(), acts, i + 1).cached; c.Some? && c.value.expiresAt == TimeAt(Init(), acts, i) + 600
  {
  }

  /**
   * In every run, a task that looks while nobody has the cache for writing: a getter is served
   * exactly if a token was stored less than 600 s ago, else goes on to the second look and from
   * there to the provider; the refresher goes to the provider exactly if none was, else to sleep.
   */
  lemma LooksExactly(acts: seq<Act>, j: nat, t: nat, answer: Option<bytes>)
    requires j < |acts| && acts[j] == Run(t, answer) && t < |After(Init(), acts, j).tasks|
    requires After(Init(), acts, j).writer.None?
    ensures t < |After(Init(), acts, j + 1).tasks|
    ensures var s, next, e := After(Init(), acts, j), After(Init(), acts, j + 1).tasks[t], EventAt(Init(), acts, j);
      && (s.tasks[t].GetRead? || s.tasks[t].GetWrite? ==>
            if StoredRecently(acts, j) then e.Served? && next == Returned(Some(e.token))
            else if s.tasks[t].GetRead? then e == Nothing && next == GetWrite
            else e == Called && next == GetFetching)
      && (s.tasks[t].RefreshSleeping? && s.tasks[t].until <= s.now ==>
            next == if StoredRecently(acts, j) then RefreshSleeping(s.now + 300) else RefreshFetching)
      && (s.tasks[t].RefreshSleeping? && s.now < s.tasks[t].until ==> next == s.tasks[t])
  {
    hide StoredRecently;
    FreshIsStoredRecently(acts, j);
  }

  /** While a getter has the cache for writing, nobody else reads it, writes it or goes on. */
  lemma WriterKeepsOthersOut(s: State, t: nat, answer: Option<bytes>)
    requires t < |s.tasks| && Inv(s) && s.writer.Some? && s.writer.value != t && !s.tasks[t].RefreshFetching?
    ensures StepTask(s, t, answer) == (s, Nothing)
    ensures s.writer.value < |s.tasks| && s.tasks[s.writer.value] == GetFetching
  {
  }

  /**
   * What the provider says is what a getter returns; a token it stores, with the lock that keeps
   * other getters out, and no failure changes the cache.  The refresher stores a token as soon as
   * nobody has the lock, and sleeps for 300 s after it or after a failure.
   */
  lemma AnswersExactly(s: State, t: nat, answer: Option<bytes>)
    requires t < |s.tasks| && Inv(s)
    ensures var (r, e) := StepTask(s, t, answer);
      && (s.tasks[t].GetFetching? ==>
            && s.writer == Some(t) && r.writer.None? && r.tasks[t] == Returned(answer)
            && (answer.None? ==> e == Nothing && r.cached == s.cached)
            && (answer.Some? ==> e == Stored(answer.value) && r.cached == Some(Cached(answer.value, s.now + 600))))
      && (s.tasks[t].RefreshFetching? ==>
            && e == Nothing && r.cached == s.cached && r.writer == s.writer
            && r.tasks[t] == if answer.None? then RefreshSleeping(s.now + 300) else RefreshStoring(answer.value))
      && (s.tasks[t].RefreshStoring? && s.writer.None? ==>
            && e == Stored(s.tasks[t].fetched) && r.cached == Some(Cached(s.tasks[t].fetched, s.now + 600))
            && r.writer.None? && r.tasks[t] == RefreshSleeping(s.now + 300))
  {
  }

  /** Since the end of step `i`, or since the start, the task has been asleep up to state `j`. */
  predicate AsleepSince(acts: seq<Act>, i: nat, j: nat, t: nat, until: nat)
    requires i <= j <= |acts|
  {
    forall k :: i <= k <= j ==>
      t < |After(Init(), acts, k).tasks| && After(Init(), acts, k).tasks[t] == RefreshSleeping(until)
  }

  /** The only way to fall asleep is by a step of one's own. */
  lemma SleepsByItself(s: State, a: Act, t: nat)
    requires var r := Step(s, a).0; t < |r.tasks| && r.tasks[t].RefreshSleeping?
    ensures || (t < |s.tasks| && s.tasks[t] == Step(s, a).0.tasks[t])
      || (a.Run? && a.task == t && t < |s.tasks| && Step(s, a).0.tasks[t].until == s.now + 300)
  {
  }

  lemma {:induction false} FallsAsleep(acts: seq<Act>, j: nat, t: nat) returns (i: nat)
    requires j <= |acts| && t < |After(Init(), acts, j).tasks| && After(Init(), acts, j).tasks[t].RefreshSleeping?
    ensures i <= j && AsleepSince(acts, i, j, t, After(Init(), acts, j).tasks[t].until)
    ensures After(Init(), acts, j).tasks[t].until == (if i == 0 then 0 else TimeAt(Init(), acts, i - 1)) + 300
    ensures i > 0 ==> acts[i - 1].Run? && acts[i - 1].task == t
  {
    hide Step;
    if j == 0 {
      i := 0;
    } else {
      var before, now := After(Init(), acts, j - 1), After(Init(), acts, j);
      SleepsByItself(before, acts[j - 1], t);
      if t < |before.tasks| && before.tasks[t] == now.tasks[t] {
        i := FallsAsleep(acts, j - 1, t);
      } else {
        i := j;
      }
    }
  }

  /**
   * The refresher rests for at least 300 s: when it looks, that much time has passed since the
   * step with which it fell asleep, or since the start.
   */
  lemma RefresherRests(acts: seq<Act>, j: nat, t: nat) returns (i: nat)
    requires j < |acts| && t < |After(Init(), acts, j).tasks| && After(Init(), acts, j).tasks[t].RefreshSleeping?
    requires t < |After(Init(), acts, j + 1).tasks|
    requires After(Init(), acts, j + 1).tasks[t] != After(Init(), acts, j).tasks[t]
    ensures i <= j && AsleepSince(acts, i, j, t, After(Init(), acts, j).tasks[t].until)
    ensures i > 0 ==> acts[i - 1].Run? && acts[i - 1].task == t
    ensures TimeAt(Init(), acts, j) >= (if i == 0 then 0 else TimeAt(Init(), acts, i - 1)) + 300
  {
    hide AsleepSince;
    i := FallsAsleep(acts, j, t);
  }

  // ---- The cache object ----

  /** What a lone `get` leaves in the cache and returns, the clock being read at t0, t1 and t2. */
  function GetAlone(c: Option<Cached>, t0: nat, t1: nat, t2: nat, answer: Option<bytes>)
    : (Option<Cached>, Option<bytes>)
  {
    if IsFresh(c, t0) || IsFresh(c, t1) then (c, Some(c.value.token))
    else match answer
      case None => (c, None)
      case Some(token) => (Some(Cached(token, t2 + TTL)), Some(token))
  }

  /** One round of the refresher, which looks at t0 and stores at t1. */
  function RefreshAlone(c: Option<Cached>, t0: nat, t1: nat, answer: Option<bytes>): Option<Cached> {
    if IsFresh(c, t0) || answer.None? then c else Some(Cached(answer.value, t1 + TTL))
  }

  /** The cache as one task uses it; the readings of the clock and the provider are inputs. */
  class Cache {
    var inner: Option<Cached>

    constructor ()
      ensures inner == None
    {
      inner := None;
    }

    method Get(t0: nat, t1: nat, t2: nat, answer: Option<bytes>) returns (r: Option<bytes>)
      modifies this
      ensures (inner, r) == GetAlone(old(inner), t0, t1, t2, answer)
    {
      if inner.Some? {
        if t0 < inner.value.expiresAt {
          return Some(inner.value.token);
        }
      }
      if inner.Some? {
        if t1 < inner.value.expiresAt {
          return Some(inner.value.token);
        }
      }
      if answer.None? {
        return None;
      }
      inner := Some(Cached(answer.value, t2 + TTL));
      r := answer;
    }

    method Refresh(t0: nat, t1: nat, answer: Option<bytes>)
      modifies this
      ensures inner == RefreshAlone(old(inner), t0, t1, answer)
    {
      var needsRefresh := if inner.None? then true else t0 >= inner.value.expiresAt;
      if needsRefresh && answer.Some? {
        inner := Some(Cached(answer.value, t1 + TTL));
      }
    }
  }

  /** The steps of one getter that nobody else interleaves with. */
  function GetterSteps(t: nat, t0: nat, t1: nat, t2: nat, answer: Option<bytes>): seq<Act>
    requires t0 <= t1 <= t2
  {
    [Run(t, answer), Tick(t1 - t0), Run(t, answer), Tick(t2 - t1), Run(t, answer)]
  }

  /** A getter alone in the interleaved system does what the object's `Get` does. */
  lemma GetterAlone(s: State, t: nat, t1: nat, t2: nat, answer: Option<bytes>)
    requires t < |s.tasks| && s.tasks[t].GetRead? && s.writer.None? && s.now <= t1 <= t2
    ensures var end := After(s, GetterSteps(t, s.now, t1, t2, answer), 5);
      var (c, r) := GetAlone(s.cached, s.now, t1, t2, answer);
      t < |end.tasks| && end.cached == c && end.tasks[t] == Returned(r) && end.writer.None?
  {
    var acts := GetterSteps(t, s.now, t1, t2, answer);
    var s1 := Step(s, acts[0]).0;
    assert After(s, acts, 1) == s1 by { assert After(s, acts, 0) == s; }
    var s2 := Step(s1, acts[1]).0;
    assert After(s, acts, 2) == s2;
    var s3 := Step(s2, acts[2]).0;
    assert After(s, acts, 3) == s3;
    var s4 := Step(s3, acts[3]).0;
    assert After(s, acts, 4) == s4;
    var s5 := Step(s4, acts[4]).0;
    assert After(s, acts, 5) == s5;
  }

  /** The steps of one round of the refresher that nobody else interleaves with. */
  function RefresherSteps(s: State, t: nat, t1: nat, answer: Option<bytes>): seq<Act>
    requires s.now <= t1
  {
    if IsFresh(s.cached, s.now) then [Run(t, answer)]
    else if answer.None? then [Run(t, answer), Run(t, answer)]
    else [Run(t, answer), Run(t, answer), Tick(t1 - s.now), Run(t, answer)]
  }

  /** A refresher alone in the interleaved system does what a round of the object's does. */
  lemma RefresherAlone(s: State, t: nat, t1: nat, answer: Option<bytes>)
    requires t < |s.tasks| && s.tasks[t].RefreshSleeping? && s.tasks[t].until <= s.now
    requires s.writer.None? && s.now <= t1
    ensures var acts := RefresherSteps(s, t, t1, answer);
      var end := After(s, acts, |acts|);
      && end.cached == RefreshAlone(s.cached, s.now, t1, answer)
      && t < |end.tasks| && end.tasks[t] == RefreshSleeping(end.now + PERIOD) && end.writer.None?
  {
    var acts := RefresherSteps(s, t, t1, answer);
    var s1 := Step(s, acts[0]).0;
    assert After(s, acts, 1) == s1 by { assert After(s, acts, 0) == s; }
    if !IsFresh(s.cached, s.now) {
      var s2 := Step(s1, acts[1]).0;
      assert After(s, acts, 2) == s2;
      if answer.Some? {
        var s3 := Step(s2, acts[2]).0;
        assert After(s, acts, 3) == s3;
        assert After(s, acts, 4) == Step(s3, acts[3]).0;
      }
    }
  }
}
