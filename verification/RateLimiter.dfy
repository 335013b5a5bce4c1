/**
  The fixed-window rate limit on admin requests: a window per key, opened by a request when none is
  open, that admits `LIMIT` requests.
*/
module RateLimiter {
  import opened Numbers

  const WINDOW_MS: int := 60_000
  const LIMIT: nat := 30

  datatype Window = Window(count: nat, resetAt: int)
  datatype Request = Request(key: string, now: int)

  type Windows = map<string, Window>

  predicate Open(w: Windows, r: Request) {
    r.key in w && r.now < w[r.key].resetAt
  }

  /** The windows after a request. */
  function After(w: Windows, r: Request): Windows {
    if Open(w, r) then w[r.key := w[r.key].(count := w[r.key].count + 1)]
    else w[r.key := Window(1, r.now + WINDOW_MS)]
  }

  predicate Admits(w: Windows, r: Request) {
    Open(w, r) ==> w[r.key].count + 1 <= LIMIT
  }

  // ---------- runs ----------

  function WindowsOf(run: seq<Request>): Windows {
    if run == [] then map[] else After(WindowsOf(run[..|run| - 1]), run[|run| - 1])
  }

  predicate Ordered(run: seq<Request>) {
    forall i, j | 0 <= i < j < |run| :: run[i].now <= run[j].now
  }

  /** How many requests of this key were admitted from `a` to `b`. */
  function AdmittedIn(run: seq<Request>, key: string, a: int, b: int): nat {
    if run == [] then 0
    else
      var r := run[|run| - 1];
      AdmittedIn(run[..|run| - 1], key, a, b) +
      if r.key == key && a <= r.now <= b && Admits(WindowsOf(run[..|run| - 1]), r) then 1 else 0
  }

  lemma {:induction false} LaterStartAdmitsFewer(run: seq<Request>, key: string, a: int, a': int, b: int)
    requires a <= a'
    ensures AdmittedIn(run, key, a', b) <= AdmittedIn(run, key, a, b)
  {
    if run != [] {
      LaterStartAdmitsFewer(run[..|run| - 1], key, a, a', b);
    }
  }

  lemma {:induction false} LaterEndAddsNothing(run: seq<Request>, key: string, a: int, b: int, b': int)
    requires b <= b' && forall i | 0 <= i < |run| :: run[i].now <= b
    ensures AdmittedIn(run, key, a, b') == AdmittedIn(run, key, a, b)
  {
    if run != [] {
      LaterEndAddsNothing(run[..|run| - 1], key, a, b, b');
    }
  }

  /**
    What the window of a key records at time `now`: since it was opened its count of requests, up
    to the limit, was admitted, nothing from its end on, and no more than the limit in the length of
    a window before it.
  */
  ghost predicate Records(run: seq<Request>, key: string, now: int) {
    var w := WindowsOf(run);
    if key !in w then forall a :: AdmittedIn(run, key, a, now) == 0
    else
      var since := w[key].resetAt - WINDOW_MS;
      && since <= now && 1 <= w[key].count
      && AdmittedIn(run, key, since, now) == Min(w[key].count, LIMIT)
      && AdmittedIn(run, key, w[key].resetAt, now) == 0
      && forall a | since - WINDOW_MS <= a :: AdmittedIn(run, key, a, now) <= LIMIT + Min(w[key].count, LIMIT)
  }

  lemma {:induction false} WindowsRecord(run: seq<Request>, key: string, now: int)
    requires Ordered(run) && forall i | 0 <= i < |run| :: run[i].now <= now
    ensures Records(run, key, now)
    decreases |run|
  {
    if run != [] {
      var front, r := run[..|run| - 1], run[|run| - 1];
      WindowsRecord(front, key, r.now);
      OneMoreRecorded(run, key);
      forall a ensures AdmittedIn(run, key, a, now) == AdmittedIn(run, key, a, r.now) {
        LaterEndAddsNothing(run, key, a, r.now, now);
      }
    }
  }

  lemma OneMoreRecorded(run: seq<Request>, key: string)
    requires run != [] && Records(run[..|run| - 1], key, run[|run| - 1].now)
    ensures Records(run, key, run[|run| - 1].now)
  {
    var front, r := run[..|run| - 1], run[|run| - 1];
    var w := WindowsOf(front);
    if r.key != key {
      assert forall a :: AdmittedIn(run, key, a, r.now) == AdmittedIn(front, key, a, r.now);
    } else {
      forall a ensures AdmittedIn(run, key, a, r.now) ==
                       AdmittedIn(front, key, a, r.now) + if a <= r.now && Admits(w, r) then 1 else 0
      {
      }
      if key in w && !Open(w, r) {
        NewWindow(front, key, r, w[key].resetAt);
      }
    }
  }

  /** When a window has ended, a new one starts with no admissions, and the old one had at most the limit. */
  lemma NewWindow(front: seq<Request>, key: string, r: Request, resetAt: int)
    requires AdmittedIn(front, key, resetAt - WINDOW_MS, r.now) <= LIMIT
    requires AdmittedIn(front, key, resetAt, r.now) == 0 && resetAt <= r.now
    ensures AdmittedIn(front, key, r.now, r.now) == 0 == AdmittedIn(front, key, r.now + WINDOW_MS, r.now)
    ensures forall a | r.now - WINDOW_MS <= a :: AdmittedIn(front, key, a, r.now) <= LIMIT
  {
    LaterStartAdmitsFewer(front, key, resetAt, r.now, r.now);
    LaterStartAdmitsFewer(front, key, resetAt, r.now + WINDOW_MS, r.now);
    forall a | r.now - WINDOW_MS <= a ensures AdmittedIn(front, key, a, r.now) <= LIMIT {
      LaterStartAdmitsFewer(front, key, resetAt - WINDOW_MS, a, r.now);
    }
  }

  /** At most 30 requests of a key are admitted in one window of a minute. */
  lemma WindowIsLimited(run: seq<Request>, key: string, now: int)
    requires Ordered(run) && (forall i | 0 <= i < |run| :: run[i].now <= now) && key in WindowsOf(run)
    ensures AdmittedIn(run, key, WindowsOf(run)[key].resetAt - 60_000, now) <= 30
  {
    WindowsRecord(run, key, now);
  }

  /** At most 60 requests of a key are admitted in any interval of a minute, both ends included. */
  lemma {:induction false} IntervalIsLimited(run: seq<Request>, key: string, a: int, b: int)
    requires Ordered(run) && b <= a + 60_000
    ensures AdmittedIn(run, key, a, b) <= 60
    decreases |run|
  {
    if run != [] {
      var front, r := run[..|run| - 1], run[|run| - 1];
      if a <= r.now <= b {
        WindowsRecord(run, key, r.now);
        LaterEndAddsNothing(run, key, a, r.now, b);
      } else {
        IntervalIsLimited(front, key, a, b);
      }
    }
  }

  /** The limit in every request of two windows, one after the other. */
  function TwoBursts(key: string): seq<Request> {
    seq(2 * LIMIT, i requires 0 <= i < 2 * LIMIT => Request(key, if i < LIMIT then 0 else WINDOW_MS))
  }

  /** The bound is reached: all of them are admitted, within the length of one window. */
  lemma TwoBurstsAreAdmitted(key: string)
    ensures Ordered(TwoBursts(key)) && AdmittedIn(TwoBursts(key), key, 0, 60_000) == 60
  {
    BurstsAdmitted(key, 2 * LIMIT);
    assert TwoBursts(key)[..2 * LIMIT] == TwoBursts(key);
  }

  lemma {:induction false} BurstsAdmitted(key: string, n: nat)
    requires n <= 2 * LIMIT
    ensures AdmittedIn(TwoBursts(key)[..n], key, 0, WINDOW_MS) == n
    ensures WindowsOf(TwoBursts(key)[..n]) ==
            if n == 0 then map[] else if n <= LIMIT then map[key := Window(n, WINDOW_MS)]
            else map[key := Window(n - LIMIT, 2 * WINDOW_MS)]
  {
    if n > 0 {
      var run := TwoBursts(key)[..n];
      BurstsAdmitted(key, n - 1);
      assert run[..n - 1] == TwoBursts(key)[..n - 1];
    }
  }

  /** A request is refused exactly when the window is open and has admitted 30 requests. */
  lemma RefusedIff(run: seq<Request>, r: Request)
    requires Ordered(run + [r])
    ensures !Admits(WindowsOf(run), r) <==>
            && r.key in WindowsOf(run) && r.now < WindowsOf(run)[r.key].resetAt
            && AdmittedIn(run, r.key, WindowsOf(run)[r.key].resetAt - 60_000, r.now) == 30
  {
    forall i | 0 <= i < |run| ensures run[i].now <= r.now {
      assert (run + [r])[i] == run[i] && (run + [r])[|run|] == r;
    }
    forall i, j | 0 <= i < j < |run| ensures run[i].now <= run[j].now {
      assert (run + [r])[i] == run[i] && (run + [r])[j] == run[j];
    }
    WindowsRecord(run, r.key, r.now);
  }

  // ---------- one key at a time ----------

  function Of(run: seq<Request>, key: string): seq<Request> {
    if run == [] then []
    else
      var some := Of(run[..|run| - 1], key);
      if run[|run| - 1].key == key then some + [run[|run| - 1]] else some
  }

  /** The requests of other keys have no influence on a key. */
  lemma {:induction false} KeysAreIndependent(run: seq<Request>, key: string, a: int, b: int)
    ensures key in WindowsOf(run) <==> key in WindowsOf(Of(run, key))
    ensures key in WindowsOf(run) ==> WindowsOf(run)[key] == WindowsOf(Of(run, key))[key]
    ensures AdmittedIn(run, key, a, b) == AdmittedIn(Of(run, key), key, a, b)
  {
    if run != [] {
      var front, r := run[..|run| - 1], run[|run| - 1];
      KeysAreIndependent(front, key, a, b);
      if r.key == key {
        assert (Of(front, key) + [r])[..|Of(front, key)|] == Of(front, key);
      }
    }
  }

  /** One more request moves the windows, and the limits still hold. */
  lemma OneMoreRequest(run: seq<Request>, r: Request)
    ensures WindowsOf(run + [r]) == After(WindowsOf(run), r)
    ensures Ordered(run + [r]) ==> forall a, b | b <= a + 60_000 :: AdmittedIn(run + [r], r.key, a, b) <= 60
  {
    assert (run + [r])[..|run|] == run;
    forall a, b | Ordered(run + [r]) && b <= a + 60_000 ensures AdmittedIn(run + [r], r.key, a, b) <= 60 {
      IntervalIsLimited(run + [r], r.key, a, b);
    }
  }

  // ---------- the limiter ----------

  class Limiter {
    var windows: Windows
    ghost var past: seq<Request>

    constructor ()
      ensures Valid() && past == []
    {
      windows, past := map[], [];
    }

    ghost predicate Valid()
      reads this
    {
      windows == WindowsOf(past)
    }

    method Attempt(r: Request) returns (admitted: bool)
      requires Valid()
      modifies this
      ensures Valid() && past == old(past) + [r]
      ensures admitted == Admits(old(windows), r)
      ensures r.key !in old(windows) || old(windows)[r.key].resetAt <= r.now ==>
                admitted && windows == old(windows)[r.key := Window(1, r.now + 60_000)]
      ensures r.key in old(windows) && r.now < old(windows)[r.key].resetAt ==>
                var w := old(windows)[r.key];
                (admitted <==> w.count < 30) && windows == old(windows)[r.key := Window(w.count + 1, w.resetAt)]
      ensures old(Ordered(past + [r])) ==>
                forall a, b | b <= a + 60_000 :: AdmittedIn(past, r.key, a, b) <= 60
    {
      OneMoreRequest(past, r);
      past := past + [r];
      if r.key !in windows || windows[r.key].resetAt <= r.now {
        windows := windows[r.key := Window(1, r.now + WINDOW_MS)];
        return true;
      }
      windows := windows[r.key := windows[r.key].(count := windows[r.key].count + 1)];
      return windows[r.key].count <= LIMIT;
    }
  }
}
