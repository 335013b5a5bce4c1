/**
  The event stream: a cursor that polls a growing log page by page and writes each matching event.
*/
module EventStream {
  import opened Numbers
  import opened Wrappers

  datatype Event = Event(sequence: nat, taskId: string, payload: string)
  datatype Page = Page(events: seq<Event>, hasMore: bool, nextAfter: nat)

  const PAGE_LIMIT: nat := 100
  const PAGES_PER_POLL: nat := 5
  const AGE_LIMIT_MS: int := 600_000

  /** The log in the order of its sequence numbers. */
  predicate Sorted(log: seq<Event>) {
    forall i, j | 0 <= i < j < |log| :: log[i].sequence < log[j].sequence
  }

  function Latest(log: seq<Event>): nat {
    if log == [] then 0 else log[|log| - 1].sequence
  }

  /** No filter means every task. */
  predicate Matches(e: Event, task: Option<string>) {
    task.Some? ==> e.taskId == task.value
  }

  /** The matching events with a sequence number above `a`. */
  function After(log: seq<Event>, task: Option<string>, a: nat): seq<Event> {
    if log == [] then []
    else
      var (some, last) := (After(log[..|log| - 1], task, a), log[|log| - 1]);
      if Matches(last, task) && a < last.sequence then some + [last] else some
  }

  /** The matching events with a sequence number above `a` and up to `b`. */
  function Between(log: seq<Event>, task: Option<string>, a: nat, b: nat): seq<Event> {
    if log == [] then []
    else
      var (some, last) := (Between(log[..|log| - 1], task, a, b), log[|log| - 1]);
      if Matches(last, task) && a < last.sequence <= b then some + [last] else some
  }

  lemma {:induction false} BetweenHas(log: seq<Event>, task: Option<string>, a: nat, b: nat, e: Event)
    ensures e in Between(log, task, a, b) <==> e in log && Matches(e, task) && a < e.sequence <= b
  {
    if log != [] {
      assert log == log[..|log| - 1] + [log[|log| - 1]];
      BetweenHas(log[..|log| - 1], task, a, b, e);
    }
  }

  /** After a number come exactly the events of that task id, or of any without one, with a higher number. */
  lemma {:induction false} AfterHas(log: seq<Event>, task: Option<string>, a: nat, e: Event)
    ensures e in After(log, task, a) <==> e in log && (task.None? || e.taskId == task.value) && e.sequence > a
  {
    if log != [] {
      assert log == log[..|log| - 1] + [log[|log| - 1]];
      AfterHas(log[..|log| - 1], task, a, e);
    }
  }

  lemma {:induction false} BetweenIsSorted(log: seq<Event>, task: Option<string>, a: nat, b: nat)
    requires Sorted(log)
    ensures Sorted(Between(log, task, a, b))
  {
    if log != [] {
      var front, last := log[..|log| - 1], log[|log| - 1];
      var some := Between(front, task, a, b);
      BetweenIsSorted(front, task, a, b);
      forall i | 0 <= i < |some| ensures some[i].sequence < last.sequence {
        BetweenHas(front, task, a, b, some[i]);
      }
    }
  }

  /** What was written up to `b` and what is written from `b` on fit together. */
  lemma {:induction false} BetweenConcat(log: seq<Event>, task: Option<string>, a: nat, b: nat, c: nat)
    requires Sorted(log) && a <= b <= c
    ensures Between(log, task, a, b) + Between(log, task, b, c) == Between(log, task, a, c)
  {
    if log != [] {
      var front, last := log[..|log| - 1], log[|log| - 1];
      BetweenConcat(front, task, a, b, c);
      if last.sequence <= b {
        NothingBetween(front, task, b, c);
        NothingBetween(log, task, b, c);
      }
    }
  }

  lemma {:induction false} NothingBetween(log: seq<Event>, task: Option<string>, a: nat, b: nat)
    requires b <= a || (Sorted(log) && Latest(log) <= a)
    ensures Between(log, task, a, b) == []
  {
    if log != [] {
      assert b <= a || Latest(log[..|log| - 1]) <= a;
      NothingBetween(log[..|log| - 1], task, a, b);
    }
  }

  /** The first `k` of the events after `a` are those up to the last of them. */
  lemma {:induction false} FirstAfter(log: seq<Event>, task: Option<string>, a: nat, k: nat)
    requires Sorted(log) && 0 < k <= |After(log, task, a)|
    ensures var x := After(log, task, a)[k - 1].sequence;
            a < x <= Latest(log) && After(log, task, a)[..k] == Between(log, task, a, x)
    decreases |log|
  {
    var front, last := log[..|log| - 1], log[|log| - 1];
    var some := After(front, task, a);
    if k <= |some| {
      FirstAfter(front, task, a, k);
      assert After(log, task, a)[..k] == some[..k];
      assert Latest(front) < last.sequence;
    } else {
      assert After(log, task, a)[..k] == some + [last];
      AllAfter(front, task, a, last.sequence);
    }
  }

  lemma {:induction false} AllAfter(log: seq<Event>, task: Option<string>, a: nat, b: nat)
    requires Sorted(log) && Latest(log) <= b
    ensures After(log, task, a) == Between(log, task, a, b)
  {
    if log != [] {
      assert Latest(log[..|log| - 1]) <= b;
      AllAfter(log[..|log| - 1], task, a, b);
    }
  }

  /** What comes after the first `k` of the events after `a`. */
  lemma {:induction false} AfterRest(log: seq<Event>, task: Option<string>, a: nat, k: nat)
    requires Sorted(log) && 0 < k <= |After(log, task, a)|
    ensures After(log, task, After(log, task, a)[k - 1].sequence) == After(log, task, a)[k..]
    decreases |log|
  {
    var front, last := log[..|log| - 1], log[|log| - 1];
    var some := After(front, task, a);
    if k <= |some| {
      FirstAfter(front, task, a, k);
      AfterRest(front, task, a, k);
      assert After(log, task, a)[k - 1] == some[k - 1] && some[k - 1].sequence < last.sequence;
    } else {
      assert After(log, task, a) == some + [last];
      AllAfter(log, task, last.sequence, last.sequence);
      NothingBetween(log, task, last.sequence, last.sequence);
    }
  }

  /** Events appended later do not change what lies between two numbers, if the log had reached the second. */
  lemma {:induction false} BetweenIsStable(log: seq<Event>, more: seq<Event>, task: Option<string>, a: nat, b: nat)
    requires Sorted(log + more) && (b <= a || b <= Latest(log))
    ensures Between(log + more, task, a, b) == Between(log, task, a, b)
    decreases |more|
  {
    if b <= a {
      NothingBetween(log, task, a, b);
      NothingBetween(log + more, task, a, b);
    } else if more == [] {
      assert log + more == log;
    } else {
      var less, last := more[..|more| - 1], more[|more| - 1];
      assert (log + more)[..|log + more| - 1] == log + less;
      assert (log + more)[|log| - 1] == log[|log| - 1] && (log + more)[|log + more| - 1] == last;
      BetweenIsStable(log, less, task, a, b);
    }
  }

  // ---------- numbering ----------

  function MaxSequence(log: seq<Event>): nat {
    if log == [] then 0 else Max(MaxSequence(log[..|log| - 1]), log[|log| - 1].sequence)
  }

  /** The next event gets the number the store has noted, or a higher one if that has been used. */
  function Appended(log: seq<Event>, next: nat, e: Event): seq<Event> {
    log + [e.(sequence := Max(next, MaxSequence(log) + 1))]
  }

  lemma {:induction false} MaxIsLatest(log: seq<Event>)
    requires Sorted(log)
    ensures MaxSequence(log) == Latest(log)
    decreases |log|
  {
    if log != [] {
      MaxIsLatest(log[..|log| - 1]);
    }
  }

  /** Appending keeps the log in order, whatever number was noted, and what lies below the cursor. */
  lemma AppendKeepsOrder(log: seq<Event>, next: nat, e: Event, task: Option<string>, a: nat, b: nat)
    requires Sorted(log)
    ensures Sorted(Appended(log, next, e))
    ensures b <= a || b <= Latest(log) ==> Between(Appended(log, next, e), task, a, b) == Between(log, task, a, b)
  {
    MaxIsLatest(log);
    var more := Appended(log, next, e);
    forall i | 0 <= i < |log| ensures log[i].sequence < more[|log|].sequence {
      assert log[i].sequence <= Latest(log);
    }
    if b <= a || b <= Latest(log) {
      BetweenIsStable(log, [more[|log|]], task, a, b);
    }
  }

  // ---------- a page of the store ----------

  function StorePage(log: seq<Event>, task: Option<string>, after: nat, limit: nat): Page {
    var all := After(log, task, after);
    var events := all[..Min(limit, |all|)];
    Page(events, |all| > limit, if events == [] then after else events[|events| - 1].sequence)
  }

  /** Goes through the log once, in order. */
  method ListEvents(log: seq<Event>, task: Option<string>, after: nat, limit: nat) returns (page: Page)
    requires Sorted(log) && 1 <= limit
    ensures page == StorePage(log, task, after, limit)
  {
    var events, hasMore := [], false;
    for i := 0 to |log|
      invariant events == After(log[..i], task, after)[..Min(limit, |After(log[..i], task, after)|)]
      invariant hasMore <==> |After(log[..i], task, after)| > limit
    {
      assert log[..i + 1][..i] == log[..i];
      if log[i].sequence <= after || !Matches(log[i], task) {
        continue;
      }
      if |events| >= limit {
        hasMore := true;
        continue;
      }
      events := events + [log[i]];
    }
    assert log[..|log|] == log;
    return Page(events, hasMore, if events == [] then after else events[|events| - 1].sequence);
  }

  /** What the stream needs of a page: the first events after the cursor, none of them skipped before `nextAfter`. */
  predicate IsPage(page: Page, log: seq<Event>, task: Option<string>, after: nat) {
    && Sorted(log)
    && page.events == StorePage(log, task, after, PAGE_LIMIT).events
    && (page.nextAfter <= after || page.nextAfter <= Latest(log))
    && Between(log, task, after, page.nextAfter) <= page.events
  }

  lemma StorePageIsPage(log: seq<Event>, task: Option<string>, after: nat)
    requires Sorted(log)
    ensures IsPage(StorePage(log, task, after, PAGE_LIMIT), log, task, after)
  {
    var k := |StorePage(log, task, after, PAGE_LIMIT).events|;
    if k == 0 {
      NothingBetween(log, task, after, after);
    } else {
      FirstAfter(log, task, after, k);
    }
  }

  /**
    A page holds, in order, the events that pass the filter from the first after `after` to its last number,
    `limit` of them if it says that there are more, and says so exactly if some event follows.
  */
  lemma PageMeans(log: seq<Event>, task: Option<string>, after: nat, limit: nat, e: Event)
    requires Sorted(log) && 1 <= limit
    ensures var page := StorePage(log, task, after, limit);
            && Sorted(page.events) && |page.events| <= limit && (page.hasMore ==> |page.events| == limit)
            && (e in page.events <==>
                e in log && (task.None? || e.taskId == task.value) && after < e.sequence <= page.nextAfter)
            && (!page.hasMore && e in log && (task.None? || e.taskId == task.value) && e.sequence > after ==>
                  e in page.events)
            && (page.hasMore ==> After(log, task, page.nextAfter) != [])
  {
    var (page, all) := (StorePage(log, task, after, limit), After(log, task, after));
    var k := |page.events|;
    AfterHas(log, task, after, e);
    if k == 0 {
      assert all == [];
    } else {
      FirstAfter(log, task, after, k);
      AfterRest(log, task, after, k);
      BetweenHas(log, task, after, page.nextAfter, e);
      BetweenIsSorted(log, task, after, page.nextAfter);
    }
  }

  lemma PageIsOrdered(page: Page, log: seq<Event>, task: Option<string>, after: nat)
    requires IsPage(page, log, task, after)
    ensures Sorted(page.events)
    ensures page.events != [] ==>
              && after < page.events[0].sequence
              && page.events[|page.events| - 1].sequence <= Latest(log)
              && page.events == Between(log, task, after, page.events[|page.events| - 1].sequence)
  {
    var k := |page.events|;
    if k != 0 {
      var x := page.events[k - 1].sequence;
      FirstAfter(log, task, after, k);
      BetweenIsSorted(log, task, after, x);
      BetweenHas(log, task, after, x, page.events[0]);
    }
  }

  // ---------- the stream ----------

  /** What a request for a page comes to, and whether the client has gone away meanwhile. */
  datatype Answer = Failed(gone: bool) | Answered(page: Page, gone: bool)

  function StartCursor(query: Option<int>, header: Option<int>): nat {
    if query.Some? && query.value >= 0 then query.value
    else if header.Some? && header.value >= 0 then header.value
    else 0
  }

  /** The query's number counts before the header's; a client that sends no number starts at the beginning. */
  lemma StartsAt(query: Option<int>, header: Option<int>)
    ensures query.Some? && query.value >= 0 ==> StartCursor(query, header) == query.value
    ensures (query.None? || query.value < 0) && header.Some? && header.value >= 0 ==>
              StartCursor(query, header) == header.value
    ensures (query.None? || query.value < 0) && (header.None? || header.value < 0) ==> StartCursor(query, header) == 0
  {
  }

  /** A page continues what was written, up to its last event. */
  lemma PageFits(page: Page, log: seq<Event>, task: Option<string>, start: nat, after: nat)
    requires IsPage(page, log, task, after) && start <= after
    ensures Sorted(page.events)
    ensures page.events != [] ==>
              var last := page.events[|page.events| - 1].sequence;
              && after < page.events[0].sequence && after < last <= Latest(log)
              && Between(log, task, start, last) == Between(log, task, start, after) + page.events
  {
    PageIsOrdered(page, log, task, after);
    if page.events != [] {
      BetweenConcat(log, task, start, after, page.events[|page.events| - 1].sequence);
    }
  }

  /** The logs that the requests of a poll meet. */
  ghost predicate LogsGrow(log: seq<Event>, logs: nat -> seq<Event>) {
    && (forall k :: log <= logs(k) && Sorted(logs(k)))
    && (forall i, j | i <= j :: logs(i) <= logs(j))
  }

  ghost predicate PagesAnswer(task: Option<string>, logs: nat -> seq<Event>, answer: (nat, nat) -> Answer) {
    forall k, after | answer(k, after).Answered? :: IsPage(answer(k, after).page, logs(k), task, after)
  }

  /** The pages come from the store. */
  ghost predicate StoreAnswers(task: Option<string>, logs: nat -> seq<Event>, answer: (nat, nat) -> Answer) {
    forall k, after | answer(k, after).Answered? :: answer(k, after).page == StorePage(logs(k), task, after, PAGE_LIMIT)
  }

  /** A log to which nothing is appended, and the store's answers from it. */
  function Unchanged(fixed: seq<Event>): nat -> seq<Event> {
    (_: nat) => fixed
  }

  function StoreOf(fixed: seq<Event>, task: Option<string>): (nat, nat) -> Answer {
    (_: nat, after: nat) => Answered(StorePage(fixed, task, after, PAGE_LIMIT), false)
  }

  lemma StoreIsFixed(log: seq<Event>, fixed: seq<Event>, task: Option<string>)
    requires log <= fixed && Sorted(fixed)
    ensures LogsGrow(log, Unchanged(fixed))
    ensures PagesAnswer(task, Unchanged(fixed), StoreOf(fixed, task))
    ensures StoreAnswers(task, Unchanged(fixed), StoreOf(fixed, task))
  {
    forall after: nat ensures IsPage(StorePage(fixed, task, after, PAGE_LIMIT), fixed, task, after) {
      StorePageIsPage(fixed, task, after);
    }
  }

  /** A page of what is left, and what is left after it. */
  lemma PageTakes(log: seq<Event>, task: Option<string>, a: nat, all: seq<Event>, k: nat)
    requires Sorted(log) && k <= |all| && After(log, task, a) == all[k..]
    ensures var (page, more) := (StorePage(log, task, a, PAGE_LIMIT), Min(k + PAGE_LIMIT, |all|));
            page.events == all[k..more] && After(log, task, page.nextAfter) == all[more..]
  {
    var (page, more) := (StorePage(log, task, a, PAGE_LIMIT), Min(k + PAGE_LIMIT, |all|));
    assert page.events == all[k..][..more - k] == all[k..more];
    assert all[k..][more - k..] == all[more..];
    if page.events != [] {
      AfterRest(log, task, a, more - k);
    }
  }

  class Stream {
    const task: Option<string>
    const start: nat
    const startedAt: int
    var cursor: nat
    var closed: bool
    /** The events written before the connection was closed. */
    var written: seq<Event>
    /** The cursor when they were written. */
    ghost var reached: nat
    /** The log as last seen. */
    ghost var log: seq<Event>

    constructor (task: Option<string>, query: Option<int>, header: Option<int>, now: int)
      ensures Valid() && !closed && written == [] && log == []
      ensures this.task == task && this.startedAt == now && start == cursor == StartCursor(query, header)
    {
      this.task, this.startedAt := task, now;
      this.start, cursor := StartCursor(query, header), StartCursor(query, header);
      closed, written, reached, log := false, [], StartCursor(query, header), [];
    }

    /** Written are exactly the matching events above the start and up to the cursor. */
    ghost predicate Valid()
      reads this
    {
      && Sorted(log)
      && start <= reached <= cursor
      && (!closed ==> reached == cursor)
      && (reached == start || reached <= Latest(log))
      && written == Between(log, task, start, reached)
    }

    method Write(e: Event)
      modifies this`cursor, this`written, this`reached
      ensures cursor == if e.sequence < old(cursor) then old(cursor) else e.sequence
      ensures written == if closed then old(written) else old(written) + [e]
      ensures reached == if closed then old(reached) else cursor
    {
      if e.sequence > cursor {
        cursor := e.sequence;
      }
      if !closed {
        written := written + [e];
        reached := cursor;
      }
    }

    /** The log has grown: still everything up to the cursor is written. */
    ghost method Grow(longer: seq<Event>)
      requires Valid() && log <= longer && Sorted(longer)
      modifies this`log
      ensures Valid() && log == longer
    {
      assert longer == log + longer[|log|..];
      BetweenIsStable(log, longer[|log|..], task, start, reached);
      assert Latest(log) <= Latest(longer);
      log := longer;
    }

    /** Writes the events of a page. */
    method WritePage(page: Page)
      requires Valid() && IsPage(page, log, task, cursor)
      modifies this`cursor, this`written, this`reached
      ensures Valid() && old(cursor) <= cursor
      ensures cursor == if page.events == [] then old(cursor) else page.events[|page.events| - 1].sequence
      ensures written == if closed then old(written) else old(written) + page.events
    {
      PageFits(page, log, task, start, cursor);
      ghost var was := cursor;
      for k := 0 to |page.events|
        invariant cursor == if k == 0 then was else page.events[k - 1].sequence
        invariant written == if closed then old(written) else old(written) + page.events[..k]
        invariant reached == if closed then old(reached) else cursor
        invariant was <= cursor
      {
        assert page.events[..k + 1] == page.events[..k] + [page.events[k]];
        Write(page.events[k]);
      }
      if page.events != [] && !closed {
        assert page.events[..|page.events|] == page.events;
      }
    }

    /**
      One poll.  `answer(k, after)` is what the k-th request of the poll, for the events after
      `after`, comes to, on the log as it is then, `logs(k)`.
    */
    method Poll(now: int, ghost logs: nat -> seq<Event>, answer: (nat, nat) -> Answer) returns (asked: nat)
      requires Valid() && LogsGrow(log, logs) && PagesAnswer(task, logs, answer)
      modifies this
      ensures Valid() && old(written) <= written && old(cursor) <= cursor
      ensures old(closed) ==> closed && written == old(written) && asked == 0
      ensures asked <= 5 && (0 < asked ==> log == logs(asked - 1))
      ensures now - startedAt > 600_000 ==> closed && written == old(written) && asked == 0
      ensures !old(closed) && now - startedAt <= 600_000 ==> 0 < asked
      ensures 0 < asked && !closed ==>
                old(written) + StorePage(logs(0), task, old(cursor), PAGE_LIMIT).events <= written
      ensures 0 < asked && StoreAnswers(task, logs, answer) ==>
                var (a, page) := (answer(0, old(cursor)), StorePage(logs(0), task, old(cursor), PAGE_LIMIT));
                && asked == 1
                && (closed <==> a.Failed? || a.gone)
                && written == (if closed then old(written) else old(written) + page.events)
                && (a.Answered? ==> cursor == page.nextAfter)
    {
      asked := 0;
      if closed {
        return;
      }
      if now - startedAt > AGE_LIMIT_MS {
        closed := true;
        return;
      }
      ghost var first := StorePage(logs(0), task, cursor, PAGE_LIMIT).events;
      while !closed && asked < PAGES_PER_POLL
        invariant Valid() && asked <= PAGES_PER_POLL
        invariant old(written) <= written && old(cursor) <= cursor
        invariant if asked == 0 then log == old(log) && written == old(written) && cursor == old(cursor)
                  else log == logs(asked - 1)
        invariant 0 < asked && !closed ==> old(written) + first <= written
        invariant StoreAnswers(task, logs, answer) ==> asked == 0
        invariant asked == 0 ==> !closed
        decreases PAGES_PER_POLL - asked, !closed
      {
        var goOn := Ask(asked, logs, answer);
        asked := asked + 1;
        if !goOn {
          break;
        }
      }
    }

    /**
      The timer's polls, one after the other, of a log that stays as it is, with no failure: each writes
      the next events, so the stream catches up.
    */
    method PollRepeatedly(n: nat, now: int, fixed: seq<Event>)
      requires Valid() && !closed && log <= fixed && Sorted(fixed) && now - startedAt <= 600_000
      modifies this
      ensures Valid() && !closed && (n > 0 ==> log == fixed)
      ensures var all := After(fixed, task, old(cursor));
              var k := Min(100 * n, |all|);
              written == old(written) + all[..k] && After(fixed, task, cursor) == all[k..]
    {
      ghost var all := After(fixed, task, cursor);
      ghost var k := 0;
      for i := 0 to n
        invariant Valid() && !closed && log <= fixed && (i > 0 ==> log == fixed)
        invariant k == Min(PAGE_LIMIT * i, |all|)
        invariant written == old(written) + all[..k] && After(fixed, task, cursor) == all[k..]
      {
        k := PollOnce(now, fixed, all, k);
      }
    }

    /** One of these polls, when the first `k` of all events have been written. */
    method PollOnce(now: int, fixed: seq<Event>, ghost all: seq<Event>, ghost k: nat) returns (ghost more: nat)
      requires Valid() && !closed && log <= fixed && Sorted(fixed) && now - startedAt <= AGE_LIMIT_MS
      requires k <= |all| && After(fixed, task, cursor) == all[k..]
      modifies this
      ensures Valid() && !closed && log == fixed
      ensures more == Min(k + PAGE_LIMIT, |all|)
      ensures written == old(written) + all[k..more] && After(fixed, task, cursor) == all[more..]
    {
      more := Min(k + PAGE_LIMIT, |all|);
      PageTakes(fixed, task, cursor, all, k);
      StoreIsFixed(log, fixed, task);
      var asked := Poll(now, Unchanged(fixed), StoreOf(fixed, task));
    }

    method Ask(k: nat, ghost logs: nat -> seq<Event>, answer: (nat, nat) -> Answer) returns (goOn: bool)
      requires Valid() && !closed && log <= logs(k) && Sorted(logs(k)) && PagesAnswer(task, logs, answer)
      modifies this
      ensures Valid() && log == logs(k) && old(cursor) <= cursor && old(written) <= written
      ensures !closed ==> written == old(written) + StorePage(logs(k), task, old(cursor), PAGE_LIMIT).events
      ensures closed <==> answer(k, old(cursor)).Failed? || answer(k, old(cursor)).gone
      ensures closed ==> written == old(written)
      ensures StoreAnswers(task, logs, answer) ==> !goOn
      ensures StoreAnswers(task, logs, answer) && answer(k, old(cursor)).Answered? ==>
                cursor == StorePage(logs(k), task, old(cursor), PAGE_LIMIT).nextAfter
    {
      Grow(logs(k));
      var a := answer(k, cursor);
      goOn := Request(a);
    }

    /** Asks for one page and writes it; the result is whether to ask for another one. */
    method Request(a: Answer) returns (goOn: bool)
      requires Valid() && !closed && (a.Answered? ==> IsPage(a.page, log, task, cursor))
      modifies this`cursor, this`closed, this`written, this`reached
      ensures Valid() && old(cursor) <= cursor
      ensures closed <==> a.Failed? || a.gone
      ensures written == if closed then old(written)
                         else old(written) + StorePage(log, task, old(cursor), PAGE_LIMIT).events
      ensures a.Failed? ==> !goOn
      ensures a.Answered? && a.page == StorePage(log, task, old(cursor), PAGE_LIMIT) ==>
                !goOn && cursor == a.page.nextAfter
    {
      if a.gone {
        closed := true;
      }
      if a.Failed? {
        closed := true;
        return false;
      }
      ghost var was := cursor;
      WritePage(a.page);
      if !a.page.hasMore || a.page.nextAfter <= cursor {
        return false;
      }
      Skip(was, a.page);
      return true;
    }

    /** Moves the cursor past numbers at which nothing matches. */
    method Skip(ghost was: nat, page: Page)
      requires Valid() && IsPage(page, log, task, was) && cursor < page.nextAfter
      requires cursor == if page.events == [] then was else page.events[|page.events| - 1].sequence
      modifies this`cursor, this`reached
      ensures Valid() && cursor == page.nextAfter
    {
      ghost var (from, to) := (cursor, page.nextAfter);
      PageIsOrdered(page, log, task, was);
      NothingBetween(log, task, was, was);
      BetweenConcat(log, task, was, from, to);
      BetweenConcat(log, task, start, from, to);
      assert Between(log, task, from, to) == [];
      cursor := page.nextAfter;
      if !closed {
        reached := cursor;
      }
    }
  }

  // ---------- what a client has received ----------

  /** Each matching event between the start and the cursor was written once, in order, and nothing else. */
  lemma WrittenAreTheMatching(s: Stream, e: Event)
    requires s.Valid()
    ensures e in s.written <==>
            e in s.log && (s.task.None? || e.taskId == s.task.value) && s.start < e.sequence <= s.reached
    ensures Sorted(s.written)
  {
    BetweenHas(s.log, s.task, s.start, s.reached, e);
    BetweenIsSorted(s.log, s.task, s.start, s.reached);
  }

  /** A client that sends no number receives every numbered event of its task up to the cursor. */
  lemma WithoutNumberNothingIsMissed(s: Stream, query: Option<int>, header: Option<int>, e: Event)
    requires s.Valid() && s.start == StartCursor(query, header)
    requires (query.None? || query.value < 0) && (header.None? || header.value < 0)
    requires e in s.log && (s.task.None? || e.taskId == s.task.value) && 1 <= e.sequence <= s.reached
    ensures e in s.written
  {
    StartsAt(query, header);
    WrittenAreTheMatching(s, e);
  }

  /** The id a client sends when it connects again. */
  function LastId(s: Stream): nat
    reads s
  {
    if s.written == [] then s.start else s.written[|s.written| - 1].sequence
  }

  /** Together the two connections have written the events after the first start, each once and none left out. */
  ghost predicate Seamless(first: Stream, second: Stream)
    reads first, second
  {
    first.written + second.written ==
    Between(second.log, first.task, first.start, Max(LastId(first), second.reached))
  }

  /** The second connection is made later, with this query and the last id received as its header. */
  ghost predicate Resumes(first: Stream, second: Stream, query: Option<int>)
    reads first, second
  {
    && first.Valid() && second.Valid() && first.task == second.task && first.log <= second.log
    && second.start == StartCursor(query, Some(LastId(first)))
  }

  /**
    Reconnecting is seamless exactly if nothing matching has been written again from the query's
    number up to the last id, and nothing matching lies between the last id and the query's number.
  */
  lemma ResumingIsSeamlessIff(first: Stream, second: Stream, query: Option<int>)
    requires Resumes(first, second, query)
    ensures var (log, task, id) := (second.log, first.task, LastId(first));
            Seamless(first, second) <==>
              && Between(log, task, second.start, Min(id, second.reached)) == []
              && Between(log, task, id, second.start) == []
  {
    var (log, task, id) := (second.log, first.task, LastId(first));
    ReceivedUpToLast(first, second);
    if second.start <= id {
      NothingBetween(log, task, id, second.start);
      if second.reached <= id {
        BetweenConcat(log, task, first.start, id, id);
        NothingBetween(log, task, id, id);
      } else {
        BetweenConcat(log, task, first.start, id, second.reached);
        BetweenConcat(log, task, second.start, id, second.reached);
      }
    } else {
      NothingBetween(log, task, second.start, id);
      BetweenConcat(log, task, first.start, id, second.reached);
      BetweenConcat(log, task, id, second.start, second.reached);
    }
  }

  /** So it is whenever the query has no number and the header decides. */
  lemma ResumingIsSeamless(first: Stream, second: Stream, query: Option<int>)
    requires Resumes(first, second, query) && (query.Some? ==> query.value < 0)
    ensures Seamless(first, second)
  {
    var id := LastId(first);
    NothingBetween(second.log, first.task, id, id);
    NothingBetween(second.log, first.task, id, Min(id, second.reached));
    ResumingIsSeamlessIff(first, second, query);
  }

  /**
    A client that connects again to the same address, its old number still in the query, receives
    everything once more.
  */
  lemma SameQueryRepeats(first: Stream, second: Stream, e: Event)
    requires Resumes(first, second, Some(first.start))
    requires e in first.written && e.sequence <= second.reached
    ensures e in second.written && !Seamless(first, second)
  {
    var id := LastId(first);
    BetweenHas(first.log, first.task, first.start, first.reached, e);
    BetweenHas(second.log, second.task, second.start, second.reached, e);
    BetweenIsSorted(first.log, first.task, first.start, first.reached);
    assert e.sequence <= id;
    BetweenHas(second.log, second.task, second.start, Min(id, second.reached), e);
    ResumingIsSeamlessIff(first, second, Some(first.start));
  }

  /** What the first connection wrote are the events up to the last id, also in the later log. */
  lemma ReceivedUpToLast(first: Stream, second: Stream)
    requires first.Valid() && second.Valid() && first.log <= second.log
    ensures first.start <= LastId(first) && first.written == Between(second.log, first.task, first.start, LastId(first))
  {
    UpToLast(first.log, first.task, first.start, first.reached);
    assert second.log == first.log + second.log[|first.log|..];
    BetweenIsStable(first.log, second.log[|first.log|..], first.task, first.start, LastId(first));
  }

  /** Nothing lies between the last event written and the cursor. */
  lemma UpToLast(log: seq<Event>, task: Option<string>, a: nat, b: nat)
    requires Sorted(log) && a <= b && (b == a || b <= Latest(log))
    ensures var some := Between(log, task, a, b);
            var id := if some == [] then a else some[|some| - 1].sequence;
            && a <= id <= b && (id == a || id <= Latest(log))
            && Between(log, task, a, id) == some
  {
    var some := Between(log, task, a, b);
    if some == [] {
      NothingBetween(log, task, a, a);
    } else {
      var id := some[|some| - 1].sequence;
      BetweenHas(log, task, a, b, some[|some| - 1]);
      BetweenConcat(log, task, a, id, b);
      var rest := Between(log, task, id, b);
      if rest != [] {
        BetweenIsSorted(log, task, a, b);
        BetweenHas(log, task, id, b, rest[|rest| - 1]);
      }
    }
  }
}
