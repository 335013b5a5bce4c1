/**
  The pool of HTTP sessions: each request prunes it, first of the sessions not seen for longer than
  the time to live, then of the least recently seen ones above the limit.
*/
module SessionPool {
  import opened Wrappers

  /** Insertion order is the order of the sequence that holds the entries. */
  datatype Entry = Entry(id: string, transport: nat, createdAt: int, lastSeen: int)

  function Ids(entries: seq<Entry>): set<string> {
    if entries == [] then {} else Ids(entries[..|entries| - 1]) + {entries[|entries| - 1].id}
  }

  predicate Distinct(entries: seq<Entry>) {
    entries != [] ==> Distinct(entries[..|entries| - 1]) && entries[|entries| - 1].id !in Ids(entries[..|entries| - 1])
  }

  /** The entries with one of these ids, in order. */
  function Kept(entries: seq<Entry>, ids: set<string>): seq<Entry> {
    if entries == [] then []
    else
      var kept := Kept(entries[..|entries| - 1], ids);
      if entries[|entries| - 1].id in ids then kept + [entries[|entries| - 1]] else kept
  }

  function Drop(entries: seq<Entry>, m: nat): seq<Entry>
    requires m < |entries|
  {
    entries[..m] + entries[m + 1..]
  }

  /** The transports in the pool. */
  function Held(entries: seq<Entry>): multiset<nat> {
    if entries == [] then multiset{}
    else Held(entries[..|entries| - 1]) + multiset{entries[|entries| - 1].transport}
  }

  lemma Append(entries: seq<Entry>, e: Entry)
    ensures Ids(entries + [e]) == Ids(entries) + {e.id}
    ensures Distinct(entries + [e]) <==> Distinct(entries) && e.id !in Ids(entries)
    ensures Held(entries + [e]) == Held(entries) + multiset{e.transport}
  {
    assert (entries + [e])[..|entries|] == entries;
  }

  lemma {:induction false} IdAt(entries: seq<Entry>, i: nat)
    requires i < |entries|
    ensures entries[i].id in Ids(entries)
    decreases |entries|
  {
    if i < |entries| - 1 {
      IdAt(entries[..|entries| - 1], i);
    }
  }

  lemma {:induction false} AtId(entries: seq<Entry>, id: string) returns (i: nat)
    requires id in Ids(entries)
    ensures i < |entries| && entries[i].id == id
    decreases |entries|
  {
    if entries[|entries| - 1].id == id {
      i := |entries| - 1;
    } else {
      i := AtId(entries[..|entries| - 1], id);
    }
  }

  lemma {:induction false} Differ(entries: seq<Entry>, i: nat, j: nat)
    requires Distinct(entries) && i < j < |entries|
    ensures entries[i].id != entries[j].id
    decreases |entries|
  {
    if j < |entries| - 1 {
      Differ(entries[..|entries| - 1], i, j);
    } else {
      IdAt(entries[..|entries| - 1], i);
    }
  }

  // ---------- which sessions a pruning keeps ----------

  predicate Expired(e: Entry, now: int, ttl: int) {
    now - e.lastSeen > ttl
  }

  /** Seen more recently, or as recently and inserted later. */
  predicate Beats(entries: seq<Entry>, i: nat, j: nat)
    requires i < |entries| && j < |entries|
  {
    entries[i].lastSeen > entries[j].lastSeen || (entries[i].lastSeen == entries[j].lastSeen && i > j)
  }

  predicate BeatsAll(entries: seq<Entry>, ids: set<string>, j: nat)
    requires j < |entries|
  {
    forall i | 0 <= i < |entries| && entries[i].id in ids :: Beats(entries, i, j)
  }

  /** `ids` names unexpired entries, and each other unexpired entry is beaten by all of them. */
  predicate Leading(entries: seq<Entry>, ids: set<string>, now: int, ttl: int) {
    && ids <= Ids(entries)
    && (forall i | 0 <= i < |entries| && entries[i].id in ids :: !Expired(entries[i], now, ttl))
    && (forall j | 0 <= j < |entries| && !Expired(entries[j], now, ttl) && entries[j].id !in ids ::
        BeatsAll(entries, ids, j))
  }

  /** `ids` are the most recently seen unexpired entries, as many as there is room for. */
  predicate Best(entries: seq<Entry>, ids: set<string>, now: int, ttl: int, max: nat) {
    && Leading(entries, ids, now, ttl)
    && |ids| <= max
    && (|ids| < max ==> NoRoomWasted(entries, ids, now, ttl))
  }

  predicate NoRoomWasted(entries: seq<Entry>, ids: set<string>, now: int, ttl: int) {
    forall j | 0 <= j < |entries| && !Expired(entries[j], now, ttl) :: entries[j].id in ids
  }

  /** Only one set of sessions can be kept. */
  lemma BestIsUnique(entries: seq<Entry>, a: set<string>, b: set<string>, now: int, ttl: int, max: nat)
    requires Best(entries, a, now, ttl, max) && Best(entries, b, now, ttl, max)
    ensures a == b
  {
    if !(a <= b) {
      NoneIsLeftOut(entries, a, b, now, ttl, max);
    } else if !(b <= a) {
      NoneIsLeftOut(entries, b, a, now, ttl, max);
    }
  }

  lemma NoneIsLeftOut(entries: seq<Entry>, a: set<string>, b: set<string>, now: int, ttl: int, max: nat)
    requires Best(entries, a, now, ttl, max) && Best(entries, b, now, ttl, max)
    ensures a <= b
  {
    if x :| x in a && x !in b {
      var j := AtId(entries, x);
      assert |b| == max;
      if b <= a {
        assert b < a;
        SmallerSubset(b, a);
      } else {
        var y :| y in b && y !in a;
        var i := AtId(entries, y);
        assert Beats(entries, i, j) by { assert BeatsAll(entries, b, j); }
        assert Beats(entries, j, i) by { assert BeatsAll(entries, a, i); }
      }
    }
  }

  lemma SmallerSubset(b: set<string>, a: set<string>)
    requires b < a
    ensures |b| < |a|
  {
    var rest := a - b;
    assert a == b + rest && b !! rest;
    var x :| x in a && x !in b;
    assert x in rest;
  }

  /**
    What a pruning leaves: entries seen within the time to live; one of those that is gone was beaten
    by a full pool of entries seen more recently, or as recently and inserted later.
  */
  ghost predicate Survive(before: seq<Entry>, after: seq<Entry>, now: int, ttl: int, max: nat) {
    && |after| <= max
    && (forall e :: e in after ==> e in before && now - e.lastSeen <= ttl)
    && (forall j :: 0 <= j < |before| && now - before[j].lastSeen <= ttl && before[j] !in after ==>
          && |after| == max
          && forall i :: 0 <= i < |before| && before[i] in after ==>
               before[i].lastSeen > before[j].lastSeen || (before[i].lastSeen == before[j].lastSeen && i > j))
  }

  lemma BestSurvive(entries: seq<Entry>, ids: set<string>, now: int, ttl: int, max: nat)
    requires Distinct(entries) && Best(entries, ids, now, ttl, max)
    ensures Survive(entries, Kept(entries, ids), now, ttl, max)
  {
    var after := Kept(entries, ids);
    KeptSize(entries, ids);
    forall e ensures e in after <==> e in entries && e.id in ids {
      KeptHas(entries, ids, e);
    }
    forall j | 0 <= j < |entries| && now - entries[j].lastSeen <= ttl && entries[j] !in after
      ensures |after| == max
      ensures forall i :: 0 <= i < |entries| && entries[i] in after ==> Beats(entries, i, j)
    {
      assert entries[j].id !in ids && BeatsAll(entries, ids, j);
    }
  }

  // ---------- filtering and dropping ----------

  lemma KeptAppend(entries: seq<Entry>, e: Entry, ids: set<string>)
    ensures Kept(entries + [e], ids) == Kept(entries, ids) + if e.id in ids then [e] else []
  {
    assert (entries + [e])[..|entries|] == entries;
  }

  lemma {:induction false} KeptHas(entries: seq<Entry>, ids: set<string>, e: Entry)
    ensures e in Kept(entries, ids) <==> e in entries && e.id in ids
  {
    if entries != [] {
      var front, last := entries[..|entries| - 1], entries[|entries| - 1];
      assert entries == front + [last];
      KeptHas(front, ids, e);
    }
  }

  lemma {:induction false} KeptIds(entries: seq<Entry>, ids: set<string>)
    ensures Ids(Kept(entries, ids)) == Ids(entries) * ids
  {
    if entries != [] {
      var front, last := entries[..|entries| - 1], entries[|entries| - 1];
      KeptIds(front, ids);
      assert Ids(entries) * ids == Ids(front) * ids + {last.id} * ids;
      Append(Kept(front, ids), last);
    }
  }

  lemma {:induction false} KeptIsDistinct(entries: seq<Entry>, ids: set<string>)
    requires Distinct(entries)
    ensures Distinct(Kept(entries, ids))
  {
    if entries != [] {
      var front, last := entries[..|entries| - 1], entries[|entries| - 1];
      KeptIsDistinct(front, ids);
      KeptIds(front, ids);
      Append(Kept(front, ids), last);
    }
  }

  lemma {:induction false} KeptSize(entries: seq<Entry>, ids: set<string>)
    requires Distinct(entries) && ids <= Ids(entries)
    ensures |Kept(entries, ids)| == |ids|
    decreases |entries|
  {
    if entries != [] {
      var front, last := entries[..|entries| - 1], entries[|entries| - 1];
      KeptSame(front, ids, ids - {last.id});
      KeptSize(front, ids - {last.id});
    }
  }

  lemma {:induction false} KeptSame(entries: seq<Entry>, a: set<string>, b: set<string>)
    requires Ids(entries) * a == Ids(entries) * b
    ensures Kept(entries, a) == Kept(entries, b)
  {
    if entries != [] {
      var front, last := entries[..|entries| - 1], entries[|entries| - 1];
      forall x | x in Ids(front) ensures x in a <==> x in b {
        assert x in Ids(entries) * a <==> x in Ids(entries) * b;
      }
      assert last.id in Ids(entries) * a <==> last.id in Ids(entries) * b;
      KeptSame(front, a, b);
    }
  }

  lemma {:induction false} DropKept(entries: seq<Entry>, ids: set<string>, m: nat)
    requires Distinct(entries) && m < |Kept(entries, ids)|
    ensures Drop(Kept(entries, ids), m) == Kept(entries, ids - {Kept(entries, ids)[m].id})
    decreases |entries|
  {
    var front, last := entries[..|entries| - 1], entries[|entries| - 1];
    var kept := Kept(front, ids);
    if m < |kept| {
      IdAt(kept, m);
      KeptIds(front, ids);
      DropKept(front, ids, m);
      assert last.id != kept[m].id;
      if last.id in ids {
        assert Drop(kept + [last], m) == Drop(kept, m) + [last];
      }
    } else {
      assert Drop(kept + [last], m) == kept;
      KeptSame(front, ids, ids - {last.id});
    }
  }

  lemma DropDistinct(entries: seq<Entry>, m: nat)
    requires Distinct(entries) && m < |entries|
    ensures Distinct(Drop(entries, m)) && Ids(Drop(entries, m)) == Ids(entries) - {entries[m].id}
  {
    var ids := Ids(entries);
    KeptAll(entries, ids);
    DropKept(entries, ids, m);
    KeptIsDistinct(entries, ids - {entries[m].id});
    KeptIds(entries, ids - {entries[m].id});
  }

  lemma Swap(a: multiset<nat>, b: multiset<nat>, c: multiset<nat>)
    ensures a + b + c == a + c + b
  {
  }

  lemma {:induction false} HeldDrop(entries: seq<Entry>, m: nat)
    requires m < |entries|
    ensures Held(entries) == Held(Drop(entries, m)) + multiset{entries[m].transport}
    decreases |entries|
  {
    var front, last := entries[..|entries| - 1], entries[|entries| - 1];
    if m == |front| {
      assert Drop(entries, m) == front;
    } else {
      var less := Drop(front, m);
      HeldDrop(front, m);
      assert front[m] == entries[m] && Drop(entries, m) == less + [last];
      Append(less, last);
      Swap(Held(less), multiset{entries[m].transport}, multiset{last.transport});
    }
  }

  lemma Cancel(before: multiset<nat>, closed: multiset<nat>, ended: multiset<nat>, after: multiset<nat>,
               more: multiset<nat>)
    requires before + closed + ended == after + (closed + more) + ended
    ensures before == after + more
  {
    forall t ensures before[t] == (after + more)[t] {
      assert (before + closed + ended)[t] == (after + (closed + more) + ended)[t];
    }
  }

  /** Another time of last sight changes neither the ids nor the transports. */
  lemma {:induction false} Touched(entries: seq<Entry>, m: nat, e: Entry)
    requires m < |entries| && e.transport == entries[m].transport && e.id == entries[m].id
    ensures Held(entries[m := e]) == Held(entries) && Ids(entries[m := e]) == Ids(entries)
    ensures Distinct(entries[m := e]) <==> Distinct(entries)
    decreases |entries|
  {
    var front, last := entries[..|entries| - 1], entries[|entries| - 1];
    Append(front, last);
    TouchedLast(entries, m, e);
    if m < |front| {
      Touched(front, m, e);
      Append(front[m := e], last);
    } else {
      Append(front, e);
    }
  }

  lemma TouchedLast(entries: seq<Entry>, m: nat, e: Entry)
    requires m < |entries|
    ensures var (front, last) := (entries[..|entries| - 1], entries[|entries| - 1]);
            && entries == front + [last]
            && entries[m := e] == if m < |front| then front[m := e] + [last] else front + [e]
  {
  }

  // ---------- the oldest entry ----------

  /** The first of the least recently seen entries: what a stable sort puts first. */
  predicate IsOldest(entries: seq<Entry>, m: nat) {
    && m < |entries|
    && (forall k | 0 <= k < |entries| :: entries[m].lastSeen <= entries[k].lastSeen)
    && (forall k | 0 <= k < m :: entries[m].lastSeen < entries[k].lastSeen)
  }

  lemma {:induction false} OldestIsBeaten(entries: seq<Entry>, ids: set<string>, m: nat, i: nat, p: nat)
    requires Distinct(entries) && IsOldest(Kept(entries, ids), m)
    requires i < |entries| && p < |entries| && i != p
    requires entries[i].id in ids && entries[p] == Kept(entries, ids)[m]
    ensures Beats(entries, i, p)
    decreases |entries|
  {
    var front, last := entries[..|entries| - 1], entries[|entries| - 1];
    var kept := Kept(front, ids);
    if p == |front| {
      assert last.id in ids && m == |kept| by {
        if last.id !in ids || m < |kept| {
          IdAt(kept, m);
          KeptIds(front, ids);
        }
      }
      assert front[i] == entries[i];
      KeptHas(front, ids, entries[i]);
      var k :| 0 <= k < |kept| && kept[k] == entries[i];
      assert Kept(entries, ids)[k] == kept[k];
    } else if i < |front| {
      IdAt(front, p);
      assert front[p] == entries[p] && m < |kept|;
      assert forall k | 0 <= k < |kept| :: Kept(entries, ids)[k] == kept[k];
      OldestIsBeaten(front, ids, m, i, p);
      assert Beats(front, i, p);
    } else {
      assert Kept(entries, ids)[|kept|] == last;
    }
  }

  // ---------- the pool ----------

  class Pool {
    const ttl: nat
    const max: nat
    /** The form a session id must have. */
    const wellFormed: string -> bool
    var entries: seq<Entry>
    /** Transports closed by pruning, in order. */
    var closed: seq<nat>
    /** Transports that closed themselves while in the pool. */
    ghost var ended: multiset<nat>
    /** Every transport ever put into the pool. */
    ghost var admitted: set<nat>

    constructor (ttl: nat, max: nat, wellFormed: string -> bool)
      requires 1 <= max
      ensures Valid() && entries == [] && closed == []
      ensures this.ttl == ttl && this.max == max && this.wellFormed == wellFormed
    {
      this.ttl, this.max, this.wellFormed := ttl, max, wellFormed;
      entries, closed, ended, admitted := [], [], multiset{}, {};
    }

    /**
      At most `max` sessions.  Each transport that was put in is in exactly one place: still held,
      closed by pruning, or ended by itself.
    */
    ghost predicate Valid()
      reads this
    {
      1 <= max && |entries| <= max && Distinct(entries) && Accounted()
    }

    ghost predicate Accounted()
      reads this
    {
      multiset(admitted) == Held(entries) + multiset(closed) + ended
    }

    /** No session was seen after `now`. */
    ghost predicate SeenBy(now: int)
      reads this
    {
      AllSeenBy(entries, now)
    }

    method CloseAt(m: nat)
      requires m < |entries| && Distinct(entries) && Accounted()
      modifies this`entries, this`closed
      ensures Distinct(entries) && Accounted()
      ensures entries == Drop(old(entries), m)
      ensures closed == old(closed) + [old(entries)[m].transport]
    {
      HeldDrop(entries, m);
      DropDistinct(entries, m);
      closed := closed + [entries[m].transport];
      entries := entries[..m] + entries[m + 1..];
    }

    /** Removes the expired sessions. */
    method PruneExpired(now: int, ghost live: set<string>)
      requires Distinct(entries) && Accounted() && AreLive(entries, live, now, ttl)
      modifies this`entries, this`closed
      ensures Distinct(entries) && Accounted() && old(closed) <= closed
      ensures entries == Kept(old(entries), live)
      ensures forall e :: e in entries <==> e in old(entries) && now - e.lastSeen <= ttl
    {
      ghost var before := entries;
      var i := 0;
      ghost var seen := 0;
      HalfwayEnds(before, live);
      while i < |entries|
        invariant 0 <= i && seen <= |before| && i == Passed(before, seen, live) && |entries| - i == |before| - seen
        invariant entries == Halfway(before, seen, live)
        invariant Distinct(entries) && Accounted() && old(closed) <= closed
        decreases |before| - seen
      {
        SkipOrKeep(before, seen, live);
        if now - entries[i].lastSeen > ttl {
          CloseAt(i);
        } else {
          i := i + 1;
        }
        seen := seen + 1;
      }
      LiveAreKept(before, live, now, ttl);
    }

    /** First the expired sessions go, then the least recently seen ones while there are too many. */
    method Prune(now: int) returns (ghost ids: set<string>)
      requires 1 <= max && Distinct(entries) && Accounted()
      modifies this`entries, this`closed
      ensures Valid()
      ensures Best(old(entries), ids, now, ttl, max) && entries == Kept(old(entries), ids)
      ensures Survive(old(entries), entries, now, ttl, max)
      ensures old(closed) <= closed
      ensures Held(old(entries)) == Held(entries) + multiset(closed[|old(closed)|..])
    {
      ghost var before := entries;
      ids := LiveIds(before, now, ttl);
      LiveIsLeading(before, now, ttl);
      PruneExpired(now, ids);
      KeptSize(before, ids);
      while |entries| > max
        invariant Distinct(entries) && Accounted() && old(closed) <= closed
        invariant Leading(before, ids, now, ttl) && entries == Kept(before, ids) && |entries| == |ids|
        invariant |ids| < max ==> NoRoomWasted(before, ids, now, ttl)
        decreases |entries|
      {
        var m := Oldest();
        LeadingWithoutOldest(before, ids, m, now, ttl);
        DropKept(before, ids, m);
        ids := ids - {entries[m].id};
        KeptSize(before, ids);
        CloseAt(m);
      }
      BestSurvive(before, ids, now, ttl, max);
      ghost var more := multiset(closed[|old(closed)|..]);
      assert multiset(closed) == multiset(old(closed)) + more by {
        assert closed == old(closed) + closed[|old(closed)|..];
      }
      Cancel(Held(before), multiset(old(closed)), ended, Held(entries), more);
    }

    method Oldest() returns (m: nat)
      requires entries != []
      ensures IsOldest(entries, m)
    {
      m := 0;
      for k := 1 to |entries|
        invariant IsOldest(entries[..k], m)
      {
        if entries[k].lastSeen < entries[m].lastSeen {
          m := k;
        }
      }
      assert entries[..|entries|] == entries;
    }

    method Find(id: string) returns (m: Option<nat>)
      ensures m.Some? ==> m.value < |entries| && entries[m.value].id == id
      ensures m.None? ==> id !in Ids(entries)
    {
      for k := 0 to |entries|
        invariant id !in Ids(entries[..k])
      {
        if entries[k].id == id {
          return Some(k);
        }
        assert entries[..k + 1][..k] == entries[..k];
      }
      assert entries[..|entries|] == entries;
      return None;
    }

    /**
      The transport of a session that is known, unexpired and not crowded out; it has been seen now.
      A missing or malformed id leaves the pool as it is.
    */
    method GetTransport(sessionId: Option<string>, now: int, later: int)
      returns (r: Option<nat>, ghost ids: set<string>)
      requires Valid()
      modifies this`entries, this`closed
      ensures Valid() && old(closed) <= closed
      ensures !Usable(sessionId) ==> r == None && entries == old(entries) && closed == old(closed)
      ensures Usable(sessionId) ==> Best(old(entries), ids, now, ttl, max)
      ensures Usable(sessionId) ==> entries == Seen(Kept(old(entries), ids), sessionId.value, later)
      ensures r.Some? <==> Usable(sessionId) && sessionId.value in ids
      ensures r.Some? ==> Fresh(old(entries), sessionId.value, r.value, now, ttl)
      ensures old(SeenBy(later)) ==> SeenBy(later)
    {
      ids := {};
      if sessionId.None? || sessionId.value == "" || !wellFormed(sessionId.value) {
        return None, ids;
      }
      ghost var before := entries;
      ids := Prune(now);
      KeptIds(before, ids);
      KeptWasSeen(before, ids, later);
      var m := Find(sessionId.value);
      if m.None? {
        SeenElsewhere(entries, sessionId.value, later);
        return None, ids;
      }
      IdAt(entries, m.value);
      KeptHas(before, ids, entries[m.value]);
      assert Fresh(before, sessionId.value, entries[m.value].transport, now, ttl);
      Touch(m.value, later);
      return Some(entries[m.value].transport), ids;
    }

    predicate Usable(sessionId: Option<string>) {
      sessionId.Some? && sessionId.value != "" && wellFormed(sessionId.value)
    }

    method Touch(m: nat, now: int)
      requires Valid() && m < |entries|
      modifies this`entries
      ensures Valid()
      ensures entries == Seen(old(entries), old(entries)[m].id, now)
      ensures m < |entries| && entries[m].transport == old(entries)[m].transport
      ensures old(SeenBy(now)) ==> SeenBy(now)
    {
      var e := entries[m].(lastSeen := now);
      Touched(entries, m, e);
      SeenAt(entries, m, now);
      entries := entries[m := e];
    }

    /** A new session: pruned, stored, and pruned again; the clock is read each time. */
    method Initialise(id: string, transport: nat, t1: int, created: int, t2: int, t3: int)
      returns (ghost first: set<string>, ghost second: set<string>)
      requires Valid() && id !in Ids(entries) && transport !in admitted
      modifies this`entries, this`closed, this`admitted
      ensures Valid() && old(closed) <= closed
      ensures Best(old(entries), first, t1, ttl, max)
      ensures var stored := Kept(old(entries), first) + [Entry(id, transport, created, t2)];
              Best(stored, second, t3, ttl, max) && entries == Kept(stored, second)
      ensures old(SeenBy(t2)) && t2 <= t3 <= t2 + ttl ==>
                entries != [] && entries[|entries| - 1] == Entry(id, transport, created, t2)
      ensures old(SeenBy(t2)) ==> SeenBy(t2)
    {
      ghost var before := entries;
      first := Prune(t1);
      KeptIds(before, first);
      KeptWasSeen(before, first, t2);
      var e := Entry(id, transport, created, t2);
      ghost var known := entries;
      Store(e);
      second := Prune(t3);
      if AllSeenBy(known, t2) {
        NewIsKept(known, e, second, t3, ttl, max);
      }
    }

    method Store(e: Entry)
      requires Distinct(entries) && Accounted() && e.id !in Ids(entries) && e.transport !in admitted
      modifies this`entries, this`admitted
      ensures Distinct(entries) && Accounted() &&
              entries == old(entries) + [e] && admitted == old(admitted) + {e.transport}
    {
      assert multiset(admitted + {e.transport}) == multiset(admitted) + multiset{e.transport};
      Append(entries, e);
      Swap(Held(entries), multiset(closed) + ended, multiset{e.transport});
      entries := entries + [e];
      admitted := admitted + {e.transport};
    }

    /** A transport that closes takes its session out of the pool, if it is still there. */
    method TransportClosed(id: string)
      requires Valid()
      modifies this`entries, this`ended
      ensures Valid()
      ensures entries == Kept(old(entries), Ids(old(entries)) - {id})
    {
      var m := Find(id);
      KeptAll(entries, Ids(entries));
      if m.Some? {
        DropKept(entries, Ids(entries), m.value);
        HeldDrop(entries, m.value);
        DropDistinct(entries, m.value);
        ended := ended + multiset{entries[m.value].transport};
        entries := entries[..m.value] + entries[m.value + 1..];
      } else {
        assert Ids(entries) - {id} == Ids(entries);
      }
    }

    /** A transport closed by pruning was closed once, and is no longer in the pool. */
    lemma ClosedOnce(t: nat)
      requires Valid() && t in closed
      ensures multiset(closed)[t] == 1 && forall i | 0 <= i < |entries| :: entries[i].transport != t
    {
      assert multiset(admitted)[t] <= 1;
      forall i | 0 <= i < |entries| ensures entries[i].transport != t {
        HeldDrop(entries, i);
      }
    }
  }

  /** An unexpired session has this id and this transport. */
  ghost predicate Fresh(entries: seq<Entry>, id: string, transport: nat, now: int, ttl: int) {
    exists i :: 0 <= i < |entries| &&
      entries[i].id == id && entries[i].transport == transport && now - entries[i].lastSeen <= ttl
  }

  predicate AllSeenBy(entries: seq<Entry>, now: int) {
    forall i | 0 <= i < |entries| :: entries[i].lastSeen <= now
  }

  lemma KeptWasSeen(entries: seq<Entry>, ids: set<string>, now: int)
    ensures AllSeenBy(entries, now) ==> AllSeenBy(Kept(entries, ids), now)
  {
    var kept := Kept(entries, ids);
    forall i | 0 <= i < |kept| ensures kept[i] in entries {
      KeptHas(entries, ids, kept[i]);
    }
  }

  /** The entries after the session with this id was seen. */
  function Seen(entries: seq<Entry>, id: string, now: int): seq<Entry> {
    seq(|entries|, i requires 0 <= i < |entries| =>
        if entries[i].id == id then entries[i].(lastSeen := now) else entries[i])
  }

  lemma SeenElsewhere(entries: seq<Entry>, id: string, now: int)
    requires id !in Ids(entries)
    ensures Seen(entries, id, now) == entries
  {
    forall i | 0 <= i < |entries| ensures entries[i].id != id {
      IdAt(entries, i);
    }
  }

  lemma SeenAt(entries: seq<Entry>, m: nat, now: int)
    requires Distinct(entries) && m < |entries|
    ensures Seen(entries, entries[m].id, now) == entries[m := entries[m].(lastSeen := now)]
  {
    forall i | 0 <= i < |entries| ensures entries[i].id == entries[m].id <==> i == m {
      if i < m {
        Differ(entries, i, m);
      } else if m < i {
        Differ(entries, m, i);
      }
    }
  }

  predicate AreLive(entries: seq<Entry>, ids: set<string>, now: int, ttl: int) {
    forall i | 0 <= i < |entries| :: entries[i].id in ids <==> !Expired(entries[i], now, ttl)
  }

  lemma LiveAreKept(entries: seq<Entry>, ids: set<string>, now: int, ttl: int)
    requires AreLive(entries, ids, now, ttl)
    ensures forall e :: e in Kept(entries, ids) <==> e in entries && now - e.lastSeen <= ttl
  {
    forall e ensures e in Kept(entries, ids) <==> e in entries && now - e.lastSeen <= ttl {
      KeptHas(entries, ids, e);
    }
  }

  /** The ids of the unexpired entries. */
  function LiveIds(entries: seq<Entry>, now: int, ttl: int): set<string> {
    if entries == [] then {}
    else
      var last := entries[|entries| - 1];
      LiveIds(entries[..|entries| - 1], now, ttl) + if Expired(last, now, ttl) then {} else {last.id}
  }

  lemma {:induction false} LiveIdsAreIds(entries: seq<Entry>, now: int, ttl: int)
    ensures LiveIds(entries, now, ttl) <= Ids(entries)
  {
    if entries != [] {
      LiveIdsAreIds(entries[..|entries| - 1], now, ttl);
    }
  }

  lemma {:induction false} IsLive(entries: seq<Entry>, i: nat, now: int, ttl: int)
    requires Distinct(entries) && i < |entries|
    ensures entries[i].id in LiveIds(entries, now, ttl) <==> !Expired(entries[i], now, ttl)
    decreases |entries|
  {
    var front, last := entries[..|entries| - 1], entries[|entries| - 1];
    if i < |front| {
      IsLive(front, i, now, ttl);
      IdAt(front, i);
    } else {
      LiveIdsAreIds(front, now, ttl);
    }
  }

  lemma LiveIsLeading(entries: seq<Entry>, now: int, ttl: int)
    requires Distinct(entries)
    ensures AreLive(entries, LiveIds(entries, now, ttl), now, ttl)
    ensures Leading(entries, LiveIds(entries, now, ttl), now, ttl)
    ensures NoRoomWasted(entries, LiveIds(entries, now, ttl), now, ttl)
  {
    LiveIdsAreIds(entries, now, ttl);
    forall i | 0 <= i < |entries|
      ensures entries[i].id in LiveIds(entries, now, ttl) <==> !Expired(entries[i], now, ttl) {
      IsLive(entries, i, now, ttl);
    }
  }

  /** The entries when the first `seen` ones have been gone through. */
  function Halfway(before: seq<Entry>, seen: nat, ids: set<string>): seq<Entry>
    requires seen <= |before|
  {
    Kept(before[..seen], ids) + before[seen..]
  }

  /** How many of the first `seen` entries were kept. */
  function Passed(before: seq<Entry>, seen: nat, ids: set<string>): nat
    requires seen <= |before|
  {
    |Kept(before[..seen], ids)|
  }

  lemma HalfwayEnds(before: seq<Entry>, ids: set<string>)
    ensures Halfway(before, 0, ids) == before && Passed(before, 0, ids) == 0
    ensures Halfway(before, |before|, ids) == Kept(before, ids)
  {
    assert before[..|before|] == before;
  }

  /** The next entry is skipped or kept. */
  lemma SkipOrKeep(before: seq<Entry>, seen: nat, ids: set<string>)
    requires seen < |before|
    ensures var (entries, i, keep) := (Halfway(before, seen, ids), Passed(before, seen, ids), before[seen].id in ids);
            && i < |entries| && entries[i] == before[seen]
            && Halfway(before, seen + 1, ids) == (if keep then entries else Drop(entries, i))
            && Passed(before, seen + 1, ids) == i + (if keep then 1 else 0)
  {
    assert before[..seen + 1] == before[..seen] + [before[seen]];
    KeptAppend(before[..seen], before[seen], ids);
  }

  lemma LeadingWithoutOldest(entries: seq<Entry>, ids: set<string>, m: nat, now: int, ttl: int)
    requires Distinct(entries) && Leading(entries, ids, now, ttl) && IsOldest(Kept(entries, ids), m)
    ensures Kept(entries, ids)[m].id in ids
    ensures Leading(entries, ids - {Kept(entries, ids)[m].id}, now, ttl)
  {
    var e := Kept(entries, ids)[m];
    KeptHas(entries, ids, e);
    var rest := ids - {e.id};
    forall j | 0 <= j < |entries| && !Expired(entries[j], now, ttl) && entries[j].id !in rest
      ensures BeatsAll(entries, rest, j)
    {
      forall i | 0 <= i < |entries| && entries[i].id in rest ensures Beats(entries, i, j) {
        if entries[j].id in ids {
          var p :| 0 <= p < |entries| && entries[p] == e;
          if p < j {
            Differ(entries, p, j);
          } else if j < p {
            Differ(entries, j, p);
          }
          OldestIsBeaten(entries, ids, m, i, j);
        } else {
          assert BeatsAll(entries, ids, j);
        }
      }
    }
  }

  lemma {:induction false} KeptAll(entries: seq<Entry>, ids: set<string>)
    requires Ids(entries) <= ids
    ensures Kept(entries, ids) == entries
  {
    if entries != [] {
      var front, last := entries[..|entries| - 1], entries[|entries| - 1];
      KeptAll(front, ids);
      assert entries == front + [last];
    }
  }

  /** An entry stored last and seen no earlier than the others is kept while it has not expired. */
  lemma LatestIsBest(entries: seq<Entry>, ids: set<string>, now: int, ttl: int, max: nat)
    requires entries != [] && 1 <= max && Best(entries, ids, now, ttl, max)
    requires now - entries[|entries| - 1].lastSeen <= ttl
    requires forall i | 0 <= i < |entries| :: entries[i].lastSeen <= entries[|entries| - 1].lastSeen
    ensures entries[|entries| - 1].id in ids
  {
    var j := |entries| - 1;
    if entries[j].id !in ids {
      assert |ids| == max;
      var x :| x in ids;
      var i := AtId(entries, x);
      assert Beats(entries, i, j) by { assert BeatsAll(entries, ids, j); }
    }
  }

  lemma NewIsKept(known: seq<Entry>, e: Entry, ids: set<string>, now: int, ttl: int, max: nat)
    requires 1 <= max && AllSeenBy(known, e.lastSeen) && Best(known + [e], ids, now, ttl, max)
    ensures var kept := Kept(known + [e], ids);
            && AllSeenBy(kept, e.lastSeen)
            && (!Expired(e, now, ttl) ==> kept != [] && kept[|kept| - 1] == e)
  {
    KeptWasSeen(known + [e], ids, e.lastSeen);
    KeptAppend(known, e, ids);
    if !Expired(e, now, ttl) {
      LatestIsBest(known + [e], ids, now, ttl, max);
    }
  }
}
