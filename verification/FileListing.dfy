/**
  The recursive file listing that feeds the built-in search: directory entries in name order, a
  filter on paths, a cap on the number of files, and a stop test that may answer differently each
  time it is asked.
*/
module FileListing {
  import opened Numbers
  import opened Wrappers
  import NodeSearch

  datatype Entry =
    | File(rel: string)
    | Dir(rel: string, readable: bool, entries: seq<Entry>)
    | Other(rel: string)

  datatype Root = FileRoot(rel: string) | DirRoot(readable: bool, entries: seq<Entry>)

  /** `hidden` joins the block list, the exclude globs and the dot-file rule; `wanted` is the glob. */
  datatype Options = Options(hidden: string -> bool, wanted: string -> bool, maxFiles: nat)

  // ---------- what there is to list ----------

  function Listing(o: Options, entries: seq<Entry>): seq<string>
    decreases entries
  {
    if entries == [] then [] else EntryListing(o, entries[0]) + Listing(o, entries[1..])
  }

  function EntryListing(o: Options, entry: Entry): seq<string>
    decreases entry
  {
    if o.hidden(entry.rel) then []
    else
      match entry
      case File(rel) => if o.wanted(rel) then [rel] else []
      case Dir(_, readable, entries) => if readable then Listing(o, entries) else []
      case Other(_) => []
  }

  function RootListing(o: Options, root: Root): seq<string> {
    match root
    case FileRoot(rel) => if o.hidden(rel) || !o.wanted(rel) then [] else [rel]
    case DirRoot(readable, entries) => if readable then Listing(o, entries) else []
  }

  /** Folders each in the one before it, read and not hidden, from one of `entries` down to a wanted file. */
  predicate LeadsTo(o: Options, entries: seq<Entry>, chain: seq<Entry>, rel: string) {
    && chain != [] && chain[0] in entries
    && (forall e :: e in chain ==> !o.hidden(e.rel))
    && (forall i :: 0 <= i < |chain| - 1 ==> chain[i].Dir? && chain[i].readable && chain[i + 1] in chain[i].entries)
    && chain[|chain| - 1] == File(rel) && o.wanted(rel)
  }

  lemma {:induction false} ListedHasChain(o: Options, entries: seq<Entry>, rel: string) returns (chain: seq<Entry>)
    requires rel in Listing(o, entries)
    ensures LeadsTo(o, entries, chain, rel)
    decreases entries
  {
    var e := entries[0];
    if rel !in EntryListing(o, e) {
      chain := ListedHasChain(o, entries[1..], rel);
    } else if e.File? {
      chain := [e];
    } else {
      assert e in entries;
      var below := ListedHasChain(o, e.entries, rel);
      chain := [e] + below;
    }
  }

  lemma {:induction false} ChainIsListed(o: Options, entries: seq<Entry>, chain: seq<Entry>, rel: string)
    requires LeadsTo(o, entries, chain, rel)
    ensures rel in Listing(o, entries)
    decreases |chain|, |entries|
  {
    if chain[0] != entries[0] {
      ChainIsListed(o, entries[1..], chain, rel);
    } else if |chain| > 1 {
      ChainIsListed(o, chain[0].entries, chain[1..], rel);
    }
  }

  /** The files there are to list are the wanted ones that readable, visible folders lead to. */
  lemma ListedIff(o: Options, entries: seq<Entry>, rel: string)
    ensures rel in Listing(o, entries) <==> exists chain :: LeadsTo(o, entries, chain, rel)
  {
    if rel in Listing(o, entries) {
      var chain := ListedHasChain(o, entries, rel);
    }
    if chain :| LeadsTo(o, entries, chain, rel) {
      ChainIsListed(o, entries, chain, rel);
    }
  }

  /** Files are listed in the order of their entries: those of a folder stand together. */
  lemma ListingOrder(o: Options, before: seq<Entry>, after: seq<Entry>, entry: Entry)
    requires !o.hidden(entry.rel)
    ensures Listing(o, before + [entry] + after) ==
            Listing(o, before)
            + (if entry.Dir? && entry.readable then Listing(o, entry.entries)
               else if entry.File? && o.wanted(entry.rel) then [entry.rel] else [])
            + Listing(o, after)
  {
    ListingConcat(o, before + [entry], after);
    ListingConcat(o, before, [entry]);
    assert Listing(o, [entry]) == EntryListing(o, entry) + Listing(o, [entry][1..]);
  }

  function Take(s: seq<string>, n: nat): seq<string> {
    if |s| <= n then s else s[..n]
  }

  /** `a` is `b` with some elements left out. */
  ghost predicate Subsequence(a: seq<string>, b: seq<string>)
    decreases |b|
  {
    a == [] || (b != [] && ((a[0] == b[0] && Subsequence(a[1..], b[1..])) || Subsequence(a, b[1..])))
  }

  lemma {:induction false} SubsequenceConcat(a: seq<string>, b: seq<string>, c: seq<string>, d: seq<string>)
    requires Subsequence(a, b) && Subsequence(c, d)
    ensures Subsequence(a + c, b + d)
    decreases |b|
  {
    if b == [] {
      assert a + c == c && b + d == d;
    } else {
      assert (b + d)[1..] == b[1..] + d;
      if a == [] {
        SubsequenceConcat(a, b[1..], c, d);
      } else if a[0] == b[0] && Subsequence(a[1..], b[1..]) {
        assert (a + c)[1..] == a[1..] + c;
        SubsequenceConcat(a[1..], b[1..], c, d);
      } else {
        SubsequenceConcat(a, b[1..], c, d);
      }
    }
  }

  lemma {:induction false} SubsequenceOfSelf(a: seq<string>)
    ensures Subsequence(a, a)
  {
    if a != [] {
      SubsequenceOfSelf(a[1..]);
    }
  }

  // ---------- the walk ----------

  /** One of the first `n` answers of the stop test is yes. */
  predicate SaidYes(stop: nat -> bool, n: nat) {
    n > 0 && (SaidYes(stop, n - 1) || stop(n - 1))
  }

  /** How many of the first `n` answers are no. */
  function Noes(stop: nat -> bool, n: nat): nat {
    if n == 0 then 0 else Noes(stop, n - 1) + if stop(n - 1) then 0 else 1
  }

  /** When the stop test says yes from the `k`th question on, it has said no at most `k` times. */
  lemma {:induction false} NoesEnd(stop: nat -> bool, k: nat, n: nat)
    requires forall i :: k <= i ==> stop(i)
    ensures Noes(stop, n) <= k
  {
    if n > 0 {
      NoesEnd(stop, k, n - 1);
      if n <= k {
        NoesBound(stop, n);
      }
    }
  }

  lemma {:induction false} NoesBound(stop: nat -> bool, n: nat)
    ensures Noes(stop, n) <= n
  {
    if n > 0 {
      NoesBound(stop, n - 1);
    }
  }

  class FileWalk {
    const o: Options
    const stop: nat -> bool     // the answer of the stop test, by how often it was asked
    var files: seq<string>
    var ticks: nat
    var stopped: bool           // the stop test has answered yes, which also raised a flag of its owner

    constructor (o: Options, stop: nat -> bool)
      ensures this.o == o && this.stop == stop && files == [] && ticks == 0 && !stopped
    {
      this.o, this.stop := o, stop;
      files, ticks, stopped := [], 0, false;
    }

    /** The walk counts as stopped exactly if the stop test has said so; each file had its own leave to go on. */
    ghost predicate Honest()
      reads this
    {
      (stopped <==> SaidYes(stop, ticks)) && |files| <= Noes(stop, ticks)
    }

    /**
      How a part of the walk over `listing` moves the state from `before`, `wasStopped`: it appends
      listed files in order, within the cap, and leaves one out only if the stop test said yes or
      the cap is reached.
    */
    ghost predicate Walked(before: seq<string>, wasStopped: bool, listing: seq<string>)
      reads this
    {
      && Honest()
      && before <= files
      && |files| <= o.maxFiles
      && (wasStopped ==> stopped)
      && Subsequence(files[|before|..], listing)
      && (!stopped ==> files == Take(before + listing, o.maxFiles))
    }

    method ShouldStop() returns (b: bool)
      requires Honest()
      modifies this
      ensures Honest() && files == old(files) && (stopped <==> old(stopped) || b)
      ensures b || |files| < Noes(stop, ticks)
    {
      b := stop(ticks);
      ticks := ticks + 1;
      stopped := stopped || b;
    }

    method AddFile(rel: string)
      requires Honest() && |files| < o.maxFiles
      modifies this
      ensures Walked(old(files), old(stopped), EntryListing(o, File(rel)))
    {
      var b := ShouldStop();
      if b || o.hidden(rel) || !o.wanted(rel) {
        return;
      }
      files := files + [rel];
      SubsequenceOfSelf([rel]);
    }

    method Walk(readable: bool, entries: seq<Entry>)
      requires Honest() && |files| <= o.maxFiles
      modifies this
      ensures Walked(old(files), old(stopped), if readable then Listing(o, entries) else [])
      decreases entries, 1
    {
      var full := |files| >= o.maxFiles;
      if full {
        return;
      }
      var b := ShouldStop();
      if b || !readable {
        return;
      }
      WalkEntries(entries);
    }

    /** The loop over the entries of a directory. */
    method WalkEntries(entries: seq<Entry>)
      requires Honest() && |files| <= o.maxFiles
      modifies this
      ensures Walked(old(files), old(stopped), Listing(o, entries))
      decreases entries, 0
    {
      ghost var before, wasStopped := files, stopped;
      var i := 0;
      SubsequenceOfSelf([]);
      while i < |entries|
        invariant 0 <= i <= |entries|
        invariant Walked(before, wasStopped, Listed(o, entries, i))
      {
        ListedStep(o, entries, i);
        ghost var here, already := files, stopped;
        ListedRest(o, entries, i);
        if |files| >= o.maxFiles {
          WalkedThen(before, wasStopped, Listed(o, entries, i), here, already, Listing(o, entries[i..]));
          return;
        }
        var b := ShouldStop();
        if b {
          WalkedThen(before, wasStopped, Listed(o, entries, i), here, already, Listing(o, entries[i..]));
          return;
        }
        if o.hidden(entries[i].rel) {
          assert Walked(here, already, EntryListing(o, entries[i]));
        } else {
          match entries[i] {
            case Dir(_, readable, sub) =>
              assert entries[i] in entries;
              Walk(readable, sub);
            case File(rel) => AddFile(rel);
            case Other(_) =>
          }
        }
        WalkedThen(before, wasStopped, Listed(o, entries, i), here, already, EntryListing(o, entries[i]));
        i := i + 1;
      }
      assert entries[..i] == entries;
    }

    /** Two parts of a walk in a row. */
    lemma WalkedThen(before: seq<string>, wasStopped: bool, first: seq<string>, here: seq<string>, already: bool,
                     second: seq<string>)
      requires before <= here && |here| <= o.maxFiles && (wasStopped ==> already)
      requires Subsequence(here[|before|..], first)
      requires !already ==> here == Take(before + first, o.maxFiles)
      requires Walked(here, already, second)
      ensures Walked(before, wasStopped, first + second)
    {
      assert files[|before|..] == here[|before|..] + files[|here|..];
      SubsequenceConcat(here[|before|..], first, files[|here|..], second);
      assert before + (first + second) == before + first + second;
    }

    method ListFiles(root: Root)
      requires files == [] && !stopped && Honest() && o.maxFiles > 0
      modifies this
      ensures Honest()
      ensures |files| <= o.maxFiles && Subsequence(files, RootListing(o, root))
      ensures !stopped ==> files == Take(RootListing(o, root), o.maxFiles)
      ensures |files| <= Noes(stop, ticks)
    {
      match root {
        case FileRoot(rel) => AddFile(rel);
        case DirRoot(readable, entries) => Walk(readable, entries);
      }
      assert [] + RootListing(o, root) == RootListing(o, root);
      assert files[0..] == files;
    }
  }

  /** The listing of the first `i` entries. */
  function Listed(o: Options, entries: seq<Entry>, i: nat): seq<string>
    requires i <= |entries|
  {
    Listing(o, entries[..i])
  }

  lemma {:induction false} ListingConcat(o: Options, a: seq<Entry>, b: seq<Entry>)
    ensures Listing(o, a + b) == Listing(o, a) + Listing(o, b)
    decreases |a|
  {
    if a == [] {
      assert a + b == b;
    } else {
      assert (a + b)[1..] == a[1..] + b;
      ListingConcat(o, a[1..], b);
    }
  }

  lemma ListedStep(o: Options, entries: seq<Entry>, i: nat)
    requires i < |entries|
    ensures Listed(o, entries, i + 1) == Listed(o, entries, i) + EntryListing(o, entries[i])
  {
    assert entries[..i + 1] == entries[..i] + [entries[i]];
    ListingConcat(o, entries[..i], [entries[i]]);
    assert Listing(o, [entries[i]]) == EntryListing(o, entries[i]) + Listing(o, []);
  }

  lemma ListedRest(o: Options, entries: seq<Entry>, i: nat)
    requires i <= |entries|
    ensures Listing(o, entries) == Listed(o, entries, i) + Listing(o, entries[i..])
  {
    assert entries == entries[..i] + entries[i..];
    ListingConcat(o, entries[..i], entries[i..]);
  }

  // ---------- walk and workers ----------

  const DEFAULT_TIMEOUT: int := 8_000
  const MAX_TIMEOUT: int := 30_000
  const SOFT_TIMEOUT: int := 1_200
  const WALK_TIMEOUT: int := 300

  function HardTimeout(requested: Option<int>): int {
    Max(1, Min(if requested.Some? then requested.value else DEFAULT_TIMEOUT, MAX_TIMEOUT))
  }

  function SoftTimeout(hard: int): int {
    Min(SOFT_TIMEOUT, Max(1, hard - 100))
  }

  function WalkTimeout(hard: int): int {
    Min(SoftTimeout(hard), Min(WALK_TIMEOUT, Max(1, SoftTimeout(hard) / 3)))
  }

  /** What the walk's stop test sees when it is asked: the caller's signal, and the clock. */
  datatype Sight = Sight(aborted: bool, now: int)

  /** A signal once given stays. */
  ghost predicate Sticky(sight: nat -> Sight) {
    forall i, j | i <= j && sight(i).aborted :: sight(j).aborted
  }

  function WalkStops(hardDeadline: int, walkDeadline: int, s: Sight): bool {
    s.aborted || s.now >= hardDeadline || s.now >= walkDeadline
  }

  function StopTest(hardDeadline: int, walkDeadline: int, sight: nat -> Sight): nat -> bool {
    (k: nat) => WalkStops(hardDeadline, walkDeadline, sight(k))
  }

  datatype Flags = Flags(timedOut: bool, softLimited: bool)

  /** The flags the stop test has raised when it has been asked `n` times. */
  function FlagsRaised(hardDeadline: int, walkDeadline: int, sight: nat -> Sight, n: nat): Flags {
    if n == 0 then Flags(false, false)
    else
      var (f, s) := (FlagsRaised(hardDeadline, walkDeadline, sight, n - 1), sight(n - 1));
      if s.aborted then f
      else if s.now >= hardDeadline then f.(timedOut := true)
      else if s.now >= walkDeadline then f.(softLimited := true)
      else f
  }

  /** The deadline, the shorter one of the scan and that of the walk, for every requested time. */
  lemma TimeoutsAre(requested: Option<int>)
    ensures var hard := HardTimeout(requested);
            && (requested.None? ==> hard == 8_000)
            && (requested.Some? && 1 <= requested.value <= 30_000 ==> hard == requested.value)
            && (requested.Some? && requested.value > 30_000 ==> hard == 30_000)
            && (requested.Some? && requested.value < 1 ==> hard == 1)
            && (hard >= 1_300 ==> SoftTimeout(hard) == 1_200 && WalkTimeout(hard) == 300)
            && (101 < hard < 1_300 ==> SoftTimeout(hard) == hard - 100)
            && (hard <= 101 ==> SoftTimeout(hard) == 1)
            && (3 <= SoftTimeout(hard) <= 900 ==>
                  3 * WalkTimeout(hard) <= SoftTimeout(hard) < 3 * WalkTimeout(hard) + 3)
            && 1 <= WalkTimeout(hard) <= SoftTimeout(hard) <= hard
  {
  }

  /** The stop test says yes to an aborted search and after either deadline. */
  lemma StopTestIs(hardDeadline: int, walkDeadline: int, sight: nat -> Sight, k: nat)
    ensures StopTest(hardDeadline, walkDeadline, sight)(k) <==>
            sight(k).aborted || sight(k).now >= hardDeadline || sight(k).now >= walkDeadline
  {
  }

  /** A question after the deadline raises the one flag, a question after the walk's time the other. */
  lemma {:induction false} FlagsRaisedIff(hardDeadline: int, walkDeadline: int, sight: nat -> Sight, n: nat)
    ensures var f := FlagsRaised(hardDeadline, walkDeadline, sight, n);
            && (f.timedOut <==> exists k | 0 <= k < n :: !sight(k).aborted && sight(k).now >= hardDeadline)
            && (f.softLimited <==>
                exists k | 0 <= k < n :: !sight(k).aborted && walkDeadline <= sight(k).now < hardDeadline)
  {
    if n > 0 {
      FlagsRaisedIff(hardDeadline, walkDeadline, sight, n - 1);
      assert sight(n - 1) == sight(n - 1);
    }
  }

  lemma {:induction false} StopRaisesFlag(hardDeadline: int, walkDeadline: int, sight: nat -> Sight, n: nat)
    requires Sticky(sight) && SaidYes(StopTest(hardDeadline, walkDeadline, sight), n)
    ensures var f := FlagsRaised(hardDeadline, walkDeadline, sight, n); f.timedOut || f.softLimited || sight(n).aborted
  {
    if !WalkStops(hardDeadline, walkDeadline, sight(n - 1)) {
      StopRaisesFlag(hardDeadline, walkDeadline, sight, n - 1);
    }
  }

  /**
    A whole search: the walk under its stop test, and then the workers, from the flags the walk has
    left, through any sequence of actions.  If it ends with status `ok`, every file there was to list
    was listed, and the matches of each query are a permutation of what scanning them in turn finds.
  */
  method Search(o: Options, root: Root, sight: nat -> Sight, started: int, requested: Option<int>,
                queries: NodeSearch.Problem, actions: seq<NodeSearch.Action>)
    returns (pr: NodeSearch.Problem, end: NodeSearch.State, asked: nat)
    requires o.maxFiles == 20_000 && Sticky(sight)
    ensures var hard := HardTimeout(requested);
            pr == queries.(files := pr.files, softDeadline := started + SoftTimeout(hard),
                           hardDeadline := started + hard)
    ensures |pr.files| <= o.maxFiles && Subsequence(pr.files, RootListing(o, root))
    ensures forall k: nat :: sight(k).aborted ==> |pr.files| <= k
    ensures var hard := HardTimeout(requested);
            var flags := FlagsRaised(started + hard, started + WalkTimeout(hard), sight, asked);
            end == NodeSearch.Execute(pr,
                                      NodeSearch.Init(pr, sight(asked).aborted, flags.timedOut, flags.softLimited),
                                      actions)
    ensures NodeSearch.Shaped(pr, end)
    ensures NodeSearch.Finished(end) && NodeSearch.FailureCode(pr, end).None? ==>
              && (pr.queries > 0 ==> pr.files == RootListing(o, root))
              && forall q | 0 <= q < pr.queries ::
                   && multiset(end.matches[q]) == multiset(NodeSearch.SequentialHits(pr, q, |pr.files|))
                   && NodeSearch.OnlyHitLines(pr, q, end.matches[q]) && NodeSearch.EveryHitLine(pr, q, end.matches[q])
  {
    var timeoutMs := HardTimeout(requested);
    var (hard, soft, walk) := (started + timeoutMs, started + SoftTimeout(timeoutMs), started + WalkTimeout(timeoutMs));
    var w := new FileWalk(o, StopTest(hard, walk, sight));
    w.ListFiles(root);
    pr := queries.(files := w.files, softDeadline := soft, hardDeadline := hard);
    asked := w.ticks;
    var (aborted, flags) := (sight(asked).aborted, FlagsRaised(hard, walk, sight, asked));
    end := NodeSearch.Execute(pr, NodeSearch.Init(pr, aborted, flags.timedOut, flags.softLimited), actions);
    if w.stopped {
      StopRaisesFlag(hard, walk, sight, asked);
    }
    forall k: nat | sight(k).aborted ensures |pr.files| <= k {
      assert forall i :: k <= i ==> sight(i).aborted;
      NoesEnd(StopTest(hard, walk, sight), k, asked);
    }
    if NodeSearch.Finished(end) && NodeSearch.FailureCode(pr, end).None? {
      forall q | 0 <= q < pr.queries
        ensures pr.files == RootListing(o, root)
        ensures multiset(end.matches[q]) == multiset(NodeSearch.SequentialHits(pr, q, |pr.files|))
        ensures NodeSearch.OnlyHitLines(pr, q, end.matches[q]) && NodeSearch.EveryHitLine(pr, q, end.matches[q])
      {
        SearchSeesEverything(pr, o, root, w.stopped, aborted, flags.timedOut, flags.softLimited, actions, q);
      }
      if pr.queries > 0 {
        SearchSeesEverything(pr, o, root, w.stopped, aborted, flags.timedOut, flags.softLimited, actions, 0);
      }
    }
  }

  /**
    The listing and the workers together: if a search over the listed files ends with status `ok`,
    its matches are a permutation of what scanning every file there was to list finds.
  */
  lemma SearchSeesEverything(pr: NodeSearch.Problem, o: Options, root: Root, stopped: bool,
                             aborted: bool, timedOut: bool, softLimited: bool, actions: seq<NodeSearch.Action>, q: nat)
    requires o.maxFiles == 20_000 && q < pr.queries
    requires !stopped ==> pr.files == Take(RootListing(o, root), o.maxFiles)
    requires stopped ==> aborted || timedOut || softLimited
    requires var s := NodeSearch.Execute(pr, NodeSearch.Init(pr, aborted, timedOut, softLimited), actions);
             NodeSearch.Finished(s) && NodeSearch.FailureCode(pr, s).None?
    ensures pr.files == RootListing(o, root)
    ensures var s := NodeSearch.Execute(pr, NodeSearch.Init(pr, aborted, timedOut, softLimited), actions);
            && multiset(s.matches[q]) == multiset(NodeSearch.SequentialHits(pr, q, |pr.files|))
            && NodeSearch.OnlyHitLines(pr, q, s.matches[q]) && NodeSearch.EveryHitLine(pr, q, s.matches[q])
  {
    var s := NodeSearch.Execute(pr, NodeSearch.Init(pr, aborted, timedOut, softLimited), actions);
    NodeSearch.OkMeansComplete(pr, aborted, timedOut, softLimited, actions, q);
    NodeSearch.FlagsStay(pr, NodeSearch.Init(pr, aborted, timedOut, softLimited), actions);
    assert !NodeSearch.QueryTruncated(pr, s, q);
  }
}
