/**
  Writing and editing workspace files, one at a time and in patch bundles.  Calls to the outside
  (leases, input and output) succeed or fail as they like (`*`), and `faulted` remembers a failure;
  one file write is atomic.
*/
module FileStore {
  import opened Numbers
  import opened Wrappers
  import opened SecretDelta
  import TextEdit

  datatype Error =
    | BadPath | LeaseLost | TooLarge | NotAFile | Binary | Exists | Missing | SecretContent
    | EditRefused(reason: TextEdit.EditError) | MissingField | Unsupported | Io

  datatype Operation =
    | Write(path: string, content: Option<string>, overwrite: bool)
    | Replace(path: string, oldText: Option<string>, newText: Option<string>, all: bool, expected: Option<int>)
    | Other(path: string)

  type Files = map<string, string>

  /** The surroundings: path resolution, size in bytes, the text test, and the secret scan of a file. */
  datatype Config = Config(
    resolveRead: string -> Option<string>,
    resolveWrite: string -> Option<string>,
    internal: string -> bool,
    special: string -> bool,                   // exists and is not a regular file
    textual: string -> bool,
    bytes: string -> nat,
    scan: (string, string) -> seq<Match>,      // path, content
    validId: Operation -> bool,
    maxRead: nat,
    maxWrite: nat)

  // ---------- the checks on a write and an edit ----------

  function TextRefusal(c: Config, files: Files, p: string): Option<Error> {
    if c.special(p) then Some(NotAFile)
    else if p !in files then Some(Missing)
    else if c.bytes(files[p]) > Max(c.maxWrite, c.maxRead) then Some(TooLarge)
    else if !c.textual(files[p]) then Some(Binary)
    else None
  }

  /** Why `content` may not be written to `p`; an absent file is created, so being missing is no reason. */
  function WriteRefusal(c: Config, files: Files, p: string, content: string, overwrite: bool): Option<Error> {
    if c.bytes(content) > c.maxWrite then Some(TooLarge)
    else
      match TextRefusal(c, files, p)
      case None =>
        if !overwrite then Some(Exists)
        else if Unaccounted(multiset(Prints(c.scan(p, files[p]))), c.scan(p, content)) != [] then Some(SecretContent)
        else None
      case Some(Missing) => if c.scan(p, content) != [] then Some(SecretContent) else None
      case Some(e) => Some(e)
  }

  /** The content an edit leaves in `p`, or why it is refused. */
  function EditedContent(c: Config, files: Files, p: string, word: string, text: string, all: bool,
                         expected: Option<int>): Result<string, Error> {
    match TextRefusal(c, files, p)
    case Some(e) => Err(e)
    case None =>
      match TextEdit.PlanEdit(files[p], word, text, all, expected)
      case Err(e) => Err(EditRefused(e))
      case Ok(edit) =>
        if c.bytes(edit.after) > c.maxWrite then Err(TooLarge)
        else if Unaccounted(multiset(Prints(c.scan(p, files[p]))), c.scan(p, edit.after)) != [] then Err(SecretContent)
        else Ok(edit.after)
  }

  /** The operation goes through unless a call to the outside fails. */
  predicate Accepts(c: Config, files: Files, op: Operation) {
    && c.resolveWrite(op.path).Some?
    && var p := c.resolveWrite(op.path).value;
       match op
       case Write(_, Some(content), overwrite) => WriteRefusal(c, files, p, content, overwrite).None?
       case Replace(_, Some(word), Some(text), all, expected) =>
         EditedContent(c, files, p, word, text, all, expected).Ok?
       case _ => false
  }

  // ---------- what the checks mean ----------

  /** There is a text file of readable size at `p`. */
  predicate TextAt(c: Config, files: Files, p: string) {
    && !c.special(p) && p in files && c.textual(files[p])
    && (c.bytes(files[p]) <= c.maxWrite || c.bytes(files[p]) <= c.maxRead)
  }

  /** `content` is small enough for `p` and no secret is found in it more often than before. */
  ghost predicate ContentFits(c: Config, files: Files, p: string, content: string) {
    && c.bytes(content) <= c.maxWrite
    && if p in files then NoMore(c.scan(p, files[p]), c.scan(p, content)) else c.scan(p, content) == []
  }

  /** `content` may be written to `p`: over a text file if this is wanted, or as a new file. */
  ghost predicate WriteFits(c: Config, files: Files, p: string, content: string, overwrite: bool) {
    && ContentFits(c, files, p, content) && !c.special(p)
    && (p in files ==> overwrite && TextAt(c, files, p))
  }

  /** The edit may be made in `p`, and leaves `after`. */
  ghost predicate EditFits(c: Config, files: Files, p: string, word: string, text: string, all: bool,
                           expected: Option<int>, after: string) {
    && TextAt(c, files, p) && ContentFits(c, files, p, after)
    && exists n :: TextEdit.PlanEdit(files[p], word, text, all, expected) == Ok(TextEdit.Edit(after, n))
  }

  /** The operation may be carried out on `before`, and leaves `after`. */
  ghost predicate Does(c: Config, before: Files, op: Operation, after: Files) {
    && c.resolveWrite(op.path).Some?
    && var p := c.resolveWrite(op.path).value;
       match op
       case Write(_, Some(content), overwrite) =>
         WriteFits(c, before, p, content, overwrite) && after == before[p := content]
       case Replace(_, Some(word), Some(text), all, expected) =>
         exists edited :: EditFits(c, before, p, word, text, all, expected, edited) && after == before[p := edited]
       case _ => false
  }

  ghost predicate Cannot(c: Config, before: Files, op: Operation) {
    forall after :: !Does(c, before, op, after)
  }

  /** Why a write with a path is refused. */
  ghost predicate WriteError(c: Config, files: Files, p: string, content: string, overwrite: bool, e: Error) {
    match e
    case TooLarge => c.bytes(content) > c.maxWrite || (p in files && c.bytes(files[p]) > Max(c.maxWrite, c.maxRead))
    case NotAFile => c.special(p)
    case Binary => p in files && !c.textual(files[p])
    case Exists => p in files && !overwrite
    case SecretContent =>
      if p in files then !NoMore(c.scan(p, files[p]), c.scan(p, content)) else c.scan(p, content) != []
    case _ => false
  }

  lemma WriteMeans(c: Config, files: Files, p: string, content: string, overwrite: bool)
    ensures var e := WriteRefusal(c, files, p, content, overwrite);
            && (e.None? <==> WriteFits(c, files, p, content, overwrite))
            && (e.Some? ==> WriteError(c, files, p, content, overwrite, e.value))
  {
    if p in files {
      NothingIntroducedTimes(c.scan(p, files[p]), c.scan(p, content));
    }
  }

  lemma EditMeans(c: Config, files: Files, p: string, word: string, text: string, all: bool, expected: Option<int>,
                  after: string)
    ensures EditFits(c, files, p, word, text, all, expected, after) <==>
            EditedContent(c, files, p, word, text, all, expected) == Ok(after)
  {
    if p in files {
      NothingIntroducedTimes(c.scan(p, files[p]), c.scan(p, after));
      match TextEdit.PlanEdit(files[p], word, text, all, expected)
      case Err(_) =>
      case Ok(edit) => assert edit == TextEdit.Edit(edit.after, edit.replacements);
    }
  }

  lemma OnlyEdit(c: Config, files: Files, p: string, word: string, text: string, all: bool, expected: Option<int>)
    ensures var edited := EditedContent(c, files, p, word, text, all, expected);
            forall after :: EditFits(c, files, p, word, text, all, expected, after) <==> edited == Ok(after)
  {
    forall after
      ensures EditFits(c, files, p, word, text, all, expected, after) <==>
              EditedContent(c, files, p, word, text, all, expected) == Ok(after)
    {
      EditMeans(c, files, p, word, text, all, expected, after);
    }
  }

  lemma AcceptsMeans(c: Config, files: Files, op: Operation)
    ensures Accepts(c, files, op) ==> Does(c, files, op, Applied(c, files, op))
    ensures forall after :: Does(c, files, op, after) ==> Accepts(c, files, op) && after == Applied(c, files, op)
  {
    if c.resolveWrite(op.path).Some? {
      var p := c.resolveWrite(op.path).value;
      match op
      case Write(_, Some(content), overwrite) => WriteMeans(c, files, p, content, overwrite);
      case Replace(_, Some(word), Some(text), all, expected) =>
        OnlyEdit(c, files, p, word, text, all, expected);
      case _ =>
    }
  }

  // ---------- secrets never accumulate ----------

  /** No file is lost, no fingerprint occurs more often in a file than before, and new files have none. */
  ghost predicate Guarded(c: Config, before: Files, after: Files) {
    && before.Keys <= after.Keys
    && forall p :: p in after ==> Prints(c.scan(p, after[p])) == [] || (p in before && Fewer(c, p, before[p], after[p]))
  }

  ghost predicate Fewer(c: Config, p: string, before: string, after: string) {
    multiset(Prints(c.scan(p, after))) <= multiset(Prints(c.scan(p, before)))
  }

  /** A file that exists before has no more of any fingerprint after; one that does not has none. */
  lemma GuardedMeaning(c: Config, before: Files, after: Files, p: string)
    requires Guarded(c, before, after) && p in after
    ensures p in before ==>
              forall f :: multiset(Prints(c.scan(p, after[p])))[f] <= multiset(Prints(c.scan(p, before[p])))[f]
    ensures p !in before ==> c.scan(p, after[p]) == []
  {
    if p !in before {
      assert |Prints(c.scan(p, after[p]))| == |c.scan(p, after[p])|;
    }
  }

  lemma GuardedTransitive(c: Config, a: Files, b: Files, d: Files)
    requires Guarded(c, a, b) && Guarded(c, b, d)
    ensures Guarded(c, a, d)
  {
    forall p | p in d && Prints(c.scan(p, d[p])) != []
      ensures p in a && Fewer(c, p, a[p], d[p])
    {
      assert p in b && Fewer(c, p, b[p], d[p]);
      assert Prints(c.scan(p, d[p]))[0] in multiset(Prints(c.scan(p, d[p])));
      assert Prints(c.scan(p, b[p])) != [];
    }
  }

  lemma GuardedWrite(c: Config, files: Files, p: string, content: string, overwrite: bool)
    requires WriteRefusal(c, files, p, content, overwrite).None?
    ensures Guarded(c, files, files[p := content])
  {
    if p in files && TextRefusal(c, files, p).None? {
      NothingIntroducedIff(c.scan(p, files[p]), c.scan(p, content));
    }
  }

  lemma GuardedEdit(c: Config, files: Files, p: string, word: string, text: string, all: bool, expected: Option<int>)
    requires EditedContent(c, files, p, word, text, all, expected).Ok?
    ensures p in files
    ensures Guarded(c, files, files[p := EditedContent(c, files, p, word, text, all, expected).value])
  {
    NothingIntroducedIff(c.scan(p, files[p]), c.scan(p, EditedContent(c, files, p, word, text, all, expected).value));
  }

  // ---------- the effect of a bundle ----------

  /** The files after an operation that was reported `ok`. */
  function Applied(c: Config, files: Files, op: Operation): Files {
    if c.resolveWrite(op.path).None? then files
    else
      var p := c.resolveWrite(op.path).value;
      match op
      case Write(_, Some(content), _) => files[p := content]
      case Replace(_, Some(word), Some(text), all, expected) =>
        var edited := EditedContent(c, files, p, word, text, all, expected);
        if edited.Ok? then files[p := edited.value] else files
      case _ => files
  }

  /** The files after applying, in order, exactly the operations reported `ok`. */
  function Fold(c: Config, files: Files, ops: seq<Operation>, oks: seq<bool>): Files
    requires |oks| <= |ops|
    decreases |oks|
  {
    if oks == [] then files
    else
      var n := |oks| - 1;
      var before := Fold(c, files, ops, oks[..n]);
      if oks[n] then Applied(c, before, ops[n]) else before
  }

  /** Operations reported `ok` were acceptable where they came in the fold; without faults the others were not. */
  ghost predicate Judged(c: Config, files: Files, ops: seq<Operation>, oks: seq<bool>, faulted: bool)
    requires |oks| <= |ops|
  {
    forall i :: 0 <= i < |oks| ==>
      && (oks[i] ==> Accepts(c, Fold(c, files, ops, oks[..i]), ops[i]))
      && (!faulted && !oks[i] ==> !Accepts(c, Fold(c, files, ops, oks[..i]), ops[i]))
  }

  lemma JudgedGrows(c: Config, files: Files, ops: seq<Operation>, oks: seq<bool>, ok: bool, faulted: bool)
    requires |oks| < |ops| && Judged(c, files, ops, oks, faulted)
    requires ok ==> Accepts(c, Fold(c, files, ops, oks), ops[|oks|])
    requires !faulted && !ok ==> !Accepts(c, Fold(c, files, ops, oks), ops[|oks|])
    ensures Judged(c, files, ops, oks + [ok], faulted)
  {
    var more := oks + [ok];
    forall i | 0 <= i < |more|
      ensures more[..i] == if i < |oks| then oks[..i] else oks
    {
    }
  }

  /** A write that may not overwrite fails where the operations before it have left, or found, a file. */
  lemma ExistingIsKept(c: Config, files: Files, ops: seq<Operation>, oks: seq<bool>, faulted: bool, i: nat)
    requires |oks| <= |ops| && Judged(c, files, ops, oks, faulted) && i < |oks|
    requires ops[i].Write? && !ops[i].overwrite
    requires c.resolveWrite(ops[i].path).Some?
    requires c.resolveWrite(ops[i].path).value in Fold(c, files, ops, oks[..i])
    ensures !oks[i]
  {
    if oks[i] {
      WriteMeans(c, Fold(c, files, ops, oks[..i]), c.resolveWrite(ops[i].path).value, ops[i].content.value, false);
    }
  }

  /**
    The operations turn each state into the next: one reported `ok` is carried out, another changes
    nothing, and without faults it could not be carried out.
  */
  ghost predicate Steps(c: Config, ops: seq<Operation>, oks: seq<bool>, faulted: bool, states: seq<Files>) {
    && |oks| <= |ops| && |states| == |oks| + 1
    && forall i :: 0 <= i < |oks| ==>
         if oks[i] then Does(c, states[i], ops[i], states[i + 1])
         else states[i + 1] == states[i] && (!faulted ==> Cannot(c, states[i], ops[i]))
  }

  ghost predicate StepsLead(c: Config, ops: seq<Operation>, oks: seq<bool>, faulted: bool, before: Files, after: Files)
  {
    exists states :: Steps(c, ops, oks, faulted, states) && states[0] == before && states[|oks|] == after
  }

  lemma StepsGrow(c: Config, ops: seq<Operation>, oks: seq<bool>, faulted: bool, states: seq<Files>,
                  ok: bool, next: Files, nowFaulted: bool)
    requires Steps(c, ops, oks, faulted, states) && |oks| < |ops| && (faulted ==> nowFaulted)
    requires if ok then Does(c, states[|oks|], ops[|oks|], next)
             else next == states[|oks|] && (!nowFaulted ==> Cannot(c, states[|oks|], ops[|oks|]))
    ensures Steps(c, ops, oks + [ok], nowFaulted, states + [next])
  {
    var (more, all) := (oks + [ok], states + [next]);
    forall i | 0 <= i < |more|
      ensures if more[i] then Does(c, all[i], ops[i], all[i + 1])
              else all[i + 1] == all[i] && (!nowFaulted ==> Cannot(c, all[i], ops[i]))
    {
      assert all[i] == states[i];
      assert i < |oks| ==> more[i] == oks[i] && all[i + 1] == states[i + 1];
    }
  }

  function Count(oks: seq<bool>, b: bool): nat {
    if oks == [] then 0 else Count(oks[..|oks| - 1], b) + if oks[|oks| - 1] == b then 1 else 0
  }

  lemma {:induction false} CountsAddUp(oks: seq<bool>)
    ensures Count(oks, true) + Count(oks, false) == |oks|
  {
    if oks != [] {
      CountsAddUp(oks[..|oks| - 1]);
    }
  }

  lemma {:induction false} NoneCounted(oks: seq<bool>, b: bool)
    ensures Count(oks, b) == 0 <==> forall i :: 0 <= i < |oks| ==> oks[i] != b
    decreases |oks|
  {
    if oks != [] {
      NoneCounted(oks[..|oks| - 1], b);
    }
  }

  /** Only the resolved paths of operations reported `ok` can differ. */
  lemma {:induction false} FoldTouches(c: Config, files: Files, ops: seq<Operation>, oks: seq<bool>, q: string)
    requires |oks| <= |ops|
    requires forall i :: 0 <= i < |oks| && oks[i] ==> c.resolveWrite(ops[i].path) != Some(q)
    ensures var after := Fold(c, files, ops, oks); (q in after <==> q in files) && (q in files ==> after[q] == files[q])
    decreases |oks|
  {
    if oks != [] {
      FoldTouches(c, files, ops, oks[..|oks| - 1], q);
    }
  }

  // ---------- undoing a bundle ----------

  /** Put `p` back to its content in `original`, or remove it if it was not there. */
  function Restore(original: Files, files: Files, p: string): Files {
    if p in original then files[p := original[p]] else files - {p}
  }

  function RestoreAll(original: Files, files: Files, order: seq<string>): Files {
    if order == [] then files
    else Restore(original, RestoreAll(original, files, order[..|order| - 1]), order[|order| - 1])
  }

  lemma {:induction false} RestoredAt(original: Files, files: Files, order: seq<string>, q: string)
    ensures var r := RestoreAll(original, files, order);
            if q in order then (q in r <==> q in original) && (q in original ==> r[q] == original[q])
            else (q in r <==> q in files) && (q in files ==> r[q] == files[q])
    decreases |order|
  {
    if order != [] {
      RestoredAt(original, files, order[..|order| - 1], q);
    }
  }

  /**
    Restoring the path of every operation reported `ok` to its content in a snapshot taken before the
    bundle, in any order and any number of times, undoes the whole bundle.
  */
  lemma RestoringUndoesBundle(c: Config, files: Files, ops: seq<Operation>, oks: seq<bool>, snapshot: Files,
                              order: seq<string>)
    requires |oks| <= |ops|
    requires forall q :: q in order ==> (q in snapshot <==> q in files) && (q in files ==> snapshot[q] == files[q])
    requires forall i :: 0 <= i < |oks| && oks[i] && c.resolveWrite(ops[i].path).Some? ==>
               c.resolveWrite(ops[i].path).value in order
    ensures RestoreAll(snapshot, Fold(c, files, ops, oks), order) == files
  {
    var after := Fold(c, files, ops, oks);
    var r := RestoreAll(snapshot, after, order);
    forall q
      ensures (q in r <==> q in files) && (q in files ==> r[q] == files[q])
    {
      RestoredAt(snapshot, after, order, q);
      if q !in order {
        FoldTouches(c, files, ops, oks, q);
      }
    }
    assert r.Keys == files.Keys;
  }

  /** The contents, before a bundle, of the files its operations name. */
  ghost predicate IsSnapshot(c: Config, files: Files, ops: seq<Operation>, snapshot: Files) {
    && (forall p :: p in snapshot <==>
          p in files && exists i :: 0 <= i < |ops| && c.resolveRead(ops[i].path) == Some(p))
    && (forall p :: p in snapshot ==> snapshot[p] == files[p])
  }

  /** The path of each operation reported `ok` is in `order`, and nothing but paths of operations. */
  ghost predicate Covers(c: Config, ops: seq<Operation>, oks: seq<bool>, order: seq<string>)
    requires |oks| <= |ops|
  {
    && (forall i :: 0 <= i < |oks| && oks[i] && c.resolveRead(ops[i].path).Some? ==>
          c.resolveRead(ops[i].path).value in order)
    && (forall q :: q in order ==> exists i :: 0 <= i < |ops| && c.resolveRead(ops[i].path) == Some(q))
  }

  /**
    The snapshot taken by the preflight undoes the bundle, where a path is resolved for writing as it
    is for reading.
  */
  lemma SnapshotUndoesBundle(c: Config, files: Files, ops: seq<Operation>, oks: seq<bool>, snapshot: Files,
                             order: seq<string>)
    requires |oks| <= |ops| && IsSnapshot(c, files, ops, snapshot) && Covers(c, ops, oks, order)
    requires forall i :: 0 <= i < |oks| && oks[i] ==> c.resolveWrite(ops[i].path) == c.resolveRead(ops[i].path)
    ensures RestoreAll(snapshot, Fold(c, files, ops, oks), order) == files
  {
    RestoringUndoesBundle(c, files, ops, oks, snapshot, order);
  }

  // ---------- the workspace ----------

  datatype BundleStatus = AllOk | AllFailed | Partial
  datatype BundleReport = BundleReport(oks: seq<bool>, succeeded: nat, failed: nat, status: BundleStatus,
                                       snapshot: Files)

  function ReportOf(oks: seq<bool>, snapshot: Files): BundleReport {
    var (succeeded, failed) := (Count(oks, true), Count(oks, false));
    var status := if failed == 0 then AllOk else if succeeded == 0 then AllFailed else Partial;
    BundleReport(oks, succeeded, failed, status, snapshot)
  }

  lemma ReportMeans(oks: seq<bool>, snapshot: Files)
    requires oks != []
    ensures var r := ReportOf(oks, snapshot);
            && r.succeeded + r.failed == |oks|
            && (r.status == AllOk <==> forall i :: 0 <= i < |oks| ==> oks[i])
            && (r.status == AllFailed <==> forall i :: 0 <= i < |oks| ==> !oks[i])
  {
    CountsAddUp(oks);
    NoneCounted(oks, true);
    NoneCounted(oks, false);
  }

  class Workspace {
    const c: Config
    var files: Files
    var leaseHeld: bool
    var faulted: bool

    constructor (c: Config, files: Files)
      ensures this.c == c && this.files == files && !leaseHeld && !faulted
    {
      this.c, this.files, leaseHeld, faulted := c, files, false, false;
    }

    /** A call to the outside. */
    method Outside() returns (ok: bool)
      modifies `faulted
      ensures faulted <==> old(faulted) || !ok
    {
      ok := *;
      faulted := faulted || !ok;
    }

    /** Take the write lease, unless it is taken or cannot be had. */
    method Acquire() returns (ok: bool)
      modifies `leaseHeld, `faulted
      ensures leaseHeld == (old(leaseHeld) || ok)
      ensures old(leaseHeld) ==> !ok
      ensures (old(faulted) ==> faulted) && (!ok && !faulted ==> old(leaseHeld))
    {
      ok := Outside();
      ok := ok && !leaseHeld;
      leaseHeld := leaseHeld || ok;
    }

    method Release()
      modifies `leaseHeld
      ensures !leaseHeld
    {
      leaseHeld := false;
    }

    /** Write one file; `lent` says that the caller lends its lease, which need only be kept alive. */
    method WriteTextFile(path: string, content: string, overwrite: bool, lent: bool) returns (r: Result<string, Error>)
      requires lent ==> leaseHeld
      modifies `files, `leaseHeld, `faulted
      ensures leaseHeld == old(leaseHeld)
      ensures r.Err? ==> files == old(files)
      ensures (old(faulted) ==> faulted) && (c.resolveWrite(path).None? ==> r == Err(BadPath))
      ensures r.Err? && !faulted && (lent || !old(leaseHeld)) ==>
                !Accepts(c, old(files), Write(path, Some(content), overwrite))
      ensures r.Ok? ==>
                && c.resolveWrite(path) == Some(r.value)
                && WriteRefusal(c, old(files), r.value, content, overwrite).None?
                && files == old(files)[r.value := content]
      ensures c.resolveWrite(path).Some? ==>
                var p := c.resolveWrite(path).value;
                && (!overwrite && p in old(files) ==> r.Err?)
                && (c.special(p) || c.bytes(content) > c.maxWrite ==> r.Err?)
                && (p in old(files) && !c.textual(old(files)[p]) ==> r.Err?)
                && (p in old(files) && c.bytes(old(files)[p]) > c.maxWrite && c.bytes(old(files)[p]) > c.maxRead ==>
                      r.Err?)
                && (r.Ok? ==> WriteFits(c, old(files), p, content, overwrite))
                && (r.Err? && !faulted && (lent || !old(leaseHeld)) ==>
                      !WriteFits(c, old(files), p, content, overwrite))
                && (r.Err? && r.error !in {LeaseLost, Io} ==>
                      WriteError(c, old(files), p, content, overwrite, r.error))
                && (r == Err(Io) ==> faulted)
                && (r == Err(LeaseLost) ==> faulted || (!lent && old(leaseHeld)))
                && (!lent && old(leaseHeld) && !c.internal(p) ==> r == Err(LeaseLost))
    {
      var resolved := c.resolveWrite(path);
      if resolved.None? {
        return Err(BadPath);
      }
      var p := resolved.value;
      var owned := false;
      if !c.internal(p) {
        if lent {
          var alive := Outside();
          if !alive {
            return Err(LeaseLost);
          }
        } else {
          owned := Acquire();
          if !owned {
            return Err(LeaseLost);
          }
        }
      }
      WriteMeans(c, files, p, content, overwrite);
      r := StoreText(p, content, overwrite);
      if owned {
        Release();
      }
    }

    /** The part of a write that runs under the lease. */
    method StoreText(p: string, content: string, overwrite: bool) returns (r: Result<string, Error>)
      modifies `files, `faulted
      ensures r.Err? ==> files == old(files)
      ensures old(faulted) ==> faulted
      ensures r.Err? && !faulted ==> WriteRefusal(c, old(files), p, content, overwrite).Some?
      ensures r.Err? ==> r == Err(Io) || WriteRefusal(c, old(files), p, content, overwrite) == Some(r.error)
      ensures r == Err(Io) ==> faulted
      ensures r.Ok? ==>
                && r.value == p && WriteRefusal(c, old(files), p, content, overwrite).None?
                && files == old(files)[p := content]
      ensures WriteRefusal(c, old(files), p, content, overwrite).Some? ==> r.Err?
    {
      if c.bytes(content) > c.maxWrite {
        return Err(TooLarge);
      }
      var refusal := TextRefusal(c, files, p);
      if refusal.Some? && refusal.value != Missing {
        return Err(refusal.value);
      }
      var existed := refusal.None?;
      if existed && !overwrite {
        return Err(Exists);
      }
      var found := if existed then Unaccounted(multiset(Prints(c.scan(p, files[p]))), c.scan(p, content))
                   else c.scan(p, content);
      if found != [] {
        return Err(SecretContent);
      }
      var written := Outside();
      if !written {
        return Err(Io);
      }
      files := files[p := content];
      return Ok(p);
    }

    /** Edit one file. */
    method EditTextFile(path: string, word: string, text: string, all: bool, expected: Option<int>, lent: bool)
      returns (r: Result<string, Error>)
      requires lent ==> leaseHeld
      modifies `files, `leaseHeld, `faulted
      ensures leaseHeld == old(leaseHeld)
      ensures r.Err? ==> files == old(files)
      ensures (old(faulted) ==> faulted) && (c.resolveWrite(path).None? ==> r.Err?)
      ensures r.Err? && !faulted && (lent || !old(leaseHeld)) ==>
                !Accepts(c, old(files), Replace(path, Some(word), Some(text), all, expected))
      ensures r.Ok? ==>
                && c.resolveWrite(path) == Some(r.value)
                && EditedContent(c, old(files), r.value, word, text, all, expected).Ok?
                && files == old(files)[r.value :=
                    EditedContent(c, old(files), r.value, word, text, all, expected).value]
      ensures r.Ok? ==>
                exists after :: EditFits(c, old(files), r.value, word, text, all, expected, after) &&
                                files == old(files)[r.value := after]
      ensures r.Err? && !faulted && (lent || !old(leaseHeld)) && c.resolveWrite(path).Some? ==>
                forall after :: !EditFits(c, old(files), c.resolveWrite(path).value, word, text, all, expected, after)
    {
      if word == "" {
        return Err(EditRefused(TextEdit.EmptyOldText));
      }
      var resolved := c.resolveWrite(path);
      if resolved.None? {
        return Err(BadPath);
      }
      var p := resolved.value;
      var owned := false;
      if !c.internal(p) {
        if lent {
          var alive := Outside();
          if !alive {
            return Err(LeaseLost);
          }
        } else {
          owned := Acquire();
          if !owned {
            return Err(LeaseLost);
          }
        }
      }
      var edited := EditedContent(c, files, p, word, text, all, expected);
      OnlyEdit(c, files, p, word, text, all, expected);
      if edited.Err? {
        r := Err(edited.error);
      } else {
        var written := Outside();
        if written {
          files := files[p := edited.value];
          r := Ok(p);
        } else {
          r := Err(Io);
        }
      }
      if owned {
        Release();
      }
    }

    /** One operation of a bundle, under the bundle's lease; any failure is caught. */
    method ApplyOperation(op: Operation) returns (ok: bool)
      requires leaseHeld
      modifies `files, `leaseHeld, `faulted
      ensures leaseHeld && (old(faulted) ==> faulted)
      ensures ok ==> Accepts(c, old(files), op)
      ensures !faulted && Accepts(c, old(files), op) ==> ok
      ensures files == if ok then Applied(c, old(files), op) else old(files)
      ensures Guarded(c, old(files), files)
      ensures ok ==> Does(c, old(files), op, files)
      ensures !ok ==> files == old(files) && (!faulted ==> Cannot(c, old(files), op))
    {
      AcceptsMeans(c, files, op);
      var alive := Outside();
      if !alive {
        return false;
      }
      match op
      case Write(path, Some(content), overwrite) =>
        var r := WriteTextFile(path, content, overwrite, true);
        ok := r.Ok?;
        if ok {
          GuardedWrite(c, old(files), r.value, content, overwrite);
        }
      case Replace(path, Some(word), Some(text), all, expected) =>
        var r := EditTextFile(path, word, text, all, expected, true);
        ok := r.Ok?;
        if ok {
          GuardedEdit(c, old(files), r.value, word, text, all, expected);
        }
      case _ => ok := false;
    }

    /** Why a whole bundle is refused: a bad id or path, or a target that is not a file of acceptable size. */
    predicate Unusable(op: Operation)
      reads this
    {
      || !c.validId(op) || c.resolveRead(op.path).None?
      || c.special(c.resolveRead(op.path).value)
      || (c.resolveRead(op.path).value in files && c.bytes(files[c.resolveRead(op.path).value]) > c.maxWrite)
    }

    /** Every operation names a usable target; the contents found there are kept for a rollback. */
    method Preflight(ops: seq<Operation>) returns (r: Result<Files, Error>)
      modifies `faulted
      ensures old(faulted) ==> faulted
      ensures r.Err? && !faulted ==> exists i :: 0 <= i < |ops| && Unusable(ops[i])
      ensures r.Ok? ==>
                && (forall i :: 0 <= i < |ops| ==>
                      && c.validId(ops[i]) && c.resolveRead(ops[i].path).Some?
                      && !c.special(c.resolveRead(ops[i].path).value))
                && (forall p :: p in r.value ==> c.bytes(r.value[p]) <= c.maxWrite)
                && IsSnapshot(c, files, ops, r.value)
    {
      var snapshot: Files := map[];
      for i := 0 to |ops|
        invariant old(faulted) ==> faulted
        invariant forall j :: 0 <= j < i ==>
                    && c.validId(ops[j]) && c.resolveRead(ops[j].path).Some?
                    && !c.special(c.resolveRead(ops[j].path).value)
        invariant forall p :: p in snapshot <==>
                    p in files && exists j :: 0 <= j < i && c.resolveRead(ops[j].path) == Some(p)
        invariant forall p :: p in snapshot ==> snapshot[p] == files[p] && c.bytes(snapshot[p]) <= c.maxWrite
      {
        if !c.validId(ops[i]) || c.resolveRead(ops[i].path).None? {
          return Err(BadPath);
        }
        var p := c.resolveRead(ops[i].path).value;
        if c.special(p) {
          return Err(NotAFile);
        }
        var readable := Outside();
        if !readable {
          return Err(Io);
        }
        if p in files {
          if c.bytes(files[p]) > c.maxWrite {
            return Err(TooLarge);
          }
          snapshot := snapshot[p := files[p]];
        }
      }
      return Ok(snapshot);
    }

    function Payload(ops: seq<Operation>): nat {
      if ops == [] then 0
      else
        Payload(ops[..|ops| - 1]) +
        match ops[|ops| - 1]
        case Write(_, Some(content), _) => c.bytes(content)
        case Replace(_, word, text, _, _) =>
          (if word.Some? then c.bytes(word.value) else 0) + (if text.Some? then c.bytes(text.value) else 0)
        case _ => 0
    }

    /** The payload is what all contents and texts of the operations weigh together. */
    lemma {:induction false} PayloadAdds(a: seq<Operation>, b: seq<Operation>, path: string, t: string, u: string)
      ensures Payload(a + b) == Payload(a) + Payload(b)
      ensures forall o :: Payload([Write(path, Some(t), o)]) == c.bytes(t)
      ensures forall all, n :: Payload([Replace(path, Some(t), Some(u), all, n)]) == c.bytes(t) + c.bytes(u)
      decreases |b|
    {
      assert forall op: Operation :: [op][..0] == [];
      if b == [] {
        assert a + b == a;
      } else {
        assert (a + b)[..|a + b| - 1] == a + b[..|b| - 1];
        PayloadAdds(a, b[..|b| - 1], path, t, u);
      }
    }

    /**
      A patch bundle: check every operation first, then apply them one by one, going on after a
      failure.  An error before that changes nothing; afterwards the files are those before the
      bundle with exactly the operations reported `ok` applied in order.
    */
    method ApplyPatchBundle(operations: seq<Operation>) returns (r: Result<BundleReport, Error>)
      modifies `files, `leaseHeld, `faulted
      ensures r.Err? ==> files == old(files) && leaseHeld == old(leaseHeld)
      ensures r.Err? && !faulted ==>
                var ops := if |operations| <= 50 then operations else operations[..50];
                ops == [] || Payload(ops) > c.maxWrite || old(leaseHeld)
                || exists i :: 0 <= i < |ops| && old(Unusable(ops[i]))
      ensures r.Ok? ==>
                var ops := if |operations| <= 50 then operations else operations[..50];
                && !leaseHeld
                && ops != [] && Payload(ops) <= c.maxWrite
                && |r.value.oks| == |ops|
                && files == Fold(c, old(files), ops, r.value.oks)
                && Judged(c, old(files), ops, r.value.oks, faulted)
                && r.value.succeeded == Count(r.value.oks, true) && r.value.failed == Count(r.value.oks, false)
                && r.value.succeeded + r.value.failed == |ops|
                && r.value.status ==
                   (if r.value.failed == 0 then AllOk else if r.value.succeeded == 0 then AllFailed else Partial)
                && IsSnapshot(c, old(files), ops, r.value.snapshot)
                && (forall i :: 0 <= i < |ops| ==>
                      && c.validId(ops[i]) && c.resolveRead(ops[i].path).Some?
                      && !c.special(c.resolveRead(ops[i].path).value))
                && (forall p :: p in r.value.snapshot ==> c.bytes(r.value.snapshot[p]) <= c.maxWrite)
      ensures r.Ok? ==>
                var ops := if |operations| <= 50 then operations else operations[..50];
                && StepsLead(c, ops, r.value.oks, faulted, old(files), files)
                && (r.value.status == AllOk <==> forall i :: 0 <= i < |ops| ==> r.value.oks[i])
                && (r.value.status == AllFailed <==> forall i :: 0 <= i < |ops| ==> !r.value.oks[i])
      ensures Guarded(c, old(files), files)
    {
      var ops := if |operations| <= 50 then operations else operations[..50];
      if ops == [] {
        return Err(MissingField);
      }
      if Payload(ops) > c.maxWrite {
        return Err(TooLarge);
      }
      var preflight := Preflight(ops);
      if preflight.Err? {
        return Err(preflight.error);
      }
      var admitted := Outside();
      if !admitted {
        return Err(Io);
      }
      var owned := Acquire();
      if !owned {
        return Err(LeaseLost);
      }
      var oks := ApplyAll(ops);
      Release();
      ReportMeans(oks, preflight.value);
      return Ok(ReportOf(oks, preflight.value));
    }

    /** The best-effort loop over the operations. */
    method ApplyAll(ops: seq<Operation>) returns (oks: seq<bool>)
      requires leaseHeld
      modifies `files, `leaseHeld, `faulted
      ensures leaseHeld && |oks| == |ops| && (old(faulted) ==> faulted)
      ensures files == Fold(c, old(files), ops, oks)
      ensures Judged(c, old(files), ops, oks, faulted)
      ensures StepsLead(c, ops, oks, faulted, old(files), files)
      ensures Guarded(c, old(files), files)
    {
      oks := [];
      ghost var states := [files];
      while |oks| < |ops|
        invariant leaseHeld && |oks| <= |ops| && (old(faulted) ==> faulted)
        invariant Judged(c, old(files), ops, oks, faulted)
        invariant files == Fold(c, old(files), ops, oks)
        invariant Steps(c, ops, oks, faulted, states) && states[0] == old(files) && states[|oks|] == files
        invariant Guarded(c, old(files), files)
      {
        ghost var before, wasFaulted := files, faulted;
        var ok := ApplyOperation(ops[|oks|]);
        GuardedTransitive(c, old(files), before, files);
        assert (oks + [ok])[..|oks|] == oks;
        JudgedGrows(c, old(files), ops, oks, ok, faulted);
        StepsGrow(c, ops, oks, wasFaulted, states, ok, files, faulted);
        states := states + [files];
        oks := oks + [ok];
      }
    }
  }
}
