/** Journaled publication of a merge plan into the live source tree, and its recovery after a crash.
    A state that survives a crash is the source tree together with the journal file. */
module Publication {
  import opened Bytes
  import opened Workspace
  import opened Merge

  datatype Durable = Durable(source: Tree, saved: seq<JournalEntry>)

  /** Where one attempt to publish or recover ends early.  Entry numbers start at 0.
      StopBefore: cancelled, stopped by the step callback or killed before the entry is touched.
      TornIn:     killed inside applyEntry, after its remove and before its rename.
      FailIn:     applyEntry returns an error, before or after its remove.
      FailWritten: applyEntry or verifyEntry returns an error with the entry already in place.
      StopUnsaved: killed after the entry is written and before the journal is saved. */
  datatype Fault = NoFault | StopBefore(at: nat) | TornIn(at: nat) | FailIn(at: nat, removed: bool) | FailWritten(at: nat)
                 | StopUnsaved(at: nat)
  {
    /** Does the fault strike with its entry in place? */
    predicate Writes() { StopUnsaved? || FailWritten? }
  }

  datatype Class = Completed | Incomplete | Diverged

  /** By content, a path holds what its entry starts from. */
  ghost predicate HoldsBefore(e: JournalEntry, cur: FileMeta) {
    if e.op == Create then cur.missing else !cur.missing && cur.hash == e.beforeHash
  }

  /** By content, a path holds what its entry leads to. */
  ghost predicate HoldsAfter(e: JournalEntry, cur: FileMeta) {
    if e.op == Delete then cur.missing else !cur.missing && cur.hash == e.afterHash
  }

  function Classify(e: JournalEntry, cur: FileMeta): Class {
    if e.op == Delete then
      if cur.missing then Completed
      else if cur.hash == e.beforeHash then Incomplete
      else Diverged
    else if !cur.missing && cur.hash == e.afterHash then Completed
    else if e.op == Create then
      if cur.missing then Incomplete else Diverged
    else if !cur.missing && cur.hash == e.beforeHash then Incomplete
    else Diverged
  }

  function ClassOf(e: JournalEntry, t: Tree): Class { Classify(e, MetaOrMissing(t, e.path)) }

  /** The three classes, operation by operation. */
  lemma ClassesByContent(e: JournalEntry, cur: FileMeta)
    ensures Classify(e, cur) == Completed <==>
              || (e.op == Delete && cur.missing)
              || (e.op in {Create, Modify} && !cur.missing && cur.hash == e.afterHash)
    ensures Classify(e, cur) == Incomplete <==>
              || (e.op == Create && cur.missing)
              || (e.op == Modify && !cur.missing && cur.hash == e.beforeHash && cur.hash != e.afterHash)
              || (e.op == Delete && !cur.missing && cur.hash == e.beforeHash)
    ensures Classify(e, cur) == Diverged <==>
              || (e.op == Create && !cur.missing && cur.hash != e.afterHash)
              || (e.op == Modify && (cur.missing || (cur.hash != e.beforeHash && cur.hash != e.afterHash)))
              || (e.op == Delete && !cur.missing && cur.hash != e.beforeHash)
  {
  }

  function RecheckEntry(e: JournalEntry, cur: FileMeta): (ok: bool)
    ensures e.op == Create ==> (ok <==> cur.missing)
    ensures e.op != Create && e.beforeHash != NoHash ==> (ok <==> !cur.missing && cur.hash == e.beforeHash)
  {
    if e.op == Create then cur.missing
    else if cur.missing then e.beforeHash == NoHash
    else cur.hash == e.beforeHash
  }

  ghost predicate RecheckPasses(t: Tree, plan: seq<JournalEntry>) {
    forall i :: 0 <= i < |plan| ==> RecheckEntry(plan[i], MetaOrMissing(t, plan[i].path))
  }

  function Drop(t: Tree, p: Text): Tree { t - {p} }

  // ----- what one attempt leaves behind

  /** The journal with its first k entries verified. */
  function Marked(j: seq<JournalEntry>, k: nat): (r: seq<JournalEntry>)
    ensures |r| == |j|
  {
    seq(|j|, i requires 0 <= i < |j| => if i < k then j[i].(status := Verified) else j[i])
  }

  lemma MarkNext(j: seq<JournalEntry>, k: nat)
    requires k < |j|
    ensures Marked(j, k)[k] == j[k]
    ensures Marked(j, k)[k := j[k].(status := Verified)] == Marked(j, k + 1)
  {
  }

  lemma ApplyOneMore(t: Tree, plan: seq<JournalEntry>, k: nat)
    requires k < |plan|
    ensures ApplyAll(t, plan[..k + 1]) == ApplyEntry(ApplyAll(t, plan[..k]), plan[k])
  {
    assert plan[..k + 1][..k] == plan[..k];
  }

  ghost function AfterPublish(t: Tree, plan: seq<JournalEntry>, fault: Fault): Durable {
    if fault == NoFault || fault.at >= |plan| then Durable(ApplyAll(t, plan), Marked(plan, |plan|))
    else
      var k := fault.at;
      var done := ApplyAll(t, plan[..k]);
      match fault
      case StopBefore(_) => Durable(done, Marked(plan, k))
      case TornIn(_) => Durable(Drop(done, plan[k].path), Marked(plan, k))
      case FailIn(_, removed) =>
        Durable(if removed then Drop(done, plan[k].path) else done, Marked(plan, k)[k := plan[k].(status := Failed)])
      case FailWritten(_) => Durable(ApplyEntry(done, plan[k]), Marked(plan, k)[k := plan[k].(status := Failed)])
      case StopUnsaved(_) => Durable(ApplyEntry(done, plan[k]), Marked(plan, k))
  }

  lemma PathsOneMore(plan: seq<JournalEntry>, k: nat)
    requires k < |plan|
    ensures PlanPaths(plan[..k + 1]) == PlanPaths(plan[..k]) + [plan[k].path]
  {
  }

  predicate NeedsWrite(e: JournalEntry, t: Tree) {
    e.status != Verified && ClassOf(e, t) == Incomplete
  }

  /** Every entry of j that recovery finds unwritten in t, written. */
  ghost function Resume(t: Tree, j: seq<JournalEntry>): Tree {
    if j == [] then t
    else
      var rest := Resume(t, j[..|j| - 1]);
      if NeedsWrite(j[|j| - 1], t) then ApplyEntry(rest, j[|j| - 1]) else rest
  }

  /** One past the last entry before k that recovery writes: the journal is saved after a write only. */
  ghost function SavedUpTo(t: Tree, j: seq<JournalEntry>, k: nat): (m: nat)
    requires k <= |j|
    ensures m <= k && (m > 0 ==> NeedsWrite(j[m - 1], t))
    ensures forall i :: m <= i < k ==> !NeedsWrite(j[i], t)
  {
    if k == 0 then 0 else if NeedsWrite(j[k - 1], t) then k else SavedUpTo(t, j, k - 1)
  }

  ghost predicate AnyDiverged(d: Durable) {
    exists i :: 0 <= i < |d.saved| && ClassOf(d.saved[i], d.source) == Diverged
  }

  /** Some path holds neither its before nor its after content: somebody else has been there. */
  ghost predicate AnyForeign(d: Durable) {
    exists i :: 0 <= i < |d.saved| && Foreign(d.saved[i], MetaOrMissing(d.source, d.saved[i].path))
  }

  ghost predicate Foreign(e: JournalEntry, cur: FileMeta) {
    match e.op
    case Create => !cur.missing && cur.hash != e.afterHash
    case Modify => cur.missing || (cur.hash != e.beforeHash && cur.hash != e.afterHash)
    case Delete => !cur.missing && cur.hash != e.beforeHash
  }

  /** Recovery touches nothing then, and only then it calls the source diverged. */
  lemma ForeignStopsRecovery(d: Durable, fault: Fault)
    ensures AnyDiverged(d) <==> AnyForeign(d)
    ensures AnyForeign(d) ==> AfterRecovery(d, fault) == d
  {
    forall i | 0 <= i < |d.saved|
      ensures ClassOf(d.saved[i], d.source) == Diverged <==> Foreign(d.saved[i], MetaOrMissing(d.source, d.saved[i].path))
    {
      ClassesByContent(d.saved[i], MetaOrMissing(d.source, d.saved[i].path));
    }
  }

  ghost predicate AllCompleted(d: Durable) {
    forall i :: 0 <= i < |d.saved| ==> ClassOf(d.saved[i], d.source) == Completed
  }

  /** The attempt reaches its fault: a fault inside a write needs an entry that is written. */
  ghost predicate Hits(d: Durable, fault: Fault) {
    fault != NoFault && fault.at < |d.saved| && (fault.StopBefore? || NeedsWrite(d.saved[fault.at], d.source))
  }

  /** The state at the entry where the fault hits. */
  ghost function StoppedAt(d: Durable, fault: Fault): Durable
    requires fault != NoFault && fault.at < |d.saved|
  {
    var k := fault.at;
    var e := d.saved[k];
    var done := Resume(d.source, d.saved[..k]);
    var kept := Marked(d.saved, SavedUpTo(d.source, d.saved, k));
    match fault
    case StopBefore(_) => Durable(done, kept)
    case TornIn(_) => Durable(Drop(done, e.path), kept)
    case FailIn(_, removed) =>
      Durable(if removed then Drop(done, e.path) else done, Marked(d.saved, k)[k := e.(status := Failed)])
    case FailWritten(_) => Durable(ApplyEntry(done, e), Marked(d.saved, k)[k := e.(status := Failed)])
    case StopUnsaved(_) => Durable(ApplyEntry(done, e), kept)
  }

  /** The same, one entry at a time: what a fault inside a write makes of the state it finds. */
  ghost function StoppedOver(d: Durable, j: seq<JournalEntry>, fault: Fault): Durable
    requires fault != NoFault && !fault.StopBefore? && fault.at < |j|
  {
    var e := j[fault.at];
    match fault
    case TornIn(_) => Durable(Drop(d.source, e.path), d.saved)
    case FailIn(_, removed) => Durable(if removed then Drop(d.source, e.path) else d.source, j[fault.at := e.(status := Failed)])
    case FailWritten(_) => Durable(ApplyEntry(d.source, e), j[fault.at := e.(status := Failed)])
    case _ => Durable(ApplyEntry(d.source, e), d.saved)
  }

  lemma StopsAtEntry(t: Tree, plan: seq<JournalEntry>, fault: Fault)
    requires fault != NoFault && !fault.StopBefore? && fault.at < |plan|
    ensures var j := Marked(plan, fault.at);
            AfterPublish(t, plan, fault) == StoppedOver(Durable(ApplyAll(t, plan[..fault.at]), j), j, fault)
  {
  }

  ghost function AfterRecovery(d: Durable, fault: Fault): Durable {
    if AnyDiverged(d) || AllCompleted(d) then d
    else if Hits(d, fault) then StoppedAt(d, fault)
    else Durable(Resume(d.source, d.saved), Marked(d.saved, SavedUpTo(d.source, d.saved, |d.saved|)))
  }

  ghost function Restarts(d: Durable, faults: seq<Fault>): Durable {
    if faults == [] then d else AfterRecovery(Restarts(d, faults[..|faults| - 1]), faults[|faults| - 1])
  }

  // ----- outside edits

  /** What others do to the source at each moment recovery looks at it. */
  type World = (nat, Tree) -> Tree

  ghost predicate Quiet(world: World) {
    forall k, t :: world(k, t) == t
  }

  /** The history of the source during one recovery. */
  datatype Event = Outside(tick: nat) | Wrote(entry: JournalEntry) | Tore(entry: JournalEntry)

  ghost function Effect(before: Tree, world: World, ev: Event): Tree {
    if ev.Outside? then world(ev.tick, before)
    else if ev.Wrote? then ApplyEntry(before, ev.entry)
    else Drop(before, ev.entry.path)
  }

  ghost function Replay(t: Tree, world: World, trace: seq<Event>): Tree {
    if trace == [] then t
    else Effect(Replay(t, world, trace[..|trace| - 1]), world, trace[|trace| - 1])
  }

  /** Every write in the history is a journal entry whose path was then in that entry's before state. */
  ghost predicate WritesOnlyExpected(t: Tree, world: World, j: seq<JournalEntry>, trace: seq<Event>) {
    trace == [] ||
    (var past, ev := trace[..|trace| - 1], trace[|trace| - 1];
     && WritesOnlyExpected(t, world, j, past)
     && (ev.Outside? || (ev.entry in j && HoldsBefore(ev.entry, MetaOrMissing(Replay(t, world, past), ev.entry.path)))))
  }

  /** So no write falls on what somebody else has put there: a new file finds its path empty, and what is
      modified or deleted still has the content the entry was planned on. */
  lemma {:induction false} WritesFindTheBeforeState(t: Tree, world: World, j: seq<JournalEntry>, trace: seq<Event>, k: nat)
    requires WritesOnlyExpected(t, world, j, trace) && k < |trace| && !trace[k].Outside?
    ensures var e := trace[k].entry;
            var cur := MetaOrMissing(Replay(t, world, trace[..k]), e.path);
            && e in j
            && (e.op == Create ==> cur.missing)
            && (e.op in {Modify, Delete} ==> !cur.missing && cur.hash == e.beforeHash)
  {
    if k < |trace| - 1 {
      WritesFindTheBeforeState(t, world, j, trace[..|trace| - 1], k);
      assert trace[..|trace| - 1][..k] == trace[..k];
    }
  }

  ghost predicate NoWrites(trace: seq<Event>) {
    trace == [] || (trace[|trace| - 1].Outside? && NoWrites(trace[..|trace| - 1]))
  }

  lemma OneMoreOutside(t: Tree, world: World, trace: seq<Event>, i: nat)
    ensures Replay(t, world, trace + [Outside(i)]) == world(i, Replay(t, world, trace))
    ensures NoWrites(trace) ==> NoWrites(trace + [Outside(i)])
  {
    assert (trace + [Outside(i)])[..|trace|] == trace;
  }

  /** One of the first `n` entries has this class. */
  ghost predicate Among(j: seq<JournalEntry>, n: nat, t: Tree, c: Class)
    requires n <= |j|
  {
    exists k :: 0 <= k < n && ClassOf(j[k], t) == c
  }

  lemma AmongNext(j: seq<JournalEntry>, n: nat, t: Tree, c: Class)
    requires n < |j|
    ensures Among(j, n + 1, t, c) <==> Among(j, n, t, c) || ClassOf(j[n], t) == c
  {
    if ClassOf(j[n], t) == c { assert Among(j, n + 1, t, c); }
  }

  lemma {:induction false} NoWritesIsExpected(t: Tree, world: World, j: seq<JournalEntry>, trace: seq<Event>)
    requires NoWrites(trace)
    ensures WritesOnlyExpected(t, world, j, trace)
  {
    if trace != [] { NoWritesIsExpected(t, world, j, trace[..|trace| - 1]); }
  }

  lemma Extend(t: Tree, world: World, j: seq<JournalEntry>, trace: seq<Event>, ev: Event)
    requires WritesOnlyExpected(t, world, j, trace)
    requires !ev.Outside? ==> ev.entry in j && HoldsBefore(ev.entry, MetaOrMissing(Replay(t, world, trace), ev.entry.path))
    ensures WritesOnlyExpected(t, world, j, trace + [ev])
    ensures Replay(t, world, trace + [ev]) == Effect(Replay(t, world, trace), world, ev)
  {
    assert (trace + [ev])[..|trace|] == trace;
  }

  datatype Status = Blocked | SourceChanged | Interrupted | Complete

  datatype Outcome = Untouched | Published | SourceDiverged | WriteFailed | Died

  class Publisher {
    var source: Tree
    var saved: seq<JournalEntry>

    ghost function State(): Durable reads this { Durable(source, saved) }

    method Recheck(plan: seq<JournalEntry>) returns (ok: bool)
      ensures ok <==> RecheckPasses(source, plan)
    {
      for i := 0 to |plan|
        invariant RecheckPasses(source, plan[..i])
      {
        if !RecheckEntry(plan[i], MetaOrMissing(source, plan[i].path)) { return false; }
      }
      assert plan[..|plan|] == plan;
      return true;
    }

    /** applyEntry for entry i, with the place where it may be cut short. */
    method Apply(e: JournalEntry, i: nat, fault: Fault) returns (res: Outcome)
      modifies this`source
      ensures res == if fault == TornIn(i) then Died
                     else if (fault.FailIn? || fault.FailWritten?) && fault.at == i then WriteFailed else Published
      ensures source ==
              if res == Published || fault.FailWritten? then ApplyEntry(old(source), e)
              else if fault.TornIn? || fault.removed then Drop(old(source), e.path)
              else old(source)
    {
      if fault.FailIn? && fault.at == i {
        if fault.removed { source := Drop(source, e.path); }
        return WriteFailed;
      }
      source := Drop(source, e.path);
      if fault == TornIn(i) { return Died; }
      if e.op != Delete { source := source[e.path := Applied(e)]; }
      return if fault == FailWritten(i) then WriteFailed else Published;
    }

    method Publish(plan: seq<JournalEntry>, fault: Fault) returns (res: Outcome, published: seq<Text>)
      requires PlanOk(plan) && saved == plan
      modifies this
      ensures State() == AfterPublish(old(source), plan, fault)
      ensures res == Published <==> fault == NoFault || fault.at >= |plan|
      ensures res == Published ==> published == PlanPaths(plan)
    {
      var j := plan;
      published := [];
      assert plan[..0] == [];
      for i := 0 to |plan|
        invariant j == saved == Marked(plan, i)
        invariant source == ApplyAll(old(source), plan[..i])
        invariant fault == NoFault || fault.at >= i
        invariant published == PlanPaths(plan[..i])
      {
        ApplyOneMore(old(source), plan, i);
        PathsOneMore(plan, i);
        MarkNext(plan, i);
        if fault == StopBefore(i) { return Died, published; }
        res := PublishEntry(j, i, fault);
        if res != Published {
          StopsAtEntry(old(source), plan, fault);
          return res, published;
        }
        j := j[i := j[i].(status := Verified)];
        published := published + [j[i].path];
      }
      assert plan[..|plan|] == plan;
      return Published, published;
    }

    /** One round of the loop of Publish: write, check and save as verified. */
    method PublishEntry(j: seq<JournalEntry>, i: nat, fault: Fault) returns (res: Outcome)
      requires i < |j| && saved == j && Planned(j[i]) && fault != StopBefore(i)
      modifies this
      ensures res == Published <==> fault == NoFault || fault.at != i
      ensures res == Published ==> source == ApplyEntry(old(source), j[i]) && saved == j[i := j[i].(status := Verified)]
      ensures res != Published ==> !fault.StopBefore? && State() == StoppedOver(old(State()), j, fault)
    {
      var e := j[i];
      res := Apply(e, i, fault);
      if res == WriteFailed { saved := j[i := e.(status := Failed)]; }
      if res != Published { return; }
      assert HoldsAfter(e, MetaOrMissing(source, e.path));
      if fault == StopUnsaved(i) { return Died; }
      saved := j[i := e.(status := Verified)];
    }

    /** Merge, journal, recheck and publish.  edits is what others do to the source between the merge and
        the recheck; a killed process reports nothing, so its status means nothing. */
    method Integrate(base: Tree, run: Tree, branchMoved: bool, edits: Tree -> Tree, fault: Fault)
      returns (status: Status, conflicts: seq<Conflict>, plan: seq<JournalEntry>)
      requires OnDiskTree(base) && OnDiskTree(run) && OnDiskTree(source)
      modifies this
      ensures branchMoved ==> status == Blocked && conflicts == [] && State() == old(State())
      ensures !branchMoved ==> IsMerge(base, old(source), run, conflicts, plan)
      ensures !branchMoved && conflicts != [] ==> status == Blocked && State() == old(State())
      ensures !branchMoved && conflicts == [] ==>
                var now := edits(old(source));
                if RecheckPasses(now, plan) then
                  && State() == AfterPublish(now, plan, fault)
                  && (status == Complete <==> fault == NoFault || fault.at >= |plan|)
                  && (status == SourceChanged <==> status != Complete && AnyDiverged(State()))
                else status == SourceChanged && State() == Durable(now, plan)
    {
      if branchMoved { return Blocked, [], []; }
      conflicts, plan := ThreeWay(base, source, run);
      if conflicts != [] { return Blocked, conflicts, plan; }
      PlanIsOk(base, source, run, conflicts, plan);
      saved := plan;
      source := edits(source);
      var ok := Recheck(plan);
      if !ok { return SourceChanged, conflicts, plan; }
      var res, _ := Publish(plan, fault);
      if res == Published { return Complete, conflicts, plan; }
      var rec, _ := ClassifyJournal((k, t) => t);
      status := if rec == Diverged then SourceChanged else Interrupted;
    }

    /** Others get their turn; then entry i is classified. */
    method LookAt(i: nat, world: World, ghost past: seq<Event>) returns (c: Class, ghost trace: seq<Event>)
      requires i < |saved|
      modifies this`source
      ensures trace == past + [Outside(i)] && source == world(i, old(source))
      ensures c == ClassOf(saved[i], source)
    {
      source := world(i, source);
      trace := past + [Outside(i)];
      c := Classify(saved[i], MetaOrMissing(source, saved[i].path));
    }

    /** ClassifyJournal, with others at work between the looks at two entries. */
    method ClassifyJournal(world: World) returns (rec: Class, ghost trace: seq<Event>)
      modifies this`source
      ensures source == Replay(old(source), world, trace) && NoWrites(trace)
      ensures Quiet(world) ==> source == old(source)
      ensures Quiet(world) ==>
                rec == if AnyDiverged(old(State())) then Diverged else if AllCompleted(old(State())) then Completed else Incomplete
    {
      trace := [];
      var anyIncomplete, anyDiverged := false, false;
      for i := 0 to |saved|
        invariant source == Replay(old(source), world, trace) && NoWrites(trace)
        invariant Quiet(world) ==> source == old(source)
        invariant Quiet(world) ==> (anyDiverged <==> Among(saved, i, old(source), Diverged))
        invariant Quiet(world) ==> (anyIncomplete <==> Among(saved, i, old(source), Incomplete))
      {
        AmongNext(saved, i, old(source), Diverged);
        AmongNext(saved, i, old(source), Incomplete);
        OneMoreOutside(old(source), world, trace, i);
        var c;
        c, trace := LookAt(i, world, trace);
        match c
        case Completed =>
        case Diverged => anyDiverged := true;
        case Incomplete => anyIncomplete := true;
      }
      rec := if anyDiverged then Diverged else if anyIncomplete then Incomplete else Completed;
    }

    method RecoverPublication(world: World, fault: Fault) returns (rec: Class, res: Outcome, ghost trace: seq<Event>)
      requires JournalOk(saved)
      modifies this
      // safety, whatever others do between two entries
      ensures source == Replay(old(source), world, trace)
      ensures WritesOnlyExpected(old(source), world, old(saved), trace)
      ensures rec == Diverged && res == Untouched ==> NoWrites(trace)
      // the exact result when nobody interferes
      ensures Quiet(world) ==> State() == AfterRecovery(old(State()), fault)
      ensures Quiet(world) ==> (res == Untouched <==> AnyDiverged(old(State())) || AllCompleted(old(State())))
      ensures Quiet(world) && res == Untouched ==> rec == if AnyDiverged(old(State())) then Diverged else Completed
      ensures Quiet(world) && AnyForeign(old(State())) ==> rec == Diverged && State() == old(State()) && NoWrites(trace)
      ensures Quiet(world) && res != Untouched ==> (res == Published <==> !Hits(old(State()), fault))
      ensures res == Published ==> rec == Completed
    {
      ForeignStopsRecovery(State(), fault);
      rec, trace := ClassifyJournal(world);
      NoWritesIsExpected(old(source), world, saved, trace);
      if rec != Incomplete { return rec, Untouched, trace; }
      ghost var d := old(State());
      var j, n := saved, |saved|;
      assert j == Marked(j, 0) && d.saved[..0] == [];
      for i := 0 to n
        invariant j == Marked(d.saved, i) && OnTrack(d, i, world, trace)
        invariant Quiet(world) && fault != NoFault && fault.at < i ==> !Hits(d, fault)
      {
        j, res, trace := RecoverEntry(d, j, i, world, fault, trace);
        if res == SourceDiverged { return Diverged, res, trace; }
        if res != Published { return rec, res, trace; }
      }
      assert d.saved[..n] == d.saved;
      return Completed, Published, trace;
    }

    /** The state during recovery, before entry i. */
    ghost predicate OnTrack(d: Durable, i: nat, world: World, trace: seq<Event>)
      requires i <= |d.saved|
      reads this
    {
      && source == Replay(d.source, world, trace)
      && WritesOnlyExpected(d.source, world, d.saved, trace)
      && (Quiet(world) ==> source == Resume(d.source, d.saved[..i]) && saved == Marked(d.saved, SavedUpTo(d.source, d.saved, i)))
    }

    /** The entry is classified again, on what its path holds by then. */
    method Look(ghost d: Durable, e: JournalEntry, tick: nat, world: World, ghost past: seq<Event>) returns (found: Class, ghost trace: seq<Event>)
      requires source == Replay(d.source, world, past) && WritesOnlyExpected(d.source, world, d.saved, past)
      modifies this`source
      ensures source == Replay(d.source, world, trace) && WritesOnlyExpected(d.source, world, d.saved, trace)
      ensures source == world(tick, old(source)) && trace == past + [Outside(tick)]
      ensures found == ClassOf(e, source)
      ensures found == Diverged <==> Foreign(e, MetaOrMissing(source, e.path))
    {
      Extend(d.source, world, d.saved, past, Outside(tick));
      source := world(tick, source);
      trace := past + [Outside(tick)];
      found := Classify(e, MetaOrMissing(source, e.path));
      ClassesByContent(e, MetaOrMissing(source, e.path));
    }

    /** One round of RecoverPublication's loop; Published means that the loop goes on. */
    method RecoverEntry(ghost d: Durable, j: seq<JournalEntry>, i: nat, world: World, fault: Fault, ghost past: seq<Event>)
      returns (next: seq<JournalEntry>, res: Outcome, ghost trace: seq<Event>)
      requires JournalOk(d.saved) && i < |d.saved| && j == Marked(d.saved, i) && OnTrack(d, i, world, past)
      requires Quiet(world) ==> !AnyDiverged(d)
      modifies this
      ensures source == Replay(d.source, world, trace) && WritesOnlyExpected(d.source, world, d.saved, trace)
      ensures res != Untouched
      ensures res == SourceDiverged ==> Foreign(d.saved[i], MetaOrMissing(source, d.saved[i].path)) && trace == past + [Outside(|j| + i)]
      ensures res == Published ==> next == Marked(d.saved, i + 1) && OnTrack(d, i + 1, world, trace)
      ensures Quiet(world) && res == Published ==> !(fault != NoFault && fault.at == i && Hits(d, fault))
      ensures Quiet(world) && res != Published ==>
                && res != SourceDiverged && fault != NoFault && fault.at == i && Hits(d, fault)
                && State() == StoppedAt(d, fault)
    {
      var e := j[i];
      next, trace := j, past;
      MarkNext(d.saved, i);
      assert e == d.saved[i] && d.saved[..i + 1][..i] == d.saved[..i];
      if fault == StopBefore(i) { return next, Died, trace; }
      if e.status != Verified {
        var found;
        found, trace := Look(d, e, |j| + i, world, past);
        if Quiet(world) { ResumeKeeps(d.source, d.saved, i); }
        if found == Diverged {
          saved := j;
          return next, SourceDiverged, trace;
        }
        if found == Incomplete {
          res, trace := WriteAndSave(d, j, i, world, fault, trace);
          if res != Published { return next, res, trace; }
        }
      }
      next := j[i := e.(status := Verified)];
      return next, Published, trace;
    }

    /** Apply, where the trace takes down what it did to the source. */
    method Write(ghost d: Durable, e: JournalEntry, i: nat, ghost world: World, fault: Fault, ghost past: seq<Event>)
      returns (res: Outcome, ghost trace: seq<Event>)
      requires e in d.saved && ClassOf(e, source) == Incomplete
      requires source == Replay(d.source, world, past) && WritesOnlyExpected(d.source, world, d.saved, past)
      modifies this`source
      ensures source == Replay(d.source, world, trace) && WritesOnlyExpected(d.source, world, d.saved, trace)
      ensures res == if fault == TornIn(i) then Died
                     else if (fault.FailIn? || fault.FailWritten?) && fault.at == i then WriteFailed else Published
      ensures source ==
              if res == Published || fault.FailWritten? then ApplyEntry(old(source), e)
              else if fault.TornIn? || fault.removed then Drop(old(source), e.path)
              else old(source)
    {
      trace := past;
      ghost var before := source;
      res := Apply(e, i, fault);
      ClassesByContent(e, MetaOrMissing(before, e.path));
      if source != before {
        var ev := if res == Published || fault.FailWritten? then Wrote(e) else Tore(e);
        Extend(d.source, world, d.saved, trace, ev);
        trace := trace + [ev];
      }
    }

    /** The entry found in its before state is written, checked and saved as verified. */
    method WriteAndSave(ghost d: Durable, j: seq<JournalEntry>, i: nat, world: World, fault: Fault, ghost past: seq<Event>)
      returns (res: Outcome, ghost trace: seq<Event>)
      requires JournalOk(d.saved) && i < |d.saved| && j == Marked(d.saved, i) && j[i] == d.saved[i]
      requires source == Replay(d.source, world, past) && WritesOnlyExpected(d.source, world, d.saved, past)
      requires ClassOf(j[i], source) == Incomplete && j[i].status != Verified && fault != StopBefore(i)
      modifies this
      ensures source == Replay(d.source, world, trace) && WritesOnlyExpected(d.source, world, d.saved, trace)
      ensures res !in {Untouched, SourceDiverged}
      ensures res == Published ==> fault !in {TornIn(i), FailWritten(i), StopUnsaved(i)} && !(fault.FailIn? && fault.at == i)
      ensures res == Published ==> source == ApplyEntry(old(source), j[i]) && saved == j[i := j[i].(status := Verified)]
      ensures res != Published ==> fault != NoFault && fault.at == i && !fault.StopBefore?
      ensures res != Published ==> State() == StoppedOver(old(State()), j, fault)
    {
      var e := j[i];
      res, trace := Write(d, e, i, world, fault, past);
      if res == WriteFailed { saved := j[i := e.(status := Failed)]; }
      if res != Published { return; }
      assert HoldsAfter(e, MetaOrMissing(source, e.path));
      if fault == StopUnsaved(i) { return Died, trace; }
      saved := j[i := e.(status := Verified)];
    }
  }

  // ----- what the attempts mean

  lemma {:induction false} ResumeMeta(t: Tree, j: seq<JournalEntry>)
    requires DistinctPaths(j)
    ensures forall i :: 0 <= i < |j| ==>
              MetaOrMissing(Resume(t, j), j[i].path) == if NeedsWrite(j[i], t) then Applied(j[i]) else MetaOrMissing(t, j[i].path)
    ensures forall p :: p !in PlanPaths(j) ==> MetaOrMissing(Resume(t, j), p) == MetaOrMissing(t, p)
  {
    if j != [] {
      var n := |j| - 1;
      ResumeMeta(t, j[..n]);
      assert PlanPaths(j) == PlanPaths(j[..n]) + [j[n].path];
      assert j[n].path !in PlanPaths(j[..n]);
      forall i | 0 <= i < n
        ensures MetaOrMissing(Resume(t, j), j[i].path) == if NeedsWrite(j[i], t) then Applied(j[i]) else MetaOrMissing(t, j[i].path)
      {
        assert j[..n][i] == j[i];
      }
    }
  }

  /** Entries already handled do not disturb the next one. */
  lemma ResumeKeeps(t: Tree, j: seq<JournalEntry>, i: nat)
    requires DistinctPaths(j) && i < |j|
    ensures MetaOrMissing(Resume(t, j[..i]), j[i].path) == MetaOrMissing(t, j[i].path)
  {
    ResumeMeta(t, j[..i]);
    assert j[i].path !in PlanPaths(j[..i]);
  }

  /** A fault that leaves the path of an existing file empty. */
  predicate Tears(plan: seq<JournalEntry>, fault: Fault) {
    (fault.TornIn? || (fault.FailIn? && fault.removed)) && fault.at < |plan| && plan[fault.at].op == Modify
  }

  /** A recovery of this state runs into such a fault. */
  ghost predicate TornBy(plan: seq<JournalEntry>, d: Durable, fault: Fault) {
    Tears(plan, fault) && !AllCompleted(d) && Hits(d, fault)
  }

  /** One of several recoveries, one after the other, runs into such a fault. */
  ghost predicate EverTorn(plan: seq<JournalEntry>, d: Durable, faults: seq<Fault>) {
    exists k :: TornAt(plan, d, faults, k)
  }

  ghost predicate TornAt(plan: seq<JournalEntry>, d: Durable, faults: seq<Fault>, k: nat) {
    k < |faults| && TornBy(plan, Restarts(d, faults[..k]), faults[k])
  }

  ghost predicate SamePlan(j: seq<JournalEntry>, plan: seq<JournalEntry>) {
    |j| == |plan| && forall i :: 0 <= i < |j| ==> j[i] == plan[i].(status := j[i].status)
  }

  /** A state recovery can finish from: each planned path holds its before or its after content, what the
      journal calls verified is written, and no other path has moved. */
  ghost predicate Resumable(plan: seq<JournalEntry>, t0: Tree, d: Durable) {
    && SamePlan(d.saved, plan)
    && (forall i :: 0 <= i < |plan| ==>
          && ClassOf(d.saved[i], d.source) != Diverged
          && (d.saved[i].status == Verified ==> ClassOf(d.saved[i], d.source) == Completed))
    && (forall p :: p !in PlanPaths(plan) ==> MetaOrMissing(d.source, p) == MetaOrMissing(t0, p))
  }

  lemma EntryClasses(e: JournalEntry, cur: FileMeta)
    requires Planned(e)
    ensures Classify(e, Applied(e)) == Completed
    ensures RecheckEntry(e, cur) ==> Classify(e, cur) != Diverged
    ensures RecheckEntry(e, cur) ==> (Classify(e, cur) == Completed <==> e.op == Modify && e.beforeHash == e.afterHash)
    ensures e.op != Modify ==> Classify(e, MISSING) != Diverged
    ensures e.op == Modify ==> Classify(e, MISSING) == Diverged
  {
  }

  lemma PrefixPaths(plan: seq<JournalEntry>, k: nat, p: Text)
    requires k <= |plan|
    ensures p in PlanPaths(plan[..k]) ==> p in PlanPaths(plan)
  {
    assert PlanPaths(plan[..k]) == PlanPaths(plan)[..k];
  }

  /** The publish under this fault still wrote entry i. */
  predicate Reached(fault: Fault, i: nat) { fault == NoFault || i < fault.at || (i == fault.at && fault.Writes()) }

  /** Entry by entry, the source an attempt to publish leaves. */
  lemma PublishMeta(t: Tree, plan: seq<JournalEntry>, fault: Fault, i: nat)
    requires DistinctPaths(plan) && i < |plan|
    ensures var m := MetaOrMissing(AfterPublish(t, plan, fault).source, plan[i].path);
            if Reached(fault, i) then m == Applied(plan[i])
            else if i == fault.at && (fault.TornIn? || (fault.FailIn? && fault.removed)) then m == MISSING
            else m == MetaOrMissing(t, plan[i].path)
  {
    var k := if fault == NoFault || fault.at >= |plan| then |plan| else fault.at;
    assert plan[..|plan|] == plan;
    ApplyAllMeta(t, plan[..k]);
    if i < k { assert plan[..k][i] == plan[i]; } else { assert plan[i].path !in PlanPaths(plan[..k]); }
  }

  lemma PublishTouchesOnlyPlan(t: Tree, plan: seq<JournalEntry>, fault: Fault, p: Text)
    requires DistinctPaths(plan) && p !in PlanPaths(plan)
    ensures MetaOrMissing(AfterPublish(t, plan, fault).source, p) == MetaOrMissing(t, p)
  {
    var k := if fault == NoFault || fault.at >= |plan| then |plan| else fault.at;
    assert plan[..|plan|] == plan;
    ApplyAllMeta(t, plan[..k]);
    PrefixPaths(plan, k, p);
    if k < |plan| { assert PlanPaths(plan)[k] == plan[k].path; }
  }

  lemma PublishLeavesResumable(t: Tree, plan: seq<JournalEntry>, fault: Fault)
    requires PlanOk(plan) && RecheckPasses(t, plan) && !Tears(plan, fault)
    ensures Resumable(plan, t, AfterPublish(t, plan, fault))
  {
    var d := AfterPublish(t, plan, fault);
    forall i | 0 <= i < |plan|
      ensures ClassOf(d.saved[i], d.source) != Diverged
      ensures d.saved[i].status == Verified ==> ClassOf(d.saved[i], d.source) == Completed
    {
      PublishMeta(t, plan, fault, i);
      EntryClasses(plan[i], MetaOrMissing(t, plan[i].path));
    }
    forall p | p !in PlanPaths(plan) ensures MetaOrMissing(d.source, p) == MetaOrMissing(t, p) {
      PublishTouchesOnlyPlan(t, plan, fault, p);
    }
  }

  /** Entry by entry, the source a recovery leaves. */
  lemma RecoveryMeta(d: Durable, fault: Fault, i: nat)
    requires DistinctPaths(d.saved) && i < |d.saved| && !AnyDiverged(d)
    ensures var m := MetaOrMissing(AfterRecovery(d, fault).source, d.saved[i].path);
            var before := MetaOrMissing(d.source, d.saved[i].path);
            if Hits(d, fault) && !AllCompleted(d) && i >= fault.at then
              if i > fault.at || fault.StopBefore? || (fault.FailIn? && !fault.removed) then m == before
              else m == if fault.Writes() then Applied(d.saved[i]) else MISSING
            else m == if NeedsWrite(d.saved[i], d.source) then Applied(d.saved[i]) else before
  {
    var k := if Hits(d, fault) then fault.at else |d.saved|;
    assert d.saved[..|d.saved|] == d.saved;
    ResumeMeta(d.source, d.saved[..k]);
    if i < k { assert d.saved[..k][i] == d.saved[i]; } else { assert d.saved[i].path !in PlanPaths(d.saved[..k]); }
  }

  lemma RecoveryTouchesOnlyPlan(d: Durable, fault: Fault, p: Text)
    requires DistinctPaths(d.saved) && p !in PlanPaths(d.saved)
    ensures MetaOrMissing(AfterRecovery(d, fault).source, p) == MetaOrMissing(d.source, p)
  {
    var k := if Hits(d, fault) then fault.at else |d.saved|;
    assert d.saved[..|d.saved|] == d.saved;
    ResumeMeta(d.source, d.saved[..k]);
    PrefixPaths(d.saved, k, p);
    if k < |d.saved| { assert PlanPaths(d.saved)[k] == d.saved[k].path; }
  }

  lemma RecoveryKeepsPlan(plan: seq<JournalEntry>, d: Durable, fault: Fault, i: nat)
    requires SamePlan(d.saved, plan) && i < |plan|
    ensures var r := AfterRecovery(d, fault); |r.saved| == |plan| && r.saved[i] == plan[i].(status := r.saved[i].status)
  {
  }

  lemma RecoveryMovesForward(plan: seq<JournalEntry>, t0: Tree, d: Durable, fault: Fault, i: nat)
    requires PlanOk(plan) && Resumable(plan, t0, d) && !TornBy(plan, d, fault) && i < |plan|
    ensures var r := AfterRecovery(d, fault);
            && |r.saved| == |plan| && r.saved[i] == plan[i].(status := r.saved[i].status)
            && ClassOf(r.saved[i], r.source) != Diverged
            && (r.saved[i].status == Verified || fault == NoFault ==> ClassOf(r.saved[i], r.source) == Completed)
  {
    RecoveryKeepsPlan(plan, d, fault, i);
    EntryMovesForward(plan, t0, d, fault, i);
    if AfterRecovery(d, fault).saved[i].status == Verified { MarksAreEarned(plan, t0, d, fault, i); }
  }

  /** What recovery makes of an entry's path: as it was, written, or missing where that is no divergence. */
  lemma EntryMovesForward(plan: seq<JournalEntry>, t0: Tree, d: Durable, fault: Fault, i: nat)
    requires PlanOk(plan) && Resumable(plan, t0, d) && !TornBy(plan, d, fault) && i < |plan|
    ensures var m := MetaOrMissing(AfterRecovery(d, fault).source, plan[i].path);
            && Classify(plan[i], m) != Diverged
            && (ClassOf(plan[i], d.source) == Completed || fault == NoFault ==> Classify(plan[i], m) == Completed)
  {
    RecoveryMeta(d, fault, i);
    EntryClasses(plan[i], MISSING);
    assert d.saved[i] == plan[i].(status := d.saved[i].status);
  }

  /** A stopped recovery has marked nothing behind the entry it stopped at. */
  lemma MarksAreBehind(d: Durable, fault: Fault, i: nat)
    requires Hits(d, fault) && i < |d.saved| && StoppedAt(d, fault).saved[i].status == Verified
    ensures i < fault.at || d.saved[i].status == Verified
  {
  }

  /** A mark that recovery sets is on an entry that is written. */
  lemma MarksAreEarned(plan: seq<JournalEntry>, t0: Tree, d: Durable, fault: Fault, i: nat)
    requires PlanOk(plan) && Resumable(plan, t0, d) && !TornBy(plan, d, fault) && i < |plan|
    requires AfterRecovery(d, fault).saved[i].status == Verified
    ensures ClassOf(plan[i], AfterRecovery(d, fault).source) == Completed
  {
    RecoveryMeta(d, fault, i);
    if Hits(d, fault) && !AllCompleted(d) { MarksAreBehind(d, fault, i); }
    EntryClasses(plan[i], MISSING);
    assert d.saved[i] == plan[i].(status := d.saved[i].status);
  }

  lemma RecoveryKeepsResumable(plan: seq<JournalEntry>, t0: Tree, d: Durable, fault: Fault)
    requires PlanOk(plan) && Resumable(plan, t0, d) && !TornBy(plan, d, fault)
    ensures Resumable(plan, t0, AfterRecovery(d, fault))
    ensures fault == NoFault ==> AllCompleted(AfterRecovery(d, fault))
  {
    forall i | 0 <= i < |plan|
      ensures var r := AfterRecovery(d, fault);
              && |r.saved| == |plan| && r.saved[i] == plan[i].(status := r.saved[i].status)
              && ClassOf(r.saved[i], r.source) != Diverged
              && (r.saved[i].status == Verified || fault == NoFault ==> ClassOf(r.saved[i], r.source) == Completed)
    {
      RecoveryMovesForward(plan, t0, d, fault, i);
    }
    assert PlanPaths(d.saved) == PlanPaths(plan);
    forall p | p !in PlanPaths(plan) ensures MetaOrMissing(AfterRecovery(d, fault).source, p) == MetaOrMissing(t0, p) {
      RecoveryTouchesOnlyPlan(d, fault, p);
    }
  }

  ghost predicate SameContent(a: FileMeta, b: FileMeta) {
    a.missing == b.missing && (!a.missing ==> a.hash == b.hash)
  }

  /** A recovery torn inside a modification leaves its path missing, which is neither state. */
  lemma TornRecoveryDiverges(plan: seq<JournalEntry>, t0: Tree, d: Durable, fault: Fault)
    requires PlanOk(plan) && Resumable(plan, t0, d) && TornBy(plan, d, fault)
    ensures AnyDiverged(AfterRecovery(d, fault))
  {
    var r := AfterRecovery(d, fault);
    RecoveryMeta(d, fault, fault.at);
    RecoveryKeepsPlan(plan, d, fault, fault.at);
    EntryClasses(r.saved[fault.at], MISSING);
    assert ClassOf(r.saved[fault.at], r.source) == Diverged;
  }

  lemma {:induction false} DivergedStays(d: Durable, faults: seq<Fault>)
    requires AnyDiverged(d)
    ensures Restarts(d, faults) == d
  {
    if faults != [] { DivergedStays(d, faults[..|faults| - 1]); }
  }

  lemma TornAtFront(plan: seq<JournalEntry>, d: Durable, faults: seq<Fault>, k: nat)
    requires k < |faults| - 1
    ensures TornAt(plan, d, faults[..|faults| - 1], k) <==> TornAt(plan, d, faults, k)
  {
    assert faults[..|faults| - 1][..k] == faults[..k];
  }

  lemma EverTornOneMore(plan: seq<JournalEntry>, d: Durable, faults: seq<Fault>)
    requires faults != []
    ensures var n := |faults| - 1;
            EverTorn(plan, d, faults) <==> EverTorn(plan, d, faults[..n]) || TornBy(plan, Restarts(d, faults[..n]), faults[n])
  {
    var n := |faults| - 1;
    forall k: nat | k < n ensures TornAt(plan, d, faults[..n], k) <==> TornAt(plan, d, faults, k) {
      TornAtFront(plan, d, faults, k);
    }
    assert TornAt(plan, d, faults, n) <==> TornBy(plan, Restarts(d, faults[..n]), faults[n]);
  }

  /** Any number of stopped recoveries stay resumable, unless one of them is torn inside a modification;
      then the state has diverged and no recovery will change it again. */
  lemma {:induction false} RestartsStayResumable(plan: seq<JournalEntry>, t0: Tree, d: Durable, faults: seq<Fault>)
    requires PlanOk(plan) && Resumable(plan, t0, d)
    ensures EverTorn(plan, d, faults) ==> AnyDiverged(Restarts(d, faults))
    ensures !EverTorn(plan, d, faults) ==> Resumable(plan, t0, Restarts(d, faults))
  {
    if faults != [] {
      var n := |faults| - 1;
      RestartsStayResumable(plan, t0, d, faults[..n]);
      EverTornOneMore(plan, d, faults);
      if !EverTorn(plan, d, faults[..n]) {
        var before := Restarts(d, faults[..n]);
        if TornBy(plan, before, faults[n]) {
          TornRecoveryDiverges(plan, t0, before, faults[n]);
        } else {
          RecoveryKeepsResumable(plan, t0, before, faults[n]);
        }
      }
    }
  }

  /** Crash convergence: publication is stopped anywhere, recovery is stopped anywhere any number of times,
      and one recovery then runs to its end.  Every planned path has the content an uninterrupted publication
      gives it, and every other path is as it was. */
  lemma CrashConvergence(t0: Tree, plan: seq<JournalEntry>, first: Fault, faults: seq<Fault>)
    requires PlanOk(plan) && RecheckPasses(t0, plan)
    requires !Tears(plan, first) && !EverTorn(plan, AfterPublish(t0, plan, first), faults)
    ensures var end := AfterRecovery(Restarts(AfterPublish(t0, plan, first), faults), NoFault).source;
            var whole := AfterPublish(t0, plan, NoFault).source;
            && (forall p :: p in PlanPaths(plan) ==> SameContent(MetaOrMissing(end, p), MetaOrMissing(whole, p)))
            && (forall p :: p !in PlanPaths(plan) ==> MetaOrMissing(end, p) == MetaOrMissing(whole, p) == MetaOrMissing(t0, p))
  {
    PublishLeavesResumable(t0, plan, first);
    var d := Restarts(AfterPublish(t0, plan, first), faults);
    RestartsStayResumable(plan, t0, AfterPublish(t0, plan, first), faults);
    RecoveryKeepsResumable(plan, t0, d, NoFault);
    var end := AfterRecovery(d, NoFault);
    forall p | p in PlanPaths(plan)
      ensures SameContent(MetaOrMissing(end.source, p), MetaOrMissing(AfterPublish(t0, plan, NoFault).source, p))
    {
      var i :| 0 <= i < |plan| && PlanPaths(plan)[i] == p;
      PublishMeta(t0, plan, NoFault, i);
      assert ClassOf(end.saved[i], end.source) == Completed;
      assert Planned(plan[i]);
    }
    forall p | p !in PlanPaths(plan)
      ensures MetaOrMissing(AfterPublish(t0, plan, NoFault).source, p) == MetaOrMissing(t0, p)
    {
      PublishTouchesOnlyPlan(t0, plan, NoFault, p);
    }
  }

  /** The one crash that is not repaired: an attempt, to publish or to recover, stopped between the remove
      and the rename of an existing file.  A last undisturbed recovery completes everything exactly when no
      attempt was stopped so; otherwise it finds the path missing, calls it diverged and changes nothing. */
  lemma OnlyATornModifyIsStuck(t0: Tree, plan: seq<JournalEntry>, first: Fault, faults: seq<Fault>)
    requires PlanOk(plan) && RecheckPasses(t0, plan)
    ensures var d := AfterPublish(t0, plan, first);
            var torn := Tears(plan, first) || EverTorn(plan, d, faults);
            && (AllCompleted(AfterRecovery(Restarts(d, faults), NoFault)) <==> !torn)
            && (torn ==> AfterRecovery(Restarts(d, faults), NoFault) == Restarts(d, faults) && AnyDiverged(Restarts(d, faults)))
  {
    var d := AfterPublish(t0, plan, first);
    if Tears(plan, first) {
      PublishMeta(t0, plan, first, first.at);
      EntryClasses(plan[first.at], MISSING);
      assert ClassOf(d.saved[first.at], d.source) == Diverged;
      DivergedStays(d, faults);
    } else {
      PublishLeavesResumable(t0, plan, first);
      RestartsStayResumable(plan, t0, d, faults);
      if !EverTorn(plan, d, faults) { RecoveryKeepsResumable(plan, t0, Restarts(d, faults), NoFault); }
    }
  }

  /** An entry that changes mode or type and not content. */
  predicate KeepsContent(e: JournalEntry) { e.op == Modify && e.beforeHash == e.afterHash }

  /** What recovery makes of metadata: it never touches an entry that keeps its content, and any other
      entry that counts as completed was written in full. */
  ghost predicate MetadataAsLeft(plan: seq<JournalEntry>, t0: Tree, left: Tree, d: Durable) {
    && Resumable(plan, t0, d)
    && forall i :: 0 <= i < |plan| ==>
         if KeepsContent(plan[i]) then MetaOrMissing(d.source, plan[i].path) == MetaOrMissing(left, plan[i].path)
         else ClassOf(plan[i], d.source) == Completed ==> MetaOrMissing(d.source, plan[i].path) == Applied(plan[i])
  }

  lemma PublishLeavesMetadata(t0: Tree, plan: seq<JournalEntry>, first: Fault)
    requires PlanOk(plan) && RecheckPasses(t0, plan) && !Tears(plan, first)
    ensures var d := AfterPublish(t0, plan, first); MetadataAsLeft(plan, t0, d.source, d)
  {
    PublishLeavesResumable(t0, plan, first);
    forall i | 0 <= i < |plan| && !KeepsContent(plan[i])
      ensures var m := MetaOrMissing(AfterPublish(t0, plan, first).source, plan[i].path);
              Classify(plan[i], m) == Completed ==> m == Applied(plan[i])
    {
      PublishMeta(t0, plan, first, i);
      EntryClasses(plan[i], MetaOrMissing(t0, plan[i].path));
    }
  }

  lemma RecoveryKeepsMetadata(plan: seq<JournalEntry>, t0: Tree, left: Tree, d: Durable, fault: Fault)
    requires PlanOk(plan) && MetadataAsLeft(plan, t0, left, d) && !TornBy(plan, d, fault)
    ensures MetadataAsLeft(plan, t0, left, AfterRecovery(d, fault))
  {
    RecoveryKeepsResumable(plan, t0, d, fault);
    forall i | 0 <= i < |plan|
      ensures var m := MetaOrMissing(AfterRecovery(d, fault).source, plan[i].path);
              if KeepsContent(plan[i]) then m == MetaOrMissing(left, plan[i].path)
              else Classify(plan[i], m) == Completed ==> m == Applied(plan[i])
    {
      EntryMetadataAsLeft(plan, t0, left, d, fault, i);
    }
  }

  lemma EntryMetadataAsLeft(plan: seq<JournalEntry>, t0: Tree, left: Tree, d: Durable, fault: Fault, i: nat)
    requires PlanOk(plan) && MetadataAsLeft(plan, t0, left, d) && !TornBy(plan, d, fault) && i < |plan|
    ensures var m := MetaOrMissing(AfterRecovery(d, fault).source, plan[i].path);
            if KeepsContent(plan[i]) then m == MetaOrMissing(left, plan[i].path)
            else Classify(plan[i], m) == Completed ==> m == Applied(plan[i])
  {
    RecoveryMeta(d, fault, i);
    assert d.saved[i] == plan[i].(status := d.saved[i].status);
  }

  lemma {:induction false} RestartsKeepMetadata(plan: seq<JournalEntry>, t0: Tree, left: Tree, d: Durable, faults: seq<Fault>)
    requires PlanOk(plan) && MetadataAsLeft(plan, t0, left, d) && !EverTorn(plan, d, faults)
    ensures MetadataAsLeft(plan, t0, left, Restarts(d, faults))
  {
    if faults != [] {
      var n := |faults| - 1;
      EverTornOneMore(plan, d, faults);
      RestartsKeepMetadata(plan, t0, left, d, faults[..n]);
      RecoveryKeepsMetadata(plan, t0, left, Restarts(d, faults[..n]), faults[n]);
    }
  }

  /** Recovery compares content only, so an entry that keeps its content counts as written.  Stopped anywhere
      any number of times and then recovered, the source is the one of an uninterrupted publish, metadata
      included, if and only if every such entry that publish did not reach was already as planned. */
  lemma MetadataIsRecoveredIff(t0: Tree, plan: seq<JournalEntry>, first: Fault, faults: seq<Fault>)
    requires PlanOk(plan) && RecheckPasses(t0, plan)
    requires !Tears(plan, first) && !EverTorn(plan, AfterPublish(t0, plan, first), faults)
    ensures (forall p :: MetaOrMissing(AfterRecovery(Restarts(AfterPublish(t0, plan, first), faults), NoFault).source, p)
                         == MetaOrMissing(AfterPublish(t0, plan, NoFault).source, p))
       <==> (forall i :: 0 <= i < |plan| && KeepsContent(plan[i]) && !Reached(first, i) ==>
                         MetaOrMissing(t0, plan[i].path) == Applied(plan[i]))
  {
    var end := AfterRecovery(Restarts(AfterPublish(t0, plan, first), faults), NoFault).source;
    var whole := AfterPublish(t0, plan, NoFault).source;
    forall i | 0 <= i < |plan|
      ensures MetaOrMissing(end, plan[i].path) == MetaOrMissing(whole, plan[i].path) <==>
              (KeepsContent(plan[i]) && !Reached(first, i) ==> MetaOrMissing(t0, plan[i].path) == Applied(plan[i]))
    {
      RecoveredMetadata(t0, plan, first, faults, i);
      PublishMeta(t0, plan, NoFault, i);
    }
    CrashConvergence(t0, plan, first, faults);
    EqualOnPlan(plan, end, whole);
  }

  /** Entry by entry, the metadata after any stops and a full recovery. */
  lemma RecoveredMetadata(t0: Tree, plan: seq<JournalEntry>, first: Fault, faults: seq<Fault>, i: nat)
    requires PlanOk(plan) && RecheckPasses(t0, plan) && i < |plan|
    requires !Tears(plan, first) && !EverTorn(plan, AfterPublish(t0, plan, first), faults)
    ensures MetaOrMissing(AfterRecovery(Restarts(AfterPublish(t0, plan, first), faults), NoFault).source, plan[i].path)
            == if KeepsContent(plan[i]) && !Reached(first, i) then MetaOrMissing(t0, plan[i].path) else Applied(plan[i])
  {
    var d := AfterPublish(t0, plan, first);
    var last := Restarts(d, faults);
    PublishLeavesMetadata(t0, plan, first);
    RestartsKeepMetadata(plan, t0, d.source, d, faults);
    RecoveryKeepsMetadata(plan, t0, d.source, last, NoFault);
    RecoveryKeepsResumable(plan, t0, last, NoFault);
    assert ClassOf(AfterRecovery(last, NoFault).saved[i], AfterRecovery(last, NoFault).source) == Completed;
    PublishMeta(t0, plan, first, i);
  }

  lemma EqualOnPlan(plan: seq<JournalEntry>, a: Tree, b: Tree)
    requires forall p :: p !in PlanPaths(plan) ==> MetaOrMissing(a, p) == MetaOrMissing(b, p)
    ensures (forall p :: MetaOrMissing(a, p) == MetaOrMissing(b, p))
            <==> forall i :: 0 <= i < |plan| ==> MetaOrMissing(a, plan[i].path) == MetaOrMissing(b, plan[i].path)
  {
    forall p | p in PlanPaths(plan) ensures exists i :: 0 <= i < |plan| && plan[i].path == p {
      var i :| 0 <= i < |plan| && PlanPaths(plan)[i] == p;
      assert plan[i].path == p;
    }
  }

  /** Recovery trusts a verified mark.  When it runs to its end on a source that has not diverged, every
      planned path has its after content if and only if no verified entry was put back by someone else. */
  lemma CompletedIffVerifiedMarksHold(d: Durable)
    requires JournalOk(d.saved) && !AnyDiverged(d)
    ensures AllCompleted(AfterRecovery(d, NoFault)) <==>
            forall i :: 0 <= i < |d.saved| && d.saved[i].status == Verified ==>
              ClassOf(d.saved[i], d.source) == Completed
  {
    var r := AfterRecovery(d, NoFault);
    forall i | 0 <= i < |d.saved|
      ensures ClassOf(r.saved[i], r.source) == Completed <==>
              d.saved[i].status != Verified || ClassOf(d.saved[i], d.source) == Completed
    {
      RecoveryMeta(d, NoFault, i);
      EntryClasses(d.saved[i], MetaOrMissing(d.source, d.saved[i].path));
    }
  }

  /** A mode-only entry that recovery skips. */
  lemma MetadataCanBeLost() returns (t0: Tree, plan: seq<JournalEntry>)
    ensures PlanOk(plan) && RecheckPasses(t0, plan) && |plan| == 1
    ensures AfterRecovery(AfterPublish(t0, plan, StopBefore(0)), NoFault).source == t0 != AfterPublish(t0, plan, NoFault).source
  {
    var a, content := [97], Sha([1]);
    t0 := map[a := FileMeta(File, Regular, content, [], false)];
    plan := [JournalEntry(a, Modify, content, content, Regular, Executable, File, [], Pending)];
    PublishMeta(t0, plan, NoFault, 0);
    assert plan[..0] == [];
    assert AllCompleted(AfterPublish(t0, plan, StopBefore(0)));
  }

  /** A verified entry put back by its user, that a full recovery reports as published. */
  lemma VerifiedMarkCanMislead() returns (d: Durable)
    ensures JournalOk(d.saved) && !AnyDiverged(d) && !AllCompleted(d) && !AllCompleted(AfterRecovery(d, NoFault))
  {
    var a, b, before, after := [97], [98], Sha([1]), Sha([2]);
    d := Durable(map[a := FileMeta(File, Regular, before, [], false)],
                 [JournalEntry(a, Modify, before, after, Regular, Regular, File, [], Verified),
                  JournalEntry(b, Create, NoHash, after, NoMode, Regular, File, [], Pending)]);
    assert ClassOf(d.saved[0], d.source) == Incomplete && ClassOf(d.saved[1], d.source) == Incomplete;
    CompletedIffVerifiedMarksHold(d);
  }

  /** A source that has not moved since the merge passes the recheck. */
  lemma MergePassesRecheck(base: Tree, ours: Tree, run: Tree, conflicts: seq<Conflict>, plan: seq<JournalEntry>)
    requires OnDiskTree(base) && OnDiskTree(ours) && OnDiskTree(run)
    requires IsMerge(base, ours, run, conflicts, plan)
    ensures PlanOk(plan) && RecheckPasses(ours, plan)
  {
    PlanIsOk(base, ours, run, conflicts, plan);
    forall i | 0 <= i < |plan| ensures RecheckEntry(plan[i], MetaOrMissing(ours, plan[i].path)) {
      assert PlanPaths(plan)[i] in PlanPaths(plan);
    }
  }

  /** Merge and crash convergence together: whatever crashes, in the end each path the agent changed has the
      run-final content and each path the user changed has the user's. */
  lemma EndToEnd(base: Tree, ours: Tree, run: Tree, plan: seq<JournalEntry>, first: Fault, faults: seq<Fault>)
    requires OnDiskTree(base) && OnDiskTree(ours) && OnDiskTree(run)
    requires IsMerge(base, ours, run, [], plan)
    requires !Tears(plan, first) && !EverTorn(plan, AfterPublish(ours, plan, first), faults)
    ensures var end := AfterRecovery(Restarts(AfterPublish(ours, plan, first), faults), NoFault).source;
            && (forall p :: Changed(base, run, p) ==> SameContent(MetaOrMissing(end, p), MetaOrMissing(run, p)))
            && (forall p :: Changed(base, ours, p) ==> SameContent(MetaOrMissing(end, p), MetaOrMissing(ours, p)))
  {
    MergePassesRecheck(base, ours, run, [], plan);
    CrashConvergence(ours, plan, first, faults);
    MergeKeepsBothSides(base, ours, run, plan);
    assert AfterPublish(ours, plan, NoFault).source == Merged(ours, plan);
    var end := AfterRecovery(Restarts(AfterPublish(ours, plan, first), faults), NoFault).source;
    forall p ensures SameContent(MetaOrMissing(end, p), MetaOrMissing(Merged(ours, plan), p)) {
      if p !in PlanPaths(plan) { assert MetaOrMissing(end, p) == MetaOrMissing(Merged(ours, plan), p); }
    }
  }
}
