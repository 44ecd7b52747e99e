/** Concurrent `record_feed` transactions (identity/claims.py), interleaved statement by statement.

    A writer looks at the feed's progress before fetching its snapshot, takes the feed's advisory
    lock, re-reads the progress, runs the UPDATE and the INSERT against what is committed plus its
    own changes, and commits. Any writer may be killed at any point, which rolls it back. The main
    result is that every interleaving is equivalent to running the committed calls one after the
    other through `Claims.Record`, so that everything proved of `Claims.Replay` holds of it. */
module ClaimWriters {
  import opened Claims

  datatype Pc =
    | Start                                       // about to compare with the committed progress
    | Waiting                                     // has its rows, wants the advisory lock
    | Locked                                      // holds the lock, about to re-read the progress
    | Checked(seen: int)                          // the run is newer; about to UPDATE
    | Updated(seen: int, gone: set<Claim>, come: set<Claim>)
    | Inserted(seen: int, gone: set<Claim>, come: set<Claim>)  // about to write progress, commit
    | Finished

  datatype Writer = Writer(call: Call, pc: Pc)

  /** `done` is the calls that committed a recorded run, in commit order. */
  datatype System = System(committed: Ledger, writers: map<int, Writer>, done: seq<Call>)

  predicate HoldsLock(w: Writer) {
    w.pc.Locked? || w.pc.Checked? || w.pc.Updated? || w.pc.Inserted?
  }

  /** pg_advisory_xact_lock on the feed: granted when no other transaction holds it. */
  predicate LockFree(s: System, source: string) {
    forall id :: id in s.writers ==>
      !(HoldsLock(s.writers[id]) && s.writers[id].call.source == source)
  }

  function Goto(s: System, id: int, pc: Pc): System
    requires id in s.writers
  {
    s.(writers := s.writers[id := s.writers[id].(pc := pc)])
  }

  /** What the writer's next statement sees: the committed rows and its own changes. */
  function Visible(s: System, gone: set<Claim>, come: set<Claim>): set<Claim> {
    (s.committed.claims - gone) + come
  }

  /** The next statement of writer `id`; a blocked or finished writer does not move. */
  function Advance(s: System, id: int): System
    requires id in s.writers
  {
    var w := s.writers[id];
    var call := w.call;
    match w.pc
    case Start =>
      if Stale(s.committed, call) || call.rows == [] then Goto(s, id, Finished)
      else Goto(s, id, Waiting)
    case Waiting =>
      if LockFree(s, call.source) then Goto(s, id, Locked) else s
    case Locked =>
      if Stale(s.committed, call) then Goto(s, id, Finished)
      else Goto(s, id, Checked(Seen(s.committed, call)))
    case Checked(seen) =>
      if RangeViolated(s.committed.claims, call, seen) then Goto(s, id, Finished)
      else
        var gone := ToClose(s.committed.claims, call);
        Goto(s, id, Updated(seen, gone, set c | c in gone :: Close(c, call.run, seen)))
    case Updated(seen, gone, come) =>
      var opening := ToOpen(Visible(s, gone, come), call);
      if SlotCollides(opening) then Goto(s, id, Finished)
      else Goto(s, id, Inserted(seen, gone, come + OpenClaims(opening, call)))
    case Inserted(_, gone, come) =>
      var committed := Ledger(Visible(s, gone, come),
                              s.committed.progress[call.source := Progress(call.run, call.at)]);
      Goto(s, id, Finished).(committed := committed, done := s.done + [call])
    case Finished => s
  }

  datatype Step =
    | Run(id: int)                   // one statement of one writer
    | Kill(id: int)                  // its connection dies: rolled back, lock released
    | Spawn(id: int, call: Call)     // a new transaction begins

  function Next(s: System, step: Step): System {
    match step
    case Run(id) => if id in s.writers then Advance(s, id) else s
    case Kill(id) => if id in s.writers then Goto(s, id, Finished) else s
    case Spawn(id, call) =>
      if id in s.writers then s else s.(writers := s.writers[id := Writer(call, Start)])
  }

  function Execute(steps: seq<Step>): System {
    if steps == [] then System(EMPTY, map[], [])
    else Next(Execute(steps[..|steps| - 1]), steps[|steps| - 1])
  }

  // ----- the invariant ------------------------------------------------------------------

  ghost predicate OneHolderPerFeed(s: System) {
    forall i, j | i in s.writers && j in s.writers && HoldsLock(s.writers[i])
      && HoldsLock(s.writers[j]) && s.writers[i].call.source == s.writers[j].call.source :: i == j
  }

  ghost predicate NotRefused(ledger: Ledger, call: Call, seen: int) {
    call.rows != [] && !Stale(ledger, call) && seen == Seen(ledger, call)
  }

  /** The UPDATE has run: what it would still do to the committed rows. */
  ghost predicate ClosedBy(claims: set<Claim>, call: Call, seen: int, gone: set<Claim>, come: set<Claim>) {
    && !RangeViolated(claims, call, seen)
    && gone == ToClose(claims, call)
    && come == set c | c in gone :: Close(c, call.run, seen)
  }

  /** The INSERT has run too. */
  ghost predicate InsertedBy(claims: set<Claim>, call: Call, seen: int, gone: set<Claim>, come: set<Claim>) {
    var opening := ToOpen(AfterClose(claims, call, seen), call);
    && !SlotCollides(opening)
    && exists closed :: ClosedBy(claims, call, seen, gone, closed)
                     && come == closed + OpenClaims(opening, call)
  }

  /** What a writer that holds the lock has worked out is still what the committed tables say. */
  ghost predicate UpToDate(ledger: Ledger, w: Writer) {
    match w.pc
    case Start => true
    case Waiting => w.call.rows != []
    case Locked => w.call.rows != []
    case Checked(seen) => NotRefused(ledger, w.call, seen)
    case Updated(seen, gone, come) =>
      NotRefused(ledger, w.call, seen) && ClosedBy(ledger.claims, w.call, seen, gone, come)
    case Inserted(seen, gone, come) =>
      NotRefused(ledger, w.call, seen) && InsertedBy(ledger.claims, w.call, seen, gone, come)
    case Finished => true
  }

  ghost predicate Invariant(s: System) {
    && s.committed == Replay(s.done)
    && OneHolderPerFeed(s)
    && forall id :: id in s.writers ==> UpToDate(s.committed, s.writers[id])
  }

  /** A writer's work depends only on the feed's open claims. */
  lemma WorkDependsOnOpenClaims(a: set<Claim>, b: set<Claim>, call: Call, seen: int)
    requires Open(a, call.source) == Open(b, call.source)
    ensures ToClose(a, call) == ToClose(b, call)
    ensures ToOpen(AfterClose(a, call, seen), call) == ToOpen(AfterClose(b, call, seen), call)
  {
    assert ToClose(a, call) == ToClose(b, call);
    OpenAfterClose(a, call, seen);
    OpenAfterClose(b, call, seen);
  }

  lemma OpenAfterClose(claims: set<Claim>, call: Call, seen: int)
    ensures Open(AfterClose(claims, call, seen), call.source)
         == Open(claims, call.source) - ToClose(claims, call)
  {
  }

  /** A recorded run of one feed does not disturb a writer of another. */
  lemma OtherFeedStaysUpToDate(ledger: Ledger, call: Call, w: Writer)
    requires w.call.source != call.source && UpToDate(ledger, w)
    ensures UpToDate(Record(ledger, call).0, w)
  {
    var after := Record(ledger, call).0;
    OpenUnchanged(ledger, call, w.call.source);
    match w.pc
    case Updated(seen, _, _) => WorkDependsOnOpenClaims(ledger.claims, after.claims, w.call, seen);
    case Inserted(seen, gone, come) =>
      WorkDependsOnOpenClaims(ledger.claims, after.claims, w.call, seen);
      var closed :| ClosedBy(ledger.claims, w.call, seen, gone, closed)
        && come == closed + OpenClaims(ToOpen(AfterClose(ledger.claims, w.call, seen), w.call), w.call);
      assert ClosedBy(after.claims, w.call, seen, gone, closed);
    case _ =>
  }

  lemma OpenUnchanged(ledger: Ledger, call: Call, source: string)
    requires source != call.source
    ensures Open(Record(ledger, call).0.claims, source) == Open(ledger.claims, source)
    ensures source in Record(ledger, call).0.progress <==> source in ledger.progress
    ensures source in ledger.progress ==>
      Record(ledger, call).0.progress[source] == ledger.progress[source]
  {
    forall c: Claim | c.source == source
      ensures c in Record(ledger, call).0.claims <==> c in ledger.claims
    {
      OthersUntouched(ledger, call, c, source);
    }
  }

  /** The commit of an undisturbed writer is one atomic `Record`. */
  lemma CommitIsRecord(s: System, id: int)
    requires id in s.writers && s.writers[id].pc.Inserted? && UpToDate(s.committed, s.writers[id])
    ensures Record(s.committed, s.writers[id].call).1.Recorded?
    ensures Advance(s, id).committed == Record(s.committed, s.writers[id].call).0
  {
    var call, pc := s.writers[id].call, s.writers[id].pc;
    var opening := ToOpen(AfterClose(s.committed.claims, call, pc.seen), call);
    var closed :| ClosedBy(s.committed.claims, call, pc.seen, pc.gone, closed)
      && pc.come == closed + OpenClaims(opening, call);
    assert (s.committed.claims - pc.gone) + pc.come
        == AfterClose(s.committed.claims, call, pc.seen) + OpenClaims(opening, call);
  }

  lemma WriterStaysUpToDate(s: System, id: int)
    requires id in s.writers && UpToDate(s.committed, s.writers[id]) && !s.writers[id].pc.Inserted?
    ensures UpToDate(s.committed, Advance(s, id).writers[id])
    ensures Advance(s, id).committed == s.committed && Advance(s, id).done == s.done
  {
    var call := s.writers[id].call;
    match s.writers[id].pc
    case Updated(seen, gone, come) =>
      assert Visible(s, gone, come) == AfterClose(s.committed.claims, call, seen);
    case _ =>
  }

  /** A commit leaves every other writer up to date: of its own feed none holds the lock. */
  lemma OthersStayUpToDate(s: System, id: int, j: int)
    requires Invariant(s) && id in s.writers && j in s.writers && j != id && s.writers[id].pc.Inserted?
    ensures UpToDate(Record(s.committed, s.writers[id].call).0, s.writers[j])
  {
    if s.writers[j].call.source != s.writers[id].call.source {
      OtherFeedStaysUpToDate(s.committed, s.writers[id].call, s.writers[j]);
    } else {
      assert !HoldsLock(s.writers[j]);
    }
  }

  lemma AdvanceKeepsInvariant(s: System, id: int)
    requires Invariant(s) && id in s.writers
    ensures Invariant(Advance(s, id))
  {
    var t, call := Advance(s, id), s.writers[id].call;
    if s.writers[id].pc.Inserted? {
      CommitIsRecord(s, id);
      assert t.done[..|t.done| - 1] == s.done;
      forall j | j in t.writers && j != id ensures UpToDate(t.committed, t.writers[j]) {
        OthersStayUpToDate(s, id, j);
      }
    } else {
      WriterStaysUpToDate(s, id);
    }
  }

  lemma StepKeepsInvariant(s: System, step: Step)
    requires Invariant(s)
    ensures Invariant(Next(s, step))
  {
    match step
    case Run(id) => if id in s.writers { AdvanceKeepsInvariant(s, id); }
    case Kill(_) =>
    case Spawn(_, _) =>
  }

  /** Every interleaving of every set of writers leaves the committed tables as if the committed
      calls had been recorded one at a time, in commit order. */
  lemma {:induction false} InterleavingsSerialize(steps: seq<Step>)
    ensures Invariant(Execute(steps))
    ensures Execute(steps).committed == Replay(Execute(steps).done)
  {
    if steps != [] {
      var earlier := steps[..|steps| - 1];
      InterleavingsSerialize(earlier);
      StepKeepsInvariant(Execute(earlier), steps[|steps| - 1]);
    }
  }

  /** Each call that commits was recorded by the serial replay too, so the recorded runs of a feed
      are exactly its committed calls, strictly increasing, and the feed's open claims are those
      of its newest recorded run. */
  lemma CommittedRunsIncrease(steps: seq<Step>, source: string)
    ensures var s := Execute(steps);
      var h := History(s.done, source);
      && |h| == |OfFeed(s.done, source)|
      && (forall i :: 0 <= i < |h| ==> h[i].call == OfFeed(s.done, source)[i])
      && (forall i, j :: 0 <= i < j < |h| ==> h[i].call.run < h[j].call.run)
      && Held(s.committed.claims, source) == LastHeld(h)
      && (h != [] && Functional(Rows(h[|h| - 1].call)) ==>
            Held(s.committed.claims, source) == Rows(h[|h| - 1].call))
  {
    InterleavingsSerialize(steps);
    EveryCommitRecorded(steps);
    RecordedRunsIncrease(Execute(steps).done, source);
  }

  lemma RecordedRunsIncrease(done: seq<Call>, source: string)
    requires AllRecorded(done)
    ensures var h := History(done, source);
      && |h| == |OfFeed(done, source)|
      && (forall i :: 0 <= i < |h| ==> h[i].call == OfFeed(done, source)[i])
      && (forall i, j :: 0 <= i < j < |h| ==> h[i].call.run < h[j].call.run)
      && Held(Replay(done).claims, source) == LastHeld(h)
      && (h != [] && Functional(Rows(h[|h| - 1].call)) ==>
            Held(Replay(done).claims, source) == Rows(h[|h| - 1].call))
  {
    LedgerEncodesHistory(done, source);
    HistoryOfRecorded(done, source);
    var h := History(done, source);
    assert Describes(Replay(done), source, h);
  }

  function OfFeed(calls: seq<Call>, source: string): seq<Call> {
    if calls == [] then []
    else
      var last := calls[|calls| - 1];
      OfFeed(calls[..|calls| - 1], source) + (if last.source == source then [last] else [])
  }

  ghost predicate AllRecorded(calls: seq<Call>) {
    forall i :: 0 <= i < |calls| ==> Record(Replay(calls[..i]), calls[i]).1.Recorded?
  }

  lemma {:induction false} EveryCommitRecorded(steps: seq<Step>)
    ensures AllRecorded(Execute(steps).done)
  {
    if steps != [] {
      var earlier := steps[..|steps| - 1];
      EveryCommitRecorded(earlier);
      InterleavingsSerialize(earlier);
      var s, t := Execute(earlier), Execute(steps);
      if t.done != s.done {
        var id := steps[|steps| - 1].id;
        CommitIsRecord(s, id);
        assert t.done == s.done + [s.writers[id].call];
        forall i | 0 <= i < |t.done| ensures Record(Replay(t.done[..i]), t.done[i]).1.Recorded? {
          assert t.done[..i] == s.done[..i];
          assert s.done[..|s.done|] == s.done;
        }
      }
    }
  }

  lemma {:induction false} HistoryOfRecorded(calls: seq<Call>, source: string)
    requires AllRecorded(calls)
    ensures |History(calls, source)| == |OfFeed(calls, source)|
    ensures forall i :: 0 <= i < |OfFeed(calls, source)| ==>
      History(calls, source)[i].call == OfFeed(calls, source)[i]
  {
    if calls != [] {
      var earlier := calls[..|calls| - 1];
      forall i | 0 <= i < |earlier| ensures Record(Replay(earlier[..i]), earlier[i]).1.Recorded? {
        assert calls[..i] == earlier[..i];
      }
      HistoryOfRecorded(earlier, source);
      assert Record(Replay(earlier), calls[|calls| - 1]).1.Recorded?;
    }
  }

  /** The writer's run is stale, repeated or empty. */
  predicate Refused(s: System, id: int) {
    id in s.writers && (Stale(s.committed, s.writers[id].call) || s.writers[id].call.rows == [])
  }

  /** Committed runs only increase, so what is refused stays refused. */
  lemma RefusedStays(s: System, step: Step, id: int)
    requires Invariant(s) && Refused(s, id)
    ensures Refused(Next(s, step), id)
  {
    if step.Run? && step.id in s.writers && s.writers[step.id].pc.Inserted? {
      assert UpToDate(s.committed, s.writers[step.id]);
    }
  }

  lemma {:induction false} RefusedForGood(steps: seq<Step>, n: nat, id: int)
    requires n <= |steps| && Refused(Execute(steps[..n]), id)
    ensures Refused(Execute(steps), id)
  {
    if n < |steps| {
      var earlier := steps[..|steps| - 1];
      assert earlier[..n] == steps[..n];
      RefusedForGood(earlier, n, id);
      InterleavingsSerialize(earlier);
      RefusedStays(Execute(earlier), steps[|steps| - 1], id);
    } else {
      assert steps[..n] == steps;
    }
  }

  /** A writer whose run is stale, repeated or empty at some point of an execution changes the committed
      tables neither then nor at any later point, whatever the others do. */
  lemma RefusedWritersChangeNothing(steps: seq<Step>, n: nat, k: nat, id: int)
    requires n <= k < |steps| && Refused(Execute(steps[..n]), id)
    ensures Refused(Execute(steps[..k]), id)
    ensures steps[k] == Run(id) ==> Execute(steps[..k + 1]).committed == Execute(steps[..k]).committed
    ensures steps[k] == Run(id) ==> Execute(steps[..k + 1]).done == Execute(steps[..k]).done
  {
    assert steps[..k][..n] == steps[..n];
    RefusedForGood(steps[..k], n, id);
    InterleavingsSerialize(steps[..k]);
    assert steps[..k + 1][..k] == steps[..k];
  }

  /** A killed writer changes nothing and gives the lock back. */
  lemma KilledWriterRollsBack(s: System, id: int)
    requires Invariant(s) && id in s.writers && HoldsLock(s.writers[id])
    ensures Next(s, Kill(id)).committed == s.committed
    ensures LockFree(Next(s, Kill(id)), s.writers[id].call.source)
  {
  }

  /** n statements of one writer with nobody else moving. */
  function Undisturbed(s: System, id: int, n: nat): System
    requires id in s.writers
    decreases n
  {
    if n == 0 then s
    else
      var t := Advance(s, id);
      if id in t.writers then Undisturbed(t, id, n - 1) else t
  }

  /** Progress: a writer whose run is newer and not empty, gives each slot one value and is not observed
      before what it closes, commits once it has the lock free and its six statements run undisturbed. */
  lemma UndisturbedWriterCommits(s: System, id: int)
    requires Invariant(s) && id in s.writers && s.writers[id].pc == Start
    requires var call := s.writers[id].call;
      && call.rows != [] && !Stale(s.committed, call) && Functional(Rows(call))
      && LockFree(s, call.source)
      && forall c :: c in Open(s.committed.claims, call.source) ==> c.observedFrom <= Seen(s.committed, call)
    ensures var call, t := s.writers[id].call, Undisturbed(s, id, 6);
      && Record(s.committed, call).1.Recorded?
      && t.committed == Record(s.committed, call).0
      && t.done == s.done + [call]
      && Held(t.committed.claims, call.source) == Rows(call)
  {
    var call := s.writers[id].call;
    LedgerEncodesHistory(s.done, call.source);
    WellFormedRunIsRecorded(s.committed, call);
    HeldIsRowsIffFunctional(s.committed, call);
    LocksAndChecks(s, id);
    var checked := Advance(Advance(Advance(s, id), id), id);
    WorksAndCommits(checked, id, Seen(s.committed, call));
    SixSteps(s, id);
  }

  lemma SixSteps(s: System, id: int)
    requires id in s.writers
    ensures forall t: System :: id in t.writers ==> id in Advance(t, id).writers
    ensures Undisturbed(s, id, 6) ==
      Advance(Advance(Advance(Advance(Advance(Advance(s, id), id), id), id), id), id)
  {
    var a := Advance(s, id);
    var b := Advance(a, id);
    var c := Advance(b, id);
    var d := Advance(c, id);
    var e := Advance(d, id);
    assert Undisturbed(e, id, 1) == Advance(e, id);
    assert Undisturbed(d, id, 2) == Undisturbed(e, id, 1);
    assert Undisturbed(c, id, 3) == Undisturbed(d, id, 2);
    assert Undisturbed(b, id, 4) == Undisturbed(c, id, 3);
    assert Undisturbed(a, id, 5) == Undisturbed(b, id, 4);
  }

  lemma LocksAndChecks(s: System, id: int)
    requires id in s.writers && s.writers[id].pc == Start && LockFree(s, s.writers[id].call.source)
    requires s.writers[id].call.rows != [] && !Stale(s.committed, s.writers[id].call)
    ensures Advance(Advance(Advance(s, id), id), id) == Goto(s, id, Checked(Seen(s.committed, s.writers[id].call)))
  {
    var waiting := Goto(s, id, Waiting);
    assert Advance(s, id) == waiting;
    assert LockFree(waiting, s.writers[id].call.source);
    assert Advance(waiting, id) == Goto(s, id, Locked);
  }

  lemma WorksAndCommits(s: System, id: int, seen: int)
    requires id in s.writers && s.writers[id].pc == Checked(seen)
    requires var call := s.writers[id].call;
      && call.rows != [] && !Stale(s.committed, call) && seen == Seen(s.committed, call)
      && Record(s.committed, call).1.Recorded?
    ensures var t := Advance(Advance(Advance(s, id), id), id);
      && t.committed == Record(s.committed, s.writers[id].call).0
      && t.done == s.done + [s.writers[id].call]
  {
    var call := s.writers[id].call;
    var gone := ToClose(s.committed.claims, call);
    var closed := set c | c in gone :: Close(c, call.run, seen);
    var opening := ToOpen(AfterClose(s.committed.claims, call, seen), call);
    var updated := Goto(s, id, Updated(seen, gone, closed));
    assert Advance(s, id) == updated;
    assert Visible(updated, gone, closed) == AfterClose(s.committed.claims, call, seen);
    var inserted := Goto(s, id, Inserted(seen, gone, closed + OpenClaims(opening, call)));
    assert Advance(updated, id) == inserted;
    assert Visible(inserted, gone, closed + OpenClaims(opening, call))
        == AfterClose(s.committed.claims, call, seen) + OpenClaims(opening, call);
  }
}
