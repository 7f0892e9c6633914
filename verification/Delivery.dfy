/** The offset discipline of the worker's consumer (consumer.rs): commit after success, asynchronously; log a
    handler error and go on with the next message. */
module Delivery {
  import opened Wrappers
  import opened Tables
  import opened Worker
  import B = BatchRuns
  import I = ProtocolInvariant
  import P = Protocol
  import R = ProtocolRuns
  import Rep = Repository
  import Tk = Token

  /** A message on the raw-task topic, as the consumer sees it. */
  datatype Record = RawTask(t: P.Task) | Malformed | NoPayload

  /** `pos`: the next offset to read; `committed`: where a restart resumes; `pending`: commits sent but not landed. */
  datatype Consumer = Consumer(db: Db, pos: nat, committed: nat, pending: set<nat>)

  /** What becomes of `process`. Only a failing persist makes it return an error; the hash may be registered then. */
  datatype Outcome =
    | Handle(stamp: Tk.Stamp, now: int)           // no fault
    | Fault(text: string, now: int)               // `process_inner` fails, its error result is persisted
    | HandlerError(inner: Option<Tk.Stamp>)       // the persist fails, after `process_inner` got through or failed

  datatype Event =
    | Read(outcome: Outcome)
    | Lands(offset: nat)   // a pending commit reaches the broker
    | Restart

  function Commit(c: Consumer): Consumer {
    c.(pos := c.pos + 1, pending := c.pending + {c.pos + 1})
  }

  function Pass(c: Consumer): Consumer {
    c.(pos := c.pos + 1)
  }

  /** Registry and result before the persist transaction. */
  function Attempt(cfg: P.Config, db: Db, t: P.Task, o: Outcome): (Db, Message) {
    match o
    case Handle(stamp, _) => Inner(cfg, db, t, stamp)
    case Fault(text, _) => (db, P.ErrorMessage(t, text))
    case HandlerError(Some(stamp)) => Inner(cfg, db, t, stamp)
    case HandlerError(None) => (db, P.ErrorMessage(t, ""))
  }

  function HandleTask(cfg: P.Config, c: Consumer, t: P.Task, o: Outcome): Consumer {
    var a := Attempt(cfg, c.db, t, o);
    if o.HandlerError? || Persist(a.0, a.1, o.now).Failure? then Pass(c.(db := a.0))
    else Commit(c.(db := Persist(a.0, a.1, o.now).value))
  }

  function ReadNext(cfg: P.Config, log: seq<Record>, c: Consumer, o: Outcome): Consumer {
    if c.pos >= |log| then c
    else match log[c.pos]
      case RawTask(t) => HandleTask(cfg, c, t, o)
      case Malformed => Commit(c)
      case NoPayload => Pass(c)
  }

  function Next(cfg: P.Config, log: seq<Record>, c: Consumer, e: Event): Consumer {
    match e
    case Read(o) => ReadNext(cfg, log, c, o)
    case Lands(offset) => if offset in c.pending then c.(committed := offset, pending := c.pending - {offset}) else c
    case Restart => c.(pos := c.committed)
  }

  function Run(cfg: P.Config, log: seq<Record>, c: Consumer, events: seq<Event>): Consumer {
    if events == [] then c else Next(cfg, log, Run(cfg, log, c, events[..|events| - 1]), events[|events| - 1])
  }

  function Start(db: Db): Consumer {
    Consumer(db, 0, 0, {})
  }

  function Reads(outcomes: seq<Outcome>): seq<Event> {
    seq(|outcomes|, i requires 0 <= i < |outcomes| => Read(outcomes[i]))
  }

  // ---- the source's form ----

  class KafkaConsumer {
    const log: seq<Record>
    const processor: DiplomaProcessor
    var pos: nat
    var committed: nat
    var pending: set<nat>

    ghost function State(): Consumer
      reads this, processor, processor.database
    {
      Consumer(processor.database.Tables(), pos, committed, pending)
    }

    constructor (log: seq<Record>, processor: DiplomaProcessor)
      ensures this.log == log && this.processor == processor
      ensures State() == Start(processor.database.Tables())
    {
      this.log, this.processor := log, processor;
      pos, committed, pending := 0, 0, {};
    }

    /** The handler: `process`, with its faults; a persist that fails otherwise is the handler's error. */
    method Handler(t: P.Task, o: Outcome) returns (ok: bool)
      modifies processor, processor.database
      ensures var a := Attempt(processor.cfg, old(processor.database.Tables()), t, o);
              && ok == (!o.HandlerError? && Persist(a.0, a.1, o.now).Success?)
              && processor.database.Tables() == if ok then Persist(a.0, a.1, o.now).value else a.0
    {
      match o
      case Handle(stamp, now) => ok := processor.Process(t, stamp, now, true);
      case Fault(text, now) =>
        var persisted := processor.PersistProcessingResult(P.ErrorMessage(t, text), now);
        ok := persisted.Success?;
      case HandlerError(inner) =>
        if inner.Some? {
          var result := processor.ProcessInner(t, inner.value);
        }
        ok := false;
    }

    /** One message after the other, for as long as outcomes are given. */
    method Consume(outcomes: seq<Outcome>)
      modifies this, processor, processor.database
      ensures State() == Run(processor.cfg, log, old(State()), Reads(outcomes))
    {
      hide Attempt;
      hide Persist;
      hide Run;
      hide Reads;
      var i := 0;
      NothingRead(processor.cfg, log, State());
      while i < |outcomes| && pos < |log|
        invariant 0 <= i <= |outcomes|
        invariant State() == Run(processor.cfg, log, old(State()), Reads(outcomes[..i]))
      {
        OneMoreRead(processor.cfg, log, old(State()), outcomes, i);
        match log[pos] {
          case RawTask(t) =>
            var ok := Handler(t, outcomes[i]);
            if ok {
              pending := pending + {pos + 1};
            }
          case Malformed => pending := pending + {pos + 1};
          case NoPayload =>
        }
        pos := pos + 1;
        i := i + 1;
      }
      RestIgnored(processor.cfg, log, old(State()), outcomes, i);
    }
  }

  lemma NothingRead(cfg: P.Config, log: seq<Record>, c: Consumer)
    ensures forall outcomes: seq<Outcome> :: Run(cfg, log, c, Reads(outcomes[..0])) == c
  {
  }

  lemma OneMoreRead(cfg: P.Config, log: seq<Record>, c: Consumer, outcomes: seq<Outcome>, i: nat)
    requires i < |outcomes|
    ensures Run(cfg, log, c, Reads(outcomes[..i + 1])) == ReadNext(cfg, log, Run(cfg, log, c, Reads(outcomes[..i])), outcomes[i])
  {
    assert Reads(outcomes[..i + 1])[..i] == Reads(outcomes[..i]);
  }

  lemma {:induction false} RunConcat(cfg: P.Config, log: seq<Record>, c: Consumer, first: seq<Event>, more: seq<Event>)
    ensures Run(cfg, log, c, first + more) == Run(cfg, log, Run(cfg, log, c, first), more)
  {
    hide Next;
    if more == [] {
      assert first + more == first;
    } else {
      var all := first + more;
      assert all[..|all| - 1] == first + more[..|more| - 1] && all[|all| - 1] == more[|more| - 1];
      RunConcat(cfg, log, c, first, more[..|more| - 1]);
    }
  }

  /** At the end of the log nothing is read. */
  lemma {:induction false} RestIgnored(cfg: P.Config, log: seq<Record>, c: Consumer, outcomes: seq<Outcome>, i: nat)
    requires i <= |outcomes| && (i < |outcomes| ==> Run(cfg, log, c, Reads(outcomes[..i])).pos >= |log|)
    ensures Run(cfg, log, c, Reads(outcomes)) == Run(cfg, log, c, Reads(outcomes[..i]))
    decreases |outcomes| - i
  {
    if i == |outcomes| {
      assert outcomes[..i] == outcomes;
    } else {
      OneMoreRead(cfg, log, c, outcomes, i);
      RestIgnored(cfg, log, c, outcomes, i + 1);
    }
  }

  /** What a read of a healthy task leaves, by what becomes of it: an ok row, its hash and a commit under way; an error
      row and a commit; or neither row nor commit, though the hash may be registered. */
  lemma {:induction false} ReadExactly(cfg: P.Config, log: seq<Record>, c: Consumer, o: Outcome)
    requires c.pos < |log| && log[c.pos].RawTask? && B.Healthy(cfg, c.db, log[c.pos].t)
    requires log[c.pos].t.batch in c.db.batches && P.RowOf(log[c.pos].t) !in c.db.results
    requires o.Handle? ==> Tk.ValidStamp(o.stamp)
    requires o.HandlerError? && o.inner.Some? ==> Tk.ValidStamp(o.inner.value)
    ensures var t, v := log[c.pos].t, ReadNext(cfg, log, c, o);
            && v.pos == c.pos + 1 && v.committed == c.committed
            && v.pending == (if o.HandlerError? then c.pending else c.pending + {c.pos + 1})
            && v.db.registry == (if o.Handle? || (o.HandlerError? && o.inner.Some?) then B.Entered(cfg, c.db.registry, t)
                                 else c.db.registry)
            && (o.HandlerError? ==> v.db.results == c.db.results && v.db.batches == c.db.batches)
            && (o.Handle? ==> v.db.results == c.db.results[P.RowOf(t) :=
                  OkRow(P.TaskHash(cfg, t), Some(cfg.issue(cfg.unseal(c.db.keys[t.vuz]).value, o.stamp, t.student, t.vuz)))])
            && (o.Fault? ==> v.db.results == c.db.results[P.RowOf(t) := ErrorRow(o.text)])
  {
    hide Inner;
    hide PersistRow;
    var t := log[c.pos].t;
    if o.Handle? {
      HealthyInner(cfg, c.db, t, o.stamp);
    } else if o.HandlerError? && o.inner.Some? {
      HealthyInner(cfg, c.db, t, o.inner.value);
    }
    if !o.HandlerError? {
      var a := Attempt(cfg, c.db, t, o);
      PersistRowShape(a.0, KeyOf(a.1), WorkerVerdict(a.1).row, o.now);
    }
  }

  lemma HealthyInner(cfg: P.Config, db: Db, t: P.Task, stamp: Tk.Stamp)
    requires B.Healthy(cfg, db, t) && Tk.ValidStamp(stamp)
    ensures Inner(cfg, db, t, stamp) == (db.(registry := B.Entered(cfg, db.registry, t)), B.Done(cfg, db, t, stamp))
  {
    B.ConcludesOk(cfg, db, t, db.keys[t.vuz], stamp);
  }

  // ---- which reads leave a row ----

  predicate IsTask(log: seq<Record>, i: nat) {
    i < |log| && log[i].RawTask?
  }

  predicate HasRowAt(log: seq<Record>, db: Db, i: nat)
    requires IsTask(log, i)
  {
    P.RowOf(log[i].t) in db.results
  }

  /** The row is there or has a batch to go to. */
  predicate CanStore(db: Db, t: P.Task) {
    P.RowOf(t) in db.results || t.batch in db.batches
  }

  lemma AttemptTouches(cfg: P.Config, db: Db, t: P.Task, o: Outcome)
    ensures var a := Attempt(cfg, db, t, o);
            a.0 == db.(registry := a.0.registry) && KeyOf(a.1) == P.RowOf(t)
  {
    hide Inner;
    if o.Handle? {
      InnerTouches(cfg, db, t, o.stamp);
    } else if o.HandlerError? && o.inner.Some? {
      InnerTouches(cfg, db, t, o.inner.value);
    }
  }

  /** The read persists a row, or finds it persisted. */
  predicate Stores(log: seq<Record>, c: Consumer, e: Event) {
    e.Read? && IsTask(log, c.pos) && !e.outcome.HandlerError? && CanStore(c.db, log[c.pos].t)
  }

  predicate Fails(log: seq<Record>, c: Consumer, e: Event) {
    e.Read? && IsTask(log, c.pos) && !Stores(log, c, e)
  }

  predicate Commits(log: seq<Record>, c: Consumer, e: Event) {
    e.Read? && c.pos < |log| && (log[c.pos].Malformed? || Stores(log, c, e))
  }

  lemma PersistStores(db: Db, m: Message, now: int)
    ensures Persist(db, m, now).Success? <==> KeyOf(m) in db.results || m.batch in db.batches
    ensures Persist(db, m, now).Success? ==>
              var after := Persist(db, m, now).value;
              after.results.Keys == db.results.Keys + {KeyOf(m)} && after.batches.Keys == db.batches.Keys
  {
    if KeyOf(m) !in db.results && m.batch in db.batches {
      PersistRowShape(db, KeyOf(m), WorkerVerdict(m).row, now);
    }
  }

  lemma HandleTaskEffect(cfg: P.Config, c: Consumer, t: P.Task, o: Outcome)
    ensures var v := HandleTask(cfg, c, t, o);
            var stores := !o.HandlerError? && CanStore(c.db, t);
            && v.pos == c.pos + 1 && v.committed == c.committed
            && v.pending == (if stores then c.pending + {c.pos + 1} else c.pending)
            && v.db.results.Keys == (if stores then c.db.results.Keys + {P.RowOf(t)} else c.db.results.Keys)
            && v.db.batches.Keys == c.db.batches.Keys
  {
    hide Attempt;
    hide Persist;
    var a := Attempt(cfg, c.db, t, o);
    AttemptTouches(cfg, c.db, t, o);
    if !o.HandlerError? {
      PersistStores(a.0, a.1, o.now);
    }
  }

  /** What an event does to rows, position and commits. */
  lemma NextEffect(cfg: P.Config, log: seq<Record>, c: Consumer, e: Event)
    ensures var v := Next(cfg, log, c, e);
            && v.db.results.Keys == (if Stores(log, c, e) then c.db.results.Keys + {P.RowOf(log[c.pos].t)} else c.db.results.Keys)
            && v.db.batches.Keys == c.db.batches.Keys
            && v.pos == (if e.Restart? then c.committed else if e.Read? && c.pos < |log| then c.pos + 1 else c.pos)
            && v.committed == (if e.Lands? && e.offset in c.pending then e.offset else c.committed)
            && v.pending == (if Commits(log, c, e) then c.pending + {c.pos + 1}
                             else if e.Lands? then c.pending - {e.offset} else c.pending)
  {
    hide HandleTask;
    hide CanStore;
    if e.Read? && IsTask(log, c.pos) {
      HandleTaskEffect(cfg, c, log[c.pos].t, e.outcome);
    }
  }

  // ---- nothing is lost if errors stop the process ----

  /** A read has failed since the last restart. */
  predicate Halted(cfg: P.Config, log: seq<Record>, c: Consumer, events: seq<Event>) {
    if events == [] then false
    else
      var before, last := events[..|events| - 1], events[|events| - 1];
      match last
      case Restart => false
      case Read(_) => Halted(cfg, log, c, before) || Fails(log, Run(cfg, log, c, before), last)
      case Lands(_) => Halted(cfg, log, c, before)
  }

  /** A handler error ends the process: nothing is read between a failing read and the next restart. */
  predicate ErrorsStop(cfg: P.Config, log: seq<Record>, c: Consumer, events: seq<Event>) {
    if events == [] then true
    else
      var before, last := events[..|events| - 1], events[|events| - 1];
      ErrorsStop(cfg, log, c, before) && (last.Read? ==> !Halted(cfg, log, c, before))
  }

  /** Below `top` every task has its row, and nothing above it is committed; only a failing read is ahead of it. */
  ghost predicate Kept(log: seq<Record>, c: Consumer, halted: bool, top: nat) {
    && c.pos <= (if halted then top + 1 else top) && c.committed <= top && (forall offset | offset in c.pending :: offset <= top)
    && forall i | 0 <= i < top && IsTask(log, i) :: HasRowAt(log, c.db, i)
  }

  function Top(top: nat, log: seq<Record>, c: Consumer, e: Event): nat {
    if e.Read? && c.pos == top && c.pos < |log| && !Fails(log, c, e) then top + 1 else top
  }

  lemma StepKept(cfg: P.Config, log: seq<Record>, c: Consumer, e: Event, halted: bool, top: nat)
    requires Kept(log, c, halted, top) && (e.Read? ==> !halted)
    ensures Kept(log, Next(cfg, log, c, e), !e.Restart? && (halted || Fails(log, c, e)), Top(top, log, c, e))
  {
    hide Next;
    hide CanStore;
    NextEffect(cfg, log, c, e);
  }

  lemma {:induction false} RunKept(cfg: P.Config, log: seq<Record>, db: Db, events: seq<Event>) returns (top: nat)
    requires ErrorsStop(cfg, log, Start(db), events)
    ensures Kept(log, Run(cfg, log, Start(db), events), Halted(cfg, log, Start(db), events), top)
  {
    hide Next;
    hide CanStore;
    hide Fails;
    if events == [] {
      top := 0;
    } else {
      var before, last := events[..|events| - 1], events[|events| - 1];
      var reached := RunKept(cfg, log, db, before);
      var c := Run(cfg, log, Start(db), before);
      StepKept(cfg, log, c, last, Halted(cfg, log, Start(db), before), reached);
      OnlyReadsFail(log, c, last);
      top := Top(reached, log, c, last);
    }
  }

  lemma OnlyReadsFail(log: seq<Record>, c: Consumer, e: Event)
    ensures Fails(log, c, e) ==> e.Read?
  {
  }

  /** At least once: in every run in which a handler error ends the process before another message is read, crashes
      and late commits included, each task below the committed offset has its row. */
  lemma {:induction false} AtLeastOnce(cfg: P.Config, log: seq<Record>, db: Db, events: seq<Event>, i: nat)
    requires ErrorsStop(cfg, log, Start(db), events)
    requires IsTask(log, i) && i < Run(cfg, log, Start(db), events).committed
    ensures HasRowAt(log, Run(cfg, log, Start(db), events).db, i)
  {
    var top := RunKept(cfg, log, db, events);
  }

  // ---- as coded, the process goes on: exactly which logs are safe ----

  /** The consumer can commit past this message. */
  predicate Commitable(log: seq<Record>, db: Db, j: nat)
    requires j < |log|
  {
    log[j].Malformed? || (log[j].RawTask? && CanStore(db, log[j].t))
  }

  /** A task without a row is followed by a message that can be committed without it. */
  predicate Exposed(log: seq<Record>, db: Db, i: nat)
    requires IsTask(log, i)
  {
    !HasRowAt(log, db, i)
    && exists j :: i < j < |log| && Commitable(log, db, j) && (log[j].RawTask? ==> P.RowOf(log[j].t) != P.RowOf(log[i].t))
  }

  /** In every run, restarts and late commits included, each task below the committed offset has its row. */
  ghost predicate NeverLoses(cfg: P.Config, log: seq<Record>, db: Db) {
    forall events: seq<Event>, i: nat {:trigger Run(cfg, log, Start(db), events), IsTask(log, i)} ::
      IsTask(log, i) && i < Run(cfg, log, Start(db), events).committed ==> HasRowAt(log, Run(cfg, log, Start(db), events).db, i)
  }

  /** A commit is for a message that is malformed or has its row. */
  predicate Backed(log: seq<Record>, db: Db, offset: nat) {
    offset == 0 || (offset <= |log| && (log[offset - 1].Malformed? || (IsTask(log, offset - 1) && HasRowAt(log, db, offset - 1))))
  }

  ghost predicate AllBacked(log: seq<Record>, start: Db, c: Consumer) {
    && Backed(log, c.db, c.committed) && (forall offset | offset in c.pending :: Backed(log, c.db, offset))
    && start.results.Keys <= c.db.results.Keys && c.db.batches.Keys == start.batches.Keys
    && forall k: RowKey | k in c.db.results.Keys :: k in start.results.Keys || k.batch in start.batches.Keys
  }

  lemma StepBacked(cfg: P.Config, log: seq<Record>, start: Db, c: Consumer, e: Event)
    requires AllBacked(log, start, c)
    ensures AllBacked(log, start, Next(cfg, log, c, e))
  {
    hide Next;
    NextEffect(cfg, log, c, e);
  }

  lemma {:induction false} RunBacked(cfg: P.Config, log: seq<Record>, db: Db, events: seq<Event>)
    ensures AllBacked(log, db, Run(cfg, log, Start(db), events))
  {
    if events != [] {
      hide Next;
      hide AllBacked;
      RunBacked(cfg, log, db, events[..|events| - 1]);
      StepBacked(cfg, log, db, Run(cfg, log, Start(db), events[..|events| - 1]), events[|events| - 1]);
    }
  }

  lemma UnexposedIsKept(log: seq<Record>, start: Db, c: Consumer, i: nat)
    requires AllBacked(log, start, c) && IsTask(log, i) && i < c.committed && !HasRowAt(log, c.db, i)
    ensures Exposed(log, start, i)
  {
    var j := c.committed - 1;
    assert Commitable(log, start, j);
  }

  /** Every message up to offset `n` is read, and every handler fails. */
  function SkimTo(c: Consumer, n: nat): seq<Outcome>
    requires c.pos <= n
  {
    seq(n - c.pos, _ => HandlerError(None))
  }

  lemma {:induction false} Skimmed(cfg: P.Config, log: seq<Record>, c: Consumer, n: nat)
    requires c.pos <= n <= |log|
    ensures var v := Run(cfg, log, c, Reads(SkimTo(c, n)));
            && v.pos == n && v.db == c.db && v.committed == c.committed
            && forall o | o in v.pending :: o in c.pending || (c.pos < o <= n && log[o - 1].Malformed?)
    decreases n - c.pos
  {
    if c.pos < n {
      var all := SkimTo(c, n);
      assert all[..|all| - 1] == SkimTo(c, n - 1) && all == all[..|all|];
      Skimmed(cfg, log, c, n - 1);
      OneMoreRead(cfg, log, c, all, |all| - 1);
    }
  }

  const SKIP_HANDLER := Fault("", 0)

  /** Skim to an offset, handle it, and let its commit land. */
  function SkipTo(c: Consumer, j: nat): seq<Event>
    requires c.pos <= j
  {
    Reads(SkimTo(c, j)) + ([Read(SKIP_HANDLER)] + [Lands(j + 1)])
  }

  lemma TwoMore(cfg: P.Config, log: seq<Record>, c: Consumer, first: seq<Event>, a: Event, b: Event)
    ensures Run(cfg, log, c, first + ([a] + [b])) == Next(cfg, log, Next(cfg, log, Run(cfg, log, c, first), a), b)
  {
    hide Next;
    RunConcat(cfg, log, c, first, [a] + [b]);
    assert ([a] + [b])[..1] == [a] && [a][..0] == [];
    assert Run(cfg, log, Run(cfg, log, c, first), [a]) == Next(cfg, log, Run(cfg, log, c, first), a);
  }

  lemma SkippedTo(cfg: P.Config, log: seq<Record>, db: Db, i: nat, j: nat)
    requires IsTask(log, i) && !HasRowAt(log, db, i) && i < j < |log| && Commitable(log, db, j)
    requires log[j].RawTask? ==> P.RowOf(log[j].t) != P.RowOf(log[i].t)
    ensures var c := Run(cfg, log, Start(db), SkipTo(Start(db), j));
            && c.committed == c.pos == j + 1 && !HasRowAt(log, c.db, i)
            && forall o | o in c.pending :: o > 0 && o <= |log| && (log[o - 1].Malformed? || o == j + 1)
  {
    hide Next;
    var first := Reads(SkimTo(Start(db), j));
    Skimmed(cfg, log, Start(db), j);
    var c := Run(cfg, log, Start(db), first);
    TwoMore(cfg, log, Start(db), first, Read(SKIP_HANDLER), Lands(j + 1));
    NextEffect(cfg, log, c, Read(SKIP_HANDLER));
    NextEffect(cfg, log, Next(cfg, log, c, Read(SKIP_HANDLER)), Lands(j + 1));
  }

  /** At least once as coded, where an error is logged and the next message read: it holds in every run exactly for
      logs and tables in which no task without a row is followed by a message that can be committed without it. */
  lemma {:induction false} AtLeastOnceExactly(cfg: P.Config, log: seq<Record>, db: Db)
    ensures NeverLoses(cfg, log, db) <==> forall i: nat | IsTask(log, i) :: !Exposed(log, db, i)
  {
    hide Next;
    hide Exposed;
    hide Run;
    if NeverLoses(cfg, log, db) {
      forall i: nat | IsTask(log, i) ensures !Exposed(log, db, i) {
        ExposedIsLost(cfg, log, db, i);
      }
    }
    if forall i: nat | IsTask(log, i) :: !Exposed(log, db, i) {
      forall events: seq<Event>, i: nat | IsTask(log, i) && i < Run(cfg, log, Start(db), events).committed
        ensures HasRowAt(log, Run(cfg, log, Start(db), events).db, i)
      {
        RunBacked(cfg, log, db, events);
        if !HasRowAt(log, Run(cfg, log, Start(db), events).db, i) {
          UnexposedIsKept(log, db, Run(cfg, log, Start(db), events), i);
        }
      }
    }
  }

  lemma ExposedIsLost(cfg: P.Config, log: seq<Record>, db: Db, i: nat)
    requires IsTask(log, i)
    ensures Exposed(log, db, i) ==> !NeverLoses(cfg, log, db)
  {
    hide Run;
    if Exposed(log, db, i) {
      var j :| i < j < |log| && Commitable(log, db, j) && (log[j].RawTask? ==> P.RowOf(log[j].t) != P.RowOf(log[i].t));
      SkippedTo(cfg, log, db, i, j);
      assert i < Run(cfg, log, Start(db), SkipTo(Start(db), j)).committed;
    }
  }

  // ---- exactly which tasks are lost for good ----

  /** The consumer is past task `i`, wherever a restart may resume, and its row is missing. */
  ghost predicate Skipped(log: seq<Record>, c: Consumer, i: nat) {
    && IsTask(log, i) && !HasRowAt(log, c.db, i)
    && i < c.pos && i < c.committed && forall offset | offset in c.pending :: i < offset
  }

  /** No later message is for the same row. */
  predicate LastCopy(log: seq<Record>, i: nat)
    requires IsTask(log, i)
  {
    forall j | i < j < |log| && log[j].RawTask? :: P.RowOf(log[j].t) != P.RowOf(log[i].t)
  }

  lemma SkippedStays(cfg: P.Config, log: seq<Record>, c: Consumer, i: nat, e: Event)
    requires Skipped(log, c, i) && LastCopy(log, i)
    ensures Skipped(log, Next(cfg, log, c, e), i)
  {
    hide Next;
    hide CanStore;
    NextEffect(cfg, log, c, e);
  }

  lemma {:induction false} SkippedThroughout(cfg: P.Config, log: seq<Record>, c: Consumer, i: nat, events: seq<Event>)
    requires Skipped(log, c, i) && LastCopy(log, i)
    ensures Skipped(log, Run(cfg, log, c, events), i)
  {
    if events != [] {
      hide Next;
      hide Skipped;
      SkippedThroughout(cfg, log, c, i, events[..|events| - 1]);
      SkippedStays(cfg, log, Run(cfg, log, c, events[..|events| - 1]), i, events[|events| - 1]);
    }
  }

  /** The events that bring the consumer to offset `i` or before, if any do. */
  function Rewind(log: seq<Record>, c: Consumer, i: nat, offset: nat): seq<Event> {
    if c.pos <= i then [] else if c.committed <= i then [Restart] else [Lands(offset)] + [Restart]
  }

  lemma Rewound(cfg: P.Config, log: seq<Record>, c: Consumer, i: nat, offset: nat)
    requires c.pos <= i || c.committed <= i || (offset in c.pending && offset <= i)
    ensures var v := Run(cfg, log, c, Rewind(log, c, i, offset)); v.pos <= i && v.db == c.db
  {
    if c.pos > i {
      if c.committed <= i {
        assert [Restart][..0] == [];
      } else {
        TwoMore(cfg, log, c, [], Lands(offset), Restart);
        assert [] + ([Lands(offset)] + [Restart]) == [Lands(offset)] + [Restart];
      }
    }
  }

  lemma Recovered(cfg: P.Config, log: seq<Record>, c: Consumer, i: nat, offset: nat) returns (events: seq<Event>)
    requires IsTask(log, i) && log[i].t.batch in c.db.batches
    requires c.pos <= i || c.committed <= i || (offset in c.pending && offset <= i)
    ensures HasRowAt(log, Run(cfg, log, c, events).db, i)
  {
    hide Next;
    var back := Rewind(log, c, i, offset);
    Rewound(cfg, log, c, i, offset);
    var v := Run(cfg, log, c, back);
    Skimmed(cfg, log, v, i);
    var there := Run(cfg, log, v, Reads(SkimTo(v, i)));
    NextEffect(cfg, log, there, Read(SKIP_HANDLER));
    events := back + (Reads(SkimTo(v, i)) + [Read(SKIP_HANDLER)]);
    RunConcat(cfg, log, c, back, Reads(SkimTo(v, i)) + [Read(SKIP_HANDLER)]);
    RunConcat(cfg, log, v, Reads(SkimTo(v, i)), [Read(SKIP_HANDLER)]);
    assert [Read(SKIP_HANDLER)][..0] == [];
  }

  /** A task whose batch lives is lost for good, so that no continuation of the run gives it a row, exactly if its
      row is missing and the position, the committed offset and every commit under way are past it. */
  lemma {:induction false} LostExactly(cfg: P.Config, log: seq<Record>, c: Consumer, i: nat)
    requires IsTask(log, i) && LastCopy(log, i) && log[i].t.batch in c.db.batches
    ensures (forall events: seq<Event> :: !HasRowAt(log, Run(cfg, log, c, events).db, i)) <==> Skipped(log, c, i)
  {
    hide Next;
    hide LastCopy;
    if Skipped(log, c, i) {
      forall events: seq<Event> ensures !HasRowAt(log, Run(cfg, log, c, events).db, i) {
        SkippedThroughout(cfg, log, c, i, events);
      }
    } else if HasRowAt(log, c.db, i) {
      var none: seq<Event> := [];
      assert Run(cfg, log, c, none) == c;
      assert HasRowAt(log, Run(cfg, log, c, none).db, i);
    } else {
      var offset := if offset :| offset in c.pending && offset <= i then offset else 0;
      var events := Recovered(cfg, log, c, i, offset);
    }
  }

  // ---- what this does to batches ----

  /** Counters, indexes and statuses are in order, and the log's tasks are records of their batches. */
  ghost predicate TablesOk(log: seq<Record>, db: Db) {
    && CountersOk(db.batches, db.results) && I.IndexesOk(db.results, db.batches) && I.StatusesOk(db.batches, db.results, {})
    && forall j | 0 <= j < |log| && log[j].RawTask? && log[j].t.batch in db.batches :: log[j].t.index < db.batches[log[j].t.batch].total
  }

  /** The raw-task topic as a log of messages. */
  function LogOf(raw: seq<P.Task>): seq<Record> {
    seq(|raw|, i requires 0 <= i < |raw| => RawTask(raw[i]))
  }

  /** In every reachable world without an overruled batch the raw-task topic and the tables are in order. */
  lemma {:induction false} ReachableInOrder(cfg: P.Config, actions: seq<P.Action>)
    requires R.ConfigOk(cfg) && P.Run(cfg, P.INITIAL, actions).overruled == {}
    ensures var w := P.Run(cfg, P.INITIAL, actions); TablesOk(LogOf(w.raw), w.db)
  {
    R.Reachable(cfg, actions);
    WorldInOrder(cfg, P.Run(cfg, P.INITIAL, actions));
  }

  lemma WorldInOrder(cfg: P.Config, w: P.World)
    requires I.Inv(cfg, w) && w.overruled == {}
    ensures TablesOk(LogOf(w.raw), w.db)
  {
    forall j | 0 <= j < |w.raw| && w.raw[j].batch in w.db.batches
      ensures w.raw[j].index < w.db.batches[w.raw[j].batch].total
    {
      assert I.TaskOk(w.uploads, w.raw[j]);
    }
  }

  /** Persisting a row of the log keeps the tables in order; a batch that stays short of a row keeps its status. */
  lemma PersistInOrder(db: Db, key: RowKey, row: Row, now: int)
    requires CountersOk(db.batches, db.results) && I.IndexesOk(db.results, db.batches) && I.StatusesOk(db.batches, db.results, {})
    requires key !in db.results && key.batch in db.batches && key.index < db.batches[key.batch].total
    ensures PersistRow(db, key, row, now).Success?
    ensures var after := PersistRow(db, key, row, now).value;
            && CountersOk(after.batches, after.results) && I.IndexesOk(after.results, after.batches)
            && I.StatusesOk(after.batches, after.results, {}) && I.BatchesKept(db.batches, after.batches)
            && after.batches.Keys == db.batches.Keys
  {
    hide RowsOf;
    hide ErrorsOf;
    hide I.StatusOk;
    PersistRowShape(db, key, row, now);
    PersistKeepsCounters(db, key, row, now);
    R.RoomForRow(db, key);
    R.PersistStatuses(db, {}, key, row, now);
    assert P.Reopened(db, PersistRow(db, key, row, now).value, key, {}) == {};
  }

  lemma HandleInOrder(cfg: P.Config, log: seq<Record>, c: Consumer, i: nat, o: Outcome)
    requires TablesOk(log, c.db) && IsTask(log, i)
    ensures var v := HandleTask(cfg, c, log[i].t, o); TablesOk(log, v.db) && I.BatchesKept(c.db.batches, v.db.batches)
  {
    hide Attempt;
    hide PersistRow;
    hide RowsOf;
    hide I.StatusOk;
    var a := Attempt(cfg, c.db, log[i].t, o);
    AttemptTouches(cfg, c.db, log[i].t, o);
    if !o.HandlerError? && KeyOf(a.1) !in c.db.results {
      PersistIsRow(a.0, a.1, o.now);
      if log[i].t.batch in c.db.batches {
        PersistInOrder(a.0, KeyOf(a.1), WorkerVerdict(a.1).row, o.now);
      }
    }
  }

  lemma PersistIsRow(db: Db, m: Message, now: int)
    requires KeyOf(m) !in db.results
    ensures Persist(db, m, now) == PersistRow(db, KeyOf(m), WorkerVerdict(m).row, now)
    ensures m.batch !in db.batches ==> Persist(db, m, now).Failure?
  {
  }

  lemma {:induction false} RunInOrder(cfg: P.Config, log: seq<Record>, c: Consumer, events: seq<Event>)
    requires TablesOk(log, c.db)
    ensures var v := Run(cfg, log, c, events);
            TablesOk(log, v.db) && I.BatchesKept(c.db.batches, v.db.batches) && v.db.batches.Keys == c.db.batches.Keys
  {
    if events != [] {
      hide TablesOk;
      hide HandleTask;
      var before, last := Run(cfg, log, c, events[..|events| - 1]), events[|events| - 1];
      RunInOrder(cfg, log, c, events[..|events| - 1]);
      NextEffect(cfg, log, before, last);
      if last.Read? && IsTask(log, before.pos) {
        HandleInOrder(cfg, log, before, before.pos, last.outcome);
      }
    }
  }

  /** The consumer has committed past some message for the row. */
  predicate CommittedPast(log: seq<Record>, c: Consumer, k: RowKey) {
    exists o :: 0 <= o < c.committed && IsTask(log, o) && P.RowOf(log[o].t) == k
  }

  /** Once the consumer has committed past all tasks of a batch, the batch is terminal, provided errors stop the process. */
  lemma {:induction false} CommittedBatchIsTerminal(cfg: P.Config, log: seq<Record>, db: Db, events: seq<Event>, b: BatchId)
    requires TablesOk(log, db) && ErrorsStop(cfg, log, Start(db), events)
    requires b in db.batches && db.batches[b].total > 0
    requires forall i: nat | i < db.batches[b].total :: CommittedPast(log, Run(cfg, log, Start(db), events), RowKey(b, i))
    ensures var after := Run(cfg, log, Start(db), events).db; b in after.batches && after.batches[b].status != Processing
  {
    hide Run;
    hide ErrorsStop;
    var c := Run(cfg, log, Start(db), events);
    RunInOrder(cfg, log, Start(db), events);
    forall i: nat | i < db.batches[b].total ensures RowKey(b, i) in c.db.results {
      assert CommittedPast(log, c, RowKey(b, i));
      var o :| 0 <= o < c.committed && IsTask(log, o) && P.RowOf(log[o].t) == RowKey(b, i);
      AtLeastOnce(cfg, log, db, events, o);
    }
    FullIsTerminal(c.db, b);
  }

  lemma FullIsTerminal(db: Db, b: BatchId)
    requires CountersOk(db.batches, db.results) && I.IndexesOk(db.results, db.batches) && I.StatusesOk(db.batches, db.results, {})
    requires b in db.batches && db.batches[b].total > 0 && B.AllIn(db, b)
    ensures db.batches[b].status != Processing
  {
    B.FullMeansAllIn(db, b);
    assert I.StatusOk(db.batches[b], db.results, {}, b);
  }

  /** The batch of a skipped task stays processing, whatever happens later. */
  lemma {:induction false} SkippedForGood(cfg: P.Config, log: seq<Record>, c: Consumer, i: nat, events: seq<Event>)
    requires TablesOk(log, c.db) && Skipped(log, c, i) && LastCopy(log, i) && log[i].t.batch in c.db.batches
    ensures var v, b := Run(cfg, log, c, events), log[i].t.batch;
            Skipped(log, v, i) && b in v.db.batches && v.db.batches[b].status == Processing
  {
    hide Run;
    SkippedThroughout(cfg, log, c, i, events);
    RunInOrder(cfg, log, c, events);
    MissingIsProcessing(Run(cfg, log, c, events).db, P.RowOf(log[i].t));
  }

  lemma MissingIsProcessing(db: Db, k: RowKey)
    requires CountersOk(db.batches, db.results) && I.IndexesOk(db.results, db.batches) && I.StatusesOk(db.batches, db.results, {})
    requires k !in db.results && k.batch in db.batches && k.index < db.batches[k.batch].total
    ensures db.batches[k.batch].status == Processing
  {
    R.RoomForRow(db, k);
    assert I.StatusOk(db.batches[k.batch], db.results, {}, k.batch);
  }

  /** The run that does it: the handler of task `i` fails, messages are passed over up to one that can be committed,
      its commit lands. From then on the task is skipped and its batch stays processing. */
  lemma {:induction false} ErrorThenCommitSkips(cfg: P.Config, log: seq<Record>, db: Db, i: nat, j: nat, more: seq<Event>)
    requires TablesOk(log, db) && IsTask(log, i) && LastCopy(log, i) && !HasRowAt(log, db, i) && log[i].t.batch in db.batches
    requires i < j < |log| && Commitable(log, db, j) && forall k | 0 <= k < i :: !log[k].Malformed?
    ensures var c := Run(cfg, log, Start(db), SkipTo(Start(db), j) + more);
            && c.committed > i && !HasRowAt(log, c.db, i)
            && log[i].t.batch in c.db.batches && c.db.batches[log[i].t.batch].status == Processing
  {
    hide Run;
    hide TablesOk;
    hide SkipTo;
    SkippedTo(cfg, log, db, i, j);
    RunConcat(cfg, log, Start(db), SkipTo(Start(db), j), more);
    RunInOrder(cfg, log, Start(db), SkipTo(Start(db), j));
    var c := Run(cfg, log, Start(db), SkipTo(Start(db), j));
    assert Skipped(log, c, i);
    SkippedForGood(cfg, log, c, i, more);
  }
}
