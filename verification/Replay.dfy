/** One consumer of the raw-task log with crashes between any two statements, replays from the committed offset,
    commits that land late and duplicate messages: the tables end as one pure fold over the log. */
module Replay {
  import opened Wrappers
  import opened Text
  import opened Crypto
  import opened Canonical
  import opened Token
  import opened Tables
  import opened Protocol
  import R = RegistryRuns

  // ---- the fold ----

  datatype RowView = Accepted(hash: string) | Refused(text: string)

  /** Registered hashes and result rows, up to the token of an ok row, which depends on nonce and time. */
  datatype View = View(hashes: map<RegistryKey, string>, rows: map<RowKey, RowView>)

  predicate Taken(hashes: map<RegistryKey, string>, hash: string) {
    exists k :: k in hashes && hashes[k] == hash
  }

  /** What a worker needs from record and tables: a readable key of the university, and a number. */
  predicate Signable(cfg: Config, db: Db, t: Task) {
    t.vuz in db.keys && cfg.unseal(db.keys[t.vuz]).Some? && !Blank(t.student.number)
  }

  /** The first hash of a (university, number) wins. */
  function FoldHashes(cfg: Config, db: Db, hashes: map<RegistryKey, string>, t: Task): map<RegistryKey, string> {
    if !Signable(cfg, db, t) || TaskKey(t) in hashes || Taken(hashes, TaskHash(cfg, t)) then hashes
    else hashes[TaskKey(t) := TaskHash(cfg, t)]
  }

  /** Why a task that is not accepted is refused. */
  function Reason(cfg: Config, db: Db, hashes: map<RegistryKey, string>, t: Task): string {
    if t.vuz !in db.keys then NO_KEY
    else if Blank(t.student.number) then NO_NUMBER
    else if TaskKey(t) in hashes && hashes[TaskKey(t)] != TaskHash(cfg, t) then OTHER_HASH
    else if cfg.unseal(db.keys[t.vuz]).None? then UNREADABLE_KEY
    else NOT_INSERTED
  }

  /** A row is ok exactly if its hash is the registered one. */
  function Judge(cfg: Config, db: Db, hashes: map<RegistryKey, string>, t: Task): RowView {
    if Signable(cfg, db, t) && TaskKey(t) in hashes && hashes[TaskKey(t)] == TaskHash(cfg, t) then Accepted(TaskHash(cfg, t))
    else Refused(Reason(cfg, db, hashes, t))
  }

  /** The first occurrence of a row wins. */
  function FoldRows(cfg: Config, db: Db, hashes: map<RegistryKey, string>, rows: map<RowKey, RowView>, t: Task): map<RowKey, RowView> {
    if RowOf(t) in rows then rows else rows[RowOf(t) := Judge(cfg, db, hashes, t)]
  }

  function FoldTask(cfg: Config, db: Db, v: View, t: Task): View {
    var hashes := FoldHashes(cfg, db, v.hashes, t);
    View(hashes, FoldRows(cfg, db, hashes, v.rows, t))
  }

  function Fold(cfg: Config, db: Db, v: View, log: seq<Task>): View {
    if log == [] then v else FoldTask(cfg, db, Fold(cfg, db, v, log[..|log| - 1]), log[|log| - 1])
  }

  // ---- what the tables show ----

  function HashesOf(registry: Registry): map<RegistryKey, string> {
    map k | k in registry :: registry[k].hash
  }

  function ViewOfRow(row: Row): RowView {
    if row.status == Ok && row.hash.Some? then Accepted(row.hash.value)
    else Refused(if row.error.Some? then row.error.value else "")
  }

  function RowsView(results: Results): map<RowKey, RowView> {
    map k | k in results :: ViewOfRow(results[k])
  }

  function ViewOf(db: Db): View {
    View(HashesOf(db.registry), RowsView(db.results))
  }

  // ---- the consumer ----

  /** `pos`: the offset in hand; `committed`: where a restart resumes; `handled`: offsets below it may be
      committed, now or by a commit still under way; `done`: how far rows have been persisted. */
  datatype Consumer = Consumer(db: Db, pos: nat, stage: Option<Stage>, committed: nat, handled: nat, done: nat)

  datatype Event =
    | Advance(stamp: Stamp, now: int)   // fetch, the next statement, or publish
    | Committed(offset: nat)            // a commit reaches the broker
    | Restart                           // a crash between any two statements

  function AdvanceTask(cfg: Config, c: Consumer, t: Task, stamp: Stamp, now: int): Consumer
    requires c.stage.Some?
  {
    match c.stage.value
    case Fetched => c.(stage := Some(ReadKey(c.db, t)))
    case HasKey(sealed) => c.(stage := Some(LookUp(c.db, t, sealed)))
    case Looked(sealed, existing) =>
      if !ValidStamp(stamp) then c
      else
        var r := Conclude(cfg, c.db, t, sealed, existing, stamp);
        c.(db := r.0, stage := Some(Ready(r.1)))
    case Ready(m) =>
      var r := Persist(c.db, m, now);
      if r.Failure? then c.(stage := None, pos := c.committed)
      else c.(db := r.value, stage := Some(Stage.Persisted(m)), done := if c.pos == c.done then c.done + 1 else c.done)
    case Persisted(m) => c.(stage := None, pos := c.pos + 1, handled := if c.handled < c.pos + 1 then c.pos + 1 else c.handled)
  }

  function Next(cfg: Config, log: seq<Task>, c: Consumer, e: Event): Consumer {
    match e
    case Advance(stamp, now) =>
      if c.pos >= |log| then c
      else if c.stage.None? then c.(stage := Some(Fetched))
      else AdvanceTask(cfg, c, log[c.pos], stamp, now)
    case Committed(offset) => if offset <= c.handled then c.(committed := offset) else c
    case Restart => c.(stage := None, pos := c.committed)
  }

  function Run(cfg: Config, log: seq<Task>, c: Consumer, events: seq<Event>): Consumer {
    if events == [] then c else Next(cfg, log, Run(cfg, log, c, events[..|events| - 1]), events[|events| - 1])
  }

  function Start(db: Db): Consumer {
    Consumer(db, 0, None, 0, 0, 0)
  }

  // ---- lemmas about the fold ----

  ghost predicate Grows(h: map<RegistryKey, string>, more: map<RegistryKey, string>) {
    forall k | k in h :: k in more && more[k] == h[k]
  }

  /** The task's hash is settled: registered, or refused for good. */
  predicate Settled(cfg: Config, db: Db, hashes: map<RegistryKey, string>, t: Task) {
    Signable(cfg, db, t) ==> TaskKey(t) in hashes || Taken(hashes, TaskHash(cfg, t))
  }

  lemma SettlesAndGrows(cfg: Config, db: Db, hashes: map<RegistryKey, string>, t: Task)
    ensures var more := FoldHashes(cfg, db, hashes, t); Grows(hashes, more) && Settled(cfg, db, more, t)
    ensures FoldHashes(cfg, db, FoldHashes(cfg, db, hashes, t), t) == FoldHashes(cfg, db, hashes, t)
  {
    var more := FoldHashes(cfg, db, hashes, t);
    if more != hashes {
      assert TaskKey(t) in more && more[TaskKey(t)] == TaskHash(cfg, t);
    }
  }

  lemma SettledStays(cfg: Config, db: Db, hashes: map<RegistryKey, string>, more: map<RegistryKey, string>, t: Task)
    requires Settled(cfg, db, hashes, t) && Grows(hashes, more)
    ensures Settled(cfg, db, more, t)
  {
    if Signable(cfg, db, t) && TaskKey(t) !in hashes {
      var k :| k in hashes && hashes[k] == TaskHash(cfg, t);
      assert k in more && more[k] == TaskHash(cfg, t);
    }
  }

  function Prefix(cfg: Config, db: Db, log: seq<Task>, n: nat): View
    requires n <= |log|
  {
    Fold(cfg, db, ViewOf(db), log[..n])
  }

  lemma PrefixStep(cfg: Config, db: Db, log: seq<Task>, n: nat)
    requires n < |log|
    ensures Prefix(cfg, db, log, n + 1) == FoldTask(cfg, db, Prefix(cfg, db, log, n), log[n])
  {
    assert log[..n + 1][..n] == log[..n] && log[..n + 1][n] == log[n];
  }

  /** Every task of a folded prefix has its row and is settled. */
  lemma {:induction false} PrefixSettles(cfg: Config, db: Db, log: seq<Task>, n: nat, i: nat)
    requires i < n <= |log|
    ensures RowOf(log[i]) in Prefix(cfg, db, log, n).rows && Settled(cfg, db, Prefix(cfg, db, log, n).hashes, log[i])
  {
    PrefixStep(cfg, db, log, n - 1);
    var before := Prefix(cfg, db, log, n - 1);
    SettlesAndGrows(cfg, db, before.hashes, log[n - 1]);
    if i < n - 1 {
      PrefixSettles(cfg, db, log, n - 1, i);
      SettledStays(cfg, db, before.hashes, Prefix(cfg, db, log, n).hashes, log[i]);
    }
  }

  // ---- the invariant ----

  /** What handling never touches. */
  predicate SameFixed(start: Db, db: Db) {
    && db.keys == start.keys && db.universities == start.universities && db.batches.Keys == start.batches.Keys
    && db.keys.Keys <= db.universities.Keys
  }

  predicate HashesAhead(cfg: Config, start: Db, log: seq<Task>, n: nat, hashes: map<RegistryKey, string>)
    requires n <= |log|
  {
    n < |log| && hashes == Prefix(cfg, start, log, n + 1).hashes
  }

  /** All rows of the first `done` tasks are in, and of the next task at most the hash. */
  predicate TablesOk(cfg: Config, start: Db, log: seq<Task>, c: Consumer) {
    && c.done <= |log| && SameFixed(start, c.db)
    && RowsView(c.db.results) == Prefix(cfg, start, log, c.done).rows
    && (HashesOf(c.db.registry) == Prefix(cfg, start, log, c.done).hashes
        || HashesAhead(cfg, start, log, c.done, HashesOf(c.db.registry)))
  }

  function Existing(registry: Registry, t: Task): Option<string> {
    if TaskKey(t) in registry then Some(registry[TaskKey(t)].hash) else None
  }

  predicate StageOk(cfg: Config, start: Db, log: seq<Task>, c: Consumer)
    requires c.done <= |log| && c.pos < |log| && c.stage.Some?
  {
    var t := log[c.pos];
    match c.stage.value
    case Fetched => c.pos <= c.done
    case HasKey(sealed) => c.pos <= c.done && t.vuz in c.db.keys && sealed == c.db.keys[t.vuz]
    case Looked(sealed, existing) =>
      && c.pos <= c.done && t.vuz in c.db.keys && sealed == c.db.keys[t.vuz]
      && !Blank(t.student.number) && existing == Existing(c.db.registry, t)
    case Ready(m) =>
      && c.pos <= c.done && KeyOf(m) == RowOf(t)
      && (c.pos == c.done ==>
            HashesAhead(cfg, start, log, c.done, HashesOf(c.db.registry))
            && ViewOfRow(WorkerVerdict(m).row) == Judge(cfg, start, HashesOf(c.db.registry), t))
    case Persisted(m) => c.pos < c.done
  }

  predicate Inv(cfg: Config, start: Db, log: seq<Task>, c: Consumer) {
    && TablesOk(cfg, start, log, c)
    && c.committed <= c.handled <= c.done && c.pos <= c.done
    && (c.stage.Some? ==> c.pos < |log| && StageOk(cfg, start, log, c))
  }

  /** The batches of the log exist and, by its foreign key, a signing key has its university. */
  predicate Consistent(db: Db, log: seq<Task>) {
    db.keys.Keys <= db.universities.Keys && forall i | 0 <= i < |log| :: log[i].batch in db.batches
  }

  // ---- one statement ----

  lemma HashesAfterInsert(registry: Registry, k: RegistryKey, e: Entry)
    ensures HashesOf(registry[k := e]) == HashesOf(registry)[k := e.hash]
  {
  }

  lemma TakenAgrees(registry: Registry, hash: string)
    ensures HashTaken(registry, hash) <==> Taken(HashesOf(registry), hash)
  {
    if HashTaken(registry, hash) {
      var k :| k in registry && registry[k].hash == hash;
      assert HashesOf(registry)[k] == hash;
    }
  }

  /** `process_inner` does to the registry what the fold does, and its result is the fold's judgement. */
  lemma ConcludeFolds(cfg: Config, start: Db, db: Db, t: Task, stamp: Stamp)
    requires SameFixed(start, db) && t.vuz in db.keys && !Blank(t.student.number)
    ensures var r := Conclude(cfg, db, t, db.keys[t.vuz], Existing(db.registry, t), stamp);
            && r.0 == db.(registry := r.0.registry)
            && HashesOf(r.0.registry) == FoldHashes(cfg, start, HashesOf(db.registry), t)
            && KeyOf(r.1) == RowOf(t)
            && ViewOfRow(WorkerVerdict(r.1).row) == Judge(cfg, start, HashesOf(r.0.registry), t)
  {
    TakenAgrees(db.registry, TaskHash(cfg, t));
    HashesAfterInsert(db.registry, TaskKey(t), Entry(TaskHash(cfg, t), false, None));
  }

  /** The hashes are where they should be once the task's own step on them is taken. */
  lemma HashesFold(cfg: Config, start: Db, log: seq<Task>, c: Consumer)
    requires TablesOk(cfg, start, log, c) && c.pos <= c.done && c.pos < |log|
    ensures var hashes := FoldHashes(cfg, start, HashesOf(c.db.registry), log[c.pos]);
            if c.pos == c.done then HashesAhead(cfg, start, log, c.done, hashes) else hashes == HashesOf(c.db.registry)
  {
    var n := c.done;
    var now := HashesOf(c.db.registry);
    if n < |log| {
      PrefixStep(cfg, start, log, n);
      SettlesAndGrows(cfg, start, Prefix(cfg, start, log, n).hashes, log[n]);
    }
    if c.pos < n {
      PrefixSettles(cfg, start, log, n, c.pos);
      if now != Prefix(cfg, start, log, n).hashes {
        SettledStays(cfg, start, Prefix(cfg, start, log, n).hashes, now, log[c.pos]);
      }
    }
  }

  lemma NotSignableKeeps(cfg: Config, start: Db, log: seq<Task>, c: Consumer)
    requires TablesOk(cfg, start, log, c) && c.pos == c.done < |log| && !Signable(cfg, start, log[c.pos])
    ensures HashesAhead(cfg, start, log, c.done, HashesOf(c.db.registry))
  {
    PrefixStep(cfg, start, log, c.done);
  }

  lemma RowsAfterInsert(results: Results, k: RowKey, row: Row)
    ensures RowsView(results[k := row]) == RowsView(results)[k := ViewOfRow(row)]
  {
  }

  lemma PersistFolds(cfg: Config, start: Db, log: seq<Task>, c: Consumer, stamp: Stamp, now: int)
    requires Inv(cfg, start, log, c) && Consistent(start, log) && c.stage.Some? && c.stage.value.Ready?
    ensures Inv(cfg, start, log, AdvanceTask(cfg, c, log[c.pos], stamp, now))
  {
    var m, t, n := c.stage.value.m, log[c.pos], c.done;
    var row := WorkerVerdict(m).row;
    if KeyOf(m) !in c.db.results {
      PersistRowShape(c.db, KeyOf(m), row, now);
      RowsAfterInsert(c.db.results, KeyOf(m), row);
    }
    assert RowsView(c.db.results).Keys == c.db.results.Keys;
    if c.pos == n {
      PrefixStep(cfg, start, log, n);
    } else {
      PrefixSettles(cfg, start, log, n, c.pos);
    }
  }

  lemma AdvanceKeeps(cfg: Config, start: Db, log: seq<Task>, c: Consumer, stamp: Stamp, now: int)
    requires Inv(cfg, start, log, c) && Consistent(start, log) && c.stage.Some?
    ensures Inv(cfg, start, log, AdvanceTask(cfg, c, log[c.pos], stamp, now))
  {
    var t := log[c.pos];
    match c.stage.value
    case Fetched =>
      if t.vuz !in c.db.keys && c.pos == c.done {
        NotSignableKeeps(cfg, start, log, c);
      }
    case HasKey(sealed) =>
      if Blank(t.student.number) && c.pos == c.done {
        NotSignableKeeps(cfg, start, log, c);
      }
    case Looked(sealed, existing) =>
      if ValidStamp(stamp) {
        ConcludeFolds(cfg, start, c.db, t, stamp);
        HashesFold(cfg, start, log, c);
      }
    case Ready(m) => PersistFolds(cfg, start, log, c, stamp, now);
    case Persisted(m) =>
  }

  lemma NextKeeps(cfg: Config, start: Db, log: seq<Task>, c: Consumer, e: Event)
    requires Inv(cfg, start, log, c) && Consistent(start, log)
    ensures Inv(cfg, start, log, Next(cfg, log, c, e))
  {
    if e.Advance? && c.pos < |log| && c.stage.Some? {
      AdvanceKeeps(cfg, start, log, c, e.stamp, e.now);
    }
  }

  lemma {:induction false} RunKeeps(cfg: Config, start: Db, log: seq<Task>, events: seq<Event>)
    requires Consistent(start, log)
    ensures Inv(cfg, start, log, Run(cfg, log, Start(start), events))
  {
    if events == [] {
      assert log[..0] == [];
    } else {
      RunKeeps(cfg, start, log, events[..|events| - 1]);
      NextKeeps(cfg, start, log, Run(cfg, log, Start(start), events[..|events| - 1]), events[|events| - 1]);
    }
  }

  /** Crash and redelivery equivalence: every run that has drained the log, whatever its crashes, replays,
      late commits and duplicate messages, leaves the registry and the result rows of one pure fold over it. */
  lemma {:induction false} DrainedRunIsTheFold(cfg: Config, start: Db, log: seq<Task>, events: seq<Event>)
    requires Consistent(start, log)
    requires var c := Run(cfg, log, Start(start), events); c.done == |log| || c.committed == |log| || c.pos == |log|
    ensures ViewOf(Run(cfg, log, Start(start), events).db) == Fold(cfg, start, ViewOf(start), log)
  {
    RunKeeps(cfg, start, log, events);
    assert log[..|log|] == log;
  }

  // ---- what the fold is ----

  /** Records of different (university, number) in the log have different hashes, and none has that of another
      number registered before. */
  ghost predicate HashesApart(cfg: Config, db: Db, base: map<RegistryKey, string>, log: seq<Task>) {
    && (forall i, j | 0 <= i < |log| && 0 <= j < |log| && Signable(cfg, db, log[i]) && Signable(cfg, db, log[j])
                      && TaskHash(cfg, log[i]) == TaskHash(cfg, log[j]) :: TaskKey(log[i]) == TaskKey(log[j]))
    && (forall i, k | 0 <= i < |log| && Signable(cfg, db, log[i]) && k in base && base[k] == TaskHash(cfg, log[i]) :: TaskKey(log[i]) == k)
  }

  predicate FirstOfKey(cfg: Config, db: Db, log: seq<Task>, i: nat)
    requires i < |log|
  {
    Signable(cfg, db, log[i]) && forall j | 0 <= j < i && Signable(cfg, db, log[j]) :: TaskKey(log[j]) != TaskKey(log[i])
  }

  predicate FirstOfRow(log: seq<Task>, i: nat)
    requires i < |log|
  {
    forall j | 0 <= j < i :: RowOf(log[j]) != RowOf(log[i])
  }

  /** Registered are what was before, unchanged, and the numbers of signable tasks, each new one with the hash of its
      first task. */
  ghost predicate FirstHashWins(cfg: Config, db: Db, base: map<RegistryKey, string>, log: seq<Task>, hashes: map<RegistryKey, string>) {
    && Grows(base, hashes)
    && (forall i | 0 <= i < |log| && Signable(cfg, db, log[i]) :: TaskKey(log[i]) in hashes)
    && (forall i | 0 <= i < |log| && FirstOfKey(cfg, db, log, i) && TaskKey(log[i]) !in base ::
          TaskKey(log[i]) in hashes && hashes[TaskKey(log[i])] == TaskHash(cfg, log[i]))
    && (forall k | k in hashes && k !in base :: exists i :: 0 <= i < |log| && FirstOfKey(cfg, db, log, i) && TaskKey(log[i]) == k)
  }

  /** Rows that were there stay; each new row is that of its first task, and ok exactly if that task's hash is the
      registered one. */
  ghost predicate FirstRowWins(cfg: Config, db: Db, base: View, log: seq<Task>, v: View) {
    && (forall k | k in base.rows :: k in v.rows && v.rows[k] == base.rows[k])
    && (forall i | 0 <= i < |log| && FirstOfRow(log, i) && RowOf(log[i]) !in base.rows ::
          RowOf(log[i]) in v.rows && v.rows[RowOf(log[i])] == Judge(cfg, db, v.hashes, log[i]))
    && (forall k | k in v.rows && k !in base.rows :: exists i :: 0 <= i < |log| && FirstOfRow(log, i) && RowOf(log[i]) == k)
  }

  lemma FirstsOfPrefix(cfg: Config, db: Db, log: seq<Task>)
    requires log != []
    ensures var before := log[..|log| - 1];
            forall i | 0 <= i < |before| :: (FirstOfKey(cfg, db, before, i) <==> FirstOfKey(cfg, db, log, i))
                                            && (FirstOfRow(before, i) <==> FirstOfRow(log, i))
  {
  }

  lemma TakenMeansRegistered(cfg: Config, db: Db, base: map<RegistryKey, string>, log: seq<Task>, hashes: map<RegistryKey, string>)
    requires log != [] && HashesApart(cfg, db, base, log) && FirstHashWins(cfg, db, base, log[..|log| - 1], hashes)
    ensures var t := log[|log| - 1]; Signable(cfg, db, t) && Taken(hashes, TaskHash(cfg, t)) ==> TaskKey(t) in hashes
  {
    var before, t := log[..|log| - 1], log[|log| - 1];
    if Signable(cfg, db, t) && Taken(hashes, TaskHash(cfg, t)) {
      var k :| k in hashes && hashes[k] == TaskHash(cfg, t);
      if k !in base {
        var i :| 0 <= i < |before| && FirstOfKey(cfg, db, before, i) && TaskKey(before[i]) == k;
        assert before[i] == log[i];
      }
    }
  }

  lemma HashesStep(cfg: Config, db: Db, base: map<RegistryKey, string>, log: seq<Task>, hashes: map<RegistryKey, string>)
    requires log != [] && HashesApart(cfg, db, base, log) && FirstHashWins(cfg, db, base, log[..|log| - 1], hashes)
    ensures FirstHashWins(cfg, db, base, log, FoldHashes(cfg, db, hashes, log[|log| - 1]))
  {
    hide HashesApart;
    hide Signable;
    hide Taken;
    var before := log[..|log| - 1];
    var more := FoldHashes(cfg, db, hashes, log[|log| - 1]);
    TakenMeansRegistered(cfg, db, base, log, hashes);
    forall i | 0 <= i < |log| && FirstOfKey(cfg, db, log, i) && TaskKey(log[i]) !in base
      ensures TaskKey(log[i]) in more && more[TaskKey(log[i])] == TaskHash(cfg, log[i])
    {
      FirstKeepsHash(cfg, db, base, log, hashes, i);
    }
    forall k | k in more && k !in base ensures exists i :: 0 <= i < |log| && FirstOfKey(cfg, db, log, i) && TaskKey(log[i]) == k {
      HashHasFirst(cfg, db, base, log, hashes, k);
    }
    forall i | 0 <= i < |log| && Signable(cfg, db, log[i]) ensures TaskKey(log[i]) in more {
      if i < |before| {
        assert log[i] == before[i];
      }
    }
  }

  lemma FirstKeepsHash(cfg: Config, db: Db, base: map<RegistryKey, string>, log: seq<Task>, hashes: map<RegistryKey, string>, i: nat)
    requires log != [] && FirstHashWins(cfg, db, base, log[..|log| - 1], hashes)
    requires i < |log| && FirstOfKey(cfg, db, log, i) && TaskKey(log[i]) !in base
    requires var t := log[|log| - 1]; Signable(cfg, db, t) && Taken(hashes, TaskHash(cfg, t)) ==> TaskKey(t) in hashes
    ensures var more := FoldHashes(cfg, db, hashes, log[|log| - 1]);
            TaskKey(log[i]) in more && more[TaskKey(log[i])] == TaskHash(cfg, log[i])
  {
    var before := log[..|log| - 1];
    FirstsOfPrefix(cfg, db, log);
    if i < |before| {
      assert log[i] == before[i] && FirstOfKey(cfg, db, before, i);
    } else {
      FirstIsNew(cfg, db, base, log, hashes);
    }
  }

  lemma HashHasFirst(cfg: Config, db: Db, base: map<RegistryKey, string>, log: seq<Task>, hashes: map<RegistryKey, string>, k: RegistryKey)
    requires log != [] && FirstHashWins(cfg, db, base, log[..|log| - 1], hashes)
    requires k in FoldHashes(cfg, db, hashes, log[|log| - 1]) && k !in base
    ensures exists i :: 0 <= i < |log| && FirstOfKey(cfg, db, log, i) && TaskKey(log[i]) == k
  {
    var before := log[..|log| - 1];
    FirstsOfPrefix(cfg, db, log);
    if k in hashes {
      var i :| 0 <= i < |before| && FirstOfKey(cfg, db, before, i) && TaskKey(before[i]) == k;
      assert FirstOfKey(cfg, db, log, i);
    } else {
      LastIsFirst(cfg, db, base, log, hashes);
    }
  }

  lemma FirstIsNew(cfg: Config, db: Db, base: map<RegistryKey, string>, log: seq<Task>, hashes: map<RegistryKey, string>)
    requires log != [] && FirstHashWins(cfg, db, base, log[..|log| - 1], hashes) && FirstOfKey(cfg, db, log, |log| - 1)
    requires TaskKey(log[|log| - 1]) !in base
    ensures TaskKey(log[|log| - 1]) !in hashes
  {
    var before, k := log[..|log| - 1], TaskKey(log[|log| - 1]);
    forall i | 0 <= i < |before| ensures !(FirstOfKey(cfg, db, before, i) && TaskKey(before[i]) == k) {
      assert log[i] == before[i];
    }
  }

  lemma LastIsFirst(cfg: Config, db: Db, base: map<RegistryKey, string>, log: seq<Task>, hashes: map<RegistryKey, string>)
    requires log != [] && FirstHashWins(cfg, db, base, log[..|log| - 1], hashes)
    requires Signable(cfg, db, log[|log| - 1]) && TaskKey(log[|log| - 1]) !in hashes
    ensures FirstOfKey(cfg, db, log, |log| - 1)
  {
    var before := log[..|log| - 1];
    forall j | 0 <= j < |before| && Signable(cfg, db, log[j]) ensures TaskKey(log[j]) != TaskKey(log[|log| - 1]) {
      assert log[j] == before[j];
    }
  }

  /** The worker can read the university's key. */
  predicate Readable(cfg: Config, db: Db, vuz: Uuid) {
    vuz in db.keys && cfg.unseal(db.keys[vuz]).Some?
  }

  lemma NewlyRegisteredAreReadable(cfg: Config, db: Db, base: map<RegistryKey, string>, log: seq<Task>,
                                   hashes: map<RegistryKey, string>, k: RegistryKey)
    requires FirstHashWins(cfg, db, base, log, hashes) && k in hashes && k !in base
    ensures Readable(cfg, db, k.vuz)
  {
    var i :| 0 <= i < |log| && FirstOfKey(cfg, db, log, i) && TaskKey(log[i]) == k;
  }

  /** A judgement does not change once the task's number is registered, or its university's key found unreadable. */
  lemma JudgeStays(cfg: Config, db: Db, hashes: map<RegistryKey, string>, more: map<RegistryKey, string>, t: Task)
    requires Grows(hashes, more) && (Signable(cfg, db, t) ==> TaskKey(t) in hashes)
    requires TaskKey(t) in more ==> TaskKey(t) in hashes || Readable(cfg, db, t.vuz)
    ensures Judge(cfg, db, more, t) == Judge(cfg, db, hashes, t)
  {
  }

  lemma NewRowIsFirst(base: map<RowKey, RowView>, log: seq<Task>, rows: map<RowKey, RowView>)
    requires log != [] && RowOf(log[|log| - 1]) !in base
    requires var before := log[..|log| - 1];
             && (forall i | 0 <= i < |before| && FirstOfRow(before, i) && RowOf(before[i]) !in base :: RowOf(before[i]) in rows)
             && (forall k | k in rows && k !in base :: exists i :: 0 <= i < |before| && FirstOfRow(before, i) && RowOf(before[i]) == k)
    ensures FirstOfRow(log, |log| - 1) <==> RowOf(log[|log| - 1]) !in rows
  {
    var before, k := log[..|log| - 1], RowOf(log[|log| - 1]);
    if k in rows {
      var i :| 0 <= i < |before| && FirstOfRow(before, i) && RowOf(before[i]) == k;
      assert log[i] == before[i];
    } else {
      forall j | 0 <= j < |before| ensures RowOf(log[j]) != k {
        FirstExists(before, j);
      }
    }
  }

  /** One more task does not change the judgement of an earlier one. */
  lemma JudgementStays(cfg: Config, db: Db, base: map<RegistryKey, string>, log: seq<Task>, hashes: map<RegistryKey, string>, i: nat)
    requires log != [] && i < |log| - 1 && FirstHashWins(cfg, db, base, log[..|log| - 1], hashes)
    requires FirstHashWins(cfg, db, base, log, FoldHashes(cfg, db, hashes, log[|log| - 1]))
    ensures Judge(cfg, db, FoldHashes(cfg, db, hashes, log[|log| - 1]), log[i]) == Judge(cfg, db, hashes, log[i])
  {
    hide Judge;
    hide Signable;
    hide FoldHashes;
    hide Readable;
    hide FirstOfKey;
    var before, t := log[..|log| - 1], log[|log| - 1];
    var more := FoldHashes(cfg, db, hashes, t);
    assert before[i] == log[i];
    SettlesAndGrows(cfg, db, hashes, t);
    if TaskKey(log[i]) in more && TaskKey(log[i]) !in base {
      NewlyRegisteredAreReadable(cfg, db, base, log, more, TaskKey(log[i]));
    }
    JudgeStays(cfg, db, hashes, more, log[i]);
  }

  lemma FirstKeepsRow(cfg: Config, db: Db, base: View, log: seq<Task>, v: View, i: nat)
    requires log != [] && i < |log| && FirstOfRow(log, i) && RowOf(log[i]) !in base.rows
    requires FirstHashWins(cfg, db, base.hashes, log[..|log| - 1], v.hashes) && FirstRowWins(cfg, db, base, log[..|log| - 1], v)
    requires FirstHashWins(cfg, db, base.hashes, log, FoldHashes(cfg, db, v.hashes, log[|log| - 1]))
    ensures var w := FoldTask(cfg, db, v, log[|log| - 1]);
            RowOf(log[i]) in w.rows && w.rows[RowOf(log[i])] == Judge(cfg, db, w.hashes, log[i])
  {
    hide Judge;
    hide FoldHashes;
    hide FirstHashWins;
    var before := log[..|log| - 1];
    if i < |before| {
      assert log[i] == before[i] && FirstOfRow(before, i);
      JudgementStays(cfg, db, base.hashes, log, v.hashes, i);
    } else {
      NewRowIsFirst(base.rows, log, v.rows);
    }
  }

  lemma RowHasFirst(cfg: Config, db: Db, base: View, log: seq<Task>, v: View, k: RowKey)
    requires log != [] && FirstRowWins(cfg, db, base, log[..|log| - 1], v)
    requires k in FoldTask(cfg, db, v, log[|log| - 1]).rows && k !in base.rows
    ensures exists i :: 0 <= i < |log| && FirstOfRow(log, i) && RowOf(log[i]) == k
  {
    hide Judge;
    hide Signable;
    hide FoldHashes;
    var before := log[..|log| - 1];
    if k in v.rows {
      var i :| 0 <= i < |before| && FirstOfRow(before, i) && RowOf(before[i]) == k;
      assert log[i] == before[i] && FirstOfRow(log, i);
    } else {
      NewRowIsFirst(base.rows, log, v.rows);
      assert FirstOfRow(log, |before|);
    }
  }

  lemma RowsStay(cfg: Config, db: Db, v: View, t: Task)
    ensures forall k | k in v.rows :: k in FoldTask(cfg, db, v, t).rows && FoldTask(cfg, db, v, t).rows[k] == v.rows[k]
  {
    hide Judge;
    hide FoldHashes;
  }

  lemma RowsStep(cfg: Config, db: Db, base: View, log: seq<Task>, v: View)
    requires log != []
    requires FirstHashWins(cfg, db, base.hashes, log[..|log| - 1], v.hashes) && FirstRowWins(cfg, db, base, log[..|log| - 1], v)
    requires FirstHashWins(cfg, db, base.hashes, log, FoldHashes(cfg, db, v.hashes, log[|log| - 1]))
    ensures FirstRowWins(cfg, db, base, log, FoldTask(cfg, db, v, log[|log| - 1]))
  {
    hide Judge;
    hide Signable;
    hide FoldTask;
    hide FirstHashWins;
    hide FirstOfRow;
    var w := FoldTask(cfg, db, v, log[|log| - 1]);
    RowsStay(cfg, db, v, log[|log| - 1]);
    forall i | 0 <= i < |log| && FirstOfRow(log, i) && RowOf(log[i]) !in base.rows
      ensures RowOf(log[i]) in w.rows && w.rows[RowOf(log[i])] == Judge(cfg, db, w.hashes, log[i])
    {
      FirstKeepsRow(cfg, db, base, log, v, i);
    }
    forall k | k in w.rows && k !in base.rows ensures exists i :: 0 <= i < |log| && FirstOfRow(log, i) && RowOf(log[i]) == k {
      RowHasFirst(cfg, db, base, log, v, k);
    }
  }

  lemma {:induction false} FirstExists(log: seq<Task>, j: nat)
    requires j < |log|
    ensures exists i :: 0 <= i <= j && FirstOfRow(log, i) && RowOf(log[i]) == RowOf(log[j])
  {
    if i :| 0 <= i < j && RowOf(log[i]) == RowOf(log[j]) {
      FirstExists(log, i);
    } else {
      assert FirstOfRow(log, j);
    }
  }

  /** The fold in closed form, from any tables: what was registered or stored before stays, after it the first hash of
      a (university, number) wins, the first task of a row wins, and a new row is ok exactly when its hash equals the
      registered one. */
  lemma {:induction false} FoldIsFirstWins(cfg: Config, db: Db, base: View, log: seq<Task>)
    requires HashesApart(cfg, db, base.hashes, log)
    ensures var v := Fold(cfg, db, base, log); FirstHashWins(cfg, db, base.hashes, log, v.hashes) && FirstRowWins(cfg, db, base, log, v)
  {
    if log != [] {
      FoldIsFirstWins(cfg, db, base, log[..|log| - 1]);
      HashesStep(cfg, db, base.hashes, log, Fold(cfg, db, base, log[..|log| - 1]).hashes);
      RowsStep(cfg, db, base, log, Fold(cfg, db, base, log[..|log| - 1]));
    }
  }

  /** Both together: what any run that has drained the log leaves, from any tables. */
  lemma {:induction false} DrainedRunIsFirstWins(cfg: Config, start: Db, log: seq<Task>, events: seq<Event>)
    requires Consistent(start, log) && HashesApart(cfg, start, HashesOf(start.registry), log)
    requires var c := Run(cfg, log, Start(start), events); c.done == |log| || c.committed == |log| || c.pos == |log|
    ensures var after := ViewOf(Run(cfg, log, Start(start), events).db);
            && FirstHashWins(cfg, start, HashesOf(start.registry), log, after.hashes)
            && FirstRowWins(cfg, start, ViewOf(start), log, after)
  {
    hide *;
    StartHashes(start);
    DrainedRunIsTheFold(cfg, start, log, events);
    FoldIsFirstWins(cfg, start, ViewOf(start), log);
  }

  lemma StartHashes(db: Db)
    ensures ViewOf(db).hashes == HashesOf(db.registry)
  {
  }

  // ---- tokens ----

  /** A token the worker issued for this task with the university's key. */
  ghost predicate IssuedFor(cfg: Config, db: Db, t: Task, token: Option<string>) {
    && Readable(cfg, db, t.vuz)
    && exists stamp :: ValidStamp(stamp) && token == Some(cfg.issue(cfg.unseal(db.keys[t.vuz]).value, stamp, t.student, t.vuz))
  }

  ghost predicate TokenFrom(cfg: Config, start: Db, log: seq<Task>, k: RowKey, row: Row) {
    exists i :: 0 <= i < |log| && FirstOfRow(log, i) && RowOf(log[i]) == k && IssuedFor(cfg, start, log[i], row.token)
  }

  /** Each ok row of the run carries a token of its first task. */
  ghost predicate TokensOk(cfg: Config, start: Db, log: seq<Task>, db: Db) {
    forall k | k in db.results && k !in start.results && db.results[k].status == Ok :: TokenFrom(cfg, start, log, k, db.results[k])
  }

  ghost predicate ResultOk(cfg: Config, start: Db, log: seq<Task>, c: Consumer) {
    c.stage.Some? && c.stage.value.Ready? && c.stage.value.m.status == Ok && c.pos < |log| ==>
      IssuedFor(cfg, start, log[c.pos], c.stage.value.m.token)
  }

  lemma ConcludeIssues(cfg: Config, start: Db, db: Db, t: Task, sealed: string, existing: Option<string>, stamp: Stamp)
    requires SameFixed(start, db) && t.vuz in db.keys && sealed == db.keys[t.vuz] && ValidStamp(stamp)
    ensures var r := Conclude(cfg, db, t, sealed, existing, stamp);
            && r.0.results == db.results
            && (r.1.status == Ok ==> IssuedFor(cfg, start, t, r.1.token))
  {
  }

  /** A missing row is that of a task not seen before. */
  lemma MissingIsFirst(cfg: Config, start: Db, log: seq<Task>, c: Consumer)
    requires TablesOk(cfg, start, log, c) && c.pos <= c.done && c.pos < |log| && RowOf(log[c.pos]) !in c.db.results
    ensures FirstOfRow(log, c.pos)
  {
    assert RowsView(c.db.results).Keys == c.db.results.Keys;
    if c.pos < c.done {
      PrefixSettles(cfg, start, log, c.done, c.pos);
    }
    forall j | 0 <= j < c.pos ensures RowOf(log[j]) != RowOf(log[c.pos]) {
      PrefixSettles(cfg, start, log, c.done, j);
    }
  }

  lemma PersistKeepsTokens(cfg: Config, start: Db, log: seq<Task>, db: Db, m: Message, now: int, i: nat)
    requires TokensOk(cfg, start, log, db) && i < |log| && KeyOf(m) == RowOf(log[i]) && Persist(db, m, now).Success?
    requires KeyOf(m) !in db.results ==> FirstOfRow(log, i)
    requires m.status == Ok ==> IssuedFor(cfg, start, log[i], m.token)
    ensures TokensOk(cfg, start, log, Persist(db, m, now).value)
  {
    hide IssuedFor;
    if KeyOf(m) !in db.results {
      PersistRowShape(db, KeyOf(m), WorkerVerdict(m).row, now);
      var after := Persist(db, m, now).value;
      forall k | k in after.results && k !in start.results && after.results[k].status == Ok
        ensures TokenFrom(cfg, start, log, k, after.results[k])
      {
        if k == KeyOf(m) {
          assert FirstOfRow(log, i) && RowOf(log[i]) == k;
        }
      }
    }
  }

  lemma AdvanceKeepsTokens(cfg: Config, start: Db, log: seq<Task>, c: Consumer, stamp: Stamp, now: int)
    requires Inv(cfg, start, log, c) && c.stage.Some?
    requires TokensOk(cfg, start, log, c.db) && ResultOk(cfg, start, log, c)
    ensures var v := AdvanceTask(cfg, c, log[c.pos], stamp, now); TokensOk(cfg, start, log, v.db) && ResultOk(cfg, start, log, v)
  {
    hide IssuedFor;
    hide TokenFrom;
    hide Persist;
    match c.stage.value
    case Looked(sealed, existing) =>
      if ValidStamp(stamp) {
        ConcludeIssues(cfg, start, c.db, log[c.pos], sealed, existing, stamp);
      }
    case Ready(m) =>
      if Persist(c.db, m, now).Success? {
        if KeyOf(m) !in c.db.results {
          MissingIsFirst(cfg, start, log, c);
        }
        PersistKeepsTokens(cfg, start, log, c.db, m, now, c.pos);
      }
    case _ =>
  }

  /** What the view leaves out: in every run each ok row carries a token of its first task, issued with the
      university's key for some nonce and time. */
  lemma {:induction false} RunIssuesTokens(cfg: Config, start: Db, log: seq<Task>, events: seq<Event>)
    requires Consistent(start, log)
    ensures var c := Run(cfg, log, Start(start), events); TokensOk(cfg, start, log, c.db) && ResultOk(cfg, start, log, c)
  {
    if events != [] {
      hide TokensOk;
      hide Inv;
      hide AdvanceTask;
      var before, last := events[..|events| - 1], events[|events| - 1];
      var c := Run(cfg, log, Start(start), before);
      RunIssuesTokens(cfg, start, log, before);
      RunKeeps(cfg, start, log, before);
      if last.Advance? && c.pos < |log| && c.stage.Some? {
        AdvanceKeepsTokens(cfg, start, log, c, last.stamp, last.now);
      }
    }
  }

  /** The strings hashed while the log is worked off. */
  function HashedIn(p: Primitives, log: seq<Task>): set<string> {
    (set i | 0 <= i < |log| :: Issued(p, log[i].student, log[i].vuz))
    + (set i | 0 <= i < |log| :: SaltInput(log[i].vuz, log[i].student.number))
  }

  /** What is registered are hashes of earlier tasks. */
  ghost predicate StemsFrom(cfg: Config, base: map<RegistryKey, string>, earlier: seq<Task>) {
    forall k | k in base :: exists i :: 0 <= i < |earlier| && Registers(cfg, earlier[i], k, base[k])
  }

  predicate Registers(cfg: Config, t: Task, k: RegistryKey, hash: string) {
    !Blank(t.student.number) && TaskKey(t) == k && TaskHash(cfg, t) == hash
  }

  /** Without a collision among the strings actually hashed, for this log and before, different numbers have
      different hashes. */
  lemma {:induction false} NoCollisionsKeepHashesApart(cfg: Config, db: Db, base: map<RegistryKey, string>, earlier: seq<Task>,
                                                       log: seq<Task>)
    requires R.Hashes(cfg) && StemsFrom(cfg, base, earlier) && CollisionFree(cfg.p, HashedIn(cfg.p, earlier + log))
    ensures HashesApart(cfg, db, base, log)
  {
    hide HashedIn;
    hide CollisionFree;
    hide R.Hashes;
    hide TaskHash;
    var all, n := earlier + log, |earlier|;
    forall i, j | 0 <= i < |log| && 0 <= j < |log| && Signable(cfg, db, log[i]) && Signable(cfg, db, log[j])
                  && TaskHash(cfg, log[i]) == TaskHash(cfg, log[j])
      ensures TaskKey(log[i]) == TaskKey(log[j])
    {
      assert all[n + i] == log[i] && all[n + j] == log[j];
      SameTaskHash(cfg, all, n + i, n + j);
    }
    forall i, k | 0 <= i < |log| && Signable(cfg, db, log[i]) && k in base && base[k] == TaskHash(cfg, log[i])
      ensures TaskKey(log[i]) == k
    {
      var j :| 0 <= j < |earlier| && Registers(cfg, earlier[j], k, base[k]);
      assert all[n + i] == log[i] && all[j] == earlier[j];
      SameTaskHash(cfg, all, n + i, j);
    }
  }

  lemma SameTaskHash(cfg: Config, log: seq<Task>, i: nat, j: nat)
    requires R.Hashes(cfg) && CollisionFree(cfg.p, HashedIn(cfg.p, log)) && i < |log| && j < |log|
    requires !Blank(log[i].student.number) && !Blank(log[j].student.number) && TaskHash(cfg, log[i]) == TaskHash(cfg, log[j])
    ensures TaskKey(log[i]) == TaskKey(log[j])
  {
    hide HashedIn;
    hide CollisionFree;
    SameHashSameKey(cfg.p, log, i, j);
  }

  lemma SameHashSameKey(p: Primitives, log: seq<Task>, i: nat, j: nat)
    requires LawfulHash(p) && CollisionFree(p, HashedIn(p, log)) && i < |log| && j < |log|
    requires !Blank(log[i].student.number) && !Blank(log[j].student.number)
    requires IssuedHash(p, log[i].student, log[i].vuz) == IssuedHash(p, log[j].student, log[j].vuz)
    ensures TaskKey(log[i]) == TaskKey(log[j])
  {
    hide SaltInput;
    hide Issued;
    HashedOfTask(p, log, i);
    HashedOfTask(p, log, j);
    CanonicalDetermines(p, log[i].student, log[i].vuz, log[j].student, log[j].vuz);
  }

  lemma HashedOfTask(p: Primitives, log: seq<Task>, i: nat)
    requires i < |log|
    ensures Issued(p, log[i].student, log[i].vuz) in HashedIn(p, log)
    ensures SaltInput(log[i].vuz, log[i].student.number) in HashedIn(p, log)
  {
  }
}
