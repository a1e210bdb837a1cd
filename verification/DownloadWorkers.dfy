/**
 Worker threads interleaved with the requests that acquire and release artifacts.
 Every step is one critical section of the store or one file operation of one worker.
 */
module DownloadWorkers {
  import opened Wrappers
  import opened DownloadJobs

  type Contents = seq<int>

  /** Where a worker is in its life. `body` is what its downloader fetched. */
  datatype Phase =
    | Spawned                              // thread started, request not yet copied
    | Running(source: Source, temp: string)
    | Fetched(source: Source, temp: string, body: Contents)
    | Renamed(source: Source, temp: string, body: Contents)
    | Finished(source: Source, temp: string, body: Contents)
    | Failing(source: Source, temp: string)
    | Cleaning(source: Source, temp: string)
    | Dead(source: Source, temp: string)

  datatype Worker = Worker(key: string, phase: Phase)

  datatype System = System(jobs: Jobs, workers: seq<Worker>, files: map<string, Contents>)

  /** Who moves, and how. */
  datatype Move =
    | AcquireMove(key: string, session: string, source: Source)
    | ReleaseMove(key: string, session: string)
    | Begin(w: nat)
    | WriteTemp(w: nat, body: Contents)
    | ReportProgress(w: nat, done: nat, total: Option<nat>)
    | DownloadOk(w: nat, body: Contents)
    | DownloadError(w: nat)
    | Rename(w: nat)
    | MarkDoneMove(w: nat)
    | MarkFailedMove(w: nat, message: string)
    | Unlink(w: nat)

  /** Where the keys' files go. */
  datatype Paths = Paths(final: string -> string, temp: string -> string)

  /** No file of one key is a file of another. */
  ghost predicate Distinct(paths: Paths) {
    && (forall k, k' :: paths.final(k) == paths.final(k') ==> k == k')
    && (forall k, k' :: paths.temp(k) == paths.temp(k') ==> k == k')
    && (forall k, k' :: paths.final(k) == paths.temp(k') ==> k == k')
  }

  const INITIAL := System(map[], [], map[])

  predicate At(s: System, w: nat) {
    w < |s.workers|
  }

  function SetPhase(s: System, w: nat, phase: Phase): System
    requires At(s, w)
  {
    s.(workers := s.workers[w := s.workers[w].(phase := phase)])
  }

  /** Whether a move is possible now. */
  predicate Enabled(s: System, m: Move, paths: Paths) {
    match m
    case AcquireMove(key, _, source) => key !in s.jobs ==> source.finalPath == paths.final(key)
    case ReleaseMove(_, _) => true
    case Begin(w) => At(s, w) && s.workers[w].phase.Spawned? && s.workers[w].key in s.jobs
    case WriteTemp(w, _) => At(s, w) && s.workers[w].phase.Running?
    case ReportProgress(w, _, _) => At(s, w) && s.workers[w].phase.Running?
    case DownloadOk(w, _) => At(s, w) && s.workers[w].phase.Running?
    case DownloadError(w) => At(s, w) && (s.workers[w].phase.Running? || s.workers[w].phase.Fetched?)
    case Rename(w) => At(s, w) && s.workers[w].phase.Fetched? && s.workers[w].phase.temp in s.files
    case MarkDoneMove(w) => At(s, w) && s.workers[w].phase.Renamed?
    case MarkFailedMove(w, _) => At(s, w) && s.workers[w].phase.Failing?
    case Unlink(w) => At(s, w) && s.workers[w].phase.Cleaning?
  }

  function Next(s: System, m: Move, paths: Paths): System
    requires Enabled(s, m, paths)
  {
    match m
    case AcquireMove(key, session, source) =>
      var jobs := Acquired(s.jobs, key, session, source, paths.temp(key));
      if key in s.jobs then s.(jobs := jobs) else s.(jobs := jobs, workers := s.workers + [Worker(key, Spawned)])
    case ReleaseMove(key, session) => s.(jobs := Released(s.jobs, key, session))
    case Begin(w) =>
      var entry := s.jobs[s.workers[w].key];
      SetPhase(s, w, Running(entry.source, entry.tempPath))
    case WriteTemp(w, body) => s.(files := s.files[s.workers[w].phase.temp := body])
    case ReportProgress(w, done, total) => s.(jobs := Progressed(s.jobs, s.workers[w].key, done, total))
    case DownloadOk(w, body) =>
      var p := s.workers[w].phase;
      SetPhase(s, w, Fetched(p.source, p.temp, body)).(files := s.files[p.temp := body])
    case DownloadError(w) =>
      var p := s.workers[w].phase;
      SetPhase(s, w, Failing(p.source, p.temp))
    case Rename(w) =>
      var p := s.workers[w].phase;
      SetPhase(s, w, Renamed(p.source, p.temp, p.body))
      .(files := (s.files - {p.temp})[p.source.finalPath := s.files[p.temp]])
    case MarkDoneMove(w) =>
      var p := s.workers[w].phase;
      SetPhase(s, w, Finished(p.source, p.temp, p.body)).(jobs := MarkedDone(s.jobs, s.workers[w].key))
    case MarkFailedMove(w, message) =>
      var p := s.workers[w].phase;
      SetPhase(s, w, Cleaning(p.source, p.temp)).(jobs := MarkedFailed(s.jobs, s.workers[w].key, message))
    case Unlink(w) =>
      var p := s.workers[w].phase;
      SetPhase(s, w, Dead(p.source, p.temp)).(files := s.files - {p.temp})
  }

  // ----- what always holds -----

  /** The state a worker's phase accounts for. */
  function StateOf(phase: Phase): ArtifactState {
    if phase.Finished? then Done else if phase.Cleaning? || phase.Dead? then Failed else Pending
  }

  /** A worker agrees with its entry and with the files it is responsible for. */
  ghost predicate WorkerOk(s: System, worker: Worker, paths: Paths) {
    && worker.key in s.jobs
    && var entry := s.jobs[worker.key];
    var p := worker.phase;
    && entry.state == StateOf(p)
    && entry.source.finalPath == paths.final(worker.key) && entry.tempPath == paths.temp(worker.key)
    && (!p.Spawned? ==> p.source == entry.source && p.temp == entry.tempPath)
    && (p.Fetched? ==> p.temp in s.files && s.files[p.temp] == p.body)
    && (p.Renamed? || p.Finished? ==> p.source.finalPath in s.files && s.files[p.source.finalPath] == p.body)
  }

  /** Every key has exactly one worker, and every worker is consistent. */
  ghost predicate Inv(s: System, paths: Paths) {
    && KeysOk(s)
    && (forall i :: 0 <= i < |s.workers| ==> WorkerOk(s, s.workers[i], paths))
  }

  lemma InitialInv(paths: Paths)
    ensures Inv(INITIAL, paths)
  {
  }

  /** Only worker `w` changed its phase, its entry's bookkeeping, and its own files. */
  ghost predicate OwnChange(s: System, t: System, w: nat, paths: Paths)
    requires At(s, w) && At(t, w)
  {
    && |t.workers| == |s.workers| && t.workers[w].key == s.workers[w].key
    && (forall i :: 0 <= i < |s.workers| && i != w ==> t.workers[i] == s.workers[i])
    && t.jobs.Keys == s.jobs.Keys
    && (forall k :: k in s.jobs && k != s.workers[w].key ==> t.jobs[k] == s.jobs[k])
    && (forall f :: f != paths.final(s.workers[w].key) && f != paths.temp(s.workers[w].key) ==>
          (f in t.files <==> f in s.files) && (f in s.files ==> t.files[f] == s.files[f]))
  }

  lemma OtherWorkerOk(s: System, t: System, w: nat, i: nat, paths: Paths)
    requires Distinct(paths) && At(s, w) && At(t, w) && OwnChange(s, t, w, paths)
    requires At(s, i) && i != w && s.workers[i].key != s.workers[w].key && WorkerOk(s, s.workers[i], paths)
    ensures WorkerOk(t, t.workers[i], paths)
  {
    var worker := s.workers[i];
    assert t.jobs[worker.key] == s.jobs[worker.key];
    assert paths.final(worker.key) != paths.final(s.workers[w].key);
    assert paths.temp(worker.key) != paths.temp(s.workers[w].key);
  }

  /** The part of the invariant that only speaks of keys. */
  ghost predicate KeysOk(s: System) {
    && (forall i, j :: 0 <= i < j < |s.workers| ==> s.workers[i].key != s.workers[j].key)
    && (forall k :: k in s.jobs ==> exists i :: 0 <= i < |s.workers| && s.workers[i].key == k)
  }

  lemma SameKeysOk(s: System, t: System)
    requires KeysOk(s) && t.jobs.Keys == s.jobs.Keys && |t.workers| == |s.workers|
    requires forall i :: 0 <= i < |s.workers| ==> t.workers[i].key == s.workers[i].key
    ensures KeysOk(t)
  {
    forall k | k in t.jobs ensures exists i :: 0 <= i < |t.workers| && t.workers[i].key == k {
      var i :| 0 <= i < |s.workers| && s.workers[i].key == k;
      assert t.workers[i].key == k;
    }
  }

  lemma OwnChangeKeepsInv(s: System, t: System, w: nat, paths: Paths)
    requires Distinct(paths) && Inv(s, paths)
    requires At(s, w) && At(t, w) && OwnChange(s, t, w, paths) && WorkerOk(t, t.workers[w], paths)
    ensures Inv(t, paths)
  {
    forall i | 0 <= i < |t.workers| ensures WorkerOk(t, t.workers[i], paths) {
      if i != w {
        OtherKey(s, w, i);
        OtherWorkerOk(s, t, w, i, paths);
      }
    }
    OwnChangeSameKeys(s, t, w, paths);
    SameKeysOk(s, t);
  }

  lemma OtherKey(s: System, w: nat, i: nat)
    requires KeysOk(s) && At(s, w) && At(s, i) && i != w
    ensures s.workers[i].key != s.workers[w].key
  {
  }

  lemma OwnChangeSameKeys(s: System, t: System, w: nat, paths: Paths)
    requires At(s, w) && At(t, w) && OwnChange(s, t, w, paths)
    ensures forall i :: 0 <= i < |s.workers| ==> t.workers[i].key == s.workers[i].key
  {
  }

  /** Entries differ at most in who is attached. */
  ghost predicate SameButAttached(s: System, t: System) {
    && t.workers == s.workers && t.files == s.files && t.jobs.Keys == s.jobs.Keys
    && forall k :: k in s.jobs ==> t.jobs[k] == s.jobs[k].(attached := t.jobs[k].attached)
  }

  lemma AttachKeepsInv(s: System, t: System, paths: Paths)
    requires Inv(s, paths) && SameButAttached(s, t)
    ensures Inv(t, paths)
  {
    forall i | 0 <= i < |t.workers| ensures WorkerOk(t, t.workers[i], paths) {
      assert WorkerOk(s, s.workers[i], paths);
    }
  }

  lemma NewWorkerKeepsInv(s: System, key: string, session: string, source: Source, paths: Paths)
    requires Inv(s, paths) && key !in s.jobs && source.finalPath == paths.final(key)
    ensures Inv(Next(s, AcquireMove(key, session, source), paths), paths)
  {
    var t := Next(s, AcquireMove(key, session, source), paths);
    forall i | 0 <= i < |t.workers| ensures WorkerOk(t, t.workers[i], paths) {
      if i < |s.workers| {
        assert WorkerOk(s, s.workers[i], paths);
      }
    }
    forall k | k in t.jobs ensures exists i :: 0 <= i < |t.workers| && t.workers[i].key == k {
      if k == key {
        assert t.workers[|s.workers|].key == k;
      } else {
        var i :| 0 <= i < |s.workers| && s.workers[i].key == k;
        assert t.workers[i].key == k;
      }
    }
    forall i, j | 0 <= i < j < |t.workers| ensures t.workers[i].key != t.workers[j].key {
      assert t.workers[i] == s.workers[i];
      assert WorkerOk(s, s.workers[i], paths);
    }
  }

  /** Who acts in a worker's move. */
  function WorkerOf(m: Move): Option<nat> {
    match m
    case AcquireMove(_, _, _) => None
    case ReleaseMove(_, _) => None
    case Begin(w) => Some(w)
    case WriteTemp(w, _) => Some(w)
    case ReportProgress(w, _, _) => Some(w)
    case DownloadOk(w, _) => Some(w)
    case DownloadError(w) => Some(w)
    case Rename(w) => Some(w)
    case MarkDoneMove(w) => Some(w)
    case MarkFailedMove(w, _) => Some(w)
    case Unlink(w) => Some(w)
  }

  /** A worker's move only concerns itself and leaves it consistent. */
  ghost predicate OwnMove(s: System, m: Move, paths: Paths)
    requires Enabled(s, m, paths) && WorkerOf(m).Some?
  {
    var w := WorkerOf(m).value;
    var t := Next(s, m, paths);
    At(s, w) && At(t, w) && OwnChange(s, t, w, paths) && WorkerOk(t, t.workers[w], paths)
  }

  lemma WriteMoveOwn(s: System, m: Move, paths: Paths)
    requires Distinct(paths) && Inv(s, paths) && Enabled(s, m, paths) && (m.WriteTemp? || m.DownloadOk?)
    ensures OwnMove(s, m, paths)
  {
    assert WorkerOk(s, s.workers[m.w], paths);
  }

  lemma RenameMoveOwn(s: System, m: Move, paths: Paths)
    requires Distinct(paths) && Inv(s, paths) && Enabled(s, m, paths) && (m.Rename? || m.Unlink?)
    ensures OwnMove(s, m, paths)
  {
    assert WorkerOk(s, s.workers[m.w], paths);
  }

  lemma BeginMoveOwn(s: System, m: Move, paths: Paths)
    requires Inv(s, paths) && Enabled(s, m, paths) && (m.Begin? || m.DownloadError?)
    ensures OwnMove(s, m, paths)
  {
    assert WorkerOk(s, s.workers[m.w], paths);
  }

  lemma ProgressMoveOwn(s: System, m: Move, paths: Paths)
    requires Inv(s, paths) && Enabled(s, m, paths) && m.ReportProgress?
    ensures OwnMove(s, m, paths)
  {
    assert WorkerOk(s, s.workers[m.w], paths);
  }

  lemma MarkMoveOwn(s: System, m: Move, paths: Paths)
    requires Inv(s, paths) && Enabled(s, m, paths) && (m.MarkDoneMove? || m.MarkFailedMove?)
    ensures OwnMove(s, m, paths)
  {
    assert WorkerOk(s, s.workers[m.w], paths);
  }

  lemma WorkerMoveOwn(s: System, m: Move, paths: Paths)
    requires Distinct(paths) && Inv(s, paths) && Enabled(s, m, paths) && WorkerOf(m).Some?
    ensures OwnMove(s, m, paths)
  {
    if m.WriteTemp? || m.DownloadOk? {
      WriteMoveOwn(s, m, paths);
    } else if m.Rename? || m.Unlink? {
      RenameMoveOwn(s, m, paths);
    } else if m.Begin? || m.DownloadError? {
      BeginMoveOwn(s, m, paths);
    } else if m.ReportProgress? {
      ProgressMoveOwn(s, m, paths);
    } else {
      MarkMoveOwn(s, m, paths);
    }
  }

  lemma SessionMoveKeepsInv(s: System, m: Move, paths: Paths)
    requires Inv(s, paths) && Enabled(s, m, paths) && WorkerOf(m).None?
    ensures Inv(Next(s, m, paths), paths)
  {
    if m.AcquireMove? && m.key !in s.jobs {
      NewWorkerKeepsInv(s, m.key, m.session, m.source, paths);
    } else {
      AttachOnly(s, m, paths);
      AttachKeepsInv(s, Next(s, m, paths), paths);
    }
  }

  lemma AttachOnly(s: System, m: Move, paths: Paths)
    requires Enabled(s, m, paths) && (m.ReleaseMove? || (m.AcquireMove? && m.key in s.jobs))
    ensures SameButAttached(s, Next(s, m, paths))
  {
  }

  /** Every interleaving keeps the invariant. */
  lemma NextKeepsInv(s: System, m: Move, paths: Paths)
    requires Distinct(paths) && Inv(s, paths) && Enabled(s, m, paths)
    ensures Inv(Next(s, m, paths), paths)
  {
    if WorkerOf(m).None? {
      SessionMoveKeepsInv(s, m, paths);
    } else {
      WorkerMoveOwn(s, m, paths);
      OwnChangeKeepsInv(s, Next(s, m, paths), WorkerOf(m).value, paths);
    }
  }

  // ----- runs -----

  /** The system after a list of moves, each of which was possible. */
  ghost predicate Run(states: seq<System>, moves: seq<Move>, paths: Paths) {
    && |states| == |moves| + 1 && states[0] == INITIAL
    && forall i :: 0 <= i < |moves| ==>
      Enabled(states[i], moves[i], paths) && states[i + 1] == Next(states[i], moves[i], paths)
  }

  lemma {:induction false} RunInv(states: seq<System>, moves: seq<Move>, paths: Paths, n: nat)
    requires Distinct(paths) && Run(states, moves, paths) && n < |states|
    ensures Inv(states[n], paths)
    decreases n
  {
    if n == 0 {
      InitialInv(paths);
    } else {
      RunInv(states, moves, paths, n - 1);
      NextKeepsInv(states[n - 1], moves[n - 1], paths);
    }
  }

  /** Nothing but a pending artifact changes state, and no key is forgotten. */
  ghost predicate Settles(s: System, t: System) {
    forall k :: k in s.jobs ==> k in t.jobs && (s.jobs[k].state != Pending ==> t.jobs[k].state == s.jobs[k].state)
  }

  lemma NextSettles(s: System, m: Move, paths: Paths)
    requires Inv(s, paths) && Enabled(s, m, paths)
    ensures Settles(s, Next(s, m, paths))
  {
    if m.MarkDoneMove? || m.MarkFailedMove? {
      assert WorkerOk(s, s.workers[m.w], paths);
    } else {
      OtherMovesSettle(s, m, paths);
    }
  }

  lemma OtherMovesSettle(s: System, m: Move, paths: Paths)
    requires Enabled(s, m, paths) && !m.MarkDoneMove? && !m.MarkFailedMove?
    ensures Settles(s, Next(s, m, paths))
  {
  }

  lemma StepSettles(states: seq<System>, moves: seq<Move>, paths: Paths, n: nat)
    requires Distinct(paths) && Run(states, moves, paths) && n + 1 < |states|
    ensures Settles(states[n], states[n + 1])
  {
    RunInv(states, moves, paths, n);
    NextSettles(states[n], moves[n], paths);
  }

  lemma {:induction false} SettlesAlong(states: seq<System>, i: nat, j: nat)
    requires forall n: nat :: n + 1 < |states| ==> Settles(states[n], states[n + 1])
    requires i <= j < |states|
    ensures Settles(states[i], states[j])
    decreases j
  {
    if i < j {
      SettlesAlong(states, i, j - 1);
      assert Settles(states[j - 1], states[j - 1 + 1]);
      SettlesTwice(states[i], states[j - 1], states[j]);
    }
  }

  /** A key's state moves at most once, from pending to done or to failed, over a whole run. */
  lemma StateMovesOnce(states: seq<System>, moves: seq<Move>, paths: Paths, i: nat, j: nat)
    requires Distinct(paths) && Run(states, moves, paths) && i <= j < |states|
    ensures Settles(states[i], states[j])
  {
    forall n: nat | n + 1 < |states| ensures Settles(states[n], states[n + 1]) {
      StepSettles(states, moves, paths, n);
    }
    SettlesAlong(states, i, j);
  }

  lemma SettlesTwice(s: System, t: System, u: System)
    requires Settles(s, t) && Settles(t, u)
    ensures Settles(s, u)
  {
    forall k | k in s.jobs
      ensures k in u.jobs && (s.jobs[k].state != Pending ==> u.jobs[k].state == s.jobs[k].state)
    {
      assert k in t.jobs;
    }
  }

  /** The one worker of a key. */
  ghost predicate WorksFor(s: System, w: nat, key: string) {
    At(s, w) && s.workers[w].key == key
  }

  /** In every reachable state each artifact has exactly one worker. */
  lemma OneWorkerEach(states: seq<System>, moves: seq<Move>, paths: Paths, n: nat, key: string)
    requires Distinct(paths) && Run(states, moves, paths) && n < |states|
    ensures key in states[n].jobs <==> exists w: nat :: WorksFor(states[n], w, key)
    ensures forall w: nat, w': nat :: WorksFor(states[n], w, key) && WorksFor(states[n], w', key) ==> w == w'
  {
    RunInv(states, moves, paths, n);
    var s := states[n];
    if key in s.jobs {
      var i :| 0 <= i < |s.workers| && s.workers[i].key == key;
      assert WorksFor(s, i, key);
    }
    forall w: nat, w': nat | WorksFor(s, w, key) && WorksFor(s, w', key) ensures w == w' {
      assert At(s, w) && At(s, w') && s.workers[w].key == s.workers[w'].key;
    }
    forall w: nat | WorksFor(s, w, key) ensures key in s.jobs {
      assert WorkerOk(s, s.workers[w], paths);
    }
  }

  /** A worker keeps its place, its key and, once it has one, its download. */
  lemma NextKeepsBody(s: System, m: Move, paths: Paths, w: nat)
    requires Enabled(s, m, paths) && At(s, w) && s.workers[w].phase.Finished?
    ensures At(Next(s, m, paths), w) && Next(s, m, paths).workers[w] == s.workers[w]
  {
  }

  lemma {:induction false} FinishedStays(states: seq<System>, moves: seq<Move>, paths: Paths, i: nat, j: nat, w: nat)
    requires Run(states, moves, paths) && i <= j < |states| && At(states[i], w) && states[i].workers[w].phase.Finished?
    ensures At(states[j], w) && states[j].workers[w] == states[i].workers[w]
    decreases j
  {
    if i < j {
      FinishedStays(states, moves, paths, i, j - 1, w);
      NextKeepsBody(states[j - 1], moves[j - 1], paths, w);
    }
  }

  /**
   Whoever sees an artifact done finds its worker's whole download under the final
   path, then and at any later time.
   */
  lemma DoneMeansDownloaded(states: seq<System>, moves: seq<Move>, paths: Paths, i: nat, j: nat, key: string)
    returns (w: nat)
    requires Distinct(paths) && Run(states, moves, paths) && i <= j < |states|
    requires key in states[i].jobs && states[i].jobs[key].state == Done
    ensures WorksFor(states[i], w, key) && WorksFor(states[j], w, key) && states[j].workers[w].phase.Finished?
    ensures states[j].workers[w] == states[i].workers[w]
    ensures paths.final(key) in states[j].files && states[j].files[paths.final(key)] == states[j].workers[w].phase.body
  {
    RunInv(states, moves, paths, i);
    var k :| 0 <= k < |states[i].workers| && states[i].workers[k].key == key;
    w := k;
    assert WorkerOk(states[i], states[i].workers[w], paths);
    FinishedStays(states, moves, paths, i, j, w);
    RunInv(states, moves, paths, j);
    assert WorkerOk(states[j], states[j].workers[w], paths);
  }

  // ----- polling -----

  datatype Polled = StillPending | Body(body: Contents) | Gone | DownloadFailed

  /** The polling loop over the instants at which it looks; a file is read one instant after `done` was seen. */
  function Poll(instants: seq<System>, key: string, final: string): Polled {
    if |instants| < 2 then StillPending
    else if key !in instants[0].jobs then Gone
    else if instants[0].jobs[key].state == Done then
      (if final in instants[1].files then Body(instants[1].files[final]) else Gone)
    else if instants[0].jobs[key].state == Failed then DownloadFailed
    else Poll(instants[1..], key, final)
  }

  /** Instants of one run, in order. */
  ghost predicate Instants(states: seq<System>, at: seq<nat>) {
    (forall i :: 0 <= i < |at| ==> at[i] < |states|) && forall i, j :: 0 <= i < j < |at| ==> at[i] <= at[j]
  }

  function Picked(states: seq<System>, at: seq<nat>): (out: seq<System>)
    requires forall i :: 0 <= i < |at| ==> at[i] < |states|
    ensures |out| == |at| && forall i :: 0 <= i < |at| ==> out[i] == states[at[i]]
  {
    seq(|at|, i requires 0 <= i < |at| => states[at[i]])
  }

  /** The key's worker has finished with this download. */
  ghost predicate Downloaded(s: System, key: string, body: Contents) {
    exists w: nat :: WorksFor(s, w, key) && s.workers[w].phase.Finished? && s.workers[w].phase.body == body
  }

  /** What a poll returns is the download of the key's one worker, never part of it. */
  lemma {:induction false} PollReturnsDownload(states: seq<System>, moves: seq<Move>, paths: Paths, at: seq<nat>,
                                               key: string)
    requires Distinct(paths) && Run(states, moves, paths) && Instants(states, at)
    requires at != [] && key in states[at[0]].jobs
    ensures
      var r := Poll(Picked(states, at), key, paths.final(key));
      && !r.Gone?
      && (r.Body? ==> Downloaded(states[|states| - 1], key, r.body))
    decreases |at|
  {
    if |at| >= 2 {
      var s := states[at[0]];
      StateMovesOnce(states, moves, paths, at[0], at[1]);
      if s.jobs[key].state == Done {
        var w := DoneMeansDownloaded(states, moves, paths, at[0], at[1], key);
        var w' := DoneMeansDownloaded(states, moves, paths, at[0], |states| - 1, key);
        OneWorkerEach(states, moves, paths, at[1], key);
        FinishedStays(states, moves, paths, at[1], |states| - 1, w);
      } else if s.jobs[key].state != Failed {
        assert Picked(states, at)[1..] == Picked(states, at[1..]);
        PollReturnsDownload(states, moves, paths, at[1..], key);
      }
    }
  }

  // ----- exactly when destinations may be trusted -----

  ghost predicate Reachable(s: System, paths: Paths) {
    exists states, moves :: Run(states, moves, paths) && states[|states| - 1] == s
  }

  lemma ReachNext(s: System, m: Move, paths: Paths)
    requires Reachable(s, paths) && Enabled(s, m, paths)
    ensures Reachable(Next(s, m, paths), paths)
  {
    var states, moves :| Run(states, moves, paths) && states[|states| - 1] == s;
    var states', moves' := states + [Next(s, m, paths)], moves + [m];
    assert Run(states', moves', paths);
    assert states'[|states'| - 1] == Next(s, m, paths);
  }

  lemma ReachInitial(paths: Paths)
    ensures Reachable(INITIAL, paths)
  {
    assert Run([INITIAL], [], paths);
  }

  /** The key's worker has finished, and the key's file holds its whole download. */
  ghost predicate Delivered(s: System, key: string, paths: Paths) {
    && paths.final(key) in s.files
    && exists w: nat ::
      WorksFor(s, w, key) && s.workers[w].phase.Finished? && s.workers[w].phase.body == s.files[paths.final(key)]
  }

  ghost predicate DoneHolds(s: System, paths: Paths) {
    forall key :: key in s.jobs && s.jobs[key].state == Done ==> Delivered(s, key, paths)
  }

  function SourceFor(key: string, paths: Paths): Source {
    Source("", "", paths.final(key), None, map[])
  }

  /** Two workers have their requests, and no file is written yet. */
  predicate Started(s: System, key: string, key': string, paths: Paths) {
    && s.workers == [Worker(key, Running(SourceFor(key, paths), paths.temp(key))),
                     Worker(key', Running(SourceFor(key', paths), paths.temp(key')))]
    && key in s.jobs && key' in s.jobs && s.files == map[]
  }

  /** Two downloads can always be under way at once. */
  lemma TwoStart(paths: Paths, key: string, key': string) returns (s: System)
    requires key != key'
    ensures Reachable(s, paths) && Started(s, key, key', paths)
  {
    ReachInitial(paths);
    s := INITIAL;
    var m := AcquireMove(key, "a", SourceFor(key, paths));
    ReachNext(s, m, paths);
    s := Next(s, m, paths);
    m := AcquireMove(key', "b", SourceFor(key', paths));
    ReachNext(s, m, paths);
    s := Next(s, m, paths);
    assert s.workers == [Worker(key, Spawned), Worker(key', Spawned)];
    ReachNext(s, Begin(0), paths);
    s := Next(s, Begin(0), paths);
    ReachNext(s, Begin(1), paths);
    s := Next(s, Begin(1), paths);
  }

  /** The second download runs after the first is done, and writes where the first key's file is. */
  lemma SecondOverwrites(paths: Paths, key: string, key': string) returns (s: System)
    requires key != key' && (paths.final(key) == paths.final(key') || paths.final(key) == paths.temp(key'))
    ensures Reachable(s, paths) && !DoneHolds(s, paths)
  {
    s := TwoStart(paths, key, key');
    s := FirstDone(paths, s, key, key', [0]);
    assert s.workers[0] == Worker(key, Finished(SourceFor(key, paths), paths.temp(key), [0]));
    ReachNext(s, DownloadOk(1, [1]), paths);
    s := Next(s, DownloadOk(1, [1]), paths);
    if paths.final(key) != paths.temp(key') {
      ReachNext(s, Rename(1), paths);
      s := Next(s, Rename(1), paths);
    }
    NotDelivered(s, key, key', paths);
  }

  /** The first worker fetches, renames and reports; the second has not moved. */
  lemma FirstDone(paths: Paths, start: System, key: string, key': string, body: Contents) returns (s: System)
    requires key != key' && Reachable(start, paths) && Started(start, key, key', paths)
    ensures Reachable(s, paths) && key in s.jobs && s.jobs[key].state == Done
    ensures s.workers == [Worker(key, Finished(SourceFor(key, paths), paths.temp(key), body)), start.workers[1]]
    ensures paths.final(key) in s.files && s.files[paths.final(key)] == body
  {
    s := start;
    ReachNext(s, DownloadOk(0, body), paths);
    s := Next(s, DownloadOk(0, body), paths);
    ReachNext(s, Rename(0), paths);
    s := Next(s, Rename(0), paths);
    ReachNext(s, MarkDoneMove(0), paths);
    s := Next(s, MarkDoneMove(0), paths);
  }

  /** The second download lands in the shared temporary file before the first is renamed. */
  lemma SharedTempMixes(paths: Paths, key: string, key': string) returns (s: System)
    requires key != key' && paths.temp(key) == paths.temp(key')
    ensures Reachable(s, paths) && !DoneHolds(s, paths)
  {
    s := TwoStart(paths, key, key');
    ReachNext(s, DownloadOk(0, [0]), paths);
    s := Next(s, DownloadOk(0, [0]), paths);
    ReachNext(s, DownloadOk(1, [1]), paths);
    s := Next(s, DownloadOk(1, [1]), paths);
    assert s.files[paths.temp(key)] == [1];
    ReachNext(s, Rename(0), paths);
    s := Next(s, Rename(0), paths);
    ReachNext(s, MarkDoneMove(0), paths);
    s := Next(s, MarkDoneMove(0), paths);
    NotDelivered(s, key, key', paths);
  }

  lemma NotDelivered(s: System, key: string, key': string, paths: Paths)
    requires |s.workers| == 2 && s.workers[0].key == key && s.workers[1].key == key' && key != key'
    requires key in s.jobs && s.jobs[key].state == Done
    requires s.workers[0].phase.Finished? && s.workers[0].phase.body == [0]
    requires paths.final(key) in s.files && s.files[paths.final(key)] == [1]
    ensures !DoneHolds(s, paths)
  {
    assert !Delivered(s, key, paths);
  }

  /**
   A key that is seen done holds its own worker's whole download in every run,
   exactly when no file of one key is a file of another.
   */
  lemma TrustedIffDistinct(paths: Paths)
    ensures Distinct(paths) <==> forall s :: Reachable(s, paths) ==> DoneHolds(s, paths)
  {
    if Distinct(paths) {
      forall s | Reachable(s, paths) ensures DoneHolds(s, paths) {
        var states, moves :| Run(states, moves, paths) && states[|states| - 1] == s;
        forall key | key in s.jobs && s.jobs[key].state == Done ensures Delivered(s, key, paths) {
          var w := DoneMeansDownloaded(states, moves, paths, |states| - 1, |states| - 1, key);
        }
      }
    } else if k, k' :| paths.final(k) == paths.final(k') && k != k' {
      var s := SecondOverwrites(paths, k, k');
    } else if k, k' :| paths.final(k) == paths.temp(k') && k != k' {
      var s := SecondOverwrites(paths, k, k');
    } else {
      var k, k' :| paths.temp(k) == paths.temp(k') && k != k';
      var s := SharedTempMixes(paths, k, k');
    }
  }
}
