/** Download artifacts shared by sessions: one entry per key, changed under one lock. */
module DownloadJobs {
  import opened Wrappers

  datatype ArtifactState = Pending | Done | Failed

  /** What an acquisition asks for; a second acquisition of a key must ask for the same. */
  datatype Source = Source(url: string, relativePath: string, finalPath: string, pageUrl: Option<string>,
    headers: map<string, string>)

  datatype Entry = Entry(
    source: Source, tempPath: string, state: ArtifactState,
    bytesDone: nat, bytesTotal: Option<nat>, error: Option<string>,
    attached: set<string>)

  type Jobs = map<string, Entry>

  datatype Artifact = Artifact(key: string, source: Source, state: ArtifactState, bytesDone: nat, error: Option<string>,
    refCount: nat)

  // ----- the lock-atomic operations on values -----

  function NewEntry(source: Source, temp: string): Entry {
    Entry(source, temp, Pending, 0, None, None, {})
  }

  predicate Accepts(jobs: Jobs, key: string, source: Source) {
    key in jobs ==> jobs[key].source == source
  }

  /** A refused acquisition changes nothing. */
  function Acquired(jobs: Jobs, key: string, session: string, source: Source, temp: string): Jobs {
    if !Accepts(jobs, key, source) then jobs else
      var entry := if key in jobs then jobs[key] else NewEntry(source, temp);
      jobs[key := entry.(attached := entry.attached + {session})]
  }

  function Released(jobs: Jobs, key: string, session: string): Jobs {
    if key in jobs then jobs[key := jobs[key].(attached := jobs[key].attached - {session})] else jobs
  }

  function Progressed(jobs: Jobs, key: string, done: nat, total: Option<nat>): Jobs {
    if key in jobs then jobs[key := jobs[key].(bytesDone := done, bytesTotal := total)] else jobs
  }

  function MarkedDone(jobs: Jobs, key: string): Jobs {
    if key in jobs then jobs[key := jobs[key].(state := Done)] else jobs
  }

  function MarkedFailed(jobs: Jobs, key: string, error: string): Jobs {
    if key in jobs then jobs[key := jobs[key].(state := Failed, error := Some(error))] else jobs
  }

  function Snapshot(key: string, e: Entry): Artifact {
    Artifact(key, e.source, e.state, e.bytesDone, e.error, |e.attached|)
  }

  // ----- the store, updating its entries in place -----

  class ArtifactEntry {
    const key: string
    const source: Source
    const tempPath: string
    var state: ArtifactState
    var bytesDone: nat
    var bytesTotal: Option<nat>
    var error: Option<string>
    var attached: set<string>

    constructor (key: string, source: Source, tempPath: string)
      ensures this.key == key && View() == NewEntry(source, tempPath)
    {
      this.key, this.source, this.tempPath := key, source, tempPath;
      state, bytesDone, bytesTotal, error, attached := Pending, 0, None, None, {};
    }

    function View(): Entry
      reads this
    {
      Entry(source, tempPath, state, bytesDone, bytesTotal, error, attached)
    }
  }

  class DownloadJobStore {
    var artifacts: map<string, ArtifactEntry>
    var started: seq<string>       // keys of the worker threads started, oldest first

    /** Entries sit under their own keys, so no two keys share one. */
    ghost predicate Valid()
      reads this, artifacts.Values
    {
      forall k :: k in artifacts ==> artifacts[k].key == k
    }

    ghost function View(): Jobs
      reads this, artifacts.Values
    {
      map k | k in artifacts :: artifacts[k].View()
    }

    constructor ()
      ensures Valid() && View() == map[] && started == [] && artifacts == map[]
    {
      artifacts, started := map[], [];
    }

    method Acquire(key: string, session: string, source: Source, temp: string) returns (r: Option<Artifact>)
      requires Valid()
      modifies this, artifacts.Values
      ensures Valid()
      ensures old(artifacts.Keys) <= artifacts.Keys
      ensures forall k :: k in old(artifacts) ==> artifacts[k] == old(artifacts)[k]
      ensures forall k :: k in artifacts && k !in old(artifacts) ==> fresh(artifacts[k])
      ensures View() == Acquired(old(View()), key, session, source, temp)
      ensures started == if key in old(artifacts) then old(started) else old(started) + [key]
      ensures r == if Accepts(old(View()), key, source) then Some(Snapshot(key, View()[key])) else None
    {
      if key !in artifacts {
        var entry := new ArtifactEntry(key, source, temp);
        artifacts := artifacts[key := entry];
        entry.attached := entry.attached + {session};
        started := started + [key];
        assert View()[key] == NewEntry(source, temp).(attached := {} + {session});
        return Some(Snapshot(key, entry.View()));
      }
      var entry := artifacts[key];
      if entry.source != source {
        return None;
      }
      entry.attached := entry.attached + {session};
      r := Some(Snapshot(key, entry.View()));
    }

    method Get(key: string) returns (r: Option<Artifact>)
      requires Valid()
      ensures r == if key in View() then Some(Snapshot(key, View()[key])) else None
    {
      if key !in artifacts {
        return None;
      }
      r := Some(Snapshot(key, artifacts[key].View()));
    }

    method Release(key: string, session: string)
      requires Valid()
      modifies artifacts.Values
      ensures Valid() && View() == Released(old(View()), key, session)
    {
      if key in artifacts {
        var entry := artifacts[key];
        entry.attached := entry.attached - {session};
      }
    }

    method UpdateProgress(key: string, done: nat, total: Option<nat>)
      requires Valid()
      modifies artifacts.Values
      ensures Valid() && View() == Progressed(old(View()), key, done, total)
    {
      if key in artifacts {
        var entry := artifacts[key];
        entry.bytesDone, entry.bytesTotal := done, total;
      }
    }

    method MarkDone(key: string)
      requires Valid()
      modifies artifacts.Values
      ensures Valid() && View() == MarkedDone(old(View()), key)
    {
      if key in artifacts {
        artifacts[key].state := Done;
      }
    }

    method MarkFailed(key: string, error: string)
      requires Valid()
      modifies artifacts.Values
      ensures Valid() && View() == MarkedFailed(old(View()), key, error)
    {
      if key in artifacts {
        var entry := artifacts[key];
        entry.state, entry.error := Failed, Some(error);
      }
    }
  }
}
