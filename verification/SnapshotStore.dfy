/** The shared snapshot table and the jobs bound to it, one request at a time: what an
    extraction and a refresh leave behind. */
module SnapshotStore {
  import opened Wrappers

  type Time = real
  type Hash = string

  /** The structured posting; only the source URL in its metadata is looked at. */
  datatype Payload = Payload(sourceUrl: string, content: string)

  datatype Snapshot = Snapshot(hash: Hash, payload: Payload, captured: Time)

  datatype Freshness = Fresh | Stale

  datatype Job = Job(
    user: nat, url: string,
    snapshot: Option<nat>, hash: Option<Hash>,
    freshness: Freshness, lastFetched: Option<Time>)

  /** A job has neither snapshot nor hash, or carries the hash of the snapshot it is bound to. */
  predicate Bound(job: Job, snapshots: map<nat, Snapshot>) {
    match job.snapshot
    case None => job.hash == None
    case Some(id) => id in snapshots && job.hash == Some(snapshots[id].hash)
  }

  ghost predicate UniqueHashes(snapshots: map<nat, Snapshot>) {
    forall a, b :: a in snapshots && b in snapshots && snapshots[a].hash == snapshots[b].hash ==> a == b
  }

  ghost predicate UniqueUrls(jobs: map<nat, Job>) {
    forall a, b :: a in jobs && b in jobs && jobs[a].user == jobs[b].user && jobs[a].url == jobs[b].url ==> a == b
  }

  ghost predicate KnownHash(snapshots: map<nat, Snapshot>, hash: Hash) {
    exists id :: id in snapshots && snapshots[id].hash == hash
  }

  ghost predicate KnownUrl(snapshots: map<nat, Snapshot>, url: string) {
    exists id :: id in snapshots && snapshots[id].payload.sourceUrl == url
  }

  /** A latest snapshot captured from a URL. */
  ghost predicate Latest(snapshots: map<nat, Snapshot>, url: string, id: nat) {
    && id in snapshots && snapshots[id].payload.sourceUrl == url
    && (forall k :: k in snapshots && snapshots[k].payload.sourceUrl == url ==>
          snapshots[k].captured <= snapshots[id].captured)
  }

  function Discovered(user: nat, url: string): Job {
    Job(user, url, None, None, Fresh, None)
  }

  function Rebound(job: Job, snapshot: nat, hash: Hash, now: Time): Job {
    job.(snapshot := Some(snapshot), hash := Some(hash), freshness := Fresh, lastFetched := Some(now))
  }

  /** The user's job for the URL is bound to the snapshot, and no other job has changed. On the
      cache path a job that held the snapshot before is left as it was; any other one, and every
      job off that path, comes out fresh and fetched now. */
  ghost predicate Served(before: map<nat, Job>, after: map<nat, Job>, job: nat, user: nat, url: string,
                         snapshot: nat, hash: Hash, cached: bool, now: Time)
  {
    && job in after && after[job].user == user && after[job].url == url
    && after[job].snapshot == Some(snapshot) && after[job].hash == Some(hash)
    && (if cached && job in before && before[job].snapshot == Some(snapshot) then after == before
        else after[job].freshness == Fresh && after[job].lastFetched == Some(now))
    && after.Keys == before.Keys + {job}
    && (forall j :: j in before && j != job ==> after[j] == before[j])
    && ((exists j :: j in before && before[j].user == user && before[j].url == url) <==> job in before)
  }

  /** What the cascade came to, if it did not raise: the hash of the fetched content and the
      validated payload. */
  datatype Extracted = Extracted(hash: Hash, payload: Payload)

  /** The content is stored under a new id, or was stored before and then nothing changes. */
  ghost predicate Stored(before: map<nat, Snapshot>, after: map<nat, Snapshot>, id: nat, x: Extracted, now: Time) {
    && id in after && after[id].hash == x.hash
    && (if KnownHash(before, x.hash) then after == before
        else id !in before && after == before[id := Snapshot(x.hash, x.payload, now)])
  }

  datatype Extraction = Extraction(job: nat, snapshot: nat, cacheHit: bool)

  datatype Fetch = FetchRaised | Fetched(status: int, hash: Hash)

  datatype RefreshResult =
    | JobNotFound
    | NowStale
    | StillFresh
    | Changed(extraction: Extraction)
    | ExtractionFailed

  class SnapshotStore {
    /** The URL a posting is stored under, as URL classification rewrites it. */
    const canonical: string -> string
    var snapshots: map<nat, Snapshot>
    var jobs: map<nat, Job>
    var now: Time

    ghost predicate Valid()
      reads this
    {
      && UniqueHashes(snapshots) && UniqueUrls(jobs)
      && (forall j :: j in jobs ==> Bound(jobs[j], snapshots))
    }

    constructor (canonical: string -> string, now: Time)
      ensures Valid() && snapshots == map[] && jobs == map[] && this.canonical == canonical && this.now == now
    {
      this.canonical := canonical;
      this.now := now;
      snapshots := map[];
      jobs := map[];
    }

    /** Insert if absent. The row that is there already is returned untouched. */
    method UpsertSnapshot(hash: Hash, payload: Payload, freshId: nat) returns (id: nat)
      requires freshId !in snapshots
      modifies this`snapshots
      ensures id in snapshots && snapshots[id].hash == hash
      ensures KnownHash(old(snapshots), hash) ==> snapshots == old(snapshots)
      ensures !KnownHash(old(snapshots), hash) ==>
        id == freshId && snapshots == old(snapshots)[freshId := Snapshot(hash, payload, now)]
      ensures UniqueHashes(old(snapshots)) ==> UniqueHashes(snapshots)
    {
      if known :| known in snapshots && snapshots[known].hash == hash {
        return known;
      }
      snapshots := snapshots[freshId := Snapshot(hash, payload, now)];
      return freshId;
    }

    method FindSnapshotBySourceUrl(url: string) returns (found: Option<nat>)
      ensures found.Some? ==> Latest(snapshots, url, found.value)
      ensures found.Some? ==> forall k :: k in snapshots && snapshots[k].payload.sourceUrl == url ==>
        snapshots[found.value].captured >= snapshots[k].captured
      ensures found == None <==> !KnownUrl(snapshots, url)
    {
      found := None;
      var rest := snapshots.Keys;
      while rest != {}
        invariant rest <= snapshots.Keys
        invariant found == None ==> forall k :: k in snapshots && k !in rest ==> snapshots[k].payload.sourceUrl != url
        invariant found.Some? ==>
          && found.value in snapshots && snapshots[found.value].payload.sourceUrl == url
          && (forall k :: k in snapshots && k !in rest && snapshots[k].payload.sourceUrl == url ==>
                snapshots[k].captured <= snapshots[found.value].captured)
      {
        var k :| k in rest;
        if snapshots[k].payload.sourceUrl == url
           && (found == None || snapshots[found.value].captured < snapshots[k].captured) {
          found := Some(k);
        }
        rest := rest - {k};
      }
    }

    method FindJobByUrl(user: nat, url: string) returns (found: Option<nat>)
      ensures found.Some? ==> found.value in jobs && jobs[found.value].user == user && jobs[found.value].url == url
      ensures found == None ==> forall j :: j in jobs ==> !(jobs[j].user == user && jobs[j].url == url)
    {
      if j :| j in jobs && jobs[j].user == user && jobs[j].url == url {
        return Some(j);
      }
      return None;
    }

    method GetOrCreateForUser(user: nat, url: string, freshId: nat) returns (job: nat, created: bool)
      requires Valid() && freshId !in jobs
      modifies this`jobs
      ensures Valid()
      ensures job in jobs && jobs[job].user == user && jobs[job].url == url
      ensures !created ==> jobs == old(jobs)
      ensures created ==> job == freshId && jobs == old(jobs)[freshId := Job(user, url, None, None, Fresh, None)]
      ensures created <==> !exists j :: j in old(jobs) && old(jobs)[j].user == user && old(jobs)[j].url == url
    {
      var existing := FindJobByUrl(user, url);
      if existing.Some? {
        return existing.value, false;
      }
      jobs := jobs[freshId := Discovered(user, url)];
      return freshId, true;
    }

    method ApplySnapshot(job: nat, snapshot: nat, hash: Hash)
      modifies this`jobs
      ensures jobs == if job in old(jobs)
        then old(jobs)[job := Job(old(jobs)[job].user, old(jobs)[job].url, Some(snapshot), Some(hash), Fresh, Some(now))]
        else old(jobs)
    {
      if job in jobs {
        jobs := jobs[job := Rebound(jobs[job], snapshot, hash, now)];
      }
    }

    method MarkFreshness(job: nat, state: Freshness) returns (found: bool)
      modifies this`jobs
      ensures found == (job in old(jobs))
      ensures jobs == if found then old(jobs)[job := old(jobs)[job].(freshness := state)] else old(jobs)
    {
      found := job in jobs;
      if found {
        jobs := jobs[job := jobs[job].(freshness := state)];
      }
    }

    method TouchLastFetched(job: nat)
      modifies this`jobs
      ensures jobs == if job in old(jobs) then old(jobs)[job := old(jobs)[job].(lastFetched := Some(now))] else old(jobs)
    {
      if job in jobs {
        jobs := jobs[job := jobs[job].(lastFetched := Some(now))];
      }
    }

    /** Binding a job to a snapshot that exists: the user's job for the URL, created if
        need be, ends up with that snapshot and its hash; no other job changes. A cached
        snapshot is not bound again to a job that has it. */
    method BindJob(user: nat, route: string, snapshot: nat, hash: Hash, cached: bool, freshJob: nat) returns (job: nat)
      requires Valid() && freshJob !in jobs && snapshot in snapshots && snapshots[snapshot].hash == hash
      modifies this`jobs
      ensures Valid()
      ensures job in jobs && jobs[job].user == user && jobs[job].url == route
      ensures Served(old(jobs), jobs, job, user, route, snapshot, hash, cached, now)
    {
      var created;
      job, created := GetOrCreateForUser(user, route, freshJob);
      if !cached || jobs[job].snapshot != Some(snapshot) {
        ApplySnapshot(job, snapshot, hash);
      }
    }

    /** The persisting part of an extraction. The cache path serves a latest snapshot of the
        URL and skips the rebinding when the job already has it; the other path stores what
        the cascade found. A cascade that raises leaves everything as it was. */
    method ExtractJob(user: nat, url: string, cacheEnabled: bool, cascade: Option<Extracted>,
                      freshSnapshot: nat, freshJob: nat)
      returns (r: Option<Extraction>)
      requires Valid() && freshSnapshot !in snapshots && freshJob !in jobs
      modifies this`snapshots, this`jobs
      ensures Valid()
      ensures r == None <==> cascade == None && !(cacheEnabled && KnownUrl(old(snapshots), canonical(url)))
      ensures r == None ==> snapshots == old(snapshots) && jobs == old(jobs)
      ensures r.Some? ==>
        && r.value.snapshot in snapshots
        && Served(old(jobs), jobs, r.value.job, user, canonical(url), r.value.snapshot,
                  snapshots[r.value.snapshot].hash, r.value.cacheHit, now)
      ensures r.Some? ==> (r.value.cacheHit <==> cacheEnabled && KnownUrl(old(snapshots), canonical(url)))
      ensures r.Some? && r.value.cacheHit ==> snapshots == old(snapshots) && Latest(snapshots, canonical(url), r.value.snapshot)
      ensures r.Some? && !r.value.cacheHit ==>
        Stored(old(snapshots), snapshots, r.value.snapshot, cascade.value, now)
    {
      var route := canonical(url);
      if cacheEnabled {
        var cached := FindSnapshotBySourceUrl(route);
        if cached.Some? {
          var job := BindJob(user, route, cached.value, snapshots[cached.value].hash, true, freshJob);
          return Some(Extraction(job, cached.value, true));
        }
      }
      if cascade == None {
        return None;
      }
      var found := cascade.value;
      var id := UpsertSnapshot(found.hash, found.payload, freshSnapshot);
      var job := BindJob(user, route, id, found.hash, false, freshJob);
      return Some(Extraction(job, id, false));
    }

    /** Refresh: the five outcomes and exactly what each leaves behind. */
    method RefreshJob(user: nat, jobId: nat, fetch: Fetch, cacheEnabled: bool, cascade: Option<Extracted>,
                      freshSnapshot: nat, freshJob: nat)
      returns (r: RefreshResult)
      requires Valid() && freshSnapshot !in snapshots && freshJob !in jobs
      modifies this`snapshots, this`jobs
      ensures Valid()
      ensures r.JobNotFound? <==> !(jobId in old(jobs) && old(jobs)[jobId].user == user)
      ensures r.NowStale? <==> !r.JobNotFound? && (fetch.FetchRaised? || fetch.status >= 400)
      ensures r.StillFresh? <==>
        !r.JobNotFound? && !r.NowStale? && old(jobs)[jobId].hash == Some(fetch.hash)
      ensures r.ExtractionFailed? <==>
        && !r.JobNotFound? && !r.NowStale? && !r.StillFresh? && cascade == None
        && !(cacheEnabled && KnownUrl(old(snapshots), canonical(old(jobs)[jobId].url)))
      ensures r.JobNotFound? || r.ExtractionFailed? ==> snapshots == old(snapshots) && jobs == old(jobs)
      ensures r.NowStale? ==>
        snapshots == old(snapshots) && jobs == old(jobs)[jobId := old(jobs)[jobId].(freshness := Stale)]
      ensures r.StillFresh? ==> // a stale mark stays
        snapshots == old(snapshots) && jobs == old(jobs)[jobId := old(jobs)[jobId].(lastFetched := Some(now))]
      ensures r.Changed? ==>
        var x := r.extraction;
        && x.snapshot in snapshots
        && Served(old(jobs), jobs, x.job, user, canonical(old(jobs)[jobId].url), x.snapshot,
                  snapshots[x.snapshot].hash, x.cacheHit, now)
        && (canonical(old(jobs)[jobId].url) == old(jobs)[jobId].url ==> x.job == jobId)
        && (x.cacheHit <==> cacheEnabled && KnownUrl(old(snapshots), canonical(old(jobs)[jobId].url)))
        && (x.cacheHit ==> snapshots == old(snapshots) && Latest(snapshots, canonical(old(jobs)[jobId].url), x.snapshot))
        && (!x.cacheHit ==> cascade.Some? && Stored(old(snapshots), snapshots, x.snapshot, cascade.value, now))
    {
      if jobId !in jobs || jobs[jobId].user != user {
        return JobNotFound;
      }
      if fetch.FetchRaised? || fetch.status == 404 || fetch.status >= 400 {
        var _ := MarkFreshness(jobId, Stale);
        return NowStale;
      }
      if Some(fetch.hash) == jobs[jobId].hash {
        TouchLastFetched(jobId);
        return StillFresh;
      }
      var result := ExtractJob(user, jobs[jobId].url, cacheEnabled, cascade, freshSnapshot, freshJob);
      if result == None {
        return ExtractionFailed;
      }
      return Changed(result.value);
    }

    /** With the cache on, refreshing a posting whose content changed can bind the snapshot
        it already had: this happens whenever that one is the only one captured from its URL. */
    method RefreshServedFromCache(user: nat, jobId: nat, fetched: Hash, cascade: Option<Extracted>,
                                  freshSnapshot: nat, freshJob: nat)
      returns (r: RefreshResult)
      requires Valid() && freshSnapshot !in snapshots && freshJob !in jobs
      requires jobId in jobs && jobs[jobId].user == user && canonical(jobs[jobId].url) == jobs[jobId].url
      requires jobs[jobId].snapshot.Some? && jobs[jobId].hash != Some(fetched)
      requires forall k :: k in snapshots && snapshots[k].payload.sourceUrl == jobs[jobId].url <==> Some(k) == jobs[jobId].snapshot
      modifies this`snapshots, this`jobs
      ensures r.Changed? && jobs == old(jobs) && snapshots == old(snapshots) && jobs[jobId].hash != Some(fetched)
    {
      assert jobs[jobId].snapshot.value in snapshots;
      r := RefreshJob(user, jobId, Fetched(200, fetched), true, cascade, freshSnapshot, freshJob);
    }
  }
}
