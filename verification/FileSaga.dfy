/** Uploads and removals of files over a record table and an object store, with a fault or a
    crash possible at every step, and any number of them in flight. */
module FileSaga {
  import opened Wrappers
  import opened ObjectKeys

  type Id = string

  datatype Location = Location(storageType: StorageType, key: string)

  /** What matters here of a stored object: where it lies, and where removeFiles will look for it
      given its record (None when the key cannot be decoded). */
  datatype Blob = Blob(place: Location, target: Option<Location>)

  function BlobOf(c: Settings, stored: StoredObject): Blob {
    var key := GetStorageKey(c, stored);
    Blob(Location(stored.storageType, stored.key),
         if key.Some? then Some(Location(stored.storageType, key.value)) else None)
  }

  /** ACTIVE records are visible, INACTIVE ones hidden. */
  datatype Record = Record(stored: Blob, active: bool)

  datatype UploadStage = PutObject | CreateRecord | RollBack
  datatype RemovalStage = Hide | DeleteObjects | Purge | Restore

  datatype Job =
    | Upload(id: Id, stored: Blob, doing: UploadStage)
    | Removal(files: map<Id, Blob>, pending: set<Id>, succeeded: set<Id>, failed: set<Id>, removing: RemovalStage)

  /** usedIds and usedPlaces remember every generated record id and object place. */
  datatype State = State(
    records: map<Id, Record>, objects: set<Location>, jobs: map<nat, Job>, usedIds: set<Id>, usedPlaces: set<Location>)

  const INIT := State(map[], {}, map[], {}, {})

  datatype Action =
    | StartUpload(j: nat, id: Id, storageType: StorageType, key: string)
    | StartRemoval(j: nat, ids: set<Id>)
    | Step(j: nat, ok: bool)
    | DeleteOne(j: nat, id: Id, ok: bool)
    | Crash(j: nat)

  function ActiveIds(s: State): set<Id> {
    set id | id in s.records && s.records[id].active
  }

  /** The removal is at its physical deletions and this one has no outcome yet. A key that cannot
      be decoded throws where the deletions are started: such a removal goes no further than to
      leave its files hidden and some of its deletions done. */
  predicate CanDelete(s: State, j: nat, id: Id) {
    && j in s.jobs && s.jobs[j].Removal? && s.jobs[j].removing.DeleteObjects? && id in s.jobs[j].pending
    && id in s.jobs[j].files && s.jobs[j].files[id].target.Some?
  }

  predicate Enabled(c: Settings, s: State, a: Action) {
    match a
    case StartUpload(j, id, storageType, key) =>
      j !in s.jobs && id !in s.usedIds && BlobOf(c, Put(c, storageType, key)).place !in s.usedPlaces
    case StartRemoval(j, ids) => j !in s.jobs && ids <= ActiveIds(s)
    case Step(j, _) => j in s.jobs && (s.jobs[j].Removal? && s.jobs[j].removing.DeleteObjects? ==> s.jobs[j].pending == {})
    case DeleteOne(j, id, _) => CanDelete(s, j, id)
    case Crash(j) => j in s.jobs
  }

  function With(s: State, j: nat, job: Job): State {
    s.(jobs := s.jobs[j := job])
  }

  function Done(s: State, j: nat): State {
    s.(jobs := s.jobs - {j})
  }

  /** A rejected put leaves nothing (one that leaves its object behind is a put followed by a
      crash), and a rejected roll-back leaves the object. */
  function StepUpload(s: State, j: nat, ok: bool): State
    requires j in s.jobs && s.jobs[j].Upload?
  {
    var job := s.jobs[j];
    match job.doing
    case PutObject =>
      if ok then With(s.(objects := s.objects + {job.stored.place}), j, job.(doing := CreateRecord)) else Done(s, j)
    case CreateRecord =>
      if ok then Done(s.(records := s.records[job.id := Record(job.stored, true)]), j)
      else With(s, j, job.(doing := RollBack))
    case RollBack =>
      Done(if ok then s.(objects := s.objects - {job.stored.place}) else s, j)
  }

  function Hidden(records: map<Id, Record>, ids: set<Id>): map<Id, Record> {
    map id | id in records :: if id in ids then records[id].(active := false) else records[id]
  }

  function Restored(records: map<Id, Record>, ids: set<Id>): map<Id, Record> {
    map id | id in records :: if id in ids then records[id].(active := true) else records[id]
  }

  /** A faulting table update throws: the removal ends there. */
  function StepRemoval(s: State, j: nat, ok: bool): State
    requires j in s.jobs && s.jobs[j].Removal?
  {
    var job := s.jobs[j];
    match job.removing
    case Hide =>
      if ok then With(s.(records := Hidden(s.records, job.files.Keys)), j, job.(removing := DeleteObjects)) else Done(s, j)
    case DeleteObjects => With(s, j, job.(removing := Purge))
    case Purge =>
      if job.succeeded == {} then With(s, j, job.(removing := Restore))
      else if ok then With(s.(records := s.records - job.succeeded), j, job.(removing := Restore))
      else Done(s, j)
    case Restore =>
      Done(if ok then s.(records := Restored(s.records, job.failed)) else s, j)
  }

  /** Deleting an object that is not there succeeds; a rejected deletion leaves it in place. */
  function DeleteObject(s: State, j: nat, id: Id, ok: bool): State
    requires j in s.jobs && s.jobs[j].Removal? && id in s.jobs[j].files && s.jobs[j].files[id].target.Some?
  {
    var job := s.jobs[j];
    var rest := job.(pending := job.pending - {id});
    if ok then With(s.(objects := s.objects - {job.files[id].target.value}), j, rest.(succeeded := job.succeeded + {id}))
    else With(s, j, rest.(failed := job.failed + {id}))
  }

  /** The rows a removal has read before it starts. */
  function Snapshot(s: State, ids: set<Id>): map<Id, Blob> {
    map id | id in ids && id in s.records :: s.records[id].stored
  }

  ghost predicate Shaped(s: State) {
    forall j :: j in s.jobs && s.jobs[j].Removal? ==> s.jobs[j].pending <= s.jobs[j].files.Keys
  }

  function Apply(c: Settings, s: State, a: Action): State
    requires Enabled(c, s, a) && Shaped(s)
  {
    match a
    case StartUpload(j, id, storageType, key) =>
      var stored := BlobOf(c, Put(c, storageType, key));
      With(s.(usedIds := s.usedIds + {id}, usedPlaces := s.usedPlaces + {stored.place}), j, Upload(id, stored, PutObject))
    case StartRemoval(j, ids) =>
      With(s, j, Removal(Snapshot(s, ids), ids, {}, {}, Hide))
    case Step(j, ok) => if s.jobs[j].Upload? then StepUpload(s, j, ok) else StepRemoval(s, j, ok)
    case DeleteOne(j, id, ok) => DeleteObject(s, j, id, ok)
    case Crash(j) => Done(s, j)
  }

  lemma {:induction false} StepKeepsShape(c: Settings, s: State, a: Action)
    requires Enabled(c, s, a) && Shaped(s)
    ensures Shaped(Apply(c, s, a))
  {
  }

  /** No removal starts on a file another removal in flight is working on. */
  ghost predicate Exclusive(s: State, a: Action) {
    a.StartRemoval? ==>
      forall j :: j in s.jobs && s.jobs[j].Removal? ==> a.ids !! s.jobs[j].files.Keys
  }

  ghost predicate ValidRun(c: Settings, s: State, acts: seq<Action>, exclusive: bool)
    requires Shaped(s)
    decreases |acts|
  {
    acts != [] ==>
      && Enabled(c, s, acts[0])
      && (exclusive ==> Exclusive(s, acts[0]))
      && (StepKeepsShape(c, s, acts[0]); ValidRun(c, Apply(c, s, acts[0]), acts[1..], exclusive))
  }

  ghost function Run(c: Settings, s: State, acts: seq<Action>, exclusive: bool): State
    requires Shaped(s) && ValidRun(c, s, acts, exclusive)
    decreases |acts|
  {
    if acts == [] then s
    else
      StepKeepsShape(c, s, acts[0]);
      Run(c, Apply(c, s, acts[0]), acts[1..], exclusive)
  }

  // ---------------------------------------------------------------- the invariant

  /** The property the saga is for. */
  ghost predicate ActiveHasObject(s: State) {
    forall id :: id in s.records && s.records[id].active ==> s.records[id].stored.place in s.objects
  }

  /** removeFiles looks where the object lies. */
  predicate Genuine(stored: Blob) {
    stored.target == Some(stored.place)
  }

  ghost predicate RecordsGood(s: State) {
    && (forall id :: id in s.records ==>
          id in s.usedIds && s.records[id].stored.place in s.usedPlaces && Genuine(s.records[id].stored))
    && (forall i, k :: i in s.records && k in s.records && i != k ==>
          s.records[i].stored.place != s.records[k].stored.place)
    && s.objects <= s.usedPlaces
  }

  ghost predicate UploadGood(s: State, job: Job)
    requires job.Upload?
  {
    && job.id in s.usedIds && job.id !in s.records
    && job.stored.place in s.usedPlaces && Genuine(job.stored)
    && (job.doing.CreateRecord? ==> job.stored.place in s.objects)
    && (forall id :: id in s.records ==> s.records[id].stored.place != job.stored.place)
  }

  /** The three id sets of a removal partition its files. */
  ghost predicate Partitioned(job: Job)
    requires job.Removal?
  {
    && job.pending + job.succeeded + job.failed == job.files.Keys
    && job.pending !! job.succeeded && job.pending !! job.failed && job.succeeded !! job.failed
    && (!job.removing.Hide? && !job.removing.DeleteObjects? ==> job.pending == {})
    && (job.removing.Hide? ==> job.succeeded == {} && job.failed == {})
  }

  /** Where a removal stands with one of its files. */
  ghost predicate FileGood(s: State, job: Job, id: Id)
    requires job.Removal? && id in job.files
  {
    && id in s.usedIds && job.files[id].place in s.usedPlaces && Genuine(job.files[id])
    && (id in s.records ==> s.records[id].stored == job.files[id])
    && (id !in s.records ==> job.removing.Restore? && id in job.succeeded)
    && (id in s.records && !job.removing.Hide? ==> !s.records[id].active)
    && (id in job.succeeded ==> job.files[id].place !in s.objects)
    && (id in job.succeeded && job.removing.Restore? ==> id !in s.records)
    && (id !in job.succeeded ==> job.files[id].place in s.objects)
  }

  ghost predicate RemovalGood(s: State, job: Job)
    requires job.Removal?
  {
    Partitioned(job) && forall id :: id in job.files ==> FileGood(s, job, id)
  }

  ghost predicate JobsGood(s: State) {
    forall j :: j in s.jobs ==>
      if s.jobs[j].Upload? then UploadGood(s, s.jobs[j]) else RemovalGood(s, s.jobs[j])
  }

  /** The record ids and object places a job works on. */
  function ClaimedIds(job: Job): set<Id> {
    match job
    case Upload(id, _, _) => {id}
    case Removal(files, _, _, _, _) => files.Keys
  }

  function ClaimedPlaces(job: Job): set<Location> {
    match job
    case Upload(_, stored, _) => {stored.place}
    case Removal(files, _, _, _, _) => set id | id in files :: files[id].place
  }

  ghost predicate Disjoint(a: Job, b: Job) {
    ClaimedIds(a) !! ClaimedIds(b) && ClaimedPlaces(a) !! ClaimedPlaces(b)
  }

  /** Jobs work on different files. */
  ghost predicate JobsApart(s: State) {
    forall j, k :: j in s.jobs && k in s.jobs && j != k ==> Disjoint(s.jobs[j], s.jobs[k])
  }

  ghost predicate Inv(s: State) {
    Shaped(s) && RecordsGood(s) && JobsGood(s) && JobsApart(s) && ActiveHasObject(s)
  }

  lemma {:induction false} RemovalFrame(s: State, s': State, job: Job)
    requires job.Removal? && RemovalGood(s, job)
    requires s.usedIds <= s'.usedIds && s.usedPlaces <= s'.usedPlaces
    requires forall id :: id in job.files ==>
               && (id in s'.records <==> id in s.records)
               && (id in s.records ==> s'.records[id] == s.records[id])
               && (job.files[id].place in s'.objects <==> job.files[id].place in s.objects)
    ensures RemovalGood(s', job)
  {
  }

  lemma {:induction false} UploadFrame(s: State, s': State, job: Job)
    requires job.Upload? && UploadGood(s, job)
    requires s.usedIds <= s'.usedIds && s.usedPlaces <= s'.usedPlaces
    requires job.id !in s'.records
    requires forall id :: id in s'.records ==> s'.records[id].stored.place != job.stored.place
    requires job.stored.place in s.objects ==> job.stored.place in s'.objects
    ensures UploadGood(s', job)
  {
  }

  /** The jobs of s' are those of s without j, or with another version of it, and every other
      job is as good as before. */
  ghost predicate OnlyJob(s: State, s': State, j: nat) {
    && s'.jobs.Keys <= s.jobs.Keys + {j}
    && (forall k :: k in s'.jobs && k != j ==> s'.jobs[k] == s.jobs[k])
  }

  lemma {:induction false} KeepJobsGood(s: State, s': State, j: nat)
    requires JobsGood(s) && OnlyJob(s, s', j)
    requires forall k :: k in s.jobs && k != j ==>
               if s.jobs[k].Upload? then UploadGood(s', s.jobs[k]) else RemovalGood(s', s.jobs[k])
    requires j in s'.jobs ==>
               if s'.jobs[j].Upload? then UploadGood(s', s'.jobs[j]) else RemovalGood(s', s'.jobs[j])
    ensures JobsGood(s')
  {
  }

  /** A new version of a job that keeps its files keeps the jobs apart. */
  lemma {:induction false} KeepJobsApart(s: State, s': State, j: nat)
    requires JobsApart(s) && OnlyJob(s, s', j)
    requires j in s'.jobs ==>
               j in s.jobs && ClaimedIds(s'.jobs[j]) == ClaimedIds(s.jobs[j]) && ClaimedPlaces(s'.jobs[j]) == ClaimedPlaces(s.jobs[j])
    ensures JobsApart(s')
  {
  }

  /** A new job that claims nothing claimed keeps the jobs apart. */
  lemma {:induction false} NewJobApart(s: State, s': State, j: nat)
    requires JobsApart(s) && j !in s.jobs && j in s'.jobs && s'.jobs == s.jobs[j := s'.jobs[j]]
    requires forall k :: k in s.jobs ==> Disjoint(s'.jobs[j], s.jobs[k])
    ensures JobsApart(s')
  {
  }

  /** The round trip of the storage key: an upload can be found again for removal. */
  lemma {:induction false} UploadsAreGenuine(c: Settings, storageType: StorageType, key: string)
    ensures Genuine(BlobOf(c, Put(c, storageType, key)))
  {
    StorageKeyRecovered(c, storageType, key);
  }

  // ---------------------------------------------------------------- uploads

  lemma {:induction false} StartUploadKeepsInv(c: Settings, s: State, j: nat, id: Id, storageType: StorageType, key: string)
    requires Inv(s) && Enabled(c, s, StartUpload(j, id, storageType, key))
    ensures Inv(Apply(c, s, StartUpload(j, id, storageType, key)))
  {
    var a := StartUpload(j, id, storageType, key);
    var s' := Apply(c, s, a);
    StepKeepsShape(c, s, a);
    UploadsAreGenuine(c, storageType, key);
    forall k | k in s.jobs && k != j
      ensures if s.jobs[k].Upload? then UploadGood(s', s.jobs[k]) else RemovalGood(s', s.jobs[k])
    {
      if s.jobs[k].Upload? {
        UploadFrame(s, s', s.jobs[k]);
      } else {
        RemovalFrame(s, s', s.jobs[k]);
      }
    }
    KeepJobsGood(s, s', j);
    forall k | k in s.jobs
      ensures Disjoint(s'.jobs[j], s.jobs[k])
    {
      ClaimsAreUsed(s, k);
    }
    NewJobApart(s, s', j);
  }

  /** What a job claims has been generated before. */
  lemma {:induction false} ClaimsAreUsed(s: State, k: nat)
    requires JobsGood(s) && k in s.jobs
    ensures ClaimedIds(s.jobs[k]) <= s.usedIds && ClaimedPlaces(s.jobs[k]) <= s.usedPlaces
  {
  }

  /** Other jobs do not notice a change that stays away from their files and places. */
  lemma {:induction false} OthersUnaffected(s: State, s': State, j: nat, ids: set<Id>, places: set<Location>)
    requires JobsGood(s) && OnlyJob(s, s', j)
    requires s.usedIds <= s'.usedIds && s.usedPlaces <= s'.usedPlaces
    requires forall id :: id !in ids ==>
               (id in s'.records <==> id in s.records) && (id in s.records ==> s'.records[id] == s.records[id])
    requires forall p :: p !in places ==> (p in s'.objects <==> p in s.objects)
    requires forall id :: id in ids && id in s'.records ==>
               s'.records[id].stored.place in places || (id in s.records && s'.records[id].stored == s.records[id].stored)
    requires forall k :: k in s.jobs && k != j ==> ClaimedIds(s.jobs[k]) !! ids && ClaimedPlaces(s.jobs[k]) !! places
    ensures forall k :: k in s.jobs && k != j ==>
              if s.jobs[k].Upload? then UploadGood(s', s.jobs[k]) else RemovalGood(s', s.jobs[k])
  {
  }

  /** A step of job j that touches only what j claims leaves every job good and apart. */
  lemma {:induction false} OwnStepKeepsJobs(s: State, s': State, j: nat)
    requires Inv(s) && j in s.jobs && OnlyJob(s, s', j)
    requires s.usedIds == s'.usedIds && s.usedPlaces == s'.usedPlaces
    requires forall id :: id !in ClaimedIds(s.jobs[j]) ==>
               (id in s'.records <==> id in s.records) && (id in s.records ==> s'.records[id] == s.records[id])
    requires forall p :: p !in ClaimedPlaces(s.jobs[j]) ==> (p in s'.objects <==> p in s.objects)
    requires forall id :: id in ClaimedIds(s.jobs[j]) && id in s'.records ==>
               s'.records[id].stored.place in ClaimedPlaces(s.jobs[j])
    requires j in s'.jobs ==>
               && ClaimedIds(s'.jobs[j]) == ClaimedIds(s.jobs[j]) && ClaimedPlaces(s'.jobs[j]) == ClaimedPlaces(s.jobs[j])
               && if s'.jobs[j].Upload? then UploadGood(s', s'.jobs[j]) else RemovalGood(s', s'.jobs[j])
    ensures JobsGood(s') && JobsApart(s')
  {
    forall k | k in s.jobs && k != j
      ensures ClaimedIds(s.jobs[k]) !! ClaimedIds(s.jobs[j]) && ClaimedPlaces(s.jobs[k]) !! ClaimedPlaces(s.jobs[j])
    {
      assert Disjoint(s.jobs[k], s.jobs[j]);
    }
    OthersUnaffected(s, s', j, ClaimedIds(s.jobs[j]), ClaimedPlaces(s.jobs[j]));
    KeepJobsGood(s, s', j);
    KeepJobsApart(s, s', j);
  }

  lemma {:induction false} StepUploadKeepsInv(s: State, j: nat, ok: bool)
    requires Inv(s) && j in s.jobs && s.jobs[j].Upload?
    ensures Inv(StepUpload(s, j, ok))
  {
    assert UploadGood(s, s.jobs[j]);
    OwnStepKeepsJobs(s, StepUpload(s, j, ok), j);
    UploadKeepsRecords(s, j, ok);
  }

  lemma {:induction false} UploadKeepsRecords(s: State, j: nat, ok: bool)
    requires j in s.jobs && s.jobs[j].Upload? && UploadGood(s, s.jobs[j]) && RecordsGood(s) && ActiveHasObject(s)
    ensures RecordsGood(StepUpload(s, j, ok)) && ActiveHasObject(StepUpload(s, j, ok))
  {
  }

  // ---------------------------------------------------------------- removals

  lemma {:induction false} StartRemovalKeepsInv(c: Settings, s: State, j: nat, ids: set<Id>)
    requires Inv(s) && Enabled(c, s, StartRemoval(j, ids)) && Exclusive(s, StartRemoval(j, ids))
    ensures Inv(Apply(c, s, StartRemoval(j, ids)))
  {
    var a := StartRemoval(j, ids);
    var s' := Apply(c, s, a);
    StepKeepsShape(c, s, a);
    OthersUnaffected(s, s', j, {}, {});
    assert s'.jobs[j].files.Keys == ids;
    assert RemovalGood(s', s'.jobs[j]);
    KeepJobsGood(s, s', j);
    forall k | k in s.jobs
      ensures Disjoint(s'.jobs[j], s.jobs[k])
    {
      ActiveFilesUnclaimed(s, s'.jobs[j], k);
    }
    NewJobApart(s, s', j);
  }

  /** A visible file is claimed by no upload, and only by removals that name it. */
  lemma {:induction false} ActiveFilesUnclaimed(s: State, removal: Job, k: nat)
    requires Inv(s) && k in s.jobs && removal.Removal?
    requires forall id :: id in removal.files ==>
               id in s.records && s.records[id].active && removal.files[id] == s.records[id].stored
    requires s.jobs[k].Removal? ==> removal.files.Keys !! s.jobs[k].files.Keys
    ensures Disjoint(removal, s.jobs[k])
  {
  }

  lemma {:induction false} HideKeepsInv(s: State, j: nat)
    requires Inv(s) && j in s.jobs && s.jobs[j].Removal? && s.jobs[j].removing.Hide?
    ensures Inv(StepRemoval(s, j, true))
  {
    var job, s' := s.jobs[j], StepRemoval(s, j, true);
    assert RemovalGood(s, job);
    assert RemovalGood(s', s'.jobs[j]);
    OwnStepKeepsJobs(s, s', j);
    assert forall id :: id in s'.records ==> s'.records[id].stored == s.records[id].stored;
  }

  /** Records that go take nothing from the others. */
  lemma {:induction false} FewerRecords(s: State, s': State, gone: set<Id>)
    requires RecordsGood(s) && ActiveHasObject(s)
    requires s'.records == s.records - gone && s'.objects == s.objects
    requires s'.usedIds == s.usedIds && s'.usedPlaces == s.usedPlaces
    ensures RecordsGood(s') && ActiveHasObject(s')
  {
  }

  lemma {:induction false} PurgedJobGood(s: State, j: nat)
    requires j in s.jobs && s.jobs[j].Removal? && s.jobs[j].removing.Purge? && RemovalGood(s, s.jobs[j])
    ensures RemovalGood(StepRemoval(s, j, true), StepRemoval(s, j, true).jobs[j])
  {
  }

  lemma {:induction false} PurgedJobsGood(s: State, j: nat)
    requires Inv(s) && j in s.jobs && s.jobs[j].Removal? && s.jobs[j].removing.Purge? && RemovalGood(s, s.jobs[j])
    ensures JobsGood(StepRemoval(s, j, true)) && JobsApart(StepRemoval(s, j, true))
  {
    PurgedJobGood(s, j);
    OwnStepKeepsJobs(s, StepRemoval(s, j, true), j);
  }

  lemma {:induction false} PurgeKeepsInv(s: State, j: nat)
    requires Inv(s) && j in s.jobs && s.jobs[j].Removal? && s.jobs[j].removing.Purge?
    ensures Inv(StepRemoval(s, j, true))
  {
    assert RemovalGood(s, s.jobs[j]);
    PurgedJobsGood(s, j);
    FewerRecords(s, StepRemoval(s, j, true), s.jobs[j].succeeded);
  }

  lemma {:induction false} DeletionsOverKeepsInv(s: State, j: nat)
    requires Inv(s) && j in s.jobs && s.jobs[j].Removal? && s.jobs[j].removing.DeleteObjects? && s.jobs[j].pending == {}
    ensures Inv(StepRemoval(s, j, true))
  {
    var s' := StepRemoval(s, j, true);
    assert RemovalGood(s, s.jobs[j]);
    assert RemovalGood(s', s'.jobs[j]);
    OwnStepKeepsJobs(s, s', j);
  }

  lemma {:induction false} RestoreKeepsInv(s: State, j: nat)
    requires Inv(s) && j in s.jobs && s.jobs[j].Removal? && s.jobs[j].removing.Restore?
    ensures Inv(StepRemoval(s, j, true))
  {
    var job, s' := s.jobs[j], StepRemoval(s, j, true);
    assert RemovalGood(s, job);
    OwnStepKeepsJobs(s, s', j);
    assert forall id :: id in s'.records ==> s'.records[id].stored == s.records[id].stored;
    forall id | id in s'.records && s'.records[id].active
      ensures s'.records[id].stored.place in s'.objects
    {
      if id in job.failed {
        assert id in job.files;
      }
    }
  }

  lemma {:induction false} StepRemovalKeepsInv(s: State, j: nat, ok: bool)
    requires Inv(s) && j in s.jobs && s.jobs[j].Removal?
    requires s.jobs[j].removing.DeleteObjects? ==> s.jobs[j].pending == {}
    ensures Inv(StepRemoval(s, j, ok))
  {
    var job := s.jobs[j];
    if job.removing.DeleteObjects? {
      DeletionsOverKeepsInv(s, j);
    } else if job.removing.Purge? && job.succeeded == {} {
      assert s.records - job.succeeded == s.records;
      PurgeKeepsInv(s, j);
    } else if !ok {
      CrashKeepsInv(s, j);
    } else if job.removing.Hide? {
      HideKeepsInv(s, j);
    } else if job.removing.Purge? {
      PurgeKeepsInv(s, j);
    } else {
      RestoreKeepsInv(s, j);
    }
  }

  /** Losing the object of a hidden record hurts no visible one. */
  lemma {:induction false} HiddenObjectMayGo(s: State, s': State, id: Id)
    requires RecordsGood(s) && ActiveHasObject(s) && id in s.records && !s.records[id].active
    requires s'.records == s.records && s'.usedIds == s.usedIds && s'.usedPlaces == s.usedPlaces
    requires s'.objects == s.objects || s'.objects == s.objects - {s.records[id].stored.place}
    ensures RecordsGood(s') && ActiveHasObject(s')
  {
  }

  /** One deletion concerns one file of the removal: the files have distinct places. */
  lemma {:induction false} DeletedFileGood(s: State, j: nat, id: Id, ok: bool, x: Id)
    requires CanDelete(s, j, id) && id in s.jobs[j].files && x in s.jobs[j].files
    requires Partitioned(s.jobs[j])
    requires FileGood(s, s.jobs[j], id) && FileGood(s, s.jobs[j], x)
    requires x != id ==> s.jobs[j].files[x].place != s.jobs[j].files[id].place
    ensures FileGood(DeleteObject(s, j, id, ok), DeleteObject(s, j, id, ok).jobs[j], x)
  {
  }

  lemma {:induction false} DeletedStillPartitioned(s: State, j: nat, id: Id, ok: bool)
    requires CanDelete(s, j, id) && id in s.jobs[j].files && Partitioned(s.jobs[j])
    ensures Partitioned(DeleteObject(s, j, id, ok).jobs[j])
  {
  }

  lemma {:induction false} DeletedJobGood(s: State, j: nat, id: Id, ok: bool)
    requires CanDelete(s, j, id) && id in s.jobs[j].files && RemovalGood(s, s.jobs[j]) && RecordsGood(s)
    ensures RemovalGood(DeleteObject(s, j, id, ok), DeleteObject(s, j, id, ok).jobs[j])
  {
    var job := s.jobs[j];
    DeletedStillPartitioned(s, j, id, ok);
    forall x | x in job.files
      ensures FileGood(DeleteObject(s, j, id, ok), DeleteObject(s, j, id, ok).jobs[j], x)
    {
      assert FileGood(s, job, id) && FileGood(s, job, x);
      DeletedFileGood(s, j, id, ok, x);
    }
  }

  lemma {:induction false} DeletedJobsGood(s: State, j: nat, id: Id, ok: bool)
    requires Inv(s) && CanDelete(s, j, id) && id in s.jobs[j].files
    ensures JobsGood(DeleteObject(s, j, id, ok)) && JobsApart(DeleteObject(s, j, id, ok))
  {
    assert RemovalGood(s, s.jobs[j]);
    assert FileGood(s, s.jobs[j], id);
    DeletedJobGood(s, j, id, ok);
    OwnStepKeepsJobs(s, DeleteObject(s, j, id, ok), j);
  }

  lemma {:induction false} DeleteObjectKeepsInv(s: State, j: nat, id: Id, ok: bool)
    requires Inv(s) && CanDelete(s, j, id)
    ensures Inv(DeleteObject(s, j, id, ok))
  {
    assert RemovalGood(s, s.jobs[j]);
    assert FileGood(s, s.jobs[j], id);
    DeletedJobsGood(s, j, id, ok);
    HiddenObjectMayGo(s, DeleteObject(s, j, id, ok), id);
  }

  lemma {:induction false} CrashKeepsInv(s: State, j: nat)
    requires Inv(s)
    ensures Inv(Done(s, j))
  {
    var s' := Done(s, j);
    OthersUnaffected(s, s', j, {}, {});
    KeepJobsGood(s, s', j);
    KeepJobsApart(s, s', j);
  }

  lemma {:induction false} StepKeepsInv(c: Settings, s: State, a: Action)
    requires Inv(s) && Enabled(c, s, a) && Exclusive(s, a)
    ensures Inv(Apply(c, s, a))
  {
    match a
    case StartUpload(j, id, storageType, key) => StartUploadKeepsInv(c, s, j, id, storageType, key);
    case StartRemoval(j, ids) => StartRemovalKeepsInv(c, s, j, ids);
    case Step(j, ok) =>
      if s.jobs[j].Upload? {
        StepUploadKeepsInv(s, j, ok);
      } else {
        StepRemovalKeepsInv(s, j, ok);
      }
    case DeleteOne(j, id, ok) => DeleteObjectKeepsInv(s, j, id, ok);
    case Crash(j) => CrashKeepsInv(s, j);
  }

  lemma {:induction false} RunKeepsInv(c: Settings, s: State, acts: seq<Action>)
    requires Inv(s) && ValidRun(c, s, acts, true)
    ensures Inv(Run(c, s, acts, true))
    decreases |acts|
  {
    if acts != [] {
      StepKeepsInv(c, s, acts[0]);
      RunKeepsInv(c, Apply(c, s, acts[0]), acts[1..]);
    }
  }

  /** In every state of every run in which removals in flight never share a file, with faults
      and crashes anywhere, a visible record has its object. */
  lemma {:induction false} ActiveRecordsKeepObjects(c: Settings, acts: seq<Action>)
    requires ValidRun(c, INIT, acts, true)
    ensures ActiveHasObject(Run(c, INIT, acts, true))
  {
    RunKeepsInv(c, INIT, acts);
  }

  /** When a removal reaches its end, the succeeded and failed ids partition its input, the
      succeeded ones have neither record nor object, and the failed ones are visible again. */
  lemma {:induction false} RemovalEnds(c: Settings, acts: seq<Action>, j: nat)
    requires ValidRun(c, INIT, acts, true)
    requires var s := Run(c, INIT, acts, true); j in s.jobs && s.jobs[j].Removal? && s.jobs[j].removing.Restore?
    ensures var s := Run(c, INIT, acts, true);
            var job, s' := s.jobs[j], StepRemoval(s, j, true);
            && job.succeeded + job.failed == job.files.Keys && job.succeeded !! job.failed
            && (forall id :: id in job.succeeded ==> id !in s'.records && job.files[id].place !in s'.objects)
            && (forall id :: id in job.failed ==>
                  id in s'.records && s'.records[id] == Record(job.files[id], true) && job.files[id].place in s'.objects)
            && j !in s'.jobs
  {
    RunKeepsInv(c, INIT, acts);
    var s := Run(c, INIT, acts, true);
    assert RemovalGood(s, s.jobs[j]);
  }

  // ---------------------------------------------------------------- objects left behind

  ghost predicate OfRecord(s: State, place: Location) {
    exists id :: id in s.records && s.records[id].stored.place == place
  }

  predicate UploadsTo(s: State, j: nat, place: Location) {
    j in s.jobs && s.jobs[j].Upload? && s.jobs[j].stored.place == place
  }

  ghost predicate OfUpload(s: State, place: Location) {
    exists j :: UploadsTo(s, j, place)
  }

  /** An object of no record and of no upload in flight. */
  ghost predicate Orphan(s: State, place: Location) {
    place in s.objects && !OfRecord(s, place) && !OfUpload(s, place)
  }

  /** This step leaves it behind: a crash of its upload, or a rejected roll-back. */
  predicate Leaves(s: State, a: Action, place: Location) {
    place in s.objects &&
    match a
    case Crash(j) => UploadsTo(s, j, place)
    case Step(j, ok) => UploadsTo(s, j, place) && s.jobs[j].doing.RollBack? && !ok
    case _ => false
  }

  /** An object that has not been put is not there. */
  ghost predicate NotYetPut(s: State) {
    forall j :: j in s.jobs && s.jobs[j].Upload? && s.jobs[j].doing.PutObject? ==> s.jobs[j].stored.place !in s.objects
  }

  /** Jobs that are apart upload to different places. */
  lemma {:induction false} OnlyUpload(s: State, j: nat, place: Location)
    requires JobsApart(s) && UploadsTo(s, j, place)
    ensures forall k :: UploadsTo(s, k, place) ==> k == j
  {
  }

  /** The uploads of s' are those of s, apart from j. */
  lemma {:induction false} OtherUploads(s: State, s': State, j: nat, place: Location)
    requires OnlyJob(s, s', j) && (forall k :: k in s.jobs && k != j ==> k in s'.jobs)
    requires UploadsTo(s, j, place) <==> UploadsTo(s', j, place)
    ensures OfUpload(s, place) <==> OfUpload(s', place)
  {
    if OfUpload(s, place) {
      var k :| UploadsTo(s, k, place);
      assert UploadsTo(s', k, place);
    }
    if OfUpload(s', place) {
      var k :| UploadsTo(s', k, place);
      assert UploadsTo(s, k, place);
    }
  }

  lemma {:induction false} StartUploadOrphans(c: Settings, s: State, j: nat, id: Id, storageType: StorageType, key: string, place: Location)
    requires Inv(s) && NotYetPut(s) && Enabled(c, s, StartUpload(j, id, storageType, key))
    ensures var s' := Apply(c, s, StartUpload(j, id, storageType, key)); NotYetPut(s') && (Orphan(s', place) <==> Orphan(s, place))
  {
    var s' := Apply(c, s, StartUpload(j, id, storageType, key));
    if place in s.objects {
      OtherUploads(s, s', j, place);
    }
  }

  /** The last step of an upload, or its crash: only that of an object put and not recorded leaves it. */
  lemma {:induction false} EndedUploadOrphans(s: State, s': State, j: nat, place: Location)
    requires Inv(s) && NotYetPut(s) && j in s.jobs && s.jobs[j].Upload?
    requires s'.jobs == s.jobs - {j} && s'.objects == s.objects && s'.records == s.records
    ensures NotYetPut(s')
    ensures Orphan(s', place) <==> Orphan(s, place) || (place in s.objects && UploadsTo(s, j, place))
  {
    if place == s.jobs[j].stored.place {
      assert UploadsTo(s, j, place) && UploadGood(s, s.jobs[j]);
      OnlyUpload(s, j, place);
      assert forall k :: UploadsTo(s', k, place) ==> UploadsTo(s, k, place);
    } else {
      OtherUploads(s, s', j, place);
    }
  }

  lemma {:induction false} PutOrphans(s: State, j: nat, ok: bool, place: Location)
    requires Inv(s) && NotYetPut(s) && j in s.jobs && s.jobs[j].Upload? && s.jobs[j].doing.PutObject?
    ensures NotYetPut(StepUpload(s, j, ok)) && (Orphan(StepUpload(s, j, ok), place) <==> Orphan(s, place))
  {
    var s' := StepUpload(s, j, ok);
    if !ok {
      EndedUploadOrphans(s, s', j, place);
    } else {
      var put := s.jobs[j].stored.place;
      OnlyUpload(s, j, put);
      assert forall k :: k in s'.jobs && s'.jobs[k].Upload? && s'.jobs[k].stored.place == put ==> UploadsTo(s, k, put);
      OtherUploads(s, s', j, place);
      assert place == s.jobs[j].stored.place ==> UploadsTo(s, j, place);
    }
  }

  lemma {:induction false} RecordOrphans(s: State, j: nat, ok: bool, place: Location)
    requires Inv(s) && NotYetPut(s) && j in s.jobs && s.jobs[j].Upload? && s.jobs[j].doing.CreateRecord?
    ensures NotYetPut(StepUpload(s, j, ok)) && (Orphan(StepUpload(s, j, ok), place) <==> Orphan(s, place))
  {
    var job, s' := s.jobs[j], StepUpload(s, j, ok);
    assert UploadGood(s, job);
    if !ok {
      OtherUploads(s, s', j, place);
    } else if place == job.stored.place {
      assert UploadsTo(s, j, place) && s'.records[job.id].stored.place == place;
    } else {
      OtherUploads(s, s', j, place);
      assert forall id :: id in s.records ==> id in s'.records && s'.records[id] == s.records[id];
      assert forall id :: id in s'.records && s'.records[id].stored.place == place ==> id in s.records;
    }
  }

  lemma {:induction false} RollBackOrphans(s: State, j: nat, ok: bool, place: Location)
    requires Inv(s) && NotYetPut(s) && j in s.jobs && s.jobs[j].Upload? && s.jobs[j].doing.RollBack?
    ensures NotYetPut(StepUpload(s, j, ok))
    ensures Orphan(StepUpload(s, j, ok), place) <==> Orphan(s, place) || (!ok && place in s.objects && UploadsTo(s, j, place))
  {
    if !ok {
      EndedUploadOrphans(s, Done(s, j), j, place);
    } else if place == s.jobs[j].stored.place {
      assert UploadsTo(s, j, place);
    } else {
      OtherUploads(s, StepUpload(s, j, ok), j, place);
    }
  }

  /** Removals leave nothing behind: a record goes after its object. */
  lemma {:induction false} RemovalOrphans(s: State, s': State, j: nat, gone: set<Id>, place: Location)
    requires Inv(s) && NotYetPut(s) && j in s.jobs && s.jobs[j].Removal? && OnlyJob(s, s', j)
    requires (forall k :: k in s.jobs && k != j ==> k in s'.jobs) && (j in s'.jobs ==> s'.jobs[j].Removal?)
    requires forall id :: id in s'.records <==> id in s.records && id !in gone
    requires forall id :: id in s'.records ==> s'.records[id].stored == s.records[id].stored
    requires forall id :: id in gone && id in s.records ==> s.records[id].stored.place !in s.objects
    requires s'.objects <= s.objects && forall p :: p in s.objects && p !in s'.objects ==> OfRecord(s, p)
    ensures NotYetPut(s') && (Orphan(s', place) <==> Orphan(s, place))
  {
    OtherUploads(s, s', j, place);
    if OfRecord(s, place) && place in s'.objects {
      var id :| id in s.records && s.records[id].stored.place == place;
      assert id in s'.records && s'.records[id].stored.place == place;
    }
    if OfRecord(s', place) {
      var id :| id in s'.records && s'.records[id].stored.place == place;
      assert id in s.records && s.records[id].stored.place == place;
    }
  }

  lemma {:induction false} StepRemovalOrphans(s: State, j: nat, ok: bool, place: Location)
    requires Inv(s) && NotYetPut(s) && j in s.jobs && s.jobs[j].Removal?
    ensures NotYetPut(StepRemoval(s, j, ok)) && (Orphan(StepRemoval(s, j, ok), place) <==> Orphan(s, place))
  {
    var job := s.jobs[j];
    assert RemovalGood(s, job);
    assert forall id :: id in job.succeeded ==> FileGood(s, job, id);
    RemovalOrphans(s, StepRemoval(s, j, ok), j, if job.removing.Purge? && ok then job.succeeded else {}, place);
  }

  lemma {:induction false} DeleteOrphans(s: State, j: nat, id: Id, ok: bool, place: Location)
    requires Inv(s) && NotYetPut(s) && CanDelete(s, j, id)
    ensures NotYetPut(DeleteObject(s, j, id, ok)) && (Orphan(DeleteObject(s, j, id, ok), place) <==> Orphan(s, place))
  {
    assert RemovalGood(s, s.jobs[j]) && FileGood(s, s.jobs[j], id);
    RemovalOrphans(s, DeleteObject(s, j, id, ok), j, {}, place);
  }

  lemma {:induction false} StartRemovalOrphans(c: Settings, s: State, j: nat, ids: set<Id>, place: Location)
    requires Inv(s) && NotYetPut(s) && Enabled(c, s, StartRemoval(j, ids))
    ensures var s' := Apply(c, s, StartRemoval(j, ids)); NotYetPut(s') && (Orphan(s', place) <==> Orphan(s, place))
  {
    OtherUploads(s, Apply(c, s, StartRemoval(j, ids)), j, place);
  }

  lemma {:induction false} StepOrphans(c: Settings, s: State, a: Action, place: Location)
    requires Inv(s) && NotYetPut(s) && Enabled(c, s, a)
    ensures NotYetPut(Apply(c, s, a)) && (Orphan(Apply(c, s, a), place) <==> Orphan(s, place) || Leaves(s, a, place))
  {
    match a
    case StartUpload(j, id, storageType, key) => StartUploadOrphans(c, s, j, id, storageType, key, place);
    case StartRemoval(j, ids) => StartRemovalOrphans(c, s, j, ids, place);
    case DeleteOne(j, id, ok) => DeleteOrphans(s, j, id, ok, place);
    case Crash(j) =>
      if s.jobs[j].Upload? {
        EndedUploadOrphans(s, Done(s, j), j, place);
      } else {
        RemovalOrphans(s, Done(s, j), j, {}, place);
      }
    case Step(j, ok) =>
      if s.jobs[j].Removal? {
        StepRemovalOrphans(s, j, ok, place);
      } else {
        match s.jobs[j].doing {
          case PutObject => PutOrphans(s, j, ok, place);
          case CreateRecord => RecordOrphans(s, j, ok, place);
          case RollBack => RollBackOrphans(s, j, ok, place);
        }
      }
  }

  /** Some step of the run left the object behind. */
  ghost predicate LeftBehind(c: Settings, s: State, acts: seq<Action>, place: Location)
    requires Shaped(s) && ValidRun(c, s, acts, true)
    decreases |acts|
  {
    acts != [] &&
    (Leaves(s, acts[0], place) || (StepKeepsShape(c, s, acts[0]); LeftBehind(c, Apply(c, s, acts[0]), acts[1..], place)))
  }

  lemma {:induction false} RunOrphans(c: Settings, s: State, acts: seq<Action>, place: Location)
    requires Inv(s) && NotYetPut(s) && ValidRun(c, s, acts, true)
    ensures Orphan(Run(c, s, acts, true), place) <==> Orphan(s, place) || LeftBehind(c, s, acts, place)
    decreases |acts|
  {
    if acts != [] {
      StepOrphans(c, s, acts[0], place);
      StepKeepsInv(c, s, acts[0]);
      RunOrphans(c, Apply(c, s, acts[0]), acts[1..], place);
    }
  }

  /** An object is of no record and no upload in flight if and only if it was left behind by the crash
      of its upload or by a rejected roll-back: removals leave none. */
  lemma {:induction false} OrphansExactly(c: Settings, acts: seq<Action>, place: Location)
    requires ValidRun(c, INIT, acts, true)
    ensures Orphan(Run(c, INIT, acts, true), place) <==> LeftBehind(c, INIT, acts, place)
  {
    RunOrphans(c, INIT, acts, place);
  }

  // ---------------------------------------------------------------- overlapping removals

  lemma {:induction false} Extend(c: Settings, s: State, acts: seq<Action>, a: Action, exclusive: bool)
    requires Shaped(s) && ValidRun(c, s, acts, exclusive) && Shaped(Run(c, s, acts, exclusive))
    requires Enabled(c, Run(c, s, acts, exclusive), a) && (exclusive ==> Exclusive(Run(c, s, acts, exclusive), a))
    ensures ValidRun(c, s, acts + [a], exclusive)
    ensures Run(c, s, acts + [a], exclusive) == Apply(c, Run(c, s, acts, exclusive), a)
    ensures Shaped(Run(c, s, acts + [a], exclusive))
    decreases |acts|
  {
    StepKeepsShape(c, Run(c, s, acts, exclusive), a);
    if acts == [] {
      assert ([] + [a])[1..] == [];
      assert ValidRun(c, Apply(c, s, a), [], exclusive) && Run(c, Apply(c, s, a), [], exclusive) == Apply(c, s, a);
    } else {
      StepKeepsShape(c, s, acts[0]);
      assert (acts + [a])[1..] == acts[1..] + [a];
      Extend(c, Apply(c, s, acts[0]), acts[1..], a, exclusive);
    }
  }

  lemma {:induction false} OneMore(c: Settings, s: State, acts: seq<Action>, a: Action, exclusive: bool) returns (more: seq<Action>)
    requires Shaped(s) && ValidRun(c, s, acts, exclusive) && Shaped(Run(c, s, acts, exclusive))
    requires Enabled(c, Run(c, s, acts, exclusive), a) && (exclusive ==> Exclusive(Run(c, s, acts, exclusive), a))
    ensures more == acts + [a] && ValidRun(c, s, more, exclusive)
    ensures Run(c, s, more, exclusive) == Apply(c, Run(c, s, acts, exclusive), a) && Shaped(Run(c, s, more, exclusive))
  {
    Extend(c, s, acts, a, exclusive);
    more := acts + [a];
  }

  lemma {:induction false} Join(c: Settings, s: State, first: seq<Action>, second: seq<Action>, exclusive: bool)
    requires Shaped(s) && ValidRun(c, s, first, exclusive) && Shaped(Run(c, s, first, exclusive))
    requires ValidRun(c, Run(c, s, first, exclusive), second, exclusive)
    ensures ValidRun(c, s, first + second, exclusive)
    ensures Run(c, s, first + second, exclusive) == Run(c, Run(c, s, first, exclusive), second, exclusive)
    decreases |first|
  {
    if first == [] {
      assert first + second == second;
    } else {
      StepKeepsShape(c, s, first[0]);
      assert (first + second)[1..] == first[1..] + second;
      Join(c, Apply(c, s, first[0]), first[1..], second, exclusive);
    }
  }

  /** An exclusive run is a run. */
  lemma {:induction false} Relax(c: Settings, s: State, acts: seq<Action>)
    requires Shaped(s) && ValidRun(c, s, acts, true)
    ensures ValidRun(c, s, acts, false) && Run(c, s, acts, false) == Run(c, s, acts, true)
    decreases |acts|
  {
    if acts != [] {
      StepKeepsShape(c, s, acts[0]);
      Relax(c, Apply(c, s, acts[0]), acts[1..]);
    }
  }

  /** Every deletion of a removal is rejected. */
  lemma {:induction false} AllRejected(c: Settings, s: State, j: nat) returns (acts: seq<Action>)
    requires Shaped(s) && j in s.jobs && s.jobs[j].Removal? && s.jobs[j].removing.DeleteObjects?
    requires forall id :: id in s.jobs[j].pending ==> id in s.jobs[j].files && s.jobs[j].files[id].target.Some?
    ensures ValidRun(c, s, acts, true) && Shaped(Run(c, s, acts, true))
    ensures Run(c, s, acts, true) == With(s, j, s.jobs[j].(pending := {}, failed := s.jobs[j].failed + s.jobs[j].pending))
    decreases s.jobs[j].pending
  {
    var job := s.jobs[j];
    if job.pending == {} {
      acts := [];
      assert job.failed + {} == job.failed && s.jobs[j := job] == s.jobs;
      assert ValidRun(c, s, acts, true) && Run(c, s, acts, true) == s;
    } else {
      var id :| id in job.pending;
      var a := DeleteOne(j, id, false);
      StepKeepsShape(c, s, a);
      var s1 := Apply(c, s, a);
      var rest := AllRejected(c, s1, j);
      acts := [a] + rest;
      assert acts[1..] == rest;
      assert (job.failed + {id}) + (job.pending - {id}) == job.failed + job.pending;
    }
  }

  /** After that the removal shows its files again. */
  lemma {:induction false} AllRestored(c: Settings, s: State, j: nat) returns (acts: seq<Action>)
    requires Shaped(s) && j in s.jobs && s.jobs[j].Removal? && s.jobs[j].removing.DeleteObjects? && s.jobs[j].succeeded == {}
    requires forall id :: id in s.jobs[j].pending ==> id in s.jobs[j].files && s.jobs[j].files[id].target.Some?
    ensures ValidRun(c, s, acts, true)
    ensures var end := Run(c, s, acts, true);
            end.objects == s.objects && end.records == Restored(s.records, s.jobs[j].failed + s.jobs[j].pending)
  {
    acts := AllRejected(c, s, j);
    acts := OneMore(c, s, acts, Step(j, true), true);
    acts := OneMore(c, s, acts, Step(j, true), true);
    acts := OneMore(c, s, acts, Step(j, true), true);
  }

  /** Removal k has not begun to hide, and j starts on a file of it. */
  ghost predicate Overlapping(s: State, j: nat, k: nat, id: Id) {
    && Shaped(s) && j != k
    && j in s.jobs && s.jobs[j].Removal? && s.jobs[j].removing.Hide? && id in s.jobs[j].pending
    && s.jobs[j].succeeded == {} && s.jobs[j].pending == s.jobs[j].files.Keys
    && (forall x :: x in s.jobs[j].files ==> s.jobs[j].files[x].target.Some?)
    && k in s.jobs && s.jobs[k].Removal? && s.jobs[k].removing.Hide? && id in s.jobs[k].pending && id in s.jobs[k].files
    && id in s.records && s.jobs[k].files[id] == s.records[id].stored && Genuine(s.records[id].stored)
  }

  /** Both hide it, and k deletes the object. */
  lemma {:induction false} DeletedByOther(c: Settings, s: State, j: nat, k: nat, id: Id) returns (acts: seq<Action>)
    requires Overlapping(s, j, k, id)
    ensures ValidRun(c, s, acts, true) && Shaped(Run(c, s, acts, true))
    ensures var end := Run(c, s, acts, true);
            && id in end.records && end.records[id].stored.place !in end.objects
            && j in end.jobs && end.jobs[j] == s.jobs[j].(removing := DeleteObjects)
  {
    acts := [];
    assert ValidRun(c, s, acts, true) && Run(c, s, acts, true) == s;
    acts := OneMore(c, s, acts, Step(k, true), true);
    acts := OneMore(c, s, acts, Step(j, true), true);
    acts := OneMore(c, s, acts, DeleteOne(k, id, true), true);
  }

  /** The deletions of j are rejected, and it restores the record without its object. */
  lemma {:induction false} OverlapLoses(c: Settings, s: State, j: nat, k: nat, id: Id) returns (acts: seq<Action>)
    requires Overlapping(s, j, k, id)
    ensures ValidRun(c, s, acts, true) && !ActiveHasObject(Run(c, s, acts, true))
  {
    acts := DeletedByOther(c, s, j, k, id);
    var deleted := Run(c, s, acts, true);
    var more := AllRestored(c, deleted, j);
    Join(c, s, acts, more, true);
    acts := acts + more;
    var end := Run(c, s, acts, true);
    assert end.records[id].active;
  }

  /** Removal k has not begun to hide file id. */
  ghost predicate NotYetHiding(s: State, k: nat, id: Id) {
    && k in s.jobs && s.jobs[k].Removal? && s.jobs[k].removing.Hide? && id in s.jobs[k].pending && id in s.jobs[k].files
    && id in s.records && s.jobs[k].files[id] == s.records[id].stored
  }

  /** So it is with every removal in flight that works on a visible file. */
  lemma {:induction false} VisibleIsNotYetHiding(s: State, k: nat, id: Id)
    requires JobsGood(s) && k in s.jobs && s.jobs[k].Removal? && id in s.jobs[k].files && id in s.records && s.records[id].active
    ensures NotYetHiding(s, k, id)
  {
    assert RemovalGood(s, s.jobs[k]) && FileGood(s, s.jobs[k], id);
  }

  lemma {:induction false} StartOverlaps(c: Settings, s: State, j: nat, ids: set<Id>, k: nat, id: Id)
    requires Shaped(s) && RecordsGood(s) && Enabled(c, s, StartRemoval(j, ids)) && id in ids && NotYetHiding(s, k, id)
    ensures Overlapping(Apply(c, s, StartRemoval(j, ids)), j, k, id)
  {
    StepKeepsShape(c, s, StartRemoval(j, ids));
    assert Snapshot(s, ids).Keys == ids;
  }

  lemma {:induction false} SharedFile(c: Settings, s: State, j: nat, ids: set<Id>) returns (k: nat, id: Id)
    requires Inv(s) && Enabled(c, s, StartRemoval(j, ids)) && !Exclusive(s, StartRemoval(j, ids))
    ensures Overlapping(Apply(c, s, StartRemoval(j, ids)), j, k, id)
  {
    k :| k in s.jobs && s.jobs[k].Removal? && !(ids !! s.jobs[k].files.Keys);
    id :| id in ids && id in s.jobs[k].files;
    VisibleIsNotYetHiding(s, k, id);
    StartOverlaps(c, s, j, ids, k, id);
  }

  /** Starting a removal is safe, in the sense that every further run without overlaps leaves every
      visible record its object, if and only if no removal in flight works on a file of it. */
  lemma {:induction false} StartIsSafeExactly(c: Settings, s: State, j: nat, ids: set<Id>)
    requires Inv(s) && Enabled(c, s, StartRemoval(j, ids))
    ensures var s' := Apply(c, s, StartRemoval(j, ids));
            && Shaped(s')
            && ((forall acts :: ValidRun(c, s', acts, true) ==> ActiveHasObject(Run(c, s', acts, true)))
                <==> Exclusive(s, StartRemoval(j, ids)))
  {
    var s' := Apply(c, s, StartRemoval(j, ids));
    StepKeepsShape(c, s, StartRemoval(j, ids));
    if Exclusive(s, StartRemoval(j, ids)) {
      StepKeepsInv(c, s, StartRemoval(j, ids));
      forall acts | ValidRun(c, s', acts, true)
        ensures ActiveHasObject(Run(c, s', acts, true))
      {
        RunKeepsInv(c, s', acts);
      }
    } else {
      var k, id := SharedFile(c, s, j, ids);
      var acts := OverlapLoses(c, s', j, k, id);
      assert ValidRun(c, s', acts, true);
    }
  }

  /** It can happen: from every good state with a visible file, starting two removals of that file
      can end with the file visible without its object. */
  lemma {:induction false} OverlapLosesObject(c: Settings, s: State, id: Id, j: nat, k: nat) returns (acts: seq<Action>)
    requires Inv(s) && id in s.records && s.records[id].active && j != k && j !in s.jobs && k !in s.jobs
    ensures ValidRun(c, s, acts, false)
    ensures !ActiveHasObject(Run(c, s, acts, false))
  {
    assert {id} <= ActiveIds(s);
    var a, b := StartRemoval(j, {id}), StartRemoval(k, {id});
    var s1 := Apply(c, s, a);
    StepKeepsShape(c, s, a);
    if Exclusive(s, a) {
      StepKeepsInv(c, s, a);
      assert s1.jobs[j].files.Keys == {id};
      var s2 := Apply(c, s1, b);
      var i, x := SharedFile(c, s1, k, {id});
      var rest := OverlapLoses(c, s2, k, i, x);
      Relax(c, s2, rest);
      acts := [a] + ([b] + rest);
      assert acts[1..] == [b] + rest && ([b] + rest)[1..] == rest;
      assert ValidRun(c, s1, [b] + rest, false);
    } else {
      var i, x := SharedFile(c, s, j, {id});
      var rest := OverlapLoses(c, s1, j, i, x);
      Relax(c, s1, rest);
      acts := [a] + rest;
      assert acts[1..] == rest;
    }
  }
}
