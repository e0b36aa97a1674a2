/**
 * The storage sweep (apps/worker/src/cron/cleanup.cron.ts): the one place that deletes uploaded objects. It reads which
 * files are unreachable, deletes their objects, and only then drops the rows whose delete was fulfilled.
 */
module FileSweep {
  import opened Wrappers

  type Time = int
  type FileId = nat

  const Hour: Time := 3_600
  const SelectLimit: nat := 1_000

  datatype Status = Pending | Completed

  /** An object is a key in one of two buckets. */
  datatype Object = Object(key: string, isPublic: bool)

  datatype File = File(
    storageKey: string, visibility: string, status: Status, createdAt: Time, confirmedAt: Option<Time>, deletedAt: Option<Time>)

  type Files = map<FileId, File>

  /** What becomes of one object delete: gone; failed, but reported as fulfilled; or rejected. */
  datatype Outcome = Removed | Swallowed | Rejected

  function ObjectOf(f: File): Object {
    Object(f.storageKey, f.visibility == "public")
  }

  /** `links` are the files some attachment row points at, in the sweep's snapshot. */
  predicate Unreachable(id: FileId, f: File, links: set<FileId>, now: Time) {
    || (f.status.Pending? && f.createdAt < now - 24 * Hour)
    || f.deletedAt.Some?
    || (f.status.Completed? && f.confirmedAt.Some? && f.confirmedAt.value < now - Hour && id !in links)
  }

  function UnreachableIds(files: Files, links: set<FileId>, now: Time): set<FileId> {
    set id <- files | Unreachable(id, files[id], links, now)
  }

  /** The three ways to be unreachable, in seconds, and the grace each upload has: a day unconfirmed, an hour unlinked. */
  lemma UnreachableRules(id: FileId, f: File, links: set<FileId>, now: Time)
    ensures f.deletedAt != None ==> Unreachable(id, f, links, now)
    ensures f.deletedAt == None && f.status == Pending ==> (Unreachable(id, f, links, now) <==> f.createdAt < now - 86_400)
    ensures f.deletedAt == None && f.status == Completed ==>
              (Unreachable(id, f, links, now) <==>
                id !in links && exists confirmed :: f.confirmedAt == Some(confirmed) && confirmed < now - 3_600)
  {}

  /** The bucket follows the word `public`, and the key is the file's own. */
  lemma ObjectIs(f: File)
    ensures ObjectOf(f).key == f.storageKey
    ensures ObjectOf(f).isPublic <==> f.visibility == "public"
  {}

  /** A file somebody can still open. */
  predicate Live(id: FileId, f: File, links: set<FileId>) {
    f.status.Completed? && f.deletedAt.None? && id in links
  }

  predicate Fulfilled(outcome: Outcome) {
    !outcome.Rejected?
  }

  /** uq_files_storage_key */
  ghost predicate UniqueKeys(files: Files) {
    forall a <- files, b <- files :: files[a].storageKey == files[b].storageKey ==> a == b
  }

  function MinNat(a: nat, b: nat): nat {
    if a <= b then a else b
  }

  function FulfilledIn(ids: set<FileId>, outcomes: FileId -> Outcome): set<FileId> {
    set id <- ids | Fulfilled(outcomes(id))
  }

  function RemovedIn(files: Files, ids: set<FileId>, outcomes: FileId -> Outcome): set<Object> {
    set id <- ids | id in files && outcomes(id).Removed? :: ObjectOf(files[id])
  }

  lemma OneMoreId(files: Files, ids: set<FileId>, outcomes: FileId -> Outcome, id: FileId)
    requires id in files
    ensures FulfilledIn(ids + {id}, outcomes) == FulfilledIn(ids, outcomes) + (if Fulfilled(outcomes(id)) then {id} else {})
    ensures RemovedIn(files, ids + {id}, outcomes)
            == RemovedIn(files, ids, outcomes) + (if outcomes(id).Removed? then {ObjectOf(files[id])} else {})
  {}

  /** One sweep: at most a thousand unreachable files, their objects deleted, and the fulfilled rows dropped. */
  ghost predicate SweepIs(
    files: Files, objects: set<Object>, links: set<FileId>, now: Time, outcomes: FileId -> Outcome, swept: set<FileId>,
    files': Files, objects': set<Object>)
  {
    && swept <= UnreachableIds(files, links, now)
    && |swept| == MinNat(SelectLimit, |UnreachableIds(files, links, now)|)
    && files' == files - FulfilledIn(swept, outcomes)
    && objects' == objects - RemovedIn(files, swept, outcomes)
  }

  /** A sweep takes every unreachable file, or a thousand of them. */
  lemma SweepTakes(
    files: Files, objects: set<Object>, links: set<FileId>, now: Time, outcomes: FileId -> Outcome, swept: set<FileId>,
    files': Files, objects': set<Object>)
    requires SweepIs(files, objects, links, now, outcomes, swept, files', objects')
    ensures swept == UnreachableIds(files, links, now) || (|swept| == 1_000 && swept < UnreachableIds(files, links, now))
    ensures |swept| <= 1_000
  {
    var all := UnreachableIds(files, links, now);
    var rest := all - swept;
    assert all == swept + rest;
    if rest == {} { assert swept == all; }
  }

  class Storage {
    var files: Files
    var objects: set<Object>

    constructor (files: Files, objects: set<Object>)
      ensures this.files == files && this.objects == objects
    {
      this.files, this.objects := files, objects;
    }

    /** The select, whose rows are the plan's choice. */
    method SelectUnreachable(links: set<FileId>, now: Time) returns (rows: seq<FileId>, picked: set<FileId>)
      ensures forall id :: id in rows <==> id in picked
      ensures picked <= UnreachableIds(files, links, now)
      ensures |picked| == MinNat(SelectLimit, |UnreachableIds(files, links, now)|)
    {
      var found := set id <- files | Unreachable(id, files[id], links, now);
      rows, picked := [], {};
      while |picked| < SelectLimit && picked < found
        invariant picked <= found && |picked| <= SelectLimit
        invariant forall id :: id in rows <==> id in picked
        decreases found - picked
      {
        var id :| id in found && id !in picked;
        rows := rows + [id];
        picked := picked + {id};
      }
      SubsetSize(picked, found);
      assert |picked| < SelectLimit ==> picked == found;
      assert found == UnreachableIds(files, links, now);
    }

    /** One object delete: the provider's answer decides what is gone. */
    method DeleteObject(target: Object, outcome: Outcome)
      modifies this`objects
      ensures objects == if outcome.Removed? then old(objects) - {target} else old(objects)
    {
      if outcome.Removed? { objects := objects - {target}; }
    }

    method Sweep(links: set<FileId>, now: Time, outcomes: FileId -> Outcome) returns (swept: set<FileId>)
      modifies this
      ensures SweepIs(old(files), old(objects), links, now, outcomes, swept, files, objects)
    {
      var rows;
      rows, swept := SelectUnreachable(links, now);
      var deletedIds: set<FileId> := {};
      ghost var done: set<FileId> := {};
      for i := 0 to |rows|
        invariant files == old(files) && forall id :: id in done <==> id in rows[..i]
        invariant deletedIds == FulfilledIn(done, outcomes)
        invariant objects == old(objects) - RemovedIn(files, done, outcomes)
      {
        var id := rows[i];
        assert id in swept;
        DeleteObject(ObjectOf(files[id]), outcomes(id));
        if Fulfilled(outcomes(id)) { deletedIds := deletedIds + {id}; }
        OneMoreId(files, done, outcomes, id);
        done := done + {id};
      }
      assert done == swept;
      files := files - deletedIds;
    }
  }

  lemma SubsetSize(a: set<FileId>, b: set<FileId>)
    requires a <= b
    ensures |a| <= |b|
  {
    assert b == a + (b - a);
  }

  // ── What any number of sweeps keeps ────────────────────────────────────────

  /** A file that can be opened is never selected, and it keeps its row and its object. */
  lemma LiveFilesSurvive(
    files: Files, objects: set<Object>, links: set<FileId>, now: Time, outcomes: FileId -> Outcome, swept: set<FileId>,
    files': Files, objects': set<Object>, id: FileId)
    requires UniqueKeys(files) && SweepIs(files, objects, links, now, outcomes, swept, files', objects')
    requires id in files && Live(id, files[id], links)
    ensures id !in swept && id in files' && files'[id] == files[id]
    ensures ObjectOf(files[id]) in objects' <==> ObjectOf(files[id]) in objects
    ensures UniqueKeys(files')
  {
    assert !Unreachable(id, files[id], links, now);
    forall other <- swept ensures ObjectOf(files[other]) != ObjectOf(files[id]) {
      assert files[other].storageKey == files[id].storageKey ==> other == id;
    }
  }

  /** Every object has a row that names it: nothing in the buckets has been forgotten. */
  ghost predicate NoOrphans(files: Files, objects: set<Object>) {
    forall o <- objects :: exists id <- files :: ObjectOf(files[id]) == o
  }

  /** A row is dropped only once its delete was fulfilled, so a rejected delete is retried by a later sweep. */
  lemma RejectedRowsStay(
    files: Files, objects: set<Object>, links: set<FileId>, now: Time, outcomes: FileId -> Outcome, swept: set<FileId>,
    files': Files, objects': set<Object>, id: FileId)
    requires SweepIs(files, objects, links, now, outcomes, swept, files', objects') && id in files
    ensures id !in files' <==> id in swept && Fulfilled(outcomes(id))
    ensures outcomes(id).Rejected? ==> id in files' && (id in UnreachableIds(files, links, now) ==> id in UnreachableIds(files', links, now))
  {}

  /**
   * No object is ever forgotten exactly when no delete that failed was reported as fulfilled: a sweep leaves an object
   * that no row names if and only if it swallowed the failure of a delete whose object was there.
   */
  lemma OrphansIffSwallowed(
    files: Files, objects: set<Object>, links: set<FileId>, now: Time, outcomes: FileId -> Outcome, swept: set<FileId>,
    files': Files, objects': set<Object>)
    requires UniqueKeys(files) && NoOrphans(files, objects)
    requires SweepIs(files, objects, links, now, outcomes, swept, files', objects')
    ensures NoOrphans(files', objects') <==>
              forall id <- swept :: id in files && outcomes(id).Swallowed? ==> ObjectOf(files[id]) !in objects
  {
    if forall id <- swept :: id in files && outcomes(id).Swallowed? ==> ObjectOf(files[id]) !in objects {
      forall o <- objects' ensures exists id <- files' :: ObjectOf(files'[id]) == o {
        var id :| id in files && ObjectOf(files[id]) == o;
        assert id in files' by { assert id in swept ==> outcomes(id).Rejected?; }
      }
    } else {
      var id :| id in swept && id in files && outcomes(id).Swallowed? && ObjectOf(files[id]) in objects;
      var o := ObjectOf(files[id]);
      forall other <- swept | outcomes(other).Removed? ensures ObjectOf(files[other]) != o { KeysTell(files, other, id); }
      assert o in objects';
      forall other <- files' ensures ObjectOf(files'[other]) != o { KeysTell(files, other, id); }
    }
  }

  /** One abandoned upload whose object cannot be deleted is enough: the row goes, the object stays, and nothing names it. */
  lemma SwallowedDeleteLeavesAnOrphan(f: File, now: Time)
    requires f.status.Pending? && f.createdAt < now - 24 * Hour
    ensures var files: Files, objects := map[0 := f], {ObjectOf(f)};
            && UniqueKeys(files) && NoOrphans(files, objects)
            && SweepIs(files, objects, {}, now, (_: FileId) => Swallowed, {0}, map[], objects)
            && !NoOrphans(map[], objects)
  {
    var files: Files, objects, outcomes := map[0 := f], {ObjectOf(f)}, (_: FileId) => Swallowed;
    assert files[0] == f && ObjectOf(f) in objects;
    assert UnreachableIds(files, {}, now) == {0};
    assert FulfilledIn({0}, outcomes) == {0} && RemovedIn(files, {0}, outcomes) == {};
    assert files - {0} == map[];
  }

  lemma KeysTell(files: Files, a: FileId, b: FileId)
    requires UniqueKeys(files) && a in files && b in files && a != b
    ensures ObjectOf(files[a]) != ObjectOf(files[b])
  {}
}
