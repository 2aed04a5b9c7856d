/** One device: its folder on disk, its folder settings and its database. */
module Devices {
  import opened Wrappers
  import opened Domain
  import opened StateTables
  import RelativePaths
  import Sums

  /** Paths below the top-level `.syncer` directory are not part of `disk`. */
  datatype Device = Device(
    id: DeviceId,
    mode: FolderMode,
    maxBytes: nat,
    disk: map<Path, Content>,
    tables: Tables)
  {
    function WithFile(path: Path, content: Content, record: FileRecord): Device {
      this.(disk := disk[path := content], tables := Upsert(tables, path, record))
    }

    function WithOperations(operations: seq<Operation>): Device {
      this.(tables := tables.(operations := operations))
    }
  }

  function Scan(d: Device): Device {
    d.(tables := ScanTables(d.tables, d.disk, d.id))
  }

  /** A scan changes the files table and nothing else. */
  lemma ScanChangesTheIndexOnly(d: Device)
    ensures var s := Scan(d);
      && s == d.(tables := s.tables)
      && s.tables == d.tables.(files := s.tables.files, scanMissing := s.tables.scanMissing)
  {
    ScanKeepsOtherTables(d.tables, d.disk, d.id);
  }

  function Sizes(files: map<Path, FileRecord>): map<Path, nat> {
    map p | p in files :: files[p].size
  }

  /** `indexed_bytes` of `folder_status`: every record counts, missing ones too. */
  ghost function IndexedBytes(d: Device): nat {
    Sums.Sum(Sizes(d.tables.files))
  }

  ghost function Remaining(d: Device): nat {
    SaturatingSub(d.maxBytes, IndexedBytes(d))
  }

  // ------------------------------------------------------------------
  // Index and disk
  // ------------------------------------------------------------------

  predicate Describes(record: FileRecord, content: Content) {
    record.kind == File && record.size == |content| && record.hash == Some(Blake3(content))
  }

  /** The available records are exactly the files on disk, with their true size
      and hash; every other record is a missing one. */
  ghost predicate Agrees(d: Device) {
    && (forall p :: p in d.disk <==> p in d.tables.files && d.tables.files[p].state == LocalAvailable)
    && (forall p :: p in d.disk ==> Describes(d.tables.files[p], d.disk[p]))
    && (forall p :: p in d.tables.files && p !in d.disk ==> d.tables.files[p].state == UnsynchronizedLocalMissing)
    && PlainNames(d)
  }

  /** Every file and every record has a path that parsing leaves alone, so that a
      scan, a request and a plan all call it by the name it has on disk. */
  ghost predicate PlainNames(d: Device) {
    forall p {:trigger RelativePaths.Plain(p)} :: p in d.disk || p in d.tables.files ==> RelativePaths.Plain(p)
  }

  /** No code path of the agent writes a `skipped_folder_limit` row into the files table. */
  ghost predicate NoSkippedRows(d: Device) {
    forall p :: p in d.tables.files ==> d.tables.files[p].state != SkippedFolderLimit
  }

  /** What every device has before and after each step of the agent. */
  ghost predicate Sound(d: Device) {
    NoSkippedRows(d) && PlainNames(d)
  }

  /** Every file on disk is indexed with its size, whatever the record's state. */
  ghost predicate Covered(d: Device) {
    forall p :: p in d.disk ==> p in d.tables.files && d.tables.files[p].size == |d.disk[p]|
  }

  /** Equal up to the generation and device columns. */
  ghost predicate SameIndex(a: map<Path, FileRecord>, b: map<Path, FileRecord>) {
    && a.Keys == b.Keys
    && forall p :: p in a ==>
         a[p].kind == b[p].kind && a[p].size == b[p].size && a[p].hash == b[p].hash && a[p].state == b[p].state
  }

  /** Index and disk agree about one path. */
  ghost predicate AgreesAt(d: Device, p: Path) {
    && (p in d.disk <==> p in d.tables.files && d.tables.files[p].state == LocalAvailable)
    && (p in d.disk ==> Describes(d.tables.files[p], d.disk[p]))
    && (p in d.tables.files && p !in d.disk ==> d.tables.files[p].state == UnsynchronizedLocalMissing)
  }

  lemma AgreesPathByPath(d: Device)
    ensures Agrees(d) <==> PlainNames(d) && forall p :: AgreesAt(d, p)
  {
    if forall p :: AgreesAt(d, p) {
      forall p ensures
        && (p in d.disk <==> p in d.tables.files && d.tables.files[p].state == LocalAvailable)
        && (p in d.disk ==> Describes(d.tables.files[p], d.disk[p]))
        && (p in d.tables.files && p !in d.disk ==> d.tables.files[p].state == UnsynchronizedLocalMissing)
      {
        assert AgreesAt(d, p);
      }
    }
  }

  /** A scan makes them agree about every path. */
  lemma ScanAgreesAt(d: Device, p: Path)
    requires NoSkippedRows(d)
    ensures AgreesAt(Scan(d), p)
  {
    ScanAt(d.tables, d.disk, d.id, p);
  }

  predicate SameSettings(a: Device, b: Device) {
    a.id == b.id && a.mode == b.mode && a.maxBytes == b.maxBytes
  }

  predicate SameQueue(a: Device, b: Device) {
    a.tables.operations == b.tables.operations && a.tables.nextId == b.tables.nextId
  }

  lemma PlainAt(d: Device, path: Path)
    requires Agrees(d) && (path in d.disk || path in d.tables.files)
    ensures RelativePaths.Plain(path)
  {
  }

  lemma ScanAgrees(d: Device)
    requires Sound(d)
    ensures Agrees(Scan(d))
  {
    forall p ensures var s := Scan(d);
      && (p in s.tables.files <==> p in d.tables.files || p in d.disk)
      && (p in d.disk ==> s.tables.files[p] == Scanned(d.disk[p], d.id))
      && (p in d.tables.files && p !in d.disk ==> s.tables.files[p].state == UnsynchronizedLocalMissing)
    {
      ScanAt(d.tables, d.disk, d.id, p);
    }
  }

  /** A scan of an agreeing device changes nothing but generations and devices. */
  lemma RescanKeeps(d: Device)
    requires Agrees(d)
    ensures Agrees(Scan(d)) && SameIndex(Scan(d).tables.files, d.tables.files)
  {
    ScanAgrees(d);
    forall p ensures var s := Scan(d);
      && (p in s.tables.files <==> p in d.tables.files)
      && (p in d.disk ==> s.tables.files[p] == Scanned(d.disk[p], d.id))
      && (p in d.tables.files && p !in d.disk ==>
            s.tables.files[p] == d.tables.files[p].(state := UnsynchronizedLocalMissing))
    {
      ScanAt(d.tables, d.disk, d.id, p);
    }
  }

  lemma SameIndexSameBytes(a: Device, b: Device)
    requires SameIndex(a.tables.files, b.tables.files)
    ensures IndexedBytes(a) == IndexedBytes(b)
  {
    assert Sizes(a.tables.files) == Sizes(b.tables.files);
  }

  /** Scanning a covered device leaves the indexed bytes alone. */
  lemma ScanKeepsBytes(d: Device)
    requires Covered(d)
    ensures Covered(Scan(d)) && IndexedBytes(Scan(d)) == IndexedBytes(d)
  {
    forall p ensures var s := Scan(d);
      && (p in s.tables.files <==> p in d.tables.files)
      && (p in d.tables.files ==> s.tables.files[p].size == d.tables.files[p].size)
    {
      ScanAt(d.tables, d.disk, d.id, p);
    }
    assert Sizes(Scan(d).tables.files) == Sizes(d.tables.files);
  }

  /** Writing a record adds its size and drops that of the record it replaces. */
  lemma UpsertBytes(d: Device, path: Path, content: Content, record: FileRecord)
    ensures var after := d.WithFile(path, content, record);
      && (path !in d.tables.files ==> IndexedBytes(after) == IndexedBytes(d) + record.size)
      && (path in d.tables.files ==> IndexedBytes(after) + d.tables.files[path].size == IndexedBytes(d) + record.size)
  {
    Sums.SumUpdate(Sizes(d.tables.files), path, record.size);
    assert Sizes(d.WithFile(path, content, record).tables.files) == Sizes(d.tables.files)[path := record.size];
  }

  lemma WriteAgrees(d: Device, path: Path, content: Content, record: FileRecord)
    requires Agrees(d) && Describes(record, content) && record.state == LocalAvailable && RelativePaths.Plain(path)
    ensures Agrees(d.WithFile(path, content, record))
  {
  }
}
