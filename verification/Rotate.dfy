/**
 The rotating log writer (internal/adapters/logger/rotate.go) over a directory: file 0 is the
 current file, file k its backup ".k". File operations fail on a missing source only.
 */
module Rotate {
  import opened Bytes

  type Data = seq<byte>
  type Files = map<nat, Data>

  // ----- the directory after a rotation, a write and a run of writes -----

  // Every backup moves one place up, those without a place go, and what lies above them stays.
  function Shift(files: Files, maxBackups: nat): (r: Files)
    ensures 0 in r
  {
    var moved := set k | k in files && k < maxBackups :: k + 1;
    var above := set k | k in files && maxBackups < k;
    map k | k in {0} + moved + above :: if k == 0 then [] else if k <= maxBackups then files[k - 1] else files[k]
  }

  function AfterWrite(files: Files, maxSize: int, maxBackups: nat, record: Data): (r: Files)
    requires 0 in files
    ensures 0 in r
  {
    var f := if |files[0]| + |record| > maxSize then Shift(files, maxBackups) else files;
    f[0 := f[0] + record]
  }

  function AfterWrites(files: Files, maxSize: int, maxBackups: nat, records: seq<Data>): (r: Files)
    requires 0 in files
    ensures 0 in r
  {
    if records == [] then files
    else AfterWrite(AfterWrites(files, maxSize, maxBackups, records[..|records| - 1]), maxSize, maxBackups,
                    records[|records| - 1])
  }

  function Opened(files: Files): Files {
    if 0 in files then files else files[0 := []]
  }

  // File k is the same in both directories, or the file below it in the second one.
  ghost predicate Same(f: Files, g: Files, k: nat) {
    (k in f <==> k in g) && (k in f ==> f[k] == g[k])
  }

  ghost predicate Up(f: Files, g: Files, k: nat)
    requires k > 0
  {
    (k in f <==> k - 1 in g) && (k in f ==> f[k] == g[k - 1])
  }

  lemma ShiftAt(files: Files, maxBackups: nat, k: nat)
    ensures k == 0 ==> k in Shift(files, maxBackups) && Shift(files, maxBackups)[k] == []
    ensures 0 < k <= maxBackups ==> Up(Shift(files, maxBackups), files, k)
    ensures maxBackups < k ==> Same(Shift(files, maxBackups), files, k)
  {
  }

  // The directory is shifted when every file is where it belongs.
  lemma IsShift(files: Files, maxBackups: nat, after: Files)
    requires 0 in after && after[0] == []
    requires forall k :: 0 < k <= maxBackups ==> Up(after, files, k)
    requires forall k :: maxBackups < k ==> Same(after, files, k)
    ensures after == Shift(files, maxBackups)
  {
    hide Shift;
    var shifted := Shift(files, maxBackups);
    forall k: nat ensures Same(shifted, after, k) {
      ShiftAt(files, maxBackups, k);
      assert k == 0 || (0 < k <= maxBackups && Up(after, files, k)) || (maxBackups < k && Same(after, files, k));
    }
    assert forall k :: k in shifted <==> k in after by {
      forall k: nat ensures k in shifted <==> k in after {
        assert Same(shifted, after, k);
      }
    }
    assert forall k :: k in shifted ==> shifted[k] == after[k] by {
      forall k: nat | k in shifted ensures shifted[k] == after[k] {
        assert Same(shifted, after, k);
      }
    }
  }

  function Renamed(files: Files, source: nat, target: nat): Files {
    if source in files then files[target := files[source]] - {source} else files
  }

  // The directory with the backups from number i on moved up.
  ghost predicate Halfway(before: Files, maxBackups: nat, i: nat, files: Files) {
    && i !in files
    && (forall k :: 0 <= k < i || maxBackups < k ==> Same(files, before, k))
    && (forall k :: i < k <= maxBackups ==> Up(files, before, k))
  }

  lemma HalfwayStep(before: Files, maxBackups: nat, i: nat, files: Files)
    requires i < maxBackups && Halfway(before, maxBackups, i + 1, files)
    ensures Halfway(before, maxBackups, i, Renamed(files, i, i + 1))
  {
    var after := Renamed(files, i, i + 1);
    forall k | 0 <= k < i || maxBackups < k ensures Same(after, before, k) {
      assert Same(files, before, k);
    }
    forall k | i < k <= maxBackups ensures Up(after, before, k) {
      assert Same(files, before, i);
      assert k > i + 1 ==> Up(files, before, k);
    }
  }

  lemma HalfwayDone(before: Files, maxBackups: nat, files: Files)
    requires 0 < maxBackups && Halfway(before, maxBackups, 1, files) && 0 in before
    ensures Opened(Renamed(files, 0, 1)) == Shift(before, maxBackups)
  {
    hide Shift;
    HalfwayStep(before, maxBackups, 0, files);
    var moved := Renamed(files, 0, 1);
    var after := Opened(moved);
    forall k | 0 < k <= maxBackups ensures Up(after, before, k) {
      assert Up(moved, before, k);
    }
    forall k | maxBackups < k ensures Same(after, before, k) {
      assert Same(moved, before, k);
    }
    IsShift(before, maxBackups, after);
  }

  // ----- the code -----

  class RotatingWriter {
    const maxSize: int
    const maxBackups: nat
    var files: Files
    var size: nat

    ghost predicate Valid() reads this {
      0 in files && size == |files[0]|
    }

    constructor (directory: Files, maxSizeMB: int, backups: int)
      ensures Valid() && files == Opened(directory)
      ensures maxSize == (if maxSizeMB <= 0 then 5 else maxSizeMB) * 1024 * 1024
      ensures maxBackups == if backups < 0 then 0 else backups
    {
      maxSize := (if maxSizeMB <= 0 then 5 else maxSizeMB) * 1024 * 1024;
      maxBackups := if backups < 0 then 0 else backups;
      files := directory;
      size := 0;
      new;
      Open();
    }

    method Open()
      modifies this
      ensures Valid() && files == Opened(old(files))
    {
      if 0 !in files {
        files := files[0 := []];
      }
      size := |files[0]|;
    }

    method Write(record: Data) returns (n: nat)
      requires Valid()
      modifies this
      ensures Valid() && n == |record|
      ensures files == AfterWrite(old(files), maxSize, maxBackups, record)
    {
      if size + |record| > maxSize {
        RotateFiles();
      }
      files := files[0 := files[0] + record];
      n := |record|;
      size := size + n;
    }

    method Rename(source: nat, target: nat)
      modifies this`files
      ensures files == Renamed(old(files), source, target)
    {
      if source in files {
        files := files[target := files[source]] - {source};
      }
    }

    method RotateFiles()
      requires Valid()
      modifies this
      ensures Valid() && files == Shift(old(files), maxBackups)
    {
      hide Shift;
      if maxBackups <= 0 {
        files := files - {0};
        Open();
        IsShift(old(files), maxBackups, files);
        return;
      }
      files := files - {maxBackups};
      ShiftBackups(old(files));
      HalfwayDone(old(files), maxBackups, files);
      Rename(0, 1);
      Open();
    }

    // The loop over the backups, from the last but one down.
    method ShiftBackups(ghost before: Files)
      requires maxBackups > 0 && files == before - {maxBackups}
      modifies this`files
      ensures Halfway(before, maxBackups, 1, files)
    {
      for i := maxBackups downto 1
        invariant Halfway(before, maxBackups, i, files)
      {
        HalfwayStep(before, maxBackups, i, files);
        Rename(i, i + 1);
      }
    }
  }

  // ----- nothing is lost but the oldest -----

  function File(files: Files, k: nat): Data {
    if k in files then files[k] else []
  }

  // The backups from number k down, oldest first, and then the current file.
  function Log(files: Files, k: nat): Data {
    if k == 0 then File(files, 0) else File(files, k) + Log(files, k - 1)
  }

  function Concat(records: seq<Data>): Data {
    if records == [] then [] else Concat(records[..|records| - 1]) + records[|records| - 1]
  }

  lemma {:induction false} ShiftedLog(files: Files, maxBackups: nat, k: nat)
    requires 0 < k <= maxBackups
    ensures Log(Shift(files, maxBackups), k) == Log(files, k - 1)
  {
    hide Shift;
    ShiftAt(files, maxBackups, k);
    ShiftAt(files, maxBackups, 0);
    if k > 1 {
      ShiftedLog(files, maxBackups, k - 1);
    }
  }

  lemma {:induction false} AppendedLog(files: Files, record: Data, k: nat)
    requires 0 in files
    ensures Log(files[0 := files[0] + record], k) == Log(files, k) + record
  {
    if k > 0 {
      AppendedLog(files, record, k - 1);
    }
  }

  // Opening creates the current file if there is none, and changes nothing else.
  lemma OpenedKeeps(files: Files, k: nat)
    ensures 0 in Opened(files) && (k > 0 ==> (k in Opened(files) <==> k in files))
    ensures File(Opened(files), k) == File(files, k)
  {
  }

  // What one write drops: nothing, or exactly the oldest backup (the current file when there are none).
  lemma WriteDrops(files: Files, maxSize: int, maxBackups: nat, record: Data)
    requires 0 in files
    ensures var dropped := if |files[0]| + |record| > maxSize then File(files, maxBackups) else [];
            dropped + Log(AfterWrite(files, maxSize, maxBackups, record), maxBackups) == Log(files, maxBackups) + record
  {
    hide Shift, Log, File;
    if |files[0]| + |record| > maxSize {
      AppendedLog(Shift(files, maxBackups), record, maxBackups);
      ShiftDrops(files, maxBackups);
      var dropped, kept := File(files, maxBackups), Log(Shift(files, maxBackups), maxBackups);
      assert dropped + (kept + record) == (dropped + kept) + record;
    } else {
      AppendedLog(files, record, maxBackups);
    }
  }

  lemma ShiftDrops(files: Files, maxBackups: nat)
    ensures File(files, maxBackups) + Log(Shift(files, maxBackups), maxBackups) == Log(files, maxBackups)
  {
    hide Shift;
    if maxBackups > 0 {
      ShiftedLog(files, maxBackups, maxBackups);
    } else {
      ShiftAt(files, maxBackups, 0);
    }
  }

  // What a run of writes loses, in front of what it keeps.
  lemma {:induction false} LostAndKept(files: Files, maxSize: int, maxBackups: nat, records: seq<Data>)
    returns (lost: Data)
    requires 0 in files
    ensures lost + Log(AfterWrites(files, maxSize, maxBackups, records), maxBackups)
        == Log(files, maxBackups) + Concat(records)
  {
    hide Shift, AfterWrite, Log, File;
    lost := [];
    if records != [] {
      var before, last := records[..|records| - 1], records[|records| - 1];
      var lost0 := LostAndKept(files, maxSize, maxBackups, before);
      var f := AfterWrites(files, maxSize, maxBackups, before);
      WriteDrops(f, maxSize, maxBackups, last);
      var dropped := if |f[0]| + |last| > maxSize then File(f, maxBackups) else [];
      lost := lost0 + dropped;
      var after := Log(AfterWrites(files, maxSize, maxBackups, records), maxBackups);
      assert lost + after == lost0 + (dropped + after);
      assert lost0 + (Log(f, maxBackups) + last) == (lost0 + Log(f, maxBackups)) + last;
    }
  }

  ghost predicate Suffix(a: Data, b: Data) {
    |a| <= |b| && b[|b| - |a|..] == a
  }

  // Over any run of writes, the backups and the current file are the end of what was there and
  // what was written.
  lemma LogIsSuffix(files: Files, maxSize: int, maxBackups: nat, records: seq<Data>)
    requires 0 in files
    ensures Suffix(Log(AfterWrites(files, maxSize, maxBackups, records), maxBackups),
                   Log(files, maxBackups) + Concat(records))
  {
    hide AfterWrites, Log, Concat;
    var lost := LostAndKept(files, maxSize, maxBackups, records);
  }

  // ----- how much is kept -----

  // The first m backups are there and no others, and no two neighbours fit into one file.
  ghost predicate Filled(files: Files, maxSize: int, maxBackups: nat, m: nat) {
    && m <= maxBackups
    && (forall k :: 0 <= k <= maxBackups ==> (k in files <==> k <= m))
    && (forall k :: 0 <= k < m ==> |File(files, k)| + |File(files, k + 1)| > maxSize)
  }

  lemma FilledStep(files: Files, maxSize: int, maxBackups: nat, m: nat, record: Data)
    requires Filled(files, maxSize, maxBackups, m)
    ensures var after, more := AfterWrite(files, maxSize, maxBackups, record), if m < maxBackups then m + 1 else m;
            Filled(after, maxSize, maxBackups, if |files[0]| + |record| > maxSize then more else m)
  {
    hide Shift;
    ShiftAt(files, maxBackups, 0);
    if |files[0]| + |record| > maxSize {
      assert [] + record == record;
      FilledShift(files, maxSize, maxBackups, m, record);
    } else {
      var after := files[0 := files[0] + record];
      forall k: nat | k < m ensures |File(after, k)| + |File(after, k + 1)| > maxSize {
        assert |File(files, k)| + |File(files, k + 1)| > maxSize;
      }
    }
  }

  lemma FilledShift(files: Files, maxSize: int, maxBackups: nat, m: nat, record: Data)
    requires Filled(files, maxSize, maxBackups, m) && |files[0]| + |record| > maxSize
    ensures Filled(Shift(files, maxBackups)[0 := record], maxSize, maxBackups, if m < maxBackups then m + 1 else m)
  {
    hide Shift;
    var after := Shift(files, maxBackups)[0 := record];
    var m' := if m < maxBackups then m + 1 else m;
    forall k: nat | k <= maxBackups
      ensures k in after <==> k <= m'
      ensures k > 0 ==> File(after, k) == File(files, k - 1)
    {
      ShiftAt(files, maxBackups, k);
    }
    forall k: nat | k < m' ensures |File(after, k)| + |File(after, k + 1)| > maxSize {
      assert File(after, k + 1) == File(files, k);
      assert k > 0 ==> File(after, k) == File(files, k - 1);
    }
  }

  lemma {:induction false} FilledSize(files: Files, maxSize: int, maxBackups: nat, m: nat, k: nat)
    requires Filled(files, maxSize, maxBackups, m) && k <= m
    ensures 2 * |Log(files, k)| >= k * (maxSize + 1) + |File(files, k)|
  {
    if k > 0 {
      FilledSize(files, maxSize, maxBackups, m, k - 1);
      assert |File(files, k - 1)| + |File(files, k)| >= maxSize + 1;
      assert k * (maxSize + 1) == (k - 1) * (maxSize + 1) + (maxSize + 1);
    }
  }

  lemma NoneYet(files: Files, maxSize: int, maxBackups: nat, m: nat)
    requires Filled(files, maxSize, maxBackups, m) && m < maxBackups
    ensures File(files, maxBackups) == []
  {
  }

  lemma {:induction false} FilledRun(files: Files, maxSize: int, maxBackups: nat, records: seq<Data>) returns (m: nat)
    requires 0 in files && Filled(files, maxSize, maxBackups, 0)
    ensures var after := AfterWrites(files, maxSize, maxBackups, records);
            && Filled(after, maxSize, maxBackups, m)
            && (m < maxBackups ==> Log(after, maxBackups) == Log(files, maxBackups) + Concat(records))
  {
    hide AfterWrite, Shift, Log, Filled;
    m := 0;
    if records != [] {
      var before, last := records[..|records| - 1], records[|records| - 1];
      var m0 := FilledRun(files, maxSize, maxBackups, before);
      var f := AfterWrites(files, maxSize, maxBackups, before);
      FilledStep(f, maxSize, maxBackups, m0, last);
      WriteDrops(f, maxSize, maxBackups, last);
      m := if |f[0]| + |last| > maxSize && m0 < maxBackups then m0 + 1 else m0;
      if m < maxBackups {
        NoneYet(f, maxSize, maxBackups, m0);
        assert Log(files, maxBackups) + Concat(records) == (Log(files, maxBackups) + Concat(before)) + last;
      }
    }
  }

  // Started without backups, the log either holds everything or at least half of what its backups
  // can hold, however long the records are.
  lemma HalfIsKept(files: Files, maxSize: int, maxBackups: nat, records: seq<Data>)
    requires 0 in files && forall k :: 0 < k <= maxBackups ==> k !in files
    ensures var log := Log(AfterWrites(files, maxSize, maxBackups, records), maxBackups);
            log == Log(files, maxBackups) + Concat(records) || 2 * |log| >= maxBackups * (maxSize + 1)
  {
    var m := FilledRun(files, maxSize, maxBackups, records);
    if m == maxBackups {
      FilledSize(AfterWrites(files, maxSize, maxBackups, records), maxSize, maxBackups, m, m);
    }
  }

  // ----- no file grows too long -----

  ghost predicate Within(files: Files, bound: int) {
    forall k :: k in files ==> |files[k]| <= bound
  }

  // No file is longer than the longest of maxSize, the records and the files that were there.
  lemma {:induction false} FilesStayWithin(files: Files, maxSize: int, maxBackups: nat, records: seq<Data>, bound: nat)
    requires 0 in files && Within(files, bound) && maxSize <= bound
    requires forall r :: r in records ==> |r| <= bound
    ensures Within(AfterWrites(files, maxSize, maxBackups, records), bound)
  {
    if records != [] {
      var before, last := records[..|records| - 1], records[|records| - 1];
      FilesStayWithin(files, maxSize, maxBackups, before, bound);
      assert last in records;
    }
  }

  // Files above the last backup are never touched.
  lemma {:induction false} OthersStay(files: Files, maxSize: int, maxBackups: nat, records: seq<Data>, k: nat)
    requires 0 in files && maxBackups < k
    ensures var after := AfterWrites(files, maxSize, maxBackups, records);
            (k in after <==> k in files) && File(after, k) == File(files, k)
  {
    if records != [] {
      OthersStay(files, maxSize, maxBackups, records[..|records| - 1], k);
    }
  }
}
