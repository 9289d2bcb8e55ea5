/** Crash-safe file replacement (src/fsutil.rs), at the level of process crashes: every system call may fail,
    the process may die between or during any two, and a rename either happens or has no effect. */
module AtomicWrite {
  import opened Basics

  type Bytes = seq<bv8>
  /** The content of a directory entry; a torn one is what a create, write or copy left unfinished. */
  datatype File = Whole(data: Bytes) | Torn(data: Bytes)
  /** A directory entry: the path being written, its `.tmp`, `.recovery.tmp` and `.bak` siblings, any other. */
  datatype Entry = Live | Tmp | Recovery | Bak | Other(name: string)
  type Dir = map<Entry, File>

  /** What the system does with one call. `partial` is what a crash in the middle of a write or copy would leave,
      `damage` what a failed one left behind, if it touched its target. */
  datatype Fate = Works(partial: Bytes) | Fails(damage: Option<Bytes>)

  /** The directory at an instant, and the content last renamed into place. */
  datatype Snapshot = Snapshot(dir: Dir, last: Option<Bytes>)
  datatype Outcome = Ok | Err

  /** What a reader who falls back on the `.bak` sibling finds. */
  function Survivor(dir: Dir): Option<File> {
    if Live in dir then Some(dir[Live]) else if Bak in dir then Some(dir[Bak]) else None
  }

  /** The last content put in place is whole where a reader finds it, and the path itself is never torn. */
  predicate Safe(s: Snapshot) {
    && (s.last.Some? ==> Survivor(s.dir) == Some(Whole(s.last.value)))
    && (Live in s.dir ==> s.last.Some?)
  }

  const OWN := {Live, Tmp, Recovery, Bak}

  /** Entries other than the path and its three siblings are the same. */
  ghost predicate SameElsewhere(d: Dir, d': Dir) { SameBut(d, d', OWN) }

  ghost predicate SameBut(d: Dir, d': Dir, touched: set<Entry>) {
    forall e :: e !in touched ==> (e in d <==> e in d') && (e in d && e in d' ==> d[e] == d'[e])
  }

  /** What holds of the directory at every instant of a write that began at `s0`. */
  ghost predicate Midway(s: Snapshot, s0: Snapshot, contents: Bytes) {
    && Safe(s)
    && SameElsewhere(s0.dir, s.dir)
    && (s.last == s0.last || s.last == Some(contents))
  }

  /** After a failed write: the path keeps its entry, or is absent with the entry at `.bak` and the new content, whole,
      at `.recovery.tmp`. */
  predicate LiveOrSetAside(d: Dir, d': Dir, contents: Bytes) {
    && (Live in d' ==> Live in d && d'[Live] == d[Live])
    && (Live in d && Live !in d' ==>
      Bak in d' && d'[Bak] == d[Live] && Recovery in d' && d'[Recovery] == Whole(contents))
  }

  /** A recovered write leaves no temporary, nor the `.bak` it made of a live file. */
  predicate NoSiblings(d: Dir, d': Dir) { Tmp !in d' && Recovery !in d' && (Live in d ==> Bak !in d') }

  // ----- What one call may do to the directory, and why each such effect is safe -----

  lemma SiblingIsSafe(s: Snapshot, s0: Snapshot, contents: Bytes, n: Entry, file: File)
    requires Midway(s, s0, contents) && n in {Tmp, Recovery}
    ensures Midway(Snapshot(s.dir[n := file], s.last), s0, contents)
    ensures Midway(Snapshot(s.dir - {n}, s.last), s0, contents)
  {
  }

  lemma ClearingBakIsSafe(s: Snapshot, s0: Snapshot, contents: Bytes)
    requires Midway(s, s0, contents) && Live in s.dir
    ensures Midway(Snapshot(s.dir - {Bak}, s.last), s0, contents)
  {
  }

  lemma MovingAsideIsSafe(s: Snapshot, s0: Snapshot, contents: Bytes)
    requires Midway(s, s0, contents) && Live in s.dir
    ensures Midway(Snapshot(s.dir[Bak := s.dir[Live]] - {Live}, s.last), s0, contents)
  {
  }

  lemma PuttingInPlaceIsSafe(s: Snapshot, s0: Snapshot, contents: Bytes, from: Entry)
    requires Midway(s, s0, contents) && from in {Tmp, Recovery} && from in s.dir && s.dir[from] == Whole(contents)
    ensures Midway(Snapshot(s.dir[Live := s.dir[from]] - {from}, Some(contents)), s0, contents)
  {
  }

  class Disk {
    const windows: bool
    /** What the system will do with the n-th call. */
    const fate: nat -> Fate
    var calls: nat
    var dir: Dir
    var last: Option<Bytes>
    /** The directory after each call, and in the middle of each that fills a file. */
    var trace: seq<Snapshot>
    /** The write in progress: its content, the directory it began on, and where it began in the trace. */
    var writing: Bytes
    var began: Snapshot
    var since: nat

    constructor (windows: bool, fate: nat -> Fate, dir: Dir, last: Option<Bytes>)
      ensures this.windows == windows && this.fate == fate
      ensures this.dir == dir && this.last == last && trace == [] && calls == 0 && since == 0
    {
      this.windows, this.fate := windows, fate;
      this.dir, this.last, trace, calls := dir, last, [], 0;
      writing, began, since := [], Snapshot(dir, last), 0;
    }

    function Now(): Snapshot reads this { Snapshot(dir, last) }

    /** Now, and at every instant since the write began, the directory is safely midway. */
    ghost predicate Sound() reads this {
      && since <= |trace|
      && Midway(Now(), began, writing)
      && forall k :: since <= k < |trace| ==> Midway(trace[k], began, writing)
    }

    // ----- System calls -----

    method Create(n: Entry) returns (ok: bool)
      requires Sound() && n in {Tmp, Recovery}
      modifies this`calls, this`dir, this`trace
      ensures Sound() && calls == old(calls) + 1 && ok == fate(old(calls)).Works?
      ensures ok ==> dir == old(dir)[n := Torn([])]
      ensures !ok ==> dir == old(dir) || exists damage :: dir == old(dir)[n := Torn(damage)]
    {
      ok := fate(calls).Works?;
      var damage := if ok then Some([]) else fate(calls).damage;
      if damage.Some? {
        SiblingIsSafe(Now(), began, writing, n, Torn(damage.value));
        dir := dir[n := Torn(damage.value)];
      }
      calls := calls + 1;
      trace := trace + [Now()];
    }

    /** Fills an entry step by step: `write_all` on an open file, or `copy` into a new one. */
    method Fill(n: Entry, contents: Bytes) returns (ok: bool)
      requires Sound() && n in {Tmp, Recovery}
      modifies this`calls, this`dir, this`trace
      ensures Sound() && calls == old(calls) + 1 && ok == fate(old(calls)).Works?
      ensures ok ==> dir == old(dir)[n := Whole(contents)]
      ensures !ok ==> dir == old(dir) || exists damage :: dir == old(dir)[n := Torn(damage)]
    {
      ok := fate(calls).Works?;
      if ok {
        var part := Torn(fate(calls).partial);
        SiblingIsSafe(Now(), began, writing, n, part);
        trace := trace + [Snapshot(dir[n := part], last)];
        SiblingIsSafe(Now(), began, writing, n, Whole(contents));
        dir := dir[n := Whole(contents)];
      } else if fate(calls).damage.Some? {
        SiblingIsSafe(Now(), began, writing, n, Torn(fate(calls).damage.value));
        dir := dir[n := Torn(fate(calls).damage.value)];
      }
      calls := calls + 1;
      trace := trace + [Now()];
    }

    /** A call with no effect on the entries: stat, mkdir of the parent, open, sync. */
    method Attempt() returns (ok: bool)
      modifies this`calls
      ensures calls == old(calls) + 1 && ok == fate(old(calls)).Works?
    {
      ok := fate(calls).Works?;
      calls := calls + 1;
    }

    /** `exists()` answers false for an entry it could not stat. */
    method Exists(n: Entry) returns (found: bool)
      modifies this`calls
      ensures calls == old(calls) + 1 && found == (fate(old(calls)).Works? && n in dir)
    {
      found := fate(calls).Works? && n in dir;
      calls := calls + 1;
    }

    method Remove(n: Entry) returns (ok: bool)
      requires Sound() && (n in {Tmp, Recovery} || (n == Bak && Live in dir))
      modifies this`calls, this`dir, this`trace
      ensures Sound() && calls == old(calls) + 1 && ok == (fate(old(calls)).Works? && n in old(dir))
      ensures dir == if ok then old(dir) - {n} else old(dir)
    {
      ok := fate(calls).Works? && n in dir;
      if ok {
        if n == Bak {
          ClearingBakIsSafe(Now(), began, writing);
        } else {
          SiblingIsSafe(Now(), began, writing, n, Torn([]));
        }
        dir := dir - {n};
      }
      calls := calls + 1;
      trace := trace + [Now()];
    }

    method Rename(from: Entry, to: Entry) returns (ok: bool)
      requires Sound() && from in dir
      requires
        || (from == Live && to == Bak)
        || (from in {Tmp, Recovery} && to == Live && dir[from] == Whole(writing))
      modifies this`calls, this`dir, this`last, this`trace
      ensures Sound() && calls == old(calls) + 1 && ok == fate(old(calls)).Works?
      ensures dir == if ok then old(dir)[to := old(dir)[from]] - {from} else old(dir)
      ensures last == if ok && to == Live then Some(old(dir)[from].data) else old(last)
    {
      ok := fate(calls).Works?;
      if ok {
        if to == Live {
          PuttingInPlaceIsSafe(Now(), began, writing, from);
          last := Some(dir[from].data);
        } else {
          MovingAsideIsSafe(Now(), began, writing);
        }
        dir := dir[to := dir[from]] - {from};
      }
      calls := calls + 1;
      trace := trace + [Now()];
    }

    // ----- The two operations -----

    /** One of `n` calls works. */
    predicate SomeWork(first: nat, n: nat)
      decreases n
    {
      n > 0 && (fate(first).Works? || SomeWork(first + 1, n - 1))
    }

    /** How many of at most `n` attempts are made: up to the first that works. */
    function Tries(first: nat, n: nat): nat
      decreases n
    {
      if n == 0 then 0 else if fate(first).Works? then 1 else 1 + Tries(first + 1, n - 1)
    }

    ghost predicate AllWorkFrom(first: nat) { forall i: nat :: i >= first ==> fate(i).Works? }

    function Attempts(): nat { if windows then 5 else 1 }

    // When a write that began with this call leaves the path empty, stage by stage.

    /** Removal of a stale `.bak`, then a rename of the live file works and the final rename does not. */
    predicate FlipEmpties(first: nat) {
      SomeWork(first + 1, Attempts()) && !fate(first + 1 + Tries(first + 1, Attempts())).Works?
    }

    /** The file is seen to exist, the copy succeeds, its reopening and sync may fail, and the flip empties. */
    predicate RecoveryEmpties(first: nat) {
      && fate(first + 1).Works? && fate(first + 2).Works?
      && FlipEmpties(if fate(first + 3).Works? then first + 5 else first + 4)
    }

    /** `.tmp` is written, the plain rename fails, and the recovery empties. */
    predicate StagedEmpties(first: nat) {
      && fate(first).Works? && fate(first + 1).Works? && fate(first + 2).Works?
      && !fate(first + 3).Works? && RecoveryEmpties(first + 4)
    }

    /** The parent is there or is made, and the staged write empties. */
    predicate WriteEmpties(first: nat) {
      if fate(first).Works? then StagedEmpties(first + 1) else fate(first + 1).Works? && StagedEmpties(first + 2)
    }

    // When a write that began with this call succeeds, stage by stage. `live` says whether the path has a file.

    /** The call that renames `.recovery.tmp` into place, after the live file was set aside if it was seen. */
    function FinalRename(first: nat, seen: bool): nat {
      if seen then first + 1 + Tries(first + 1, Attempts()) else first
    }

    predicate RecoverySucceeds(first: nat, live: bool) {
      && fate(first + 2).Works?
      && fate(FinalRename(if fate(first + 3).Works? then first + 5 else first + 4,
        fate(first + 1).Works? && live)).Works?
    }

    predicate StagedSucceeds(first: nat, live: bool) {
      && fate(first).Works? && fate(first + 1).Works? && fate(first + 2).Works?
      && (fate(first + 3).Works? || RecoverySucceeds(first + 4, live))
    }

    predicate WriteSucceeds(first: nat, live: bool) {
      if fate(first).Works? then StagedSucceeds(first + 1, live)
      else fate(first + 1).Works? && StagedSucceeds(first + 2, live)
    }

    /** Setting aside is tried five times on Windows and once elsewhere, up to the first that works. */
    lemma {:induction false} TriesUntilItWorks(first: nat, n: nat)
      ensures SomeWork(first, n) <==> exists i: nat :: first <= i < first + n && fate(i).Works?
      ensures SomeWork(first, n) ==>
        && 0 < Tries(first, n) <= n && fate(first + Tries(first, n) - 1).Works?
        && forall i: nat :: first <= i < first + Tries(first, n) - 1 ==> !fate(i).Works?
      ensures !SomeWork(first, n) ==> Tries(first, n) == n
      decreases n
    {
      if n > 0 && !fate(first).Works? { TriesUntilItWorks(first + 1, n - 1); }
    }

    /** With the content staged, no one failing call keeps it from its place. */
    lemma OneFailureIsSurvived(first: nat, k: nat, live: bool)
      requires k >= first + 4 && forall i: nat :: i >= first && i != k ==> fate(i).Works?
      ensures WriteSucceeds(first, live)
    {
      assert fate(first).Works? && fate(first + 1).Works? && fate(first + 2).Works? && fate(first + 3).Works?;
      if k == first + 4 {
        assert fate(first + 7).Works? && fate(first + 8).Works?;
        TriesUntilItWorks(first + 11, Attempts());
      }
    }

    method WriteAtomic(contents: Bytes) returns (outcome: Outcome)
      requires Safe(Now())
      modifies this
      // Every instant a crash could expose.
      ensures Sound() && since == |old(trace)| && began == old(Now()) && writing == contents
      // Success and failure.
      ensures outcome == Ok ==> last == Some(contents) && Live in dir && dir[Live] == Whole(contents)
      ensures outcome == Err ==> last == old(last) && LiveOrSetAside(old(dir), dir, contents)
      ensures (outcome == Ok) == WriteSucceeds(old(calls), Live in old(dir))
      ensures AllWorkFrom(old(calls)) ==>
        outcome == Ok && SameBut(old(dir)[Live := Whole(contents)], dir, {Tmp}) && Tmp !in dir
      // A failure empties the path exactly when setting aside works and the final rename does not.
      ensures Live in old(dir) ==> (Live !in dir <==> WriteEmpties(old(calls)))
    {
      writing, began, since := contents, Now(), |trace|;
      var ready := ParentReady();
      if !ready { return Err; }
      outcome := WriteStaged();
    }

    /** Writes `.tmp`, and renames it into place. */
    method WriteStaged() returns (outcome: Outcome)
      requires Sound()
      modifies this`calls, this`dir, this`last, this`trace
      ensures Sound()
      ensures outcome == Ok ==> last == Some(writing) && Live in dir && dir[Live] == Whole(writing)
      ensures outcome == Err ==> last == old(last) && LiveOrSetAside(old(dir), dir, writing)
      ensures (outcome == Ok) == StagedSucceeds(old(calls), Live in old(dir))
      ensures AllWorkFrom(old(calls)) ==>
        outcome == Ok && SameBut(old(dir)[Live := Whole(writing)], dir, {Tmp}) && Tmp !in dir
      ensures Live in old(dir) ==> (Live !in dir <==> StagedEmpties(old(calls)))
    {
      var staged := StageTmp();
      if !staged { return Err; }
      outcome := RenameIntoPlace();
    }

    /** The atomic flip, or the recovery path when it fails. */
    method RenameIntoPlace() returns (outcome: Outcome)
      requires Sound() && Tmp in dir && dir[Tmp] == Whole(writing)
      modifies this`calls, this`dir, this`last, this`trace
      ensures Sound()
      ensures outcome == Ok ==> last == Some(writing) && Live in dir && dir[Live] == Whole(writing)
      ensures outcome == Err ==> last == old(last) && LiveOrSetAside(old(dir), dir, writing)
      ensures (outcome == Ok) == (fate(old(calls)).Works? || RecoverySucceeds(old(calls) + 1, Live in old(dir)))
      ensures fate(old(calls)).Works? ==> outcome == Ok && dir == old(dir)[Live := Whole(writing)] - {Tmp}
      ensures Live in old(dir) ==> (Live !in dir <==> !fate(old(calls)).Works? && RecoveryEmpties(old(calls) + 1))
    {
      var renamed := Rename(Tmp, Live);
      if renamed {
        var _ := Attempt();
        return Ok;
      }
      outcome := RenameFailedFallbackCopy();
    }

    /** Stats the parent directory and makes it when it is not found. */
    method ParentReady() returns (ok: bool)
      modifies this`calls
      ensures ok == (fate(old(calls)).Works? || fate(old(calls) + 1).Works?)
      ensures calls == old(calls) + if fate(old(calls)).Works? then 1 else 2
    {
      ok := Attempt();
      if !ok { ok := Attempt(); }
    }

    /** Creates `.tmp`, writes the content to it and syncs it. */
    method StageTmp() returns (ok: bool)
      requires Sound()
      modifies this`calls, this`dir, this`trace
      ensures Sound() && SameBut(old(dir), dir, {Tmp})
      ensures ok ==> dir == old(dir)[Tmp := Whole(writing)] && calls == old(calls) + 3
      ensures ok <==> fate(old(calls)).Works? && fate(old(calls) + 1).Works? && fate(old(calls) + 2).Works?
    {
      ok := Create(Tmp);
      if !ok { return; }
      ok := Fill(Tmp, writing);
      if !ok { return; }
      ok := Attempt();
    }

    method RenameFailedFallbackCopy() returns (outcome: Outcome)
      requires Sound()
      requires Tmp in dir && dir[Tmp] == Whole(writing)
      modifies this`calls, this`dir, this`last, this`trace
      ensures Sound()
      ensures outcome == Ok ==> last == Some(writing) && Live in dir && dir[Live] == Whole(writing)
      ensures outcome == Err ==> last == old(last) && LiveOrSetAside(old(dir), dir, writing)
      ensures (outcome == Ok) == RecoverySucceeds(old(calls), Live in old(dir))
      ensures Live in old(dir) ==> (Live !in dir <==> RecoveryEmpties(old(calls)))
      ensures AllWorkFrom(old(calls)) ==> outcome == Ok && NoSiblings(old(dir), dir)
    {
      var _ := Remove(Recovery);
      var priorExisted := Exists(Live);
      var copied := StageRecovery();
      if !copied { return Err; }
      outcome := FlipRecovery(priorExisted);
    }

    /** Sets the live file aside, renames the recovery copy into its place, and cleans up. */
    method FlipRecovery(priorExisted: bool) returns (outcome: Outcome)
      requires Sound() && Recovery in dir && dir[Recovery] == Whole(writing) && (priorExisted ==> Live in dir)
      modifies this`calls, this`dir, this`last, this`trace
      ensures Sound()
      ensures outcome == Ok ==> last == Some(writing) && Live in dir && dir[Live] == Whole(writing)
      ensures outcome == Err ==> last == old(last) && LiveOrSetAside(old(dir), dir, writing)
      ensures (outcome == Ok) == fate(FinalRename(old(calls), priorExisted)).Works?
      ensures Live in old(dir) ==> (Live !in dir <==> priorExisted && FlipEmpties(old(calls)))
      ensures AllWorkFrom(old(calls)) ==>
        outcome == Ok && Tmp !in dir && Recovery !in dir && (priorExisted ==> Bak !in dir)
    {
      var movedAside := false;
      if priorExisted { movedAside := MoveAside(); }
      var renamed := Rename(Recovery, Live);
      if !renamed { return Err; }
      CleanUp(movedAside);
      return Ok;
    }

    /** Copies `.tmp` to `.recovery.tmp` and syncs the copy, a failure of the sync being no failure. */
    method StageRecovery() returns (ok: bool)
      requires Sound() && Tmp in dir && dir[Tmp] == Whole(writing)
      modifies this`calls, this`dir, this`trace
      ensures Sound() && SameBut(old(dir), dir, {Recovery})
      ensures ok ==> dir == old(dir)[Recovery := Whole(writing)]
      ensures ok == fate(old(calls)).Works?
      ensures ok ==> calls == old(calls) + if fate(old(calls) + 1).Works? then 3 else 2
    {
      ok := Fill(Recovery, dir[Tmp].data);
      if !ok {
        var _ := Remove(Recovery);
        return;
      }
      var reopened := Attempt();
      if reopened { var _ := Attempt(); }
    }

    /** After the content is in place: syncs the parent and removes the siblings this write made. */
    method CleanUp(movedAside: bool)
      requires Sound() && Live in dir
      modifies this`calls, this`dir, this`trace
      ensures Sound() && Live in dir && dir[Live] == old(dir)[Live]
      ensures AllWorkFrom(old(calls)) ==> dir == old(dir) - (if movedAside then {Tmp, Bak} else {Tmp})
    {
      var _ := Attempt();
      var _ := Remove(Tmp);
      if movedAside { var _ := Remove(Bak); }
    }

    /** Clears a stale `.bak` and renames the live file to it: five attempts on Windows, one elsewhere. */
    method MoveAside() returns (moved: bool)
      requires Live in dir && Sound()
      modifies this`calls, this`dir, this`last, this`trace
      ensures Sound() && last == old(last)
      ensures moved ==> dir == old(dir)[Bak := old(dir)[Live]] - {Live}
      ensures !moved ==> dir == old(dir) || dir == old(dir) - {Bak}
      ensures calls == old(calls) + 1 + Tries(old(calls) + 1, Attempts())
      ensures moved == SomeWork(old(calls) + 1, Attempts())
      ensures moved <==>
        exists i: nat :: old(calls) < i <= old(calls) + (if windows then 5 else 1) && fate(i).Works?
    {
      TriesUntilItWorks(calls + 1, Attempts());
      var _ := Remove(Bak);
      moved := RenameAside(Attempts());
    }

    method RenameAside(attempts: nat) returns (moved: bool)
      requires Live in dir && Sound()
      modifies this`calls, this`dir, this`last, this`trace
      ensures Sound() && last == old(last)
      ensures dir == if moved then old(dir)[Bak := old(dir)[Live]] - {Live} else old(dir)
      ensures calls == old(calls) + Tries(old(calls), attempts)
      ensures moved == SomeWork(old(calls), attempts)
    {
      moved := false;
      var attempt := 0;
      while attempt < attempts && !moved
        invariant Sound() && last == old(last)
        invariant dir == if moved then old(dir)[Bak := old(dir)[Live]] - {Live} else old(dir)
        invariant attempt <= attempts && calls == old(calls) + attempt
        invariant moved ==> SomeWork(old(calls), attempts) && Tries(old(calls), attempts) == attempt
        invariant !moved ==> SomeWork(old(calls), attempts) == SomeWork(calls, attempts - attempt)
        invariant !moved ==> Tries(old(calls), attempts) == attempt + Tries(calls, attempts - attempt)
      {
        moved := Rename(Live, Bak);
        attempt := attempt + 1;
      }
    }
  }

  // ----- Whole runs -----

  /** The path survives any sequence of writes: each `writes[i]` runs until it returns, or to a crash at any of its
      instants, picked by `crash`. The survivor is never older than the last write acknowledged with Ok. */
  method AnyRun(disk: Disk, writes: seq<Bytes>, crash: (nat, nat) -> Option<nat>) returns (acknowledged: nat)
    requires Safe(disk.Now())
    modifies disk
    ensures Safe(disk.Now()) && SameElsewhere(old(disk.dir), disk.dir)
    ensures acknowledged <= |writes|
    ensures (disk.last == old(disk.last) && acknowledged == 0) || exists j ::
      0 <= j < |writes| && j + 1 >= acknowledged && disk.last == Some(writes[j])
  {
    acknowledged := 0;
    for i := 0 to |writes|
      invariant Safe(disk.Now()) && SameElsewhere(old(disk.dir), disk.dir)
      invariant acknowledged <= i
      invariant (disk.last == old(disk.last) && acknowledged == 0) || exists j ::
        0 <= j < i && j + 1 >= acknowledged && disk.last == Some(writes[j])
    {
      var outcome := disk.WriteAtomic(writes[i]);
      var instant := crash(i, |disk.trace|);
      if instant.Some? && disk.since <= instant.value < |disk.trace| {
        var s := disk.trace[instant.value];
        disk.dir, disk.last := s.dir, s.last;
      } else if outcome == Ok {
        acknowledged := i + 1;
      }
    }
  }

  /** A failed write can leave the path absent: the old content is then at `.bak` alone, which no loader reads. */
  method ErrCanEmptyThePath(old': Bytes, new': Bytes) returns (disk: Disk, outcome: Outcome)
    ensures outcome == Err && Live !in disk.dir
    ensures Bak in disk.dir && disk.dir[Bak] == Whole(old')
  {
    var fate := (i: nat) => if i == 4 || i == 12 then Fails(None) else Works([]);
    disk := new Disk(false, fate, map[Live := Whole(old')], Some(old'));
    assert disk.SomeWork(11, 1) && disk.Tries(11, 1) == 1;
    assert disk.FlipEmpties(10);
    assert disk.WriteEmpties(0);
    outcome := disk.WriteAtomic(new');
  }
}
