/** Replacing several data files at once: each new file is swapped in with a
    backup of the old one, and a failure anywhere undoes the swaps in reverse. */
module Geodata {
  import opened Options

  type Content = seq<nat>

  /** Data files, staged downloads and backups have names of different forms. */
  datatype Path = Asset(name: string) | Temp(id: nat) | Backup(id: nat)

  type Files = map<Path, Content>

  datatype Stage = Stage(target: Path, temp: Path)

  datatype Swap = Swap(target: Path, backup: Path, hadOriginal: bool)

  /** Which file operation of one swap fails, if any. "LeftBackup" is a backup name
      that could be created but not released again. */
  datatype Fault = Fine | NoBackup | LeftBackup | NoMove | NoClean | NoPlace

  // ----- file operations -----

  function Rename(fs: Files, from: Path, to: Path): Files
    requires from in fs
  {
    (fs - {from})[to := fs[from]]
  }

  function RemoveFile(fs: Files, p: Path): Files {
    fs - {p}
  }

  // ----- one swap -----

  /** swapOne with a free backup name. */
  function SwapOne(fs: Files, a: Stage, backup: Path, fault: Fault): (Files, Option<Swap>) {
    if fault.NoBackup? then (fs, None)
    else if fault.LeftBackup? then (fs[backup := []], None)
    else if fault.NoMove? then (fs, None)
    else if a.target in fs then
      var moved := Rename(fs, a.target, backup);
      if fault.NoPlace? || a.temp !in moved then (Rename(moved, backup, a.target), None)
      else (Rename(moved, a.temp, a.target), Some(Swap(a.target, backup, true)))
    else if fault.NoClean? then (fs, None)
    else
      var cleaned := RemoveFile(fs, backup);
      if fault.NoPlace? || a.temp !in cleaned then (cleaned, None)
      else (Rename(cleaned, a.temp, a.target), Some(Swap(a.target, backup, false)))
  }

  /** swap.rollback. */
  function UndoOne(fs: Files, s: Swap): Files {
    var removed := RemoveFile(fs, s.target);
    if s.hadOriginal then (if s.backup in removed then Rename(removed, s.backup, s.target) else removed)
    else RemoveFile(removed, s.backup)
  }

  /** tx.rollback: the last swap first. */
  function UndoAll(fs: Files, swaps: seq<Swap>): Files
    decreases |swaps|
  {
    if swaps == [] then fs else UndoAll(UndoOne(fs, swaps[|swaps| - 1]), swaps[..|swaps| - 1])
  }

  /** tx.commit. */
  function CommitAll(fs: Files, swaps: seq<Swap>): Files
    decreases |swaps|
  {
    if swaps == [] then fs else RemoveFile(CommitAll(fs, swaps[..|swaps| - 1]), swaps[|swaps| - 1].backup)
  }

  // ----- a run of successful swaps -----

  ghost predicate GoodStage(a: Stage) {
    a.target.Asset? && a.temp.Temp?
  }

  /** States between swaps: swap i leads from fss[i] to fss[i + 1]. */
  ghost predicate Swapped(stages: seq<Stage>, fss: seq<Files>, swaps: seq<Swap>) {
    && |fss| == |swaps| + 1 && |swaps| <= |stages|
    && forall i :: 0 <= i < |swaps| ==>
         && GoodStage(stages[i]) && swaps[i].backup.Backup? && swaps[i].backup !in fss[i]
         && SwapOne(fss[i], stages[i], swaps[i].backup, Fine) == (fss[i + 1], Some(swaps[i]))
  }

  /** The same data files and backups, except for the debris. */
  ghost predicate Agree(fs: Files, gs: Files, debris: set<Path>) {
    forall p: Path :: !p.Temp? && p !in debris ==> (p in fs <==> p in gs) && (p in fs ==> fs[p] == gs[p])
  }

  ghost predicate Live(swaps: seq<Swap>, p: Path) {
    exists i :: 0 <= i < |swaps| && swaps[i].hadOriginal && swaps[i].backup == p
  }

  /** Debris is backup files no remaining swap needs. */
  ghost predicate IsDebris(swaps: seq<Swap>, debris: set<Path>) {
    forall p :: p in debris ==> p.Backup? && !Live(swaps, p)
  }

  /** A swap is undone exactly, in any state that agrees with the one it left. */
  lemma UndoIsExact(fs: Files, a: Stage, s: Swap, after: Files, now: Files, debris: set<Path>)
    requires GoodStage(a) && s.backup.Backup? && s.backup !in fs && SwapOne(fs, a, s.backup, Fine) == (after, Some(s))
    requires Agree(now, after, debris) && (forall p :: p in debris ==> p.Backup?) && (s.hadOriginal ==> s.backup !in debris)
    ensures Agree(UndoOne(now, s), fs, debris)
  {
  }

  /** Undoing all swaps in reverse gives back every data file, also when several
      stages share a target. */
  lemma {:induction false} UndoAllIsExact(stages: seq<Stage>, fss: seq<Files>, swaps: seq<Swap>, now: Files, debris: set<Path>)
    requires Swapped(stages, fss, swaps) && Agree(now, fss[|swaps|], debris) && IsDebris(swaps, debris)
    ensures Agree(UndoAll(now, swaps), fss[0], debris)
    decreases |swaps|
  {
    hide Agree, SwapOne, UndoOne;
    if swaps != [] {
      var n := |swaps| - 1;
      var s := swaps[n];
      assert s.hadOriginal ==> Live(swaps, s.backup);
      UndoIsExact(fss[n], stages[n], s, fss[n + 1], now, debris);
      assert forall i :: 0 <= i < n ==> swaps[..n][i] == swaps[i];
      UndoAllIsExact(stages, fss[..n + 1], swaps[..n], UndoOne(now, s), debris);
    }
  }

  /** A swap that fails leaves the data files as they were; at most one unused
      backup name stays behind. */
  lemma FailedSwap(fs: Files, a: Stage, backup: Path, fault: Fault)
    requires GoodStage(a) && backup.Backup? && backup !in fs && SwapOne(fs, a, backup, fault).1.None?
    ensures Agree(SwapOne(fs, a, backup, fault).0, fs, if fault.LeftBackup? then {backup} else {})
  {
  }

  /** Backups that hold originals are there, so a free name is none of them. */
  lemma {:induction false} LiveExists(stages: seq<Stage>, fss: seq<Files>, swaps: seq<Swap>, p: Path)
    requires Swapped(stages, fss, swaps) && Live(swaps, p)
    ensures p in fss[|swaps|]
    decreases |swaps|
  {
    var n := |swaps| - 1;
    var i :| 0 <= i < |swaps| && swaps[i].hadOriginal && swaps[i].backup == p;
    assert SwapOne(fss[n], stages[n], swaps[n].backup, Fine) == (fss[n + 1], Some(swaps[n]));
    if i < n {
      assert swaps[..n][i] == swaps[i];
      LiveExists(stages, fss[..n + 1], swaps[..n], p);
    }
  }

  /** Stopping at any stage and rolling back restores every data file. */
  lemma StopAndRollBack(stages: seq<Stage>, fss: seq<Files>, swaps: seq<Swap>, backup: Path, fault: Fault)
    requires Swapped(stages, fss, swaps) && |swaps| < |stages| && GoodStage(stages[|swaps|])
    requires backup.Backup? && backup !in fss[|swaps|]
    requires SwapOne(fss[|swaps|], stages[|swaps|], backup, fault).1.None?
    ensures var now := SwapOne(fss[|swaps|], stages[|swaps|], backup, fault).0;
      Agree(UndoAll(now, swaps), fss[0], if fault.LeftBackup? then {backup} else {})
  {
    hide Agree, SwapOne, UndoAll, Live;
    var n := |swaps|;
    FailedSwap(fss[n], stages[n], backup, fault);
    if Live(swaps, backup) {
      LiveExists(stages, fss, swaps, backup);
    }
    var debris: set<Path> := if fault.LeftBackup? then {backup} else {};
    UndoAllIsExact(stages, fss, swaps, SwapOne(fss[n], stages[n], backup, fault).0, debris);
  }

  // ----- a committed run -----

  /** The last stage for a target. */
  ghost predicate LastFor(stages: seq<Stage>, i: nat) {
    i < |stages| && forall j :: i < j < |stages| ==> stages[j].target != stages[i].target
  }

  ghost predicate Distinct(stages: seq<Stage>) {
    forall i, j :: 0 <= i < j < |stages| ==> stages[i].temp != stages[j].temp
  }

  /** A staged file not swapped in yet is still what was downloaded. */
  lemma {:induction false} TempWaits(stages: seq<Stage>, fss: seq<Files>, swaps: seq<Swap>, i: nat, k: nat)
    requires Swapped(stages, fss, swaps) && k <= i < |stages| && k <= |swaps| && Distinct(stages) && stages[i].temp.Temp?
    ensures (stages[i].temp in fss[k] <==> stages[i].temp in fss[0]) && (stages[i].temp in fss[0] ==> fss[k][stages[i].temp] == fss[0][stages[i].temp])
    decreases k
  {
    if k > 0 {
      TempWaits(stages, fss, swaps, i, k - 1);
      assert SwapOne(fss[k - 1], stages[k - 1], swaps[k - 1].backup, Fine) == (fss[k], Some(swaps[k - 1]));
      assert stages[k - 1].temp != stages[i].temp;
    }
  }

  /** After all swaps every target holds the download of its last stage. */
  lemma {:induction false} TargetHolds(stages: seq<Stage>, fss: seq<Files>, swaps: seq<Swap>, i: nat, k: nat)
    requires Swapped(stages, fss, swaps) && |swaps| == |stages| && Distinct(stages) && LastFor(stages, i) && i < k <= |stages|
    ensures stages[i].temp in fss[0] && stages[i].target in fss[k] && fss[k][stages[i].target] == fss[0][stages[i].temp]
    decreases k
  {
    assert SwapOne(fss[k - 1], stages[k - 1], swaps[k - 1].backup, Fine) == (fss[k], Some(swaps[k - 1]));
    if k == i + 1 {
      TempWaits(stages, fss, swaps, i, i);
    } else {
      TargetHolds(stages, fss, swaps, i, k - 1);
    }
  }

  /** Committing drops the backups and nothing else. */
  lemma {:induction false} CommitKeeps(fs: Files, swaps: seq<Swap>, p: Path)
    ensures p in CommitAll(fs, swaps) <==> p in fs && forall i :: 0 <= i < |swaps| ==> swaps[i].backup != p
    ensures p in CommitAll(fs, swaps) ==> CommitAll(fs, swaps)[p] == fs[p]
    decreases |swaps|
  {
    if swaps != [] {
      var n := |swaps| - 1;
      CommitKeeps(fs, swaps[..n], p);
      assert forall i :: 0 <= i < n ==> swaps[..n][i] == swaps[i];
    }
  }

  /** A committed transaction: the new contents, and no backup left. */
  lemma CommitInstalls(stages: seq<Stage>, fss: seq<Files>, swaps: seq<Swap>, i: nat)
    requires Swapped(stages, fss, swaps) && |swaps| == |stages| && Distinct(stages) && LastFor(stages, i)
    ensures var fs := CommitAll(fss[|stages|], swaps);
      && stages[i].temp in fss[0] && stages[i].target in fs && fs[stages[i].target] == fss[0][stages[i].temp]
      && forall j :: 0 <= j < |swaps| ==> swaps[j].backup !in fs
  {
    hide CommitAll, SwapOne;
    TargetHolds(stages, fss, swaps, i, |stages|);
    assert GoodStage(stages[i]);
    CommitKeeps(fss[|stages|], swaps, stages[i].target);
    forall j | 0 <= j < |swaps|
      ensures swaps[j].backup !in CommitAll(fss[|stages|], swaps)
    {
      CommitKeeps(fss[|stages|], swaps, swaps[j].backup);
    }
  }

  // ----- the transaction at work -----

  function CleanAll(fs: Files, stages: seq<Stage>): Files
    decreases |stages|
  {
    if stages == [] then fs else RemoveFile(CleanAll(fs, stages[..|stages| - 1]), stages[|stages| - 1].temp)
  }

  lemma {:induction false} CleanKeeps(fs: Files, stages: seq<Stage>)
    requires forall i :: 0 <= i < |stages| ==> GoodStage(stages[i])
    ensures Agree(CleanAll(fs, stages), fs, {})
    ensures forall i :: 0 <= i < |stages| ==> stages[i].temp !in CleanAll(fs, stages)
    decreases |stages|
  {
    if stages != [] {
      CleanKeeps(fs, stages[..|stages| - 1]);
    }
  }

  lemma AgreeTrans(a: Files, b: Files, c: Files, debris: set<Path>)
    requires Agree(a, b, {}) && Agree(b, c, debris)
    ensures Agree(a, c, debris)
  {
  }

  class Store {
    var files: Files

    constructor (files: Files)
      ensures this.files == files
    {
      this.files := files;
    }

    /** A backup name nothing has. */
    method FreeBackup() returns (b: Path)
      ensures b.Backup? && b !in files
    {
      var n: nat := 0;
      ghost var seen: set<Path> := {};
      while Backup(n) in files
        invariant seen <= files.Keys && forall p :: p in seen ==> p.Backup? && p.id < n
        decreases files.Keys - seen
      {
        seen := seen + {Backup(n)};
        n := n + 1;
      }
      b := Backup(n);
    }

    /** swapOne. */
    method SwapStage(a: Stage, fault: Fault) returns (s: Option<Swap>, ghost backup: Path)
      requires GoodStage(a)
      modifies this
      ensures backup.Backup? && backup !in old(files) && (files, s) == SwapOne(old(files), a, backup, fault)
    {
      var b := FreeBackup();
      backup := b;
      s := None;
      if fault == LeftBackup {
        files := files[b := []];
        return;
      } else if fault == NoBackup || fault == NoMove {
        return;
      }
      var had := a.target in files;
      if had {
        files := Rename(files, a.target, b);
      } else if fault == NoClean {
        return;
      } else {
        files := RemoveFile(files, b);
      }
      if fault == NoPlace || a.temp !in files {
        if had {
          files := Rename(files, b, a.target);
        }
        return;
      }
      files := Rename(files, a.temp, a.target);
      s := Some(Swap(a.target, b, had));
    }

    method Rollback(swaps: seq<Swap>)
      modifies this
      ensures files == UndoAll(old(files), swaps)
    {
      hide UndoOne;
      var i := |swaps|;
      assert swaps[..i] == swaps;
      while i > 0
        invariant 0 <= i <= |swaps| && UndoAll(old(files), swaps) == UndoAll(files, swaps[..i])
      {
        i := i - 1;
        assert swaps[..i + 1][..i] == swaps[..i];
        files := UndoOne(files, swaps[i]);
      }
    }

    method Commit(swaps: seq<Swap>)
      modifies this
      ensures files == CommitAll(old(files), swaps)
    {
      for i := 0 to |swaps|
        invariant files == CommitAll(old(files), swaps[..i])
      {
        assert swaps[..i + 1][..i] == swaps[..i];
        files := RemoveFile(files, swaps[i].backup);
      }
      assert swaps[..|swaps|] == swaps;
    }

    /** swapAll. */
    method SwapAll(stages: seq<Stage>, faults: seq<Fault>) returns (swaps: Option<seq<Swap>>, ghost fss: seq<Files>, ghost debris: set<Path>)
      requires |faults| == |stages| && forall i :: 0 <= i < |stages| ==> GoodStage(stages[i])
      modifies this
      ensures swaps.Some? ==>
        |swaps.value| == |stages| && Swapped(stages, fss, swaps.value) && fss[0] == old(files) && fss[|stages|] == files
      ensures swaps.None? ==> Agree(files, old(files), debris)
      ensures |debris| <= 1 && forall p :: p in debris ==> p.Backup?
    {
      hide SwapOne, UndoAll, Agree, Live;
      var done: seq<Swap> := [];
      fss, debris := [files], {};
      for i := 0 to |stages|
        invariant |done| == i && Swapped(stages, fss, done) && fss[0] == old(files) && fss[i] == files && debris == {}
      {
        var s, backup := SwapStage(stages[i], faults[i]);
        if s.None? {
          debris := if faults[i].LeftBackup? then {backup} else {};
          StopAndRollBack(stages, fss, done, backup, faults[i]);
          Rollback(done);
          return None, fss, debris;
        }
        Extends(stages, fss, done, backup, faults[i]);
        done := done + [s.value];
        fss := fss + [files];
      }
      swaps := Some(done);
    }

    /** reloadWithUpdate after the downloads: whatever fails, every data file is
        what it was; if nothing does, every target holds its last download. In both
        cases no staged file is left. */
    method Update(stages: seq<Stage>, faults: seq<Fault>, reloadOK: bool) returns (ok: bool, ghost debris: set<Path>)
      requires |faults| == |stages| && (forall i :: 0 <= i < |stages| ==> GoodStage(stages[i])) && Distinct(stages)
      modifies this
      ensures !ok ==> Agree(files, old(files), debris) && |debris| <= 1 && forall p :: p in debris ==> p.Backup?
      ensures ok ==> forall i: nat :: LastFor(stages, i) ==>
        stages[i].temp in old(files) && stages[i].target in files && files[stages[i].target] == old(files)[stages[i].temp]
      ensures forall i :: 0 <= i < |stages| ==> stages[i].temp !in files
    {
      hide SwapOne, UndoAll, Agree, Live, CommitAll, CleanAll, Swapped;
      ghost var fss;
      var swaps;
      swaps, fss, debris := SwapAll(stages, faults);
      ok := swaps.Some? && reloadOK;
      if ok {
        Commit(swaps.value);
      } else if swaps.Some? {
        debris := {};
        AgreeSelf(files);
        UndoAllIsExact(stages, fss, swaps.value, files, {});
        Rollback(swaps.value);
      }
      ghost var before := files;
      Clean(stages);
      CleanKeeps(before, stages);
      if ok {
        forall i: nat | LastFor(stages, i)
          ensures stages[i].temp in old(files) && stages[i].target in files && files[stages[i].target] == old(files)[stages[i].temp]
        {
          CommitInstalls(stages, fss, swaps.value, i);
          AgreeAt(files, before, stages[i].target);
        }
      } else {
        AgreeTrans(files, before, old(files), debris);
      }
    }

    method Clean(stages: seq<Stage>)
      modifies this
      ensures files == CleanAll(old(files), stages)
    {
      for i := 0 to |stages|
        invariant files == CleanAll(old(files), stages[..i])
      {
        assert stages[..i + 1][..i] == stages[..i];
        files := RemoveFile(files, stages[i].temp);
      }
      assert stages[..|stages|] == stages;
    }
  }

  lemma AgreeSelf(fs: Files)
    ensures Agree(fs, fs, {})
  {
  }

  lemma AgreeAt(fs: Files, gs: Files, p: Path)
    requires Agree(fs, gs, {}) && p.Asset?
    ensures (p in fs <==> p in gs) && (p in fs ==> fs[p] == gs[p])
  {
  }

  lemma Extends(stages: seq<Stage>, fss: seq<Files>, swaps: seq<Swap>, backup: Path, fault: Fault)
    requires Swapped(stages, fss, swaps) && |swaps| < |stages| && GoodStage(stages[|swaps|])
    requires backup.Backup? && backup !in fss[|swaps|] && SwapOne(fss[|swaps|], stages[|swaps|], backup, fault).1.Some?
    ensures var (fs, s) := SwapOne(fss[|swaps|], stages[|swaps|], backup, fault);
      Swapped(stages, fss + [fs], swaps + [s.value])
  {
    var (fs, s) := SwapOne(fss[|swaps|], stages[|swaps|], backup, fault);
    assert s.value.backup == backup && SwapOne(fss[|swaps|], stages[|swaps|], backup, Fine) == (fs, s);
    var fss', swaps' := fss + [fs], swaps + [s.value];
    hide SwapOne;
    forall i | 0 <= i < |swaps'|
      ensures GoodStage(stages[i]) && swaps'[i].backup.Backup? && swaps'[i].backup !in fss'[i]
      ensures SwapOne(fss'[i], stages[i], swaps'[i].backup, Fine) == (fss'[i + 1], Some(swaps'[i]))
    {
      if i < |swaps| {
        assert swaps'[i] == swaps[i] && fss'[i] == fss[i] && fss'[i + 1] == fss[i + 1];
      }
    }
  }
}
