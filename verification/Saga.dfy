/** Deleting a disk that carries volumes (cli/src/driver/windows/volume and disk): lock,
    dismount and unmount every volume, ask the driver, and on failure put the mount points
    back. The operating system is a fallible world: call n succeeds as `script(n)` says. */
module Saga {
  import opened Protocol

  datatype OsCall =
    | Lock(volume: nat, ok: bool)
    | Dismount(volume: nat, ok: bool)
    | RemoveMount(point: nat, ok: bool)
    | RestoreMount(point: nat, volume: nat, ok: bool)
    | Unlock(volume: nat, ok: bool)
    | AskDriver

  /** Mount points with the volume each names, and every call so far with its result. */
  datatype World = World(mounts: map<nat, nat>, log: seq<OsCall>) {
    function Made(call: OsCall): World {
      this.(log := log + [call])
    }
  }

  /** A volume of the disk; `removed` are the mount points taken away so far. */
  datatype Vol = Vol(name: nat, points: seq<nat>, locked: bool, removed: seq<nat>)

  type Script = nat -> bool

  // ------------------------------------------------------------- Single volumes

  /** Volume::lock; a forced deletion goes on without the lock. */
  function LockOne(w: World, v: Vol, force: bool, script: Script): (bool, World, Vol) {
    var ok := script(|w.log|);
    (ok || force, w.Made(Lock(v.name, ok)), if ok then v.(locked := true) else v)
  }

  function DismountOne(w: World, v: Vol, script: Script): (bool, World) {
    var ok := script(|w.log|);
    (ok, w.Made(Dismount(v.name, ok)))
  }

  function RemovePoint(w: World, point: nat, ok: bool): World {
    var t := w.Made(RemoveMount(point, ok));
    if ok then t.(mounts := t.mounts - {point}) else t
  }

  /** Volume::remove_mounts from mount point k on. */
  function RemoveFrom(w: World, v: Vol, k: nat, script: Script): (bool, World, Vol)
    requires k <= |v.points|
    decreases |v.points| - k
  {
    if k == |v.points| then (true, w, v)
    else
      var point, ok := v.points[k], script(|w.log|);
      var t := RemovePoint(w, point, ok);
      if !ok then (false, t, v) else RemoveFrom(t, v.(removed := v.removed + [point]), k + 1, script)
  }

  function RestorePoint(w: World, point: nat, volume: nat, ok: bool): World {
    var t := w.Made(RestoreMount(point, volume, ok));
    if ok then t.(mounts := t.mounts[point := volume]) else t
  }

  /** restore_removed_mount: the lock is given back with the last mount point. */
  function RestoreOne(w: World, v: Vol, k: nat, script: Script): (bool, World, Vol)
    requires k < |v.removed|
  {
    var mounted := script(|w.log|);
    var t := RestorePoint(w, v.removed[k], v.name, mounted);
    if k + 1 == |v.removed| && v.locked then
      var unlocked := script(|t.log|);
      (mounted && unlocked, t.Made(Unlock(v.name, unlocked)), v.(locked := !unlocked))
    else (mounted, t, v)
  }

  /** Volume::restore_mounts from removed mount point k on: a failure does not stop it. */
  function RestoreFrom(w: World, v: Vol, k: nat, sofar: bool, script: Script): (r: (bool, World, Vol))
    requires k <= |v.removed|
    decreases |v.removed| - k
  {
    if k == |v.removed| then (sofar, w, v)
    else
      var (ok, t, u) := RestoreOne(w, v, k, script);
      RestoreFrom(t, u, k + 1, sofar && ok, script)
  }

  // ---------------------------------------------------------------- All volumes

  /** DiskDeletion::lock from volume i on. */
  function LockAll(w: World, vs: seq<Vol>, i: nat, force: bool, script: Script): (r: (bool, World, seq<Vol>))
    requires i <= |vs|
    ensures |r.2| == |vs|
    decreases |vs| - i
  {
    if i == |vs| then (true, w, vs)
    else
      var (ok, t, v) := LockOne(w, vs[i], force, script);
      if !ok then (false, t, vs[i := v]) else LockAll(t, vs[i := v], i + 1, force, script)
  }

  function DismountAll(w: World, vs: seq<Vol>, i: nat, script: Script): (bool, World)
    requires i <= |vs|
    decreases |vs| - i
  {
    if i == |vs| then (true, w)
    else
      var (ok, t) := DismountOne(w, vs[i], script);
      if !ok then (false, t) else DismountAll(t, vs, i + 1, script)
  }

  function RemoveAll(w: World, vs: seq<Vol>, i: nat, script: Script): (r: (bool, World, seq<Vol>))
    requires i <= |vs|
    ensures |r.2| == |vs|
    decreases |vs| - i
  {
    if i == |vs| then (true, w, vs)
    else
      var (ok, t, v) := RemoveFrom(w, vs[i], 0, script);
      if !ok then (false, t, vs[i := v]) else RemoveAll(t, vs[i := v], i + 1, script)
  }

  function RestoreAll(w: World, vs: seq<Vol>, i: nat, sofar: bool, script: Script): (r: (bool, World, seq<Vol>))
    requires i <= |vs|
    ensures |r.2| == |vs|
    decreases |vs| - i
  {
    if i == |vs| then (sofar, w, vs)
    else
      var (ok, t, v) := RestoreFrom(w, vs[i], 0, true, script);
      RestoreAll(t, vs[i := v], i + 1, sofar && ok, script)
  }

  /** The preparation of delete_allocation. */
  function PrepareAll(w: World, vs: seq<Vol>, force: bool, script: Script): (r: (bool, World, seq<Vol>))
    ensures |r.2| == |vs|
  {
    var (locked, w1, vs1) := LockAll(w, vs, 0, force, script);
    if !locked then (false, w1, vs1)
    else
      var (dismounted, w2) := DismountAll(w1, vs1, 0, script);
      if !dismounted then (false, w2, vs1) else RemoveAll(w2, vs1, 0, script)
  }

  // ------------------------------------------------------------ What they amount to

  function Points(s: seq<nat>): set<nat> {
    set p | p in s
  }

  /** The mount points missing because of volumes i and later. */
  function Missing(vs: seq<Vol>, i: nat): set<nat>
    requires i <= |vs|
    decreases |vs| - i
  {
    if i == |vs| then {} else Points(vs[i].removed) + Missing(vs, i + 1)
  }

  /** A volume as DiskDeletion::open leaves it. */
  predicate Opened(v: Vol) {
    !v.locked && v.removed == []
  }

  predicate AllOpened(vs: seq<Vol>) {
    forall i :: 0 <= i < |vs| ==> Opened(vs[i])
  }

  /** Same volume, possibly locked or unmounted. */
  predicate SameVolume(v: Vol, u: Vol) {
    u.name == v.name && u.points == v.points
  }

  predicate SameVolumes(vs: seq<Vol>, us: seq<Vol>) {
    |us| == |vs| && forall i :: 0 <= i < |vs| ==> SameVolume(vs[i], us[i])
  }

  function RemoveLog(points: seq<nat>, k: nat): seq<OsCall>
    requires k <= |points|
    decreases |points| - k
  {
    if k == |points| then [] else [RemoveMount(points[k], true)] + RemoveLog(points, k + 1)
  }

  /** What RemoveFrom has done, whether or not it got to the end. */
  ghost predicate RemovedPrefix(w: World, v: Vol, k: nat, ok: bool, t: World, u: Vol)
    requires k <= |v.points|
  {
    && SameVolume(v, u) && u.locked == v.locked && k <= |u.removed| <= |v.points|
    && u.removed == v.points[..|u.removed|]
    && t.mounts == w.mounts - Points(v.points[k..|u.removed|])
    && (ok <==> u.removed == v.points)
    && (ok ==> t.log == w.log + RemoveLog(v.points, k))
  }

  lemma RemovedNothing(w: World, v: Vol, k: nat, ok: bool, t: World)
    requires k <= |v.points| && v.removed == v.points[..k] && t.mounts == w.mounts
    requires if ok then k == |v.points| && t.log == w.log else k < |v.points|
    ensures RemovedPrefix(w, v, k, ok, t, v)
  {
  }

  lemma RemovedOneMore(w: World, v: Vol, k: nat, ok: bool, t: World, u: Vol)
    requires k < |v.points| && v.removed == v.points[..k]
    requires RemovedPrefix(RemovePoint(w, v.points[k], true), v.(removed := v.points[..k + 1]), k + 1, ok, t, u)
    ensures RemovedPrefix(w, v, k, ok, t, u)
  {
  }

  /** Whatever happens, the removed mount points are a prefix of the volume's, and exactly
      they are missing. */
  lemma {:induction false} RemovedIsPrefix(w: World, v: Vol, k: nat, script: Script)
    requires k <= |v.points| && v.removed == v.points[..k]
    ensures var (ok, t, u) := RemoveFrom(w, v, k, script); RemovedPrefix(w, v, k, ok, t, u)
    decreases |v.points| - k
  {
    if k == |v.points| {
      RemovedNothing(w, v, k, true, w);
    } else if script(|w.log|) {
      var t, v1 := RemovePoint(w, v.points[k], true), v.(removed := v.removed + [v.points[k]]);
      assert v.removed + [v.points[k]] == v.points[..k + 1];
      RemovedIsPrefix(t, v1, k + 1, script);
      var (ok, t2, u) := RemoveFrom(t, v1, k + 1, script);
      RemovedOneMore(w, v, k, ok, t2, u);
    } else {
      RemovedNothing(w, v, k, false, RemovePoint(w, v.points[k], false));
    }
  }

  // ------------------------------------------------------------------ Preparation

  function LockLog(vs: seq<Vol>, i: nat): seq<OsCall>
    requires i <= |vs|
    decreases |vs| - i
  {
    if i == |vs| then [] else [Lock(vs[i].name, vs[i].locked)] + LockLog(vs, i + 1)
  }

  function DismountLog(vs: seq<Vol>, i: nat): seq<OsCall>
    requires i <= |vs|
    decreases |vs| - i
  {
    if i == |vs| then [] else [Dismount(vs[i].name, true)] + DismountLog(vs, i + 1)
  }

  function RemoveAllLog(vs: seq<Vol>, i: nat): seq<OsCall>
    requires i <= |vs|
    decreases |vs| - i
  {
    if i == |vs| then [] else RemoveLog(vs[i].points, 0) + RemoveAllLog(vs, i + 1)
  }

  lemma {:induction false} LockedAll(w: World, vs: seq<Vol>, i: nat, force: bool, script: Script)
    requires i <= |vs| && forall j :: i <= j < |vs| ==> Opened(vs[j])
    ensures var (ok, t, us) := LockAll(w, vs, i, force, script);
            && SameVolumes(vs, us) && t.mounts == w.mounts
            && (forall j :: 0 <= j < i ==> us[j] == vs[j])
            && (forall j :: i <= j < |vs| ==> us[j].removed == [] && (ok ==> us[j].locked || force))
            && (ok ==> t.log == w.log + LockLog(us, i))
    decreases |vs| - i
  {
    if i < |vs| {
      var (ok, t, v) := LockOne(w, vs[i], force, script);
      if ok { LockedAll(t, vs[i := v], i + 1, force, script); }
    }
  }

  lemma {:induction false} DismountedAll(w: World, vs: seq<Vol>, i: nat, script: Script)
    requires i <= |vs|
    ensures var (ok, t) := DismountAll(w, vs, i, script);
            t.mounts == w.mounts && (ok ==> t.log == w.log + DismountLog(vs, i))
    decreases |vs| - i
  {
    if i < |vs| {
      var (ok, t) := DismountOne(w, vs[i], script);
      if ok { DismountedAll(t, vs, i + 1, script); }
    }
  }

  predicate PartlyRemoved(v: Vol) {
    |v.removed| <= |v.points| && v.removed == v.points[..|v.removed|]
  }

  lemma {:induction false} NothingMissing(vs: seq<Vol>, i: nat)
    requires i <= |vs| && forall j :: i <= j < |vs| ==> vs[j].removed == []
    ensures Missing(vs, i) == {}
    decreases |vs| - i
  {
    if i < |vs| { NothingMissing(vs, i + 1); }
  }

  /** What RemoveAll has done to volumes i and later, and that it left the others alone. */
  ghost predicate RemovedFrom(w: World, vs: seq<Vol>, i: nat, ok: bool, t: World, us: seq<Vol>)
    requires i <= |vs|
  {
    && SameVolumes(vs, us) && t.mounts == w.mounts - Missing(us, i)
    && (forall j :: 0 <= j < i ==> us[j] == vs[j])
    && (forall j :: i <= j < |vs| ==> us[j].locked == vs[j].locked && PartlyRemoved(us[j]))
    && (ok ==> (forall j :: i <= j < |vs| ==> us[j].removed == us[j].points) && t.log == w.log + RemoveAllLog(us, i))
  }

  lemma RemovedStep(w: World, vs: seq<Vol>, i: nat, t: World, v: Vol, ok: bool, t2: World, us: seq<Vol>)
    requires i < |vs| && SameVolume(vs[i], v) && v.locked == vs[i].locked && PartlyRemoved(v)
    requires t.mounts == w.mounts - Points(v.removed) && RemovedFrom(t, vs[i := v], i + 1, ok, t2, us)
    requires ok ==> v.removed == v.points && t.log == w.log + RemoveLog(v.points, 0)
    ensures RemovedFrom(w, vs, i, ok, t2, us)
  {
  }

  lemma {:induction false} RemovedAll(w: World, vs: seq<Vol>, i: nat, script: Script)
    requires i <= |vs| && forall j :: i <= j < |vs| ==> vs[j].removed == []
    ensures var (ok, t, us) := RemoveAll(w, vs, i, script); RemovedFrom(w, vs, i, ok, t, us)
    decreases |vs| - i
  {
    if i < |vs| {
      var (ok, t, v) := RemoveFrom(w, vs[i], 0, script);
      RemovedIsPrefix(w, vs[i], 0, script);
      assert v.points[0..|v.removed|] == v.removed;
      if ok {
        RemovedAll(t, vs[i := v], i + 1, script);
        var (ok2, t2, us) := RemoveAll(t, vs[i := v], i + 1, script);
        RemovedStep(w, vs, i, t, v, ok2, t2, us);
      } else {
        StoppedStep(w, vs, i, t, v);
      }
    }
  }

  lemma StoppedStep(w: World, vs: seq<Vol>, i: nat, t: World, v: Vol)
    requires i < |vs| && forall j :: i <= j < |vs| ==> vs[j].removed == []
    requires SameVolume(vs[i], v) && v.locked == vs[i].locked && PartlyRemoved(v)
    requires t.mounts == w.mounts - Points(v.removed)
    ensures RemovedFrom(w, vs, i, false, t, vs[i := v])
  {
    NothingMissing(vs[i := v], i + 1);
  }

  /** When the driver may be asked, every volume was locked, or the lock was forced; then
      every volume was dismounted; then every mount point was removed; nothing else was
      done, and all of it in this order. */
  lemma PreparedInOrder(w: World, vs: seq<Vol>, force: bool, script: Script)
    requires AllOpened(vs)
    ensures var (ok, t, us) := PrepareAll(w, vs, force, script);
            ok ==>
              && t.log == w.log + LockLog(us, 0) + DismountLog(us, 0) + RemoveAllLog(us, 0)
              && (forall i :: 0 <= i < |vs| ==> (us[i].locked || force) && us[i].removed == us[i].points)
  {
    var (locked, w1, vs1) := LockAll(w, vs, 0, force, script);
    LockedAll(w, vs, 0, force, script);
    DismountedAll(w1, vs1, 0, script);
    RemovedAll(DismountAll(w1, vs1, 0, script).1, vs1, 0, script);
    var us := PrepareAll(w, vs, force, script).2;
    if PrepareAll(w, vs, force, script).0 {
      SameLocks(vs1, us, 0);
    }
  }

  lemma {:induction false} SameLocks(vs: seq<Vol>, us: seq<Vol>, i: nat)
    requires i <= |vs| && SameVolumes(vs, us) && forall j :: 0 <= j < |vs| ==> us[j].locked == vs[j].locked
    ensures LockLog(us, i) == LockLog(vs, i) && DismountLog(us, i) == DismountLog(vs, i)
    decreases |vs| - i
  {
    if i < |vs| { SameLocks(vs, us, i + 1); }
  }

  /** However far the preparation came, the removed mount points are prefixes of the
      volumes' lists, and exactly they are missing. */
  lemma PreparedIsPrefix(w: World, vs: seq<Vol>, force: bool, script: Script)
    requires AllOpened(vs)
    ensures var (ok, t, us) := PrepareAll(w, vs, force, script);
            && SameVolumes(vs, us) && t.mounts == w.mounts - Missing(us, 0)
            && (forall i :: 0 <= i < |vs| ==> PartlyRemoved(us[i]))
  {
    var (locked, w1, vs1) := LockAll(w, vs, 0, force, script);
    LockedAll(w, vs, 0, force, script);
    DismountedAll(w1, vs1, 0, script);
    RemovedAll(DismountAll(w1, vs1, 0, script).1, vs1, 0, script);
    NothingMissing(vs1, 0);
  }

  // ------------------------------------------------------------------ Restoration

  /** The mounts are the original ones, except that some of the missing may be absent. */
  ghost predicate Within(original: map<nat, nat>, mounts: map<nat, nat>, missing: set<nat>) {
    && (forall p :: p in mounts ==> p in original && mounts[p] == original[p])
    && (forall p :: p in original ==> p in mounts || p in missing)
  }

  /** The mount points listed for the volume are its own. */
  predicate Owns(original: map<nat, nat>, v: Vol) {
    forall p :: p in v.removed ==> p in original && original[p] == v.name
  }

  lemma SplitPoints(s: seq<nat>, k: nat)
    requires k < |s|
    ensures Points(s[k..]) == {s[k]} + Points(s[k + 1..])
  {
    assert s[k..] == [s[k]] + s[k + 1..];
  }

  lemma RestoredPoint(original: map<nat, nat>, w: World, v: Vol, k: nat, missing: set<nat>, script: Script)
    requires k < |v.removed| && Owns(original, v) && Within(original, w.mounts, {v.removed[k]} + missing)
    ensures var (ok, t, u) := RestoreOne(w, v, k, script);
            && SameVolume(v, u) && u.removed == v.removed
            && Within(original, t.mounts, if ok then missing else {v.removed[k]} + missing)
  {
    assert v.removed[k] in v.removed;
  }

  lemma {:induction false} RestoredFrom(original: map<nat, nat>, w: World, v: Vol, k: nat, sofar: bool,
                                        rest: set<nat>, script: Script)
    requires k <= |v.removed| && Owns(original, v) && Within(original, w.mounts, Points(v.removed[k..]) + rest)
    ensures var (ok, t, u) := RestoreFrom(w, v, k, sofar, script);
            && SameVolume(v, u) && u.removed == v.removed
            && Within(original, t.mounts, Points(v.removed[k..]) + rest)
            && (ok ==> sofar && Within(original, t.mounts, rest))
    decreases |v.removed| - k
  {
    if k < |v.removed| {
      var (ok, t, u) := RestoreOne(w, v, k, script);
      var later := Points(v.removed[k + 1..]);
      SplitPoints(v.removed, k);
      assert {v.removed[k]} + later + rest == {v.removed[k]} + (later + rest) == later + ({v.removed[k]} + rest);
      RestoredPoint(original, w, v, k, later + rest, script);
      RestoredFrom(original, t, u, k + 1, sofar && ok, if ok then rest else {v.removed[k]} + rest, script);
    } else {
      assert Points(v.removed[k..]) + rest == rest;
    }
  }

  lemma {:induction false} MissingLater(vs: seq<Vol>, us: seq<Vol>, i: nat)
    requires i <= |vs| == |us| && forall j :: i <= j < |vs| ==> us[j].removed == vs[j].removed
    ensures Missing(us, i) == Missing(vs, i)
    decreases |vs| - i
  {
    if i < |vs| { MissingLater(vs, us, i + 1); }
  }

  /** The mount points a volume's restoration may leave missing. */
  function Left(v: Vol, ok: bool): set<nat> {
    if ok then {} else Points(v.removed)
  }

  lemma RestoredVolume(original: map<nat, nat>, w: World, v: Vol, later: set<nat>, script: Script)
    requires Owns(original, v) && Within(original, w.mounts, Points(v.removed) + later)
    ensures var (ok, t, u) := RestoreFrom(w, v, 0, true, script);
            && SameVolume(v, u) && u.removed == v.removed && Within(original, t.mounts, later + Left(v, ok))
  {
    assert v.removed[0..] == v.removed;
    RestoredFrom(original, w, v, 0, true, later, script);
  }

  lemma {:induction false} RestoredAll(original: map<nat, nat>, w: World, vs: seq<Vol>, i: nat, sofar: bool,
                                       lost: set<nat>, script: Script)
    requires i <= |vs| && forall j :: i <= j < |vs| ==> Owns(original, vs[j])
    requires Within(original, w.mounts, Missing(vs, i) + lost)
    ensures var (ok, t, us) := RestoreAll(w, vs, i, sofar, script);
            && Within(original, t.mounts, Missing(vs, i) + lost)
            && (ok ==> sofar && Within(original, t.mounts, lost))
    decreases |vs| - i
  {
    hide RestoreFrom, Owns;
    if i < |vs| {
      var (ok, t, v) := RestoreFrom(w, vs[i], 0, true, script);
      var lost' := lost + Left(vs[i], ok);
      assert Missing(vs, i) + lost == Points(vs[i].removed) + (Missing(vs, i + 1) + lost);
      RestoredVolume(original, w, vs[i], Missing(vs, i + 1) + lost, script);
      assert Missing(vs, i + 1) + lost + Left(vs[i], ok) == Missing(vs, i + 1) + lost';
      MissingLater(vs, vs[i := v], i + 1);
      RestoredAll(original, t, vs[i := v], i + 1, sofar && ok, lost', script);
    }
  }

  /** Undo: after any preparation, complete or not, a restoration that reports success has
      brought back exactly the original mounts; one that fails has added nothing foreign
      and lost nothing that the preparation had left alone. */
  lemma RestoreUndoesPrepare(w: World, vs: seq<Vol>, force: bool, script: Script, w': World)
    requires AllOpened(vs) && forall i :: 0 <= i < |vs| ==> forall p :: p in vs[i].points ==>
               p in w.mounts && w.mounts[p] == vs[i].name
    requires w'.mounts == PrepareAll(w, vs, force, script).1.mounts
    ensures var us := PrepareAll(w, vs, force, script).2;
            var (ok, t, _) := RestoreAll(w', us, 0, true, script);
            && (ok ==> t.mounts == w.mounts)
            && Within(w.mounts, t.mounts, Missing(us, 0))
  {
    var us := PrepareAll(w, vs, force, script).2;
    PreparedIsPrefix(w, vs, force, script);
    forall i | 0 <= i < |us| ensures Owns(w.mounts, us[i]) {
      assert SameVolume(vs[i], us[i]) && PartlyRemoved(us[i]);
    }
    assert Missing(us, 0) + {} == Missing(us, 0);
    RestoredAll(w.mounts, w', us, 0, true, {}, script);
  }

  /** What one restoration does: every removed mount point is tried once, in order, and only
      after the last of them is the lock given back, once, and only if the volume has it. */
  function RestoreLog(v: Vol, k: nat, n: nat, script: Script): seq<OsCall>
    requires k <= |v.removed|
  {
    seq(|v.removed| - k, j requires 0 <= j < |v.removed| - k => RestoreMount(v.removed[k + j], v.name, script(n + j)))
    + (if k < |v.removed| && v.locked then [Unlock(v.name, script(n + |v.removed| - k))] else [])
  }

  lemma RestoreLogStep(v: Vol, k: nat, n: nat, script: Script)
    requires k + 1 < |v.removed|
    ensures RestoreLog(v, k, n, script)
         == [RestoreMount(v.removed[k], v.name, script(n))] + RestoreLog(v, k + 1, n + 1, script)
  {
  }

  /** What RestoreFrom has done. */
  ghost predicate Restored(w: World, v: Vol, k: nat, sofar: bool, script: Script, ok: bool, t: World, u: Vol)
    requires k <= |v.removed|
  {
    && t.log == w.log + RestoreLog(v, k, |w.log|, script)
    && (u.locked <==> v.locked && !(k < |v.removed| && script(|w.log| + |v.removed| - k)))
    && (ok <==> sofar && forall n :: |w.log| <= n < |t.log| ==> script(n))
  }

  lemma RestoredLast(w: World, v: Vol, sofar: bool, script: Script)
    requires v.removed != []
    ensures var k := |v.removed| - 1;
            var (ok, t, u) := RestoreOne(w, v, k, script);
            Restored(w, v, k, sofar, script, sofar && ok, t, u) && u.removed == v.removed
  {
  }

  lemma RestoreOneLog(w: World, v: Vol, k: nat, script: Script)
    requires k + 1 < |v.removed|
    ensures var (ok, t, _) := RestoreOne(w, v, k, script);
            ok == script(|w.log|) && t.log == w.log + [RestoreMount(v.removed[k], v.name, ok)]
  {
  }

  lemma RestoredStep(w: World, one: World, v: Vol, k: nat, sofar: bool, script: Script, ok: bool, t: World, u: Vol)
    requires k + 1 < |v.removed| && one.log == w.log + [RestoreMount(v.removed[k], v.name, script(|w.log|))]
    requires Restored(one, v, k + 1, sofar && script(|w.log|), script, ok, t, u)
    ensures Restored(w, v, k, sofar, script, ok, t, u)
  {
    RestoreLogStep(v, k, |w.log|, script);
    assert t.log == w.log + RestoreLog(v, k, |w.log|, script);
  }

  lemma {:induction false} UnlockIsLast(w: World, v: Vol, k: nat, sofar: bool, script: Script)
    requires k <= |v.removed|
    ensures var (ok, t, u) := RestoreFrom(w, v, k, sofar, script);
            Restored(w, v, k, sofar, script, ok, t, u)
    decreases |v.removed| - k
  {
    if k == |v.removed| {
      assert RestoreLog(v, k, |w.log|, script) == [];
    } else if k + 1 == |v.removed| {
      RestoredLast(w, v, sofar, script);
    } else {
      var (ok, t, u) := RestoreOne(w, v, k, script);
      RestoreOneLog(w, v, k, script);
      UnlockIsLast(t, v, k + 1, sofar && ok, script);
      var (all, last, vol) := RestoreFrom(t, v, k + 1, sofar && ok, script);
      RestoredStep(w, t, v, k, sofar, script, all, last, vol);
    }
  }

  // ----------------------------------------------------------- The objects in place

  class Os {
    const script: Script
    var world: World

    constructor (script: Script, world: World)
      ensures this.script == script && this.world == world
    {
      this.script, this.world := script, world;
    }

    method LockVolume(volume: nat) returns (ok: bool)
      modifies this
      ensures ok == script(|old(world.log)|) && world == old(world).Made(Lock(volume, ok))
    {
      ok := script(|world.log|);
      world := world.Made(Lock(volume, ok));
    }

    method DismountVolume(volume: nat) returns (ok: bool)
      modifies this
      ensures ok == script(|old(world.log)|) && world == old(world).Made(Dismount(volume, ok))
    {
      ok := script(|world.log|);
      world := world.Made(Dismount(volume, ok));
    }

    method DeleteMountPoint(point: nat) returns (ok: bool)
      modifies this
      ensures ok == script(|old(world.log)|) && world == RemovePoint(old(world), point, ok)
    {
      ok := script(|world.log|);
      world := RemovePoint(world, point, ok);
    }

    method SetMountPoint(point: nat, volume: nat) returns (ok: bool)
      modifies this
      ensures ok == script(|old(world.log)|) && world == RestorePoint(old(world), point, volume, ok)
    {
      ok := script(|world.log|);
      world := RestorePoint(world, point, volume, ok);
    }

    method UnlockVolume(volume: nat) returns (ok: bool)
      modifies this
      ensures ok == script(|old(world.log)|) && world == old(world).Made(Unlock(volume, ok))
    {
      ok := script(|world.log|);
      world := world.Made(Unlock(volume, ok));
    }
  }

  class Volume {
    const name: nat
    const mountPoints: seq<nat>
    var locked: bool
    var removedMountPoints: seq<nat>

    function View(): Vol
      reads this
    {
      Vol(name, mountPoints, locked, removedMountPoints)
    }

    constructor (name: nat, mountPoints: seq<nat>)
      ensures View() == Vol(name, mountPoints, false, [])
    {
      this.name, this.mountPoints := name, mountPoints;
      locked, removedMountPoints := false, [];
    }

    method Lock(os: Os, force: bool) returns (ok: bool)
      modifies this, os
      ensures (ok, os.world, View()) == LockOne(old(os.world), old(View()), force, os.script)
    {
      ok := os.LockVolume(name);
      if ok { locked := true; } else if force { ok := true; }
    }

    method Dismount(os: Os) returns (ok: bool)
      modifies os
      ensures (ok, os.world) == DismountOne(old(os.world), View(), os.script)
    {
      ok := os.DismountVolume(name);
    }

    method RemoveMounts(os: Os) returns (ok: bool)
      modifies this, os
      ensures (ok, os.world, View()) == RemoveFrom(old(os.world), old(View()), 0, os.script)
    {
      for index := 0 to |mountPoints|
        invariant RemoveFrom(os.world, View(), index, os.script) == RemoveFrom(old(os.world), old(View()), 0, os.script)
      {
        ok := os.DeleteMountPoint(mountPoints[index]);
        if !ok { return false; }
        removedMountPoints := removedMountPoints + [mountPoints[index]];
      }
      return true;
    }

    method RestoreMounts(os: Os) returns (ok: bool)
      modifies this, os
      ensures (ok, os.world, View()) == RestoreFrom(old(os.world), old(View()), 0, true, os.script)
    {
      ok := true;
      for index := 0 to |removedMountPoints|
        invariant removedMountPoints == old(removedMountPoints)
        invariant RestoreFrom(os.world, View(), index, ok, os.script)
               == RestoreFrom(old(os.world), old(View()), 0, true, os.script)
      {
        var restored := RestoreRemovedMount(os, index);
        ok := ok && restored;
      }
    }

    method RestoreRemovedMount(os: Os, index: nat) returns (ok: bool)
      requires index < |removedMountPoints|
      modifies this`locked, os
      ensures (ok, os.world, View()) == RestoreOne(old(os.world), old(View()), index, os.script)
    {
      // There may be no lock to give back: `locked` records the ones that were granted.
      var releaseLock := index + 1 == |removedMountPoints| && locked;
      ok := os.SetMountPoint(removedMountPoints[index], name);
      if releaseLock {
        var unlocked := UnlockOwned(os);
        ok := ok && unlocked;
      }
    }

    method UnlockOwned(os: Os) returns (ok: bool)
      requires locked
      modifies this`locked, os
      ensures ok == os.script(|old(os.world.log)|) && os.world == old(os.world).Made(Unlock(name, ok)) && locked == !ok
    {
      ok := os.UnlockVolume(name);
      if ok { locked := false; }
    }
  }

  class DiskDeletion {
    const volumes: seq<Volume>

    constructor (volumes: seq<Volume>)
      ensures this.volumes == volumes
    {
      this.volumes := volumes;
    }

    /** Each volume of the disk is opened once. */
    ghost predicate Valid() {
      forall i, j :: 0 <= i < j < |volumes| ==> volumes[i] != volumes[j]
    }

    ghost function Views(): (vs: seq<Vol>)
      reads volumes
      ensures |vs| == |volumes|
      ensures forall i :: 0 <= i < |volumes| ==> vs[i] == volumes[i].View()
    {
      seq(|volumes|, i requires 0 <= i < |volumes| reads volumes => volumes[i].View())
    }

    method Lock(os: Os, force: bool) returns (ok: bool)
      requires Valid()
      modifies volumes, os
      ensures (ok, os.world, Views()) == LockAll(old(os.world), old(Views()), 0, force, os.script)
    {
      for index := 0 to |volumes|
        invariant LockAll(os.world, Views(), index, force, os.script)
                    == LockAll(old(os.world), old(Views()), 0, force, os.script)
      {
        ghost var before := Views();
        ok := volumes[index].Lock(os, force);
        assert Views() == before[index := volumes[index].View()];
        if !ok { return false; }
      }
      return true;
    }

    method Dismount(os: Os) returns (ok: bool)
      modifies os
      ensures (ok, os.world) == DismountAll(old(os.world), Views(), 0, os.script)
    {
      for index := 0 to |volumes|
        invariant DismountAll(os.world, Views(), index, os.script) == DismountAll(old(os.world), Views(), 0, os.script)
      {
        ok := volumes[index].Dismount(os);
        if !ok { return false; }
      }
      return true;
    }

    method RemoveMounts(os: Os) returns (ok: bool)
      requires Valid()
      modifies volumes, os
      ensures (ok, os.world, Views()) == RemoveAll(old(os.world), old(Views()), 0, os.script)
    {
      for index := 0 to |volumes|
        invariant RemoveAll(os.world, Views(), index, os.script) == RemoveAll(old(os.world), old(Views()), 0, os.script)
      {
        ghost var before := Views();
        ok := volumes[index].RemoveMounts(os);
        assert Views() == before[index := volumes[index].View()];
        if !ok { return false; }
      }
      return true;
    }

    method Restore(os: Os) returns (ok: bool)
      requires Valid()
      modifies volumes, os
      ensures (ok, os.world, Views()) == RestoreAll(old(os.world), old(Views()), 0, true, os.script)
    {
      ok := true;
      for index := 0 to |volumes|
        invariant RestoreAll(os.world, Views(), index, ok, os.script)
                    == RestoreAll(old(os.world), old(Views()), 0, true, os.script)
      {
        ghost var before := Views();
        var restored := volumes[index].RestoreMounts(os);
        assert Views() == before[index := volumes[index].View()];
        ok := ok && restored;
      }
    }

    /** The preparation of delete_allocation: lock, dismount and unmount, stopping at the
        first failure. */
    method PrepareVolumes(os: Os, force: bool) returns (ok: bool)
      requires Valid()
      modifies volumes, os
      ensures (ok, os.world, Views()) == PrepareAll(old(os.world), old(Views()), force, os.script)
    {
      ok := Lock(os, force);
      if !ok { return; }
      ok := Dismount(os);
      if !ok { return; }
      ok := RemoveMounts(os);
    }
  }
}
