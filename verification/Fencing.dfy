/** Fencing over whole runs: any number of processes load, open, refresh and update manifests in
    any order. */
module Fencing {
  import opened CoreState
  import opened Manifests

  /** A StoredManifest that was loaded and not opened yet. */
  datatype Loaded = Loaded(id: nat, manifest: Manifest)

  /** `handles` holds every handle that was opened successfully, in the order of opening. */
  datatype World = World(log: seq<Manifest>, loaded: seq<Loaded>, handles: seq<Handle>)

  datatype Step =
    | Create(core: Core)
    | Load
    | OpenLoaded(l: nat, kind: Kind)
    | Refresh(h: nat)
    | Update(h: nat, core: Core)

  const Start := World([], [], [])

  /** A step that is not possible, or whose conditional write loses, leaves the log as it was. */
  function Do(w: World, step: Step): World {
    match step
    case Create(core) =>
      if w.log != [] then w
      else w.(log := [Manifest(core, 0, 0)], loaded := w.loaded + [Loaded(1, Manifest(core, 0, 0))])
    case Load =>
      if w.log == [] then w else w.(loaded := w.loaded + [Loaded(|w.log|, w.log[|w.log| - 1])])
    case OpenLoaded(l, kind) =>
      if l < |w.loaded| && w.loaded[l].id == |w.log| then
        var m := Bump(kind, w.loaded[l].manifest);
        w.(log := w.log + [m], handles := w.handles + [Handle(kind, Epoch(kind, m), |w.log| + 1, m)])
      else w
    case Refresh(h) =>
      if h < |w.handles| && w.log != [] then w.(handles := w.handles[h := RefreshHandle(w.handles[h], w.log)]) else w
    case Update(h, core) =>
      if h < |w.handles| && Lands(w.handles[h], w.log) then
        var n := Updated(w.handles[h], core);
        w.(log := w.log + [n.manifest], handles := w.handles[h := n])
      else w
  }

  function Run(steps: seq<Step>): World {
    if steps == [] then Start else Do(Run(steps[..|steps| - 1]), steps[|steps| - 1])
  }

  ghost predicate Inv(w: World) {
    && EpochsRise(w.log)
    && (forall l :: 0 <= l < |w.loaded| ==>
          1 <= w.loaded[l].id <= |w.log| && w.loaded[l].manifest == w.log[w.loaded[l].id - 1])
    && (forall h :: 0 <= h < |w.handles| ==> FromLog(w.handles[h], w.log))
    && (forall g, h :: 0 <= g < h < |w.handles| && w.handles[g].kind == w.handles[h].kind ==>
          w.handles[g].localEpoch < w.handles[h].localEpoch)
  }

  lemma OpenKeepsInv(w: World, l: nat, kind: Kind)
    requires Inv(w) && l < |w.loaded| && w.loaded[l].id == |w.log|
    ensures Inv(Do(w, OpenLoaded(l, kind)))
  {
    var m := Bump(kind, w.loaded[l].manifest);
    EpochsRiseAppend(w.log, m);
    forall h | 0 <= h < |w.handles|
      ensures w.handles[h].localEpoch <= Epoch(w.handles[h].kind, w.log[|w.log| - 1])
      ensures FromLog(w.handles[h], w.log + [m])
    {
      assert FromLog(w.handles[h], w.log);
    }
    hide EpochsRise;
  }

  lemma UpdateKeepsInv(w: World, h: nat, core: Core)
    requires Inv(w) && h < |w.handles| && Lands(w.handles[h], w.log)
    ensures Inv(Do(w, Update(h, core)))
  {
    assert FromLog(w.handles[h], w.log);
    EpochsRiseAppend(w.log, Updated(w.handles[h], core).manifest);
  }

  lemma RefreshKeepsInv(w: World, h: nat)
    requires Inv(w) && h < |w.handles|
    ensures Inv(Do(w, Refresh(h)))
  {
    assert FromLog(w.handles[h], w.log);
  }

  lemma DoKeepsInv(w: World, step: Step)
    requires Inv(w)
    ensures Inv(Do(w, step)) && w.log <= Do(w, step).log
  {
    match step
    case OpenLoaded(l, kind) =>
      if l < |w.loaded| && w.loaded[l].id == |w.log| { OpenKeepsInv(w, l, kind); }
    case Update(h, core) =>
      if h < |w.handles| && Lands(w.handles[h], w.log) { UpdateKeepsInv(w, h, core); }
    case Refresh(h) =>
      if h < |w.handles| { RefreshKeepsInv(w, h); }
    case _ =>
  }

  lemma {:induction false} RunKeepsInv(steps: seq<Step>)
    ensures Inv(Run(steps))
  {
    if steps != [] {
      RunKeepsInv(steps[..|steps| - 1]);
      DoKeepsInv(Run(steps[..|steps| - 1]), steps[|steps| - 1]);
    }
  }

  /** In every run: epochs never go down along manifest ids, opens of one kind get strictly rising
      epochs, and the "stored epoch is lower" panic is unreachable for every handle. */
  lemma EpochsInEveryRun(steps: seq<Step>)
    ensures var w := Run(steps);
      && EpochsRise(w.log)
      && (forall g, h :: 0 <= g < h < |w.handles| && w.handles[g].kind == w.handles[h].kind ==>
            w.handles[g].localEpoch < w.handles[h].localEpoch)
      && (forall h :: 0 <= h < |w.handles| ==> CheckEpoch(w.handles[h]) != StoredEpochLower)
  {
    RunKeepsInv(steps);
    var w := Run(steps);
    forall h | 0 <= h < |w.handles|
      ensures CheckEpoch(w.handles[h]) != StoredEpochLower
    {
      assert FromLog(w.handles[h], w.log);
    }
  }

  /** The handle is the last one of its kind that was opened. */
  ghost predicate Newest(w: World, h: nat) {
    h < |w.handles| && forall g :: h < g < |w.handles| ==> w.handles[g].kind != w.handles[h].kind
  }

  /** The handle is the newest of its kind and has the epoch of the latest manifest. */
  ghost predicate Holds(w: World, kind: Kind, h: nat)
    requires w.log != []
  {
    Newest(w, h) && w.handles[h].kind == kind && w.handles[h].localEpoch == Epoch(kind, w.log[|w.log| - 1])
  }

  /** The latest manifest has the epoch of the newest handle of the kind, once there is one. */
  ghost predicate EpochOfNewest(w: World, kind: Kind) {
    if w.log == [] then w.handles == []
    else (exists h: nat :: Holds(w, kind, h)) || forall h :: 0 <= h < |w.handles| ==> w.handles[h].kind != kind
  }

  lemma OpenKeepsNewest(w: World, l: nat, kind: Kind, other: Kind)
    requires Inv(w) && EpochOfNewest(w, kind) && l < |w.loaded| && w.loaded[l].id == |w.log|
    ensures EpochOfNewest(Do(w, OpenLoaded(l, other)), kind)
  {
    hide EpochsRise;
    var t := Do(w, OpenLoaded(l, other));
    if other == kind {
      assert Holds(t, kind, |w.handles|);
    } else if h: nat :| Holds(w, kind, h) {
      assert Holds(t, kind, h);
    }
  }

  lemma UpdateKeepsNewest(w: World, h: nat, core: Core, kind: Kind)
    requires Inv(w) && EpochOfNewest(w, kind) && h < |w.handles| && Lands(w.handles[h], w.log)
    ensures EpochOfNewest(Do(w, Update(h, core)), kind)
  {
    hide EpochsRise;
    assert FromLog(w.handles[h], w.log);
    if g: nat :| Holds(w, kind, g) {
      assert Holds(Do(w, Update(h, core)), kind, g);
    }
  }

  lemma RefreshKeepsNewest(w: World, h: nat, kind: Kind)
    requires EpochOfNewest(w, kind)
    ensures EpochOfNewest(Do(w, Refresh(h)), kind)
  {
    if w.log != [] {
      if g: nat :| Holds(w, kind, g) {
        assert Holds(Do(w, Refresh(h)), kind, g);
      }
    }
  }

  lemma LoadKeepsNewest(w: World, step: Step, kind: Kind)
    requires EpochOfNewest(w, kind) && (step.Load? || step.Create?)
    ensures EpochOfNewest(Do(w, step), kind)
  {
    if w.log != [] {
      if g: nat :| Holds(w, kind, g) {
        assert Holds(Do(w, step), kind, g);
      }
    }
  }

  lemma StepKeepsNewest(w: World, step: Step, kind: Kind)
    requires Inv(w) && EpochOfNewest(w, kind)
    ensures EpochOfNewest(Do(w, step), kind)
  {
    hide Inv, EpochOfNewest;
    match step
    case OpenLoaded(l, other) =>
      if l < |w.loaded| && w.loaded[l].id == |w.log| { OpenKeepsNewest(w, l, kind, other); }
    case Update(h, core) =>
      if h < |w.handles| && Lands(w.handles[h], w.log) { UpdateKeepsNewest(w, h, core, kind); }
    case Refresh(h) => RefreshKeepsNewest(w, h, kind);
    case _ => LoadKeepsNewest(w, step, kind);
  }

  lemma {:induction false} RunKeepsNewest(steps: seq<Step>, kind: Kind)
    ensures EpochOfNewest(Run(steps), kind)
  {
    hide Do;
    if steps != [] {
      hide EpochOfNewest;
      var n := |steps| - 1;
      RunKeepsNewest(steps[..n], kind);
      RunKeepsInv(steps[..n]);
      StepKeepsNewest(Run(steps[..n]), steps[n], kind);
    }
  }

  /** In every run, exactly when an update lands: its handle holds the latest manifest and is the newest of
      its kind. Any handle that refreshes holds the latest manifest, and opening succeeds exactly for
      the latest manifest. So the newest handle of a kind can always refresh and then update, and no
      other handle of that kind ever can. */
  lemma LandsIffNewest(steps: seq<Step>, h: nat, core: Core, l: nat, kind: Kind)
    requires h < |Run(steps).handles|
    ensures var w := Run(steps);
      && w.log != []
      && (Do(w, Update(h, core)).log != w.log <==> w.handles[h].id == |w.log| && Newest(w, h))
      && Do(w, Refresh(h)).handles[h].id == |w.log|
      && Do(w, Refresh(h)).handles[h].manifest == w.log[|w.log| - 1]
      && (Newest(w, h) ==> Do(Do(w, Refresh(h)), Update(h, core)).log == w.log + [w.log[|w.log| - 1].(core := core)])
      && (l < |w.loaded| ==>
            (Do(w, OpenLoaded(l, kind)).log != w.log <==> w.loaded[l].id == |w.log|)
            && |Do(w, OpenLoaded(l, kind)).handles| == |w.handles| + if w.loaded[l].id == |w.log| then 1 else 0)
  {
    hide EpochsRise, Run;
    RunKeepsInv(steps);
    var w := Run(steps);
    RunKeepsNewest(steps, w.handles[h].kind);
    assert FromLog(w.handles[h], w.log);
    NewestHasEpoch(w, h);
  }

  lemma NewestHasEpoch(w: World, h: nat)
    requires Inv(w) && h < |w.handles| && w.log != [] && EpochOfNewest(w, w.handles[h].kind)
    ensures Newest(w, h) <==> w.handles[h].localEpoch == Epoch(w.handles[h].kind, w.log[|w.log| - 1])
  {
    hide EpochsRise;
    var kind := w.handles[h].kind;
    var g: nat :| Holds(w, kind, g);
    if g != h {
      assert g > h;
    }
  }

  /** Taking over: in every run with a manifest, loading it and opening a handle always succeeds. The new
      handle is the newest of its kind, its epoch is one above the stored one, and every other handle of
      the kind gets ErrFenced once it refreshes. */
  lemma OpenTakesOver(steps: seq<Step>, kind: Kind)
    requires Run(steps).log != []
    ensures var w := Run(steps);
      var t, n := Do(Do(w, Load), OpenLoaded(|w.loaded|, kind)), |w.handles|;
      && t.log == w.log + [Bump(kind, w.log[|w.log| - 1])]
      && |t.handles| == n + 1 && t.handles[..n] == w.handles && Newest(t, n)
      && t.handles[n].kind == kind && t.handles[n].localEpoch == Epoch(kind, w.log[|w.log| - 1]) + 1
      && (forall g :: 0 <= g < n && w.handles[g].kind == kind ==>
            CheckEpoch(RefreshHandle(w.handles[g], t.log)) == ErrFenced)
  {
    hide EpochsRise, Run;
    RunKeepsInv(steps);
    var w := Run(steps);
    forall g | 0 <= g < |w.handles|
      ensures w.handles[g].localEpoch <= Epoch(w.handles[g].kind, w.log[|w.log| - 1])
    {
      assert FromLog(w.handles[g], w.log);
      EpochsRiseLast(w.log, w.handles[g].id - 1, w.handles[g].kind);
    }
  }

  lemma EpochsRiseLast(log: seq<Manifest>, i: nat, kind: Kind)
    requires EpochsRise(log) && i < |log|
    ensures Epoch(kind, log[i]) <= Epoch(kind, log[|log| - 1])
  {
  }

  /** Fencing: whenever an update lands, its handle is the last one of its kind that was opened,
      the new manifest carries exactly that handle's epoch, and every earlier handle of the kind
      gets ErrFenced once it refreshes. */
  lemma OnlyTheNewestHandleLands(steps: seq<Step>, h: nat, core: Core)
    requires h < |Run(steps).handles|
    requires Do(Run(steps), Update(h, core)).log != Run(steps).log
    ensures var w, w' := Run(steps), Do(Run(steps), Update(h, core));
      && w.log != []
      && w'.log == w.log + [w.log[|w.log| - 1].(core := core)]
      && Epoch(w.handles[h].kind, w'.log[|w.log|]) == w.handles[h].localEpoch
      && (forall g :: h < g < |w.handles| ==> w.handles[g].kind != w.handles[h].kind)
      && (forall g :: 0 <= g < h && w.handles[g].kind == w.handles[h].kind ==>
            CheckEpoch(RefreshHandle(w'.handles[g], w'.log)) == ErrFenced)
  {
    RunKeepsInv(steps);
    DoKeepsInv(Run(steps), Update(h, core));
    var w := Run(steps);
    assert Lands(w.handles[h], w.log) && FromLog(w.handles[h], w.log);
    forall g | h < g < |w.handles|
      ensures w.handles[g].kind != w.handles[h].kind
    {
      assert FromLog(w.handles[g], w.log);
    }
  }
}
