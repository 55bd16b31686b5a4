/** Numbered manifests, conditional updates and epoch fencing (slatedb/store/manifest_store.go). */
module Manifests {
  import opened Types
  import opened CoreState

  datatype Manifest = Manifest(core: Core, writerEpoch: nat, compactorEpoch: nat)
  datatype Kind = WriterEpoch | CompactorEpoch

  function Epoch(kind: Kind, m: Manifest): nat {
    match kind
    case WriterEpoch => m.writerEpoch
    case CompactorEpoch => m.compactorEpoch
  }

  function Bump(kind: Kind, m: Manifest): Manifest {
    match kind
    case WriterEpoch => m.(writerEpoch := m.writerEpoch + 1)
    case CompactorEpoch => m.(compactorEpoch := m.compactorEpoch + 1)
  }

  /** What a FenceableManifest knows: its own epoch and the last manifest it read or wrote. */
  datatype Handle = Handle(kind: Kind, localEpoch: nat, id: nat, manifest: Manifest)

  datatype Check = Passed | ErrFenced | StoredEpochLower

  function CheckEpoch(h: Handle): Check {
    if h.localEpoch < Epoch(h.kind, h.manifest) then ErrFenced
    else if h.localEpoch > Epoch(h.kind, h.manifest) then StoredEpochLower
    else Passed
  }

  /** Manifest number i is `log[i - 1]`. */
  function RefreshHandle(h: Handle, log: seq<Manifest>): Handle
    requires log != []
  {
    h.(id := |log|, manifest := log[|log| - 1])
  }

  /** UpdateDBState writes manifest number h.id + 1 if the epoch check passes and it is absent. */
  predicate Lands(h: Handle, log: seq<Manifest>) {
    CheckEpoch(h) == Passed && h.id == |log|
  }

  function Updated(h: Handle, core: Core): Handle {
    h.(id := h.id + 1, manifest := h.manifest.(core := core))
  }

  /** The handle got its manifest from the log. */
  predicate FromLog(h: Handle, log: seq<Manifest>) {
    && 1 <= h.id <= |log|
    && h.manifest == log[h.id - 1]
    && h.localEpoch <= Epoch(h.kind, h.manifest)
  }

  /** Along manifest ids neither epoch ever goes down. */
  ghost predicate EpochsRise(log: seq<Manifest>) {
    forall i, j :: 0 <= i <= j < |log| ==>
      log[i].writerEpoch <= log[j].writerEpoch && log[i].compactorEpoch <= log[j].compactorEpoch
  }

  /** A manifest whose epochs are at least the latest ones extends the log soundly. */
  lemma EpochsRiseAppend(log: seq<Manifest>, m: Manifest)
    requires EpochsRise(log)
    requires log != [] ==> forall k :: Epoch(k, log[|log| - 1]) <= Epoch(k, m)
    ensures EpochsRise(log + [m])
  {
    if log != [] {
      assert Epoch(WriterEpoch, log[|log| - 1]) <= Epoch(WriterEpoch, m);
      assert Epoch(CompactorEpoch, log[|log| - 1]) <= Epoch(CompactorEpoch, m);
    }
  }

  // ---- the objects

  class ManifestStore {
    var objects: map<nat, Manifest>
    ghost var log: seq<Manifest>

    ghost predicate Valid()
      reads this
    {
      && (forall i :: i in objects <==> 1 <= i <= |log|)
      && (forall i :: 1 <= i <= |log| ==> objects[i] == log[i - 1])
    }

    constructor ()
      ensures Valid() && log == []
    {
      objects, log := map[], [];
    }

    /** putIfNotExists under the id's file name. */
    method WriteManifest(id: nat, m: Manifest) returns (written: bool)
      requires Valid() && 1 <= id <= |log| + 1
      modifies this
      ensures Valid()
      ensures written == (id == |old(log)| + 1)
      ensures log == if written then old(log) + [m] else old(log)
    {
      if id in objects {
        return false;
      }
      objects, log := objects[id := m], log + [m];
      return true;
    }

    /** Lists the manifests in any order and reads the one with the greatest id. */
    method ReadLatest() returns (r: Option<(nat, Manifest)>)
      requires Valid()
      ensures r.None? <==> log == []
      ensures r.Some? ==> r.value == (|log|, log[|log| - 1])
    {
      var left, best := objects.Keys, 0;
      while left != {}
        invariant left <= objects.Keys
        invariant best == 0 || best in objects
        invariant forall i :: i in objects && i !in left ==> i <= best
        decreases |left|
      {
        var id :| id in left;
        if best < id {
          best := id;
        }
        left := left - {id};
      }
      if best == 0 {
        assert log != [] ==> 1 in objects;
        return None;
      }
      assert |log| in objects;
      return Some((best, objects[best]));
    }
  }

  class StoredManifest {
    const store: ManifestStore
    var id: nat
    var manifest: Manifest

    ghost predicate Attached()
      reads this, store
    {
      store.Valid() && 1 <= id <= |store.log|
    }

    ghost predicate Valid()
      reads this, store
    {
      Attached() && manifest == store.log[id - 1]
    }

    constructor At(store: ManifestStore, id: nat, manifest: Manifest)
      requires store.Valid() && 1 <= id <= |store.log| && manifest == store.log[id - 1]
      ensures Valid() && this.store == store && this.id == id && this.manifest == manifest
    {
      this.store, this.id, this.manifest := store, id, manifest;
    }

    /** Writes the given manifest as number id + 1; afterwards, on success, this is the latest manifest. */
    method UpdateManifest(m: Manifest) returns (written: bool)
      requires Attached()
      modifies this, store
      ensures Attached() && (written ==> Valid())
      ensures written == (old(id) == |old(store.log)|)
      ensures store.log == if written then old(store.log) + [m] else old(store.log)
      ensures written ==> id == old(id) + 1 && manifest == m
      ensures !written ==> id == old(id) && manifest == old(manifest)
    {
      written := store.WriteManifest(id + 1, m);
      if written {
        manifest, id := m, id + 1;
      }
    }

    method Refresh()
      requires Valid()
      modifies this
      ensures Valid() && id == |store.log| && manifest == store.log[|store.log| - 1]
    {
      var latest := store.ReadLatest();
      id, manifest := latest.value.0, latest.value.1;
    }
  }

  class FenceableManifest {
    const stored: StoredManifest
    const kind: Kind
    var localEpoch: nat

    ghost predicate Valid()
      reads this, stored, stored.store
    {
      stored.Valid() && FromLog(View(), stored.store.log)
    }

    function View(): Handle
      reads this, stored
    {
      Handle(kind, localEpoch, stored.id, stored.manifest)
    }

    constructor (stored: StoredManifest, kind: Kind, epoch: nat)
      requires stored.Valid() && epoch <= Epoch(kind, stored.manifest)
      ensures Valid() && this.stored == stored && this.kind == kind && localEpoch == epoch
    {
      this.stored, this.kind, this.localEpoch := stored, kind, epoch;
    }

    /** Refresh and then the epoch check of DbState. */
    method Refresh() returns (check: Check)
      requires Valid()
      modifies stored
      ensures stored.store.log == old(stored.store.log) && stored.Valid()
      ensures View() == RefreshHandle(old(View()), stored.store.log)
      ensures check == CheckEpoch(View())
    {
      stored.Refresh();
      check := CheckEpoch(View());
    }

    method UpdateDBState(core: Core) returns (check: Check, written: bool)
      requires Valid()
      modifies stored, stored.store
      ensures Valid() && check == CheckEpoch(old(View())) && check != StoredEpochLower
      ensures written == Lands(old(View()), old(stored.store.log))
      ensures View() == if written then Updated(old(View()), core) else old(View())
      ensures stored.store.log ==
        if written then old(stored.store.log) + [Updated(old(View()), core).manifest] else old(stored.store.log)
    {
      check, written := CheckEpoch(View()), false;
      if check == Passed {
        written := stored.UpdateManifest(stored.manifest.(core := core));
      }
    }
  }

  /** Opens a handle: loads the latest manifest and adds one to the epoch of the given kind,
      which fails when another process wrote a manifest since `stored` was loaded. The epoch is
      raised in place, so after a failure `stored` no longer matches any manifest and is dropped. */
  method Open(stored: StoredManifest, kind: Kind) returns (r: Option<FenceableManifest>)
    requires stored.Valid()
    modifies stored, stored.store
    ensures r.Some? <==> old(stored.id) == |old(stored.store.log)|
    ensures r.None? ==> stored.store.log == old(stored.store.log) && stored.manifest == Bump(kind, old(stored.manifest))
    ensures r.Some? ==>
      && r.value.stored == stored && r.value.Valid()
      && stored.store.log == old(stored.store.log) + [Bump(kind, old(stored.manifest))]
      && r.value.View()
         == Handle(kind, Epoch(kind, old(stored.manifest)) + 1, |stored.store.log|, Bump(kind, old(stored.manifest)))
  {
    stored.manifest := Bump(kind, stored.manifest);
    var written := stored.UpdateManifest(stored.manifest);
    if written {
      var fm := new FenceableManifest(stored, kind, Epoch(kind, stored.manifest));
      r := Some(fm);
    } else {
      r := None;
    }
  }
}
