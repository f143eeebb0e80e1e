/** SessionManifest::write_atomic: write a temporary file, sync it, rename it over session.json, sync the
    directory. */
module ManifestFile {
  import opened Wrappers
  import opened Session
  import opened Storage

  /** x is a state that replacing the manifest of `base` by m may pass through. */
  predicate Step(base: Moment, m: Manifest, x: Moment) {
    && x == base.(disk := x.disk)
    && x.disk.files == base.disk.files
    && (x.disk.visible == base.disk.visible || x.disk.visible == Some(Copy(m, true)))
    && (x.disk.settled == base.disk.settled || x.disk.settled == x.disk.visible)
  }

  method WriteAtomic(store: Store, m: Manifest) returns (ok: bool)
    requires Bounded(store.disk)
    modifies store
    ensures store.Now() == old(store.Now()).(disk := store.disk)
    ensures store.disk.files == old(store.disk.files) && Bounded(store.disk)
    ensures Step(old(store.Now()), m, store.Now())
    ensures ok && !store.failed ==> store.history != [] && store.history[|store.history| - 1] == store.Now()
    ensures ok ==> store.disk.visible == store.disk.settled == Some(Copy(m, true))
    ensures store.failed == (old(store.failed) || !ok)
    ensures old(store.history) <= store.history && (old(store.failed) ==> store.history == old(store.history))
    ensures old(store.Steady()) ==> store.Steady()
    ensures forall i :: |old(store.history)| <= i < |store.history| ==> Step(old(store.Now()), m, store.history[i])
    ensures old(store.trace) <= store.trace
    ensures forall i :: |old(store.trace)| <= i < |store.trace| ==> Step(old(store.Now()), m, store.trace[i])
  {
    hide Bounded, Store.Steady;
    ok := store.WriteTemporary(m);
    if ok {
      ok := store.SyncTemporary();
    }
    if ok {
      ok := store.RenameTemporary();
    }
    if ok {
      ok := store.SyncDirectory();
    }
  }

  /** Session.json names, now and as of the last directory sync, manifests whose content is durable. */
  predicate Intact(d: Disk) {
    && (d.visible.Some? ==> d.visible.value.synced)
    && (d.settled.Some? ==> d.settled.value.synced)
  }

  function Content(c: Option<Copy>): Option<Manifest> {
    match c
    case None => None
    case Some(copy) => Some(copy.manifest)
  }

  /** A crash at any point of a replacement leaves the old manifest or the new one, never a torn one. */
  lemma ReplaceIsAtomic(base: Moment, m: Manifest, x: Moment, s: Surviving)
    requires Intact(base.disk) && Step(base, m, x) && Crash(x.disk, s)
    ensures s.manifest == Content(base.disk.visible) || s.manifest == Content(base.disk.settled)
            || s.manifest == Some(m)
    ensures Intact(x.disk)
  {
    if CopySurvives(x.disk.visible, s.manifest) {
      assert s.manifest == Content(x.disk.visible);
    } else {
      assert s.manifest == Content(x.disk.settled);
    }
  }
}
