/** Publishing a release manifest and its checksum in a directory that may crash at any point. */
module EvidencePublication {
  import opened Wrappers

  type Inode = nat
  type Names = map<string, Inode>
  type Contents = map<Inode, string>

  /** What processes see, the listings since the last directory sync, oldest first, and the content of the files as
      processes see it and as it was last synced. A crash keeps, for each name on its own, the binding of one of those
      listings, and of each file at least what was synced. */
  datatype View = View(live: Names, since: seq<Names>, data: Contents, disk: Contents)

  function Binding(names: Names, name: string): Option<Inode> {
    if name in names then Some(names[name]) else None
  }

  /** The directory that a crash at this point may leave. */
  ghost predicate MayPersist(v: View, after: Names) {
    forall name :: exists k | 0 <= k < |v.since| :: Binding(after, name) == Binding(v.since[k], name)
  }

  /** The binding survives every crash at this point. */
  ghost predicate Durable(v: View, name: string, inode: Inode) {
    forall k | 0 <= k < |v.since| :: Binding(v.since[k], name) == Some(inode)
  }

  /** The content of the file survives every crash. */
  predicate Stored(disk: Contents, inode: Inode, content: string) {
    inode in disk && disk[inode] == content
  }

  // ---------- The directory ----------

  /** Every inode in use is below the next one. */
  ghost predicate Allocated(since: seq<Names>, data: Contents, disk: Contents, next: Inode) {
    && (forall k, name | 0 <= k < |since| && name in since[k] :: since[k][name] < next)
    && (forall inode | inode in data :: inode < next) && (forall inode | inode in disk :: inode < next)
  }

  class Directory {
    var live: Names
    var data: Contents
    var next: Inode
    ghost var disk: Contents
    ghost var since: seq<Names>
    ghost var history: seq<View>

    ghost function Now(): View
      reads this
    {
      View(live, since, data, disk)
    }

    /** The history records every point at which a crash may happen, up to now. */
    ghost predicate Valid()
      reads this
    {
      && since != [] && since[|since| - 1] == live && history != [] && history[|history| - 1] == Now()
      && Allocated(since, data, disk, next)
    }

    constructor ()
      ensures Valid() && live == map[] && next == 0 && |history| == 1
    {
      live, data, next, disk := map[], map[], 0, map[];
      since := [map[]];
      history := [View(map[], [map[]], map[], map[])];
    }

    method Create(name: string, fails: bool) returns (r: Option<Inode>)
      requires Valid()
      modifies this
      ensures Valid() && r.Some? == (!fails && name !in old(live)) && disk == old(disk)
      ensures r.None? ==> unchanged(this)
      ensures r.Some? ==>
        && r.value == old(next) && next == old(next) + 1 && data == old(data)[r.value := ""]
        && live == old(live)[name := r.value] && since == old(since) + [live] && history == old(history) + [Now()]
    {
      if fails || name in live { return None; }
      r := Some(next);
      data, live, next := data[next := ""], live[name := next], next + 1;
      since := since + [live];
      history := history + [Now()];
    }

    method Write(inode: Inode, content: string, fails: bool) returns (ok: bool)
      requires Valid() && inode in data
      modifies this`data, this`history
      ensures Valid() && ok == !fails
      ensures !ok ==> unchanged(this)
      ensures ok ==> data == old(data)[inode := content] && history == old(history) + [Now()]
    {
      if fails { return false; }
      data := data[inode := content];
      history := history + [Now()];
      return true;
    }

    method SyncFile(inode: Inode, fails: bool) returns (ok: bool)
      requires Valid() && inode in data
      modifies this`disk, this`history
      ensures Valid() && ok == !fails
      ensures !ok ==> unchanged(this)
      ensures ok ==> disk == old(disk)[inode := data[inode]] && history == old(history) + [Now()]
    {
      if fails { return false; }
      disk := disk[inode := data[inode]];
      history := history + [Now()];
      return true;
    }

    /** Binds a new name; an existing one is never replaced. */
    method Link(from: string, to: string, fails: bool) returns (ok: bool)
      requires Valid() && from in live
      modifies this`live, this`since, this`history
      ensures Valid() && ok == (!fails && to !in old(live))
      ensures !ok ==> unchanged(this)
      ensures ok ==>
        live == old(live)[to := old(live)[from]] && since == old(since) + [live] && history == old(history) + [Now()]
    {
      if fails || to in live { return false; }
      live := live[to := live[from]];
      since := since + [live];
      history := history + [Now()];
      return true;
    }

    method Remove(name: string, fails: bool) returns (ok: bool)
      requires Valid()
      modifies this`live, this`since, this`history
      ensures Valid() && ok == (!fails && name in old(live))
      ensures !ok ==> unchanged(this)
      ensures ok ==> live == old(live) - {name} && since == old(since) + [live] && history == old(history) + [Now()]
    {
      if fails || name !in live { return false; }
      live := live - {name};
      since := since + [live];
      history := history + [Now()];
      return true;
    }

    method Sync(fails: bool) returns (ok: bool)
      requires Valid()
      modifies this`since, this`history
      ensures Valid() && ok == !fails
      ensures !ok ==> unchanged(this)
      ensures ok ==> since == [live] && history == old(history) + [Now()]
    {
      if fails { return false; }
      since := [live];
      history := history + [Now()];
      return true;
    }
  }

  // ---------- Safety of one run ----------

  /** What a run starts from (the names and contents that exist, all of inodes below run) and what it publishes. */
  datatype Base = Base(
    run: Inode, existing: Names, contents: Contents, stored: Contents,
    manifest: string, checksum: string, payload: string, line: string)

  predicate KeepsNames(existing: Names, live: Names) {
    forall name | name in existing :: name in live && live[name] == existing[name]
  }

  predicate KeepsData(before: Contents, after: Contents) {
    forall inode | inode in before :: inode in after && after[inode] == before[inode]
  }

  /** Every file that existed has its name, its content and its synced content. */
  ghost predicate Untouched(b: Base, v: View) {
    KeepsNames(b.existing, v.live) && KeepsData(b.contents, v.data) && KeepsData(b.stored, v.disk)
  }

  ghost predicate Older(b: Base) {
    (forall inode | inode in b.contents :: inode < b.run) && (forall inode | inode in b.stored :: inode < b.run)
  }

  predicate Ours(b: Base, names: Names) {
    b.manifest in names && b.run <= names[b.manifest]
  }

  /** A crash at this point may show a manifest of this run. */
  ghost predicate ShowsManifest(b: Base, v: View) {
    exists k | 0 <= k < |v.since| :: Ours(b, v.since[k])
  }

  /** Whatever manifest of this run a crash may show is on disk as a whole. */
  ghost predicate ManifestStored(b: Base, v: View) {
    forall k | 0 <= k < |v.since| && Ours(b, v.since[k]) :: Stored(v.disk, v.since[k][b.manifest], b.payload)
  }

  ghost predicate Calm(b: Base, v: View) {
    Untouched(b, v) && !ShowsManifest(b, v) && !Ours(b, v.live)
  }

  /** No existing file is touched; a manifest that a crash may show is whole, and so is its checksum, whose name had
      been made durable before. */
  ghost predicate PointSafe(b: Base, checksum: Inode, h: seq<View>, i: nat)
    requires i < |h|
  {
    && Untouched(b, h[i])
    && (ShowsManifest(b, h[i]) ==>
          && ManifestStored(b, h[i]) && Stored(h[i].disk, checksum, b.line)
          && exists j | 0 <= j <= i :: Durable(h[j], b.checksum, checksum))
  }

  /** A crash at this point may show a manifest of this run without a checksum. */
  ghost predicate Orphan(b: Base, v: View) {
    ShowsManifest(b, v) && exists k | 0 <= k < |v.since| :: b.checksum !in v.since[k]
  }

  /** Processes see a manifest of this run and no checksum. */
  predicate Bare(b: Base, v: View) {
    Ours(b, v.live) && b.checksum !in v.live
  }

  ghost predicate NeverBare(b: Base, h: seq<View>, start: nat) {
    forall i | start <= i < |h| :: !Bare(b, h[i])
  }

  ghost predicate AllCalm(b: Base, h: seq<View>, start: nat) {
    forall i | start <= i < |h| :: Calm(b, h[i])
  }

  ghost predicate AllSafe(b: Base, checksum: Inode, h: seq<View>, start: nat) {
    forall i: nat | start <= i < |h| :: PointSafe(b, checksum, h, i)
  }

  ghost predicate NoOrphan(b: Base, h: seq<View>, start: nat) {
    forall i | start <= i < |h| :: !Orphan(b, h[i])
  }

  /** An orphan manifest can be seen after some crash exactly when a crash state shows one. */
  lemma CrashShowsOrphan(b: Base, v: View)
    requires b.manifest != b.checksum && v.since != []
    ensures Orphan(b, v) <==> exists after :: MayPersist(v, after) && Ours(b, after) && b.checksum !in after
  {
    if Orphan(b, v) {
      var k :| 0 <= k < |v.since| && b.checksum !in v.since[k];
      var m :| 0 <= m < |v.since| && Ours(b, v.since[m]);
      var after := v.since[k][b.manifest := v.since[m][b.manifest]];
      forall name ensures exists j | 0 <= j < |v.since| :: Binding(after, name) == Binding(v.since[j], name) {
        var j := if name == b.manifest then m else k;
        assert Binding(after, name) == Binding(v.since[j], name);
      }
      assert MayPersist(v, after);
    }
    forall after | MayPersist(v, after) && Ours(b, after) && b.checksum !in after ensures Orphan(b, v) {
      var m :| 0 <= m < |v.since| && Binding(after, b.manifest) == Binding(v.since[m], b.manifest);
      var k :| 0 <= k < |v.since| && Binding(after, b.checksum) == Binding(v.since[k], b.checksum);
      assert Ours(b, v.since[m]);
    }
  }

  /** At a safe point, whatever manifest of this run a crash shows has its whole content, and its checksum, whole too,
      had been made durable before. */
  lemma CrashSafe(b: Base, checksum: Inode, h: seq<View>, i: nat, after: Names)
    requires i < |h| && PointSafe(b, checksum, h, i) && MayPersist(h[i], after) && Ours(b, after)
    ensures Stored(h[i].disk, after[b.manifest], b.payload) && Stored(h[i].disk, checksum, b.line)
    ensures exists j | 0 <= j <= i :: Durable(h[j], b.checksum, checksum)
  {
    hide Durable, Untouched;
    assert Binding(after, b.manifest) == Some(after[b.manifest]);
    var m :| 0 <= m < |h[i].since| && Binding(after, b.manifest) == Binding(h[i].since[m], b.manifest);
    assert Ours(b, h[i].since[m]);
  }

  lemma CalmIsSafe(b: Base, checksum: Inode, h: seq<View>, start: nat)
    requires AllCalm(b, h, start)
    ensures AllSafe(b, checksum, h, start) && NoOrphan(b, h, start) && NeverBare(b, h, start)
  {
    hide ShowsManifest, Untouched;
  }

  // ---------- Before the commit ----------

  lemma CalmExtend(b: Base, h: seq<View>, start: nat, v: View)
    requires AllCalm(b, h, start) && Calm(b, v)
    ensures AllCalm(b, h + [v], start)
  {
    hide Calm;
  }

  lemma CalmNow(b: Base, h: seq<View>, start: nat)
    requires AllCalm(b, h, start) && start < |h|
    ensures Calm(b, h[|h| - 1]) && Untouched(b, h[|h| - 1])
  {
    hide Untouched;
  }

  ghost predicate Current(v: View) {
    v.since != [] && v.since[|v.since| - 1] == v.live
  }

  lemma CalmBind(b: Base, v: View, name: string, inode: Inode)
    requires Calm(b, v) && Current(v) && name != b.manifest && name !in v.live
    ensures var live := v.live[name := inode]; Calm(b, v.(live := live, since := v.since + [live]))
  {
    var v' := v.(live := v.live[name := inode], since := v.since + [v.live[name := inode]]);
    NotOurs(b, v, v');
  }

  lemma CalmUnbind(b: Base, v: View, before: Names, name: string)
    requires Calm(b, v) && Current(v) && name !in before && KeepsNames(b.existing, before)
    ensures var live := v.live - {name}; Calm(b, v.(live := live, since := v.since + [live]))
  {
    var v' := v.(live := v.live - {name}, since := v.since + [v.live - {name}]);
    NotOurs(b, v, v');
  }

  lemma NotOurs(b: Base, v: View, v': View)
    requires !ShowsManifest(b, v) && Current(v) && v'.since == v.since + [v'.live]
    requires b.manifest in v'.live ==> b.manifest in v.live && v'.live[b.manifest] == v.live[b.manifest]
    ensures !ShowsManifest(b, v') && !Ours(b, v'.live)
  {
    var n := |v.since|;
    assert !Ours(b, v.since[n - 1]);
    assert forall k | 0 <= k < n :: v'.since[k] == v.since[k];
  }

  lemma CalmSync(b: Base, v: View)
    requires Calm(b, v) && Current(v)
    ensures Calm(b, v.(since := [v.live]))
  {
    hide Untouched;
    assert !Ours(b, v.since[|v.since| - 1]);
    assert Untouched(b, v.(since := [v.live])) by { SameFiles(b, v, v.(since := [v.live])); }
  }

  lemma SameFiles(b: Base, v: View, w: View)
    requires Untouched(b, v) && w.live == v.live && w.data == v.data && w.disk == v.disk
    ensures Untouched(b, w)
  {
  }

  /** Writing and syncing a file of this run. */
  lemma CalmContent(b: Base, v: View, inode: Inode, content: string)
    requires Calm(b, v) && Older(b) && b.run <= inode
    ensures Calm(b, v.(data := v.data[inode := content])) && Calm(b, v.(disk := v.disk[inode := content]))
  {
    hide Ours;
    assert ShowsManifest(b, v.(data := v.data[inode := content])) <==> ShowsManifest(b, v);
    assert ShowsManifest(b, v.(disk := v.disk[inode := content])) <==> ShowsManifest(b, v);
  }

  datatype StageFaults = StageFaults(create: bool, write: bool, sync: bool, cleanup: bool)

  predicate StageWorks(f: StageFaults) {
    !f.create && !f.write && !f.sync
  }

  /** Writes a private file whose content is durable before any other name refers to it. */
  method Stage(dir: Directory, temp: string, content: string, f: StageFaults, ghost b: Base, ghost start: nat)
    returns (r: Option<Inode>)
    requires dir.Valid() && temp != b.manifest && AllCalm(b, dir.history, start) && start < |dir.history|
    requires Older(b) && b.run <= dir.next
    modifies dir
    ensures dir.Valid() && AllCalm(b, dir.history, start) && old(dir.history) <= dir.history && b.run <= dir.next
    ensures dir.live - {temp} == old(dir.live) - {temp}
    ensures r.Some? == (StageWorks(f) && temp !in old(dir.live))
    ensures r.Some? ==> r.value == old(dir.next) && dir.next == r.value + 1
    ensures r.Some? ==> dir.live == old(dir.live)[temp := r.value]
    ensures r.Some? ==> dir.data == old(dir.data)[r.value := content] && dir.disk == old(dir.disk)[r.value := content]
    ensures r.None? ==> (temp in dir.live <==> temp in old(dir.live) || (!f.create && f.cleanup))
    ensures KeepsData(old(dir.data), dir.data) && KeepsData(old(dir.disk), dir.disk)
  {
    hide Allocated, Calm, AllCalm, Older, KeepsData, Untouched;
    ghost var v0 := dir.Now();
    FreshInode(dir.since, dir.data, dir.disk, dir.next);
    CalmNow(b, dir.history, start);
    r := CreateTemp(dir, temp, f.create, b, start);
    if r.None? {
      return;
    }
    DataGrows(v0.data, dir.data, r.value, content);
    DataGrows(v0.disk, v0.disk, r.value, content);
    var ok := Fill(dir, r.value, content, f, b, start);
    if !ok {
      Discard(dir, temp, f.cleanup, b, start, v0);
      r := None;
    }
  }

  method CreateTemp(
    dir: Directory, temp: string, fails: bool, ghost b: Base, ghost start: nat)
    returns (r: Option<Inode>)
    requires dir.Valid() && temp != b.manifest && AllCalm(b, dir.history, start) && start < |dir.history|
    requires Older(b) && b.run <= dir.next
    modifies dir
    ensures dir.Valid() && AllCalm(b, dir.history, start) && old(dir.history) <= dir.history &&
      dir.disk == old(dir.disk)
    ensures r.Some? == (!fails && temp !in old(dir.live))
    ensures r.None? ==> unchanged(dir)
    ensures r.Some? ==>
      && r.value == old(dir.next) && dir.live == old(dir.live)[temp := r.value] && dir.next == r.value + 1
      && dir.data == old(dir.data)[r.value := ""]
  {
    hide Allocated, Calm, AllCalm, Older;
    CalmNow(b, dir.history, start);
    ghost var v0 := dir.Now();
    r := dir.Create(temp, fails);
    if r.Some? {
      CalmBind(b, v0, temp, r.value);
      CalmContent(b, v0.(live := dir.live, since := dir.since), r.value, "");
      CalmExtend(b, old(dir.history), start, dir.Now());
    }
  }

  /** Removes a staged file that could not be filled. */
  method Discard(dir: Directory, temp: string, fails: bool, ghost b: Base, ghost start: nat, ghost before: View)
    requires dir.Valid() && AllCalm(b, dir.history, start) && start < |dir.history|
    requires temp !in before.live && Untouched(b, before)
    modifies dir`live, dir`since, dir`history
    ensures dir.Valid() && AllCalm(b, dir.history, start) && old(dir.history) <= dir.history
    ensures dir.live == if fails then old(dir.live) else old(dir.live) - {temp}
  {
    hide Allocated, Calm, AllCalm, Untouched;
    CalmNow(b, dir.history, start);
    UntouchedNames(b, before);
    ghost var v0 := dir.Now();
    var removed := dir.Remove(temp, fails);
    if removed {
      CalmUnbind(b, v0, before.live, temp);
      CalmExtend(b, old(dir.history), start, dir.Now());
    }
  }

  lemma UntouchedNames(b: Base, v: View)
    requires Untouched(b, v)
    ensures KeepsNames(b.existing, v.live)
  {
  }

  lemma FreshInode(since: seq<Names>, data: Contents, disk: Contents, next: Inode)
    requires Allocated(since, data, disk, next)
    ensures next !in data && next !in disk
    ensures KeepsData(data, data) && KeepsData(disk, disk) && KeepsData(data, data[next := ""])
  {
  }

  lemma DataGrows(before: Contents, after: Contents, inode: Inode, content: string)
    requires KeepsData(before, after) && inode !in before
    ensures KeepsData(before, after) && KeepsData(before, after[inode := content])
  {
  }

  /** Writes a new file and syncs it. */
  method Fill(
    dir: Directory, inode: Inode, content: string, f: StageFaults, ghost b: Base, ghost start: nat)
    returns (ok: bool)
    requires dir.Valid() && AllCalm(b, dir.history, start) && start < |dir.history| && inode in dir.data
    requires Older(b) && b.run <= inode
    modifies dir`data, dir`disk, dir`history
    ensures dir.Valid() && AllCalm(b, dir.history, start) && old(dir.history) <= dir.history
    ensures ok == (!f.write && !f.sync)
    ensures dir.data == old(dir.data) || dir.data == old(dir.data)[inode := content]
    ensures ok ==> dir.data == old(dir.data)[inode := content] && dir.disk == old(dir.disk)[inode := content]
    ensures !ok ==> dir.disk == old(dir.disk)
  {
    hide Allocated, Calm, AllCalm, Older;
    CalmNow(b, dir.history, start);
    ghost var v0, h0 := dir.Now(), dir.history;
    ok := dir.Write(inode, content, f.write);
    if !ok { return; }
    CalmContent(b, v0, inode, content);
    CalmExtend(b, h0, start, dir.Now());
    ghost var v1, h1 := dir.Now(), dir.history;
    ok := dir.SyncFile(inode, f.sync);
    if ok {
      CalmContent(b, v1, inode, content);
      CalmExtend(b, h1, start, dir.Now());
    }
  }

  // ---------- Around the commit ----------

  /** Everything that can go wrong in one run; an operation fails only without effect. */
  datatype Faults = Faults(
    open: bool, inspect: bool, manifestStage: StageFaults, checksumStage: StageFaults,
    linkChecksum: bool, syncChecksum: bool, linkManifest: bool, syncManifest: bool, parentChanged: bool,
    removeManifest: bool, removeChecksum: bool, syncRollback: bool,
    removeManifestTemp: bool, removeChecksumTemp: bool)

  /** The inodes that a run publishes. */
  datatype Pair = Pair(manifest: Inode, checksum: Inode)

  /** Both files are on disk, no existing file is touched, and no listing binds the manifest's name to another file. */
  ghost predicate Ready(b: Base, p: Pair, v: View) {
    && Untouched(b, v) && Stored(v.disk, p.manifest, b.payload) && Stored(v.disk, p.checksum, b.line)
    && forall k | 0 <= k < |v.since| && b.manifest in v.since[k] :: v.since[k][b.manifest] == p.manifest
  }

  lemma ReadyStored(b: Base, p: Pair, v: View)
    requires Ready(b, p, v)
    ensures Untouched(b, v) && ManifestStored(b, v) && Stored(v.disk, p.checksum, b.line)
  {
    hide Untouched;
  }

  /** One more listing, or a sync to it. */
  lemma ReadyNext(b: Base, p: Pair, v: View, live: Names)
    requires Ready(b, p, v) && KeepsNames(b.existing, live)
    requires b.manifest in live ==> live[b.manifest] == p.manifest
    ensures Ready(b, p, v.(live := live, since := v.since + [live])) && Ready(b, p, v.(live := live, since := [live]))
  {
  }

  lemma OrphanExtend(b: Base, h: seq<View>, start: nat, v: View)
    requires start <= |h|
    ensures NoOrphan(b, h + [v], start) <==> NoOrphan(b, h, start) && !Orphan(b, v)
    ensures NeverBare(b, h + [v], start) <==> NeverBare(b, h, start) && !Bare(b, v)
  {
    hide Orphan, Bare;
    var more := h + [v];
    assert more[|h|] == v;
    assert forall i | 0 <= i < |h| :: more[i] == h[i];
  }

  /** The checksum was durable at some point of the history. */
  ghost predicate WasDurable(b: Base, checksum: Inode, h: seq<View>) {
    exists j | 0 <= j < |h| :: Durable(h[j], b.checksum, checksum)
  }

  lemma DurableStays(b: Base, checksum: Inode, h: seq<View>, v: View)
    requires WasDurable(b, checksum, h)
    ensures WasDurable(b, checksum, h + [v])
  {
    hide Durable;
    var more := h + [v];
    var j :| 0 <= j < |h| && Durable(h[j], b.checksum, checksum);
    assert more[j] == h[j];
  }

  lemma SafeExtend(b: Base, p: Pair, h: seq<View>, start: nat, v: View)
    requires AllSafe(b, p.checksum, h, start) && Ready(b, p, v) && WasDurable(b, p.checksum, h)
    ensures AllSafe(b, p.checksum, h + [v], start)
  {
    hide ShowsManifest, ManifestStored, Untouched, Durable, Ready;
    var more := h + [v];
    var d :| 0 <= d < |h| && Durable(h[d], b.checksum, p.checksum);
    assert more[d] == h[d];
    forall i: nat | start <= i < |more| ensures PointSafe(b, p.checksum, more, i) {
      if i < |h| {
        SafePrefix(b, p.checksum, h, v, i);
      } else {
        ReadyStored(b, p, v);
      }
    }
  }

  lemma SafePrefix(b: Base, checksum: Inode, h: seq<View>, v: View, i: nat)
    requires i < |h| && PointSafe(b, checksum, h, i)
    ensures PointSafe(b, checksum, h + [v], i)
  {
    hide ShowsManifest, ManifestStored, Untouched, Durable;
    var more := h + [v];
    assert more[i] == h[i];
    if ShowsManifest(b, h[i]) {
      var j :| 0 <= j <= i && Durable(h[j], b.checksum, checksum);
      assert more[j] == h[j];
    }
  }

  /** One more point after the commit: the safety of the run and where an orphan may be seen. */
  lemma PointAdded(b: Base, p: Pair, h: seq<View>, start: nat, v: View)
    requires AllSafe(b, p.checksum, h, start) && start <= |h| && Ready(b, p, v) && WasDurable(b, p.checksum, h)
    ensures AllSafe(b, p.checksum, h + [v], start) && WasDurable(b, p.checksum, h + [v])
    ensures NoOrphan(b, h + [v], start) <==> NoOrphan(b, h, start) && !Orphan(b, v)
    ensures NeverBare(b, h + [v], start) <==> NeverBare(b, h, start) && !Bare(b, v)
  {
    hide Durable, Ready, Orphan, PointSafe, Bare;
    SafeExtend(b, p, h, start, v);
    DurableStays(b, p.checksum, h, v);
    OrphanExtend(b, h, start, v);
  }

  /** All listings hold the checksum. */
  ghost predicate HoldsChecksum(b: Base, checksum: Inode, since: seq<Names>) {
    forall k | 0 <= k < |since| :: Binding(since[k], b.checksum) == Some(checksum)
  }

  lemma HoldsNoOrphan(b: Base, checksum: Inode, v: View)
    requires HoldsChecksum(b, checksum, v.since)
    ensures !Orphan(b, v)
  {
  }

  lemma HeldNow(b: Base, checksum: Inode, since: seq<Names>)
    requires HoldsChecksum(b, checksum, since) && since != []
    ensures Binding(since[|since| - 1], b.checksum) == Some(checksum)
  {
  }

  lemma ShowsOrphan(b: Base, v: View, k: nat)
    requires ShowsManifest(b, v) && k < |v.since| && b.checksum !in v.since[k]
    ensures Orphan(b, v)
  {
  }

  lemma ShowsLater(b: Base, v: View, w: View)
    requires ShowsManifest(b, v) && v.since <= w.since
    ensures ShowsManifest(b, w)
  {
    var k :| 0 <= k < |v.since| && Ours(b, v.since[k]);
    assert w.since[k] == v.since[k];
  }

  lemma KeepsRemoved(existing: Names, name: string)
    requires name !in existing
    ensures forall live | KeepsNames(existing, live) :: KeepsNames(existing, live - {name})
  {
  }

  lemma ReadyNames(b: Base, p: Pair, v: View)
    requires Ready(b, p, v) && Current(v)
    ensures KeepsNames(b.existing, v.live) && (b.manifest in v.live ==> v.live[b.manifest] == p.manifest)
  {
    var n := |v.since| - 1;
    assert b.manifest in v.since[n] ==> v.since[n][b.manifest] == p.manifest;
  }

  /** The two listings bind every other name alike. */
  predicate OthersSame(a: Names, b: Names, x: string, y: string) {
    a - {x, y} == b - {x, y}
  }

  lemma OthersRemoved(a: Names, b: Names, x: string, y: string)
    ensures a == b || a == b - {x} ==> OthersSame(a, b, x, y)
  {
  }

  lemma OthersCompose(a: Names, b: Names, c: Names, x: string, y: string)
    requires OthersSame(a, b, y, x) && OthersSame(b, c, x, y)
    ensures OthersSame(a, c, x, y)
  {
    assert {x, y} == {y, x};
  }

  /** What the roll-back leaves in sight. */
  predicate RolledBack(b: Base, f: Faults, live: Names) {
    (b.manifest in live <==> f.removeManifest) && (b.checksum in live <==> f.removeChecksum)
  }

  /** Every crash keeps of the two published names what processes see. */
  ghost predicate Settled(b: Base, v: View) {
    forall k | 0 <= k < |v.since| ::
      Binding(v.since[k], b.manifest) == Binding(v.live, b.manifest) &&
      Binding(v.since[k], b.checksum) == Binding(v.live, b.checksum)
  }

  /** A run after the commit: safe so far, its checksum durable once. */
  ghost predicate Committed(b: Base, p: Pair, dir: Directory, start: nat)
    reads dir
  {
    && dir.Valid() && start < |dir.history| && b.manifest != b.checksum
    && b.manifest !in b.existing && b.checksum !in b.existing
    && AllSafe(b, p.checksum, dir.history, start) && WasDurable(b, p.checksum, dir.history) && Ready(b, p, dir.Now())
  }

  /** Undoes a publication after its commit. The manifest goes first; a checksum that is removed at all leaves a
      moment where a crash may keep the manifest without it. */
  method RollBack(
    dir: Directory, manifest: string, checksumName: string, f: Faults, ghost b: Base, ghost p: Pair, ghost start: nat)
    requires manifest == b.manifest && checksumName == b.checksum
    requires Committed(b, p, dir, start) && NoOrphan(b, dir.history, start) && NeverBare(b, dir.history, start)
    requires b.manifest in dir.live && b.run <= p.manifest
    requires HoldsChecksum(b, p.checksum, dir.since) && ShowsManifest(b, dir.Now())
    modifies dir`live, dir`since, dir`history
    ensures Committed(b, p, dir, start) && old(dir.history) <= dir.history
    ensures NoOrphan(b, dir.history, start) <==> f.removeChecksum
    ensures NeverBare(b, dir.history, start) <==> !f.removeManifest || f.removeChecksum
    ensures OthersSame(dir.live, old(dir.live), manifest, checksumName) && RolledBack(b, f, dir.live)
    ensures !f.syncRollback ==> dir.since == [dir.live]
  {
    hide Allocated, AllSafe, NoOrphan, WasDurable, Orphan, ShowsManifest, HoldsChecksum, KeepsNames, OthersSame, Ready,
      NeverBare, Bare;
    KeepsRemoved(b.existing, b.manifest);
    ghost var v0, h0 := dir.Now(), dir.history;
    HeldNow(b, p.checksum, v0.since);
    ReadyNames(b, p, v0);
    var removed := dir.Remove(manifest, f.removeManifest);
    if removed { RemovedManifest(b, p, h0, start, v0, dir.live); }
    ShowsLater(b, v0, dir.Now());
    OthersRemoved(dir.live, v0.live, manifest, checksumName);
    FinishRollBack(dir, checksumName, f, b, p, start, v0.live);
  }

  method FinishRollBack(
    dir: Directory, checksumName: string, f: Faults, ghost b: Base, ghost p: Pair, ghost start: nat, ghost live0: Names)
    requires checksumName == b.checksum && Committed(b, p, dir, start) && NoOrphan(b, dir.history, start)
    requires NeverBare(b, dir.history, start) && b.run <= p.manifest
    requires HoldsChecksum(b, p.checksum, dir.since) && ShowsManifest(b, dir.Now())
    requires OthersSame(dir.live, live0, b.manifest, b.checksum) && (b.manifest in dir.live <==> f.removeManifest)
    modifies dir`live, dir`since, dir`history
    ensures Committed(b, p, dir, start) && old(dir.history) <= dir.history
    ensures NoOrphan(b, dir.history, start) <==> f.removeChecksum
    ensures NeverBare(b, dir.history, start) <==> !f.removeManifest || f.removeChecksum
    ensures OthersSame(dir.live, live0, b.manifest, b.checksum) && RolledBack(b, f, dir.live)
    ensures !f.syncRollback ==> dir.since == [dir.live]
  {
    hide Allocated, AllSafe, NoOrphan, WasDurable, Orphan, ShowsManifest, HoldsChecksum, KeepsNames, OthersSame, Ready,
      NeverBare, Bare;
    KeepsRemoved(b.existing, b.checksum);
    ghost var v1, h1 := dir.Now(), dir.history;
    HeldNow(b, p.checksum, v1.since);
    ReadyNames(b, p, v1);
    var removed := dir.Remove(checksumName, f.removeChecksum);
    OthersRemoved(dir.live, v1.live, checksumName, b.manifest);
    OthersCompose(dir.live, v1.live, live0, b.manifest, checksumName);
    if removed { RemovedChecksum(b, p, h1, start, v1, dir.live); }
    SyncRollBack(dir, f, b, p, start);
  }

  method SyncRollBack(dir: Directory, f: Faults, ghost b: Base, ghost p: Pair, ghost start: nat)
    requires Committed(b, p, dir, start)
    requires NoOrphan(b, dir.history, start) ==> HoldsChecksum(b, p.checksum, dir.since)
    modifies dir`since, dir`history
    ensures Committed(b, p, dir, start) && old(dir.history) <= dir.history
    ensures NoOrphan(b, dir.history, start) <==> NoOrphan(b, old(dir.history), start)
    ensures NeverBare(b, dir.history, start) <==> NeverBare(b, old(dir.history), start)
    ensures !f.syncRollback ==> dir.since == [dir.live]
  {
    hide Allocated, AllSafe, NoOrphan, WasDurable, Orphan, HoldsChecksum, KeepsNames, Ready, NeverBare, Bare;
    ghost var v2, h2 := dir.Now(), dir.history;
    ReadyNames(b, p, v2);
    var ok := dir.Sync(f.syncRollback);
    if ok { SyncedRollback(b, p, h2, start, v2); }
  }

  lemma RemovedManifest(b: Base, p: Pair, h: seq<View>, start: nat, v: View, live: Names)
    requires AllSafe(b, p.checksum, h, start) && start <= |h| && WasDurable(b, p.checksum, h)
    requires Ready(b, p, v) && KeepsNames(b.existing, live) && b.manifest !in live
    requires HoldsChecksum(b, p.checksum, v.since) && Binding(live, b.checksum) == Some(p.checksum)
    ensures
      var v' := v.(live := live, since := v.since + [live]);
      && Ready(b, p, v') && AllSafe(b, p.checksum, h + [v'], start) && WasDurable(b, p.checksum, h + [v'])
      && (NoOrphan(b, h + [v'], start) <==> NoOrphan(b, h, start)) && HoldsChecksum(b, p.checksum, v'.since)
      && (NeverBare(b, h + [v'], start) <==> NeverBare(b, h, start))
  {
    hide AllSafe, NoOrphan, WasDurable, Orphan, KeepsNames, Ready;
    ReadyNext(b, p, v, live);
    var v' := v.(live := live, since := v.since + [live]);
    PointAdded(b, p, h, start, v');
    HoldsNoOrphan(b, p.checksum, v');
  }

  lemma RemovedChecksum(b: Base, p: Pair, h: seq<View>, start: nat, v: View, live: Names)
    requires AllSafe(b, p.checksum, h, start) && start <= |h| && WasDurable(b, p.checksum, h)
    requires Ready(b, p, v) && KeepsNames(b.existing, live) && (b.manifest in live ==> live[b.manifest] == p.manifest)
    requires ShowsManifest(b, v) && b.checksum !in live
    ensures
      var v' := v.(live := live, since := v.since + [live]);
      && Ready(b, p, v') && AllSafe(b, p.checksum, h + [v'], start) && WasDurable(b, p.checksum, h + [v'])
      && !NoOrphan(b, h + [v'], start)
      && (NeverBare(b, h + [v'], start) <==> NeverBare(b, h, start) && !Ours(b, live))
  {
    hide AllSafe, NoOrphan, WasDurable, Orphan, KeepsNames, ShowsManifest, Ready;
    ReadyNext(b, p, v, live);
    var v' := v.(live := live, since := v.since + [live]);
    PointAdded(b, p, h, start, v');
    ShowsLater(b, v, v');
    ShowsOrphan(b, v', |v.since|);
  }

  lemma SyncedRollback(b: Base, p: Pair, h: seq<View>, start: nat, v: View)
    requires AllSafe(b, p.checksum, h, start) && start <= |h| && WasDurable(b, p.checksum, h)
    requires Ready(b, p, v) && Current(v) && KeepsNames(b.existing, v.live)
    requires b.manifest in v.live ==> v.live[b.manifest] == p.manifest
    requires NoOrphan(b, h, start) ==> HoldsChecksum(b, p.checksum, v.since)
    requires start < |h| && h[|h| - 1].live == v.live
    ensures
      var v' := v.(since := [v.live]);
      && Ready(b, p, v') && AllSafe(b, p.checksum, h + [v'], start) && WasDurable(b, p.checksum, h + [v'])
      && (NoOrphan(b, h + [v'], start) <==> NoOrphan(b, h, start))
      && (NeverBare(b, h + [v'], start) <==> NeverBare(b, h, start))
  {
    hide AllSafe, NoOrphan, WasDurable, Orphan, KeepsNames, Ready;
    ReadyNext(b, p, v, v.live);
    var v' := v.(since := [v.live]);
    assert v.(live := v.live, since := [v.live]) == v';
    PointAdded(b, p, h, start, v');
    if NoOrphan(b, h, start) { HoldsNoOrphan(b, p.checksum, v'); }
  }

  // ---------- Publishing ----------

  /** Links and syncs the checksum, with nothing of the manifest in sight. */
  method PublishChecksum(
    dir: Directory, temp: string, checksumName: string, f: Faults, ghost b: Base, ghost start: nat)
    returns (ok: bool)
    requires checksumName == b.checksum && b.manifest != b.checksum && b.checksum !in dir.live
    requires dir.Valid() && start < |dir.history| && AllCalm(b, dir.history, start) && temp in dir.live
    modifies dir`live, dir`since, dir`history
    ensures dir.Valid() && old(dir.history) <= dir.history && AllCalm(b, dir.history, start)
    ensures ok == (!f.linkChecksum && !f.syncChecksum)
    ensures ok ==> dir.live == old(dir.live)[checksumName := old(dir.live)[temp]] && dir.since == [dir.live]
    ensures !ok ==> dir.live - {checksumName} == old(dir.live)
    ensures checksumName in dir.live <==> ok || (!f.linkChecksum && f.removeChecksum)
    ensures !ok && !f.linkChecksum && !f.syncRollback ==> dir.since == [dir.live]
  {
    hide Allocated, Calm, Untouched, AllCalm;
    ghost var v0 := dir.Now();
    CalmNow(b, dir.history, start);
    var linked := dir.Link(temp, checksumName, f.linkChecksum);
    if !linked { return false; }
    ghost var v1, h1 := dir.Now(), dir.history;
    CalmBind(b, v0, checksumName, old(dir.live)[temp]);
    CalmExtend(b, old(dir.history), start, v1);
    ok := dir.Sync(f.syncChecksum);
    if ok {
      CalmSync(b, v1);
      CalmExtend(b, h1, start, dir.Now());
      return;
    }
    UntouchedNames(b, v0);
    RemoveChecksum(dir, checksumName, f, b, start, v0.live);
  }

  /** Undoes the checksum while the manifest was never linked. */
  method RemoveChecksum(
    dir: Directory, checksumName: string, f: Faults, ghost b: Base, ghost start: nat, ghost before: Names)
    requires checksumName == b.checksum && dir.Valid() && start < |dir.history| && AllCalm(b, dir.history, start)
    requires dir.live - {checksumName} == before && KeepsNames(b.existing, before)
    modifies dir`live, dir`since, dir`history
    ensures dir.Valid() && old(dir.history) <= dir.history && AllCalm(b, dir.history, start)
    ensures dir.live - {checksumName} == before
    ensures checksumName in dir.live <==> checksumName in old(dir.live) && f.removeChecksum
    ensures !f.syncRollback ==> dir.since == [dir.live]
  {
    hide Allocated, Calm, KeepsNames, AllCalm;
    CalmNow(b, dir.history, start);
    ghost var v1, h1 := dir.Now(), dir.history;
    var removed := dir.Remove(checksumName, f.removeChecksum);
    ghost var v2, h2 := dir.Now(), dir.history;
    if removed {
      assert checksumName !in before;
      CalmUnbind(b, v1, before, checksumName);
      CalmExtend(b, h1, start, v2);
    }
    var synced := dir.Sync(f.syncRollback);
    if synced {
      CalmNow(b, h2, start);
      CalmSync(b, v2);
      CalmExtend(b, h2, start, dir.Now());
    }
  }

  /** Both files are staged and the checksum is durable, and the manifest's name is free. */
  ghost predicate Prepared(b: Base, p: Pair, dir: Directory, start: nat)
    reads dir
  {
    && b.manifest != b.checksum && b.manifest !in b.existing && b.checksum !in b.existing && b.run <= p.manifest
    && dir.Valid() && start < |dir.history| && AllCalm(b, dir.history, start) && b.manifest !in dir.live
    && Stored(dir.disk, p.manifest, b.payload) && Stored(dir.disk, p.checksum, b.line)
  }

  /** The commit: links and syncs the manifest once the checksum is durable; undoes both when that fails. */
  method PublishManifest(
    dir: Directory, temp: string, manifest: string, checksumName: string, f: Faults, ghost b: Base, ghost p: Pair,
    ghost start: nat)
    returns (ok: bool)
    requires manifest == b.manifest && checksumName == b.checksum && Prepared(b, p, dir, start) &&
      dir.since == [dir.live]
    requires Binding(dir.live, temp) == Some(p.manifest) && Binding(dir.live, b.checksum) == Some(p.checksum)
    modifies dir`live, dir`since, dir`history
    ensures dir.Valid() && old(dir.history) <= dir.history && AllSafe(b, p.checksum, dir.history, start)
    ensures ok == (!f.linkManifest && !f.syncManifest && !f.parentChanged)
    ensures ok ==> dir.live == old(dir.live)[manifest := p.manifest] && dir.since == [dir.live]
    ensures !ok ==> OthersSame(dir.live, old(dir.live), manifest, checksumName)
    ensures manifest in dir.live <==> ok || (!f.linkManifest && f.removeManifest)
    ensures checksumName in dir.live <==> ok || f.removeChecksum
    ensures ok || !f.syncRollback ==> dir.since == [dir.live]
    ensures NoOrphan(b, dir.history, start) <==> ok || f.linkManifest || f.removeChecksum
    ensures NeverBare(b, dir.history, start) <==> ok || f.linkManifest || !f.removeManifest || f.removeChecksum
  {
    hide Allocated, Calm, Untouched, AllSafe, NoOrphan, WasDurable, Orphan, ShowsManifest, HoldsChecksum, AllCalm,
      Ready, KeepsNames, NeverBare;
    ghost var v0, h0 := dir.Now(), dir.history;
    CalmNow(b, h0, start);
    UntouchedNames(b, v0);
    var linked := dir.Link(temp, manifest, f.linkManifest);
    if !linked {
      KeepsRemoved(b.existing, b.checksum);
      RemoveChecksum(dir, checksumName, f, b, start, v0.live - {checksumName});
      OthersWithout(dir.live, v0.live, manifest, checksumName);
      assert (manifest in dir.live <==> manifest in dir.live - {checksumName});
      CalmIsSafe(b, p.checksum, dir.history, start);
      return false;
    }
    JustCommitted(b, p, h0, start, v0, dir.Now());
    assert OthersSame(dir.live, v0.live, manifest, checksumName);
    ok := Commit(dir, manifest, checksumName, f, b, p, start);
  }

  lemma OthersWithout(a: Names, b: Names, x: string, y: string)
    requires a - {y} == b - {y}
    ensures OthersSame(a, b, x, y)
  {
    assert a - {x, y} == (a - {y}) - {x} && b - {x, y} == (b - {y}) - {x};
  }

  lemma JustCommitted(b: Base, p: Pair, h: seq<View>, start: nat, v0: View, v: View)
    requires AllCalm(b, h, start) && start < |h| && h[|h| - 1] == v0 && v0.since == [v0.live] &&
      b.manifest != b.checksum
    requires Stored(v0.disk, p.manifest, b.payload) && Stored(v0.disk, p.checksum, b.line) && b.run <= p.manifest
    requires b.manifest !in v0.live && b.manifest !in b.existing && Binding(v0.live, b.checksum) == Some(p.checksum)
    requires v == v0.(live := v0.live[b.manifest := p.manifest], since := [v0.live, v0.live[b.manifest := p.manifest]])
    ensures AllSafe(b, p.checksum, h + [v], start) && NoOrphan(b, h + [v], start) && WasDurable(b, p.checksum, h + [v])
    ensures Ready(b, p, v) && HoldsChecksum(b, p.checksum, v.since) && ShowsManifest(b, v)
    ensures NeverBare(b, h + [v], start)
  {
    hide AllSafe, NoOrphan, Orphan, AllCalm, PointSafe, NeverBare;
    CalmNow(b, h, start);
    CalmIsSafe(b, p.checksum, h, start);
    assert Durable(h[|h| - 1], b.checksum, p.checksum);
    PointAdded(b, p, h, start, v);
    HoldsNoOrphan(b, p.checksum, v);
    assert Ours(b, v.since[1]);
  }

  /** Makes the linked manifest durable, or undoes the publication. */
  method Commit(
    dir: Directory, manifest: string, checksumName: string, f: Faults, ghost b: Base, ghost p: Pair, ghost start: nat)
    returns (ok: bool)
    requires manifest == b.manifest && checksumName == b.checksum && b.run <= p.manifest
    requires Committed(b, p, dir, start) && NoOrphan(b, dir.history, start) && NeverBare(b, dir.history, start)
    requires HoldsChecksum(b, p.checksum, dir.since) && ShowsManifest(b, dir.Now()) && b.manifest in dir.live
    modifies dir`live, dir`since, dir`history
    ensures Committed(b, p, dir, start) && old(dir.history) <= dir.history
    ensures ok == (!f.syncManifest && !f.parentChanged)
    ensures ok ==> dir.live == old(dir.live) && dir.since == [dir.live]
    ensures !ok ==> OthersSame(dir.live, old(dir.live), manifest, checksumName) && RolledBack(b, f, dir.live)
    ensures NoOrphan(b, dir.history, start) <==> ok || f.removeChecksum
    ensures NeverBare(b, dir.history, start) <==> ok || !f.removeManifest || f.removeChecksum
    ensures !ok && !f.syncRollback ==> dir.since == [dir.live]
  {
    hide Allocated, AllSafe, NoOrphan, WasDurable, Orphan, ShowsManifest, HoldsChecksum, Ready, KeepsNames, NeverBare;
    ghost var v0 := dir.Now();
    ReadyNames(b, p, v0);
    var synced := dir.Sync(f.syncManifest);
    if synced { CommitSynced(b, p, old(dir.history), start, v0); }
    if !synced || f.parentChanged {
      RollBack(dir, manifest, checksumName, f, b, p, start);
      return false;
    }
    return true;
  }

  lemma CommitSynced(b: Base, p: Pair, h: seq<View>, start: nat, v: View)
    requires AllSafe(b, p.checksum, h, start) && NoOrphan(b, h, start) && WasDurable(b, p.checksum, h)
    requires start < |h| && h[|h| - 1].live == v.live && NeverBare(b, h, start)
    requires Ready(b, p, v) && Current(v) && KeepsNames(b.existing, v.live) && HoldsChecksum(b, p.checksum, v.since)
    requires b.manifest in v.live && v.live[b.manifest] == p.manifest && b.run <= p.manifest
    ensures
      var v' := v.(since := [v.live]);
      && AllSafe(b, p.checksum, h + [v'], start) && NoOrphan(b, h + [v'], start) && WasDurable(b, p.checksum, h + [v'])
      && Ready(b, p, v') && HoldsChecksum(b, p.checksum, [v.live]) && ShowsManifest(b, v')
      && NeverBare(b, h + [v'], start)
  {
    hide AllSafe, NoOrphan, Orphan, WasDurable, KeepsNames, Ready, NeverBare;
    SyncedRollback(b, p, h, start, v);
    HeldNow(b, p.checksum, v.since);
    assert Ours(b, v.(since := [v.live]).since[0]);
  }

  // ---------- The whole command ----------

  /** The names that a run uses; the temporary names are random. */
  datatype Paths = Paths(manifest: string, manifestTemp: string, checksumTemp: string)

  const CHECKSUM_SUFFIX := ".sha256"

  function ChecksumName(manifest: string): string {
    manifest + CHECKSUM_SUFFIX
  }

  function ChecksumLine(digest: string, manifest: string): string {
    digest + "  " + manifest + "\n"
  }

  lemma SuffixedApart(manifest: string)
    ensures ChecksumName(manifest) != manifest
  {
    assert |ChecksumName(manifest)| == |manifest| + 7;
  }

  lemma Published(manifest: string, digest: string)
    ensures ChecksumName(manifest) == manifest + ".sha256"
    ensures ChecksumLine(digest, manifest) == digest + "  " + manifest + "\n"
  {
  }

  predicate TempsApart(p: Paths) {
    && p.manifestTemp != p.manifest && p.checksumTemp != p.manifest
    && p.manifestTemp != ChecksumName(p.manifest) && p.checksumTemp != ChecksumName(p.manifest)
  }

  /** The run gets as far as linking the manifest. */
  predicate Commits(live: Names, p: Paths, f: Faults) {
    Links(live, p, f) && !f.syncChecksum && !f.linkManifest
  }

  /** What a run starts from and what it is to publish. */
  ghost function BaseOf(dir: Directory, manifest: string, payload: string, digest: string -> string): Base
    reads dir
  {
    Base(dir.next, dir.live, dir.data, dir.disk, manifest, manifest + ".sha256", payload,
      digest(payload) + "  " + manifest + "\n")
  }

  /** How far a run gets: the manifest and then the checksum are staged, the checksum and then the manifest linked. */
  datatype Reach = Reach(linked: bool, commits: bool, published: bool)

  /** The two published names at the end of a run, to processes and after a crash. */
  ghost predicate Ends(b: Base, f: Faults, r: Reach, v: View) {
    && (b.manifest in v.live <==> r.published || (r.commits && f.removeManifest))
    && (b.checksum in v.live <==> r.published || (r.linked && f.removeChecksum))
    && (r.linked && (r.published || !f.syncRollback) ==> Settled(b, v))
  }

  /** The contract of a run, from a point of the history on: every crash point is safe; both files are durable on
      success; an orphan manifest is possible exactly when a roll-back removed the checksum, and seen by processes
      exactly when it could not remove the manifest before. */
  ghost predicate RunSafe(b: Base, pair: Pair, dir: Directory, start: nat, f: Faults, r: Reach)
    reads dir
  {
    && dir.Valid() && start < |dir.history| && AllSafe(b, pair.checksum, dir.history, start) && Untouched(b, dir.Now())
    && (NoOrphan(b, dir.history, start) <==> !r.commits || r.published || f.removeChecksum)
    && (NeverBare(b, dir.history, start) <==> !r.commits || r.published || !f.removeManifest || f.removeChecksum)
    && Ends(b, f, r, dir.Now())
    && (r.published ==>
          Durable(dir.Now(), b.manifest, pair.manifest) && Durable(dir.Now(), b.checksum, pair.checksum))
    && (r.published ==> Stored(dir.disk, pair.manifest, b.payload) && Stored(dir.disk, pair.checksum, b.line))
  }

  /** The manifest's file is staged. */
  predicate Staged(live: Names, p: Paths, f: Faults) {
    && !f.open && !f.inspect && p.manifest !in live && ChecksumName(p.manifest) !in live
    && p.manifestTemp !in live && StageWorks(f.manifestStage)
  }

  /** The checksum is linked. */
  predicate Links(live: Names, p: Paths, f: Faults) {
    && Staged(live, p, f) && p.checksumTemp !in live && p.manifestTemp != p.checksumTemp
    && StageWorks(f.checksumStage) && !f.linkChecksum
  }

  /** A temporary name of a stage stays exactly when its removal fails. */
  predicate Leaves(stage: StageFaults, removal: bool) {
    !stage.create && if StageWorks(stage) then removal else stage.cleanup
  }

  method WriteEvidence(dir: Directory, p: Paths, payload: string, digest: string -> string, f: Faults)
    returns (published: bool, ghost pair: Pair)
    requires dir.Valid() && TempsApart(p)
    modifies dir
    ensures old(dir.history) <= dir.history
    ensures published == (Commits(old(dir.live), p, f) && !f.syncManifest && !f.parentChanged)
    ensures !Taken(old(dir.live), p) ==>
      RunSafe(old(BaseOf(dir, p.manifest, payload, digest)), pair, dir, old(|dir.history|) - 1, f,
        Reach(Links(old(dir.live), p, f), Commits(old(dir.live), p, f), published))
    ensures Taken(old(dir.live), p) ==> unchanged(dir)
    ensures OtherNames(old(dir.live), dir.live, p) && TempNames(old(dir.live), dir.live, p, f)
  {
    hide Allocated, Calm, Untouched, AllSafe, NoOrphan, Orphan, AllCalm, Durable, ChecksumName, ChecksumLine, RunSafe,
      KeepsData, OtherNames, TempNames, Stored;
    SuffixedApart(p.manifest);
    published, pair := false, Pair(0, 0);
    ghost var b, start := BaseOf(dir, p.manifest, payload, digest), |dir.history| - 1;
    Published(p.manifest, digest(payload));
    var checksumName := ChecksumName(p.manifest);
    StartCalm(b, dir.Now(), dir.history);
    NotStarted(dir.live, p, f);
    if !Taken(dir.live, p) { CalmRun(b, pair, dir, start, f, false); }
    if f.open || f.inspect || p.manifest in dir.live || checksumName in dir.live { return; }
    var staged := Stage(dir, p.manifestTemp, payload, f.manifestStage, b, start);
    NotStaged(old(dir.live), dir.live, p, f);
    if staged.None? {
      CalmRun(b, pair, dir, start, f, false);
      return;
    }
    assert Stored(dir.disk, staged.value, payload) by { NowStored(old(dir.disk), staged.value, payload); }
    ghost var live := dir.live;
    published, pair := WriteStaged(dir, p, checksumName, ChecksumLine(digest(payload), p.manifest), f, b,
      staged.value, start);
    ghost var end := dir.live;
    CleanUp(dir, p.manifestTemp, f.removeManifestTemp, b, pair, start, f,
      Reach(Links(old(dir.live), p, f), Commits(old(dir.live), p, f), published));
    RunEnded(old(dir.live), live, end, dir.live, p, f, staged.value);
  }

  lemma NowStored(disk: Contents, inode: Inode, content: string)
    ensures Stored(disk[inode := content], inode, content)
  {
  }

  /** Nothing but the four names of the run changes. */
  predicate OtherNames(before: Names, after: Names, p: Paths) {
    var names := {p.manifest, ChecksumName(p.manifest), p.manifestTemp, p.checksumTemp};
    after - names == before - names
  }

  /** The temporary names are gone unless their removal failed. */
  predicate TempNames(before: Names, after: Names, p: Paths, f: Faults) {
    && (p.manifestTemp in after <==>
          || p.manifestTemp in before
          || (!f.open && !f.inspect && !Taken(before, p) && Leaves(f.manifestStage, f.removeManifestTemp)))
    && (p.checksumTemp != p.manifestTemp ==>
          (p.checksumTemp in after <==>
             || p.checksumTemp in before
             || (Staged(before, p, f) && Leaves(f.checksumStage, f.removeChecksumTemp))))
  }

  /** A target exists already. */
  predicate Taken(live: Names, p: Paths) {
    p.manifest in live || ChecksumName(p.manifest) in live
  }

  lemma NotStarted(live: Names, p: Paths, f: Faults)
    ensures f.open || f.inspect || Taken(live, p) ==> OtherNames(live, live, p) && TempNames(live, live, p, f)
  {
    hide ChecksumName;
  }

  lemma SameElsewhere(a: Names, b: Names, names: set<string>, name: string)
    requires a - names == b - names && name !in names
    ensures Binding(a, name) == Binding(b, name)
  {
    assert name in a <==> name in a - names;
    assert name in b <==> name in b - names;
    assert name in a ==> (a - names)[name] == a[name];
    assert name in b ==> (b - names)[name] == b[name];
  }

  lemma SameBeyond(a: Names, b: Names, names: set<string>, more: set<string>)
    requires a - names == b - names && names <= more
    ensures a - more == b - more
  {
    assert a - more == (a - names) - more && b - more == (b - names) - more;
  }

  /** After the first stage, which fails or goes on. */
  lemma NotStaged(before: Names, after: Names, p: Paths, f: Faults)
    requires !f.open && !f.inspect && !Taken(before, p) && TempsApart(p)
    requires after - {p.manifestTemp} == before - {p.manifestTemp}
    requires
      (p.manifestTemp in after <==>
         || p.manifestTemp in before
         || if StageWorks(f.manifestStage) then true else !f.manifestStage.create && f.manifestStage.cleanup)
    ensures !Taken(after, p)
    ensures !Staged(before, p, f) ==> OtherNames(before, after, p) && TempNames(before, after, p, f)
  {
    hide ChecksumName;
    SameElsewhere(after, before, {p.manifestTemp}, p.manifest);
    SameElsewhere(after, before, {p.manifestTemp}, ChecksumName(p.manifest));
    if p.checksumTemp != p.manifestTemp { SameElsewhere(after, before, {p.manifestTemp}, p.checksumTemp); }
    SameBeyond(after, before, {p.manifestTemp},
      {p.manifest, ChecksumName(p.manifest), p.manifestTemp, p.checksumTemp});
  }

  /** After everything. */
  lemma RunEnded(before: Names, live: Names, end: Names, after: Names, p: Paths, f: Faults, inode: Inode)
    requires Staged(before, p, f) && TempsApart(p) && live == before[p.manifestTemp := inode]
    requires var names := {p.manifest, ChecksumName(p.manifest), p.checksumTemp}; end - names == live - names
    requires p.checksumTemp in end <==> p.checksumTemp in live || Leaves(f.checksumStage, f.removeChecksumTemp)
    requires after == if f.removeManifestTemp then end else end - {p.manifestTemp}
    ensures OtherNames(before, after, p) && TempNames(before, after, p, f)
  {
    hide ChecksumName;
    var three := {p.manifest, ChecksumName(p.manifest), p.checksumTemp};
    var four := {p.manifest, ChecksumName(p.manifest), p.manifestTemp, p.checksumTemp};
    if p.checksumTemp != p.manifestTemp { SameElsewhere(end, live, three, p.manifestTemp); }
    SameBeyond(end, live, three, four);
    assert live - four == before - four && after - four == end - four;
  }

  lemma StartCalm(b: Base, v: View, h: seq<View>)
    requires Allocated(v.since, v.data, v.disk, b.run) && h != [] && h[|h| - 1] == v
    requires Current(v) && b.existing == v.live && b.contents == v.data && b.stored == v.disk
    ensures AllCalm(b, h, |h| - 1) && Older(b)
  {
  }

  /** A run that does not link the manifest. */
  lemma CalmRun(b: Base, pair: Pair, dir: Directory, start: nat, f: Faults, linked: bool)
    requires dir.Valid() && start < |dir.history| && AllCalm(b, dir.history, start)
    requires b.manifest !in dir.live && (b.checksum in dir.live <==> linked && f.removeChecksum)
    requires linked && !f.syncRollback ==> dir.since == [dir.live]
    ensures RunSafe(b, pair, dir, start, f, Reach(linked, false, false))
  {
    hide Allocated, Untouched, AllSafe, NoOrphan, AllCalm, NeverBare;
    CalmIsSafe(b, pair.checksum, dir.history, start);
    CalmNow(b, dir.history, start);
  }

  /** From the staged manifest to the end of the publication. */
  method WriteStaged(
    dir: Directory, p: Paths, checksumName: string, line: string, f: Faults, ghost b: Base, ghost manifest: Inode,
    ghost start: nat)
    returns (published: bool, ghost pair: Pair)
    requires TempsApart(p) && checksumName == ChecksumName(p.manifest) && b.manifest == p.manifest &&
      b.checksum == checksumName
    requires b.manifest != b.checksum && b.manifest !in b.existing && b.checksum !in b.existing && line == b.line
    requires p.manifestTemp !in b.existing && b.run <= manifest < dir.next && Older(b)
    requires dir.Valid() && start < |dir.history| && AllCalm(b, dir.history, start)
    requires b.manifest !in dir.live && b.checksum !in dir.live
    requires dir.live == b.existing[p.manifestTemp := manifest] && Stored(dir.disk, manifest, b.payload)
    modifies dir
    ensures old(dir.history) <= dir.history
    ensures
      var linked := p.checksumTemp !in old(dir.live) && StageWorks(f.checksumStage) && !f.linkChecksum;
      var commits := linked && !f.syncChecksum && !f.linkManifest;
      && published == (commits && !f.syncManifest && !f.parentChanged)
      && RunSafe(b, pair, dir, start, f, Reach(linked, commits, published))
    ensures var names := {p.manifest, checksumName, p.checksumTemp}; dir.live - names == old(dir.live) - names
    ensures p.checksumTemp in dir.live <==>
      p.checksumTemp in old(dir.live) || Leaves(f.checksumStage, f.removeChecksumTemp)
  {
    hide Allocated, Calm, AllSafe, NoOrphan, Orphan, AllCalm, Durable, ChecksumName, Untouched, RunSafe, Older,
      KeepsData;
    pair := Pair(manifest, dir.next);
    var staged := Stage(dir, p.checksumTemp, line, f.checksumStage, b, start);
    SameElsewhere(dir.live, old(dir.live), {p.checksumTemp}, b.manifest);
    SameElsewhere(dir.live, old(dir.live), {p.checksumTemp}, b.checksum);
    SameBeyond(dir.live, old(dir.live), {p.checksumTemp}, {p.manifest, checksumName, p.checksumTemp});
    if staged.None? {
      CalmRun(b, pair, dir, start, f, false);
      return false, pair;
    }
    ghost var live := dir.live;
    published := Publish(dir, p, checksumName, f, b, pair, start);
    SameBeyond(dir.live, live, {p.manifest, checksumName}, {p.manifest, checksumName, p.checksumTemp});
    SameElsewhere(dir.live, live, {p.manifest, checksumName}, p.checksumTemp);
    var linked := !f.linkChecksum;
    CleanUp(dir, p.checksumTemp, f.removeChecksumTemp, b, pair, start, f,
      Reach(linked, linked && !f.syncChecksum && !f.linkManifest, published));
  }

  method Publish(
    dir: Directory, p: Paths, checksumName: string, f: Faults, ghost b: Base, ghost pair: Pair, ghost start: nat)
    returns (published: bool)
    requires TempsApart(p) && checksumName == ChecksumName(p.manifest) && b.manifest == p.manifest &&
      b.checksum == checksumName
    requires Prepared(b, pair, dir, start) && b.checksum !in dir.live
    requires Binding(dir.live, p.manifestTemp) == Some(pair.manifest) &&
      Binding(dir.live, p.checksumTemp) == Some(pair.checksum)
    modifies dir`live, dir`since, dir`history
    ensures old(dir.history) <= dir.history
    ensures
      var commits := !f.linkChecksum && !f.syncChecksum && !f.linkManifest;
      && published == (commits && !f.syncManifest && !f.parentChanged)
      && RunSafe(b, pair, dir, start, f, Reach(!f.linkChecksum, commits, published))
    ensures OthersSame(dir.live, old(dir.live), p.manifest, checksumName)
  {
    hide Allocated, Calm, Untouched, AllSafe, NoOrphan, Orphan, AllCalm, ChecksumName, ShowsManifest, NeverBare;
    published := PublishChecksum(dir, p.checksumTemp, checksumName, f, b, start);
    if !published {
      CalmRun(b, pair, dir, start, f, !f.linkChecksum);
      return;
    }
    published := PublishManifest(dir, p.manifestTemp, p.manifest, checksumName, f, b, pair, start);
    SafeNow(b, pair.checksum, dir.history, start);
  }

  lemma SafeNow(b: Base, checksum: Inode, h: seq<View>, start: nat)
    requires AllSafe(b, checksum, h, start) && start < |h|
    ensures Untouched(b, h[|h| - 1])
  {
    hide Untouched, ShowsManifest;
    assert PointSafe(b, checksum, h, |h| - 1);
  }

  // ---------- Removing the temporary names ----------

  method CleanUp(
    dir: Directory, temp: string, fails: bool, ghost b: Base, ghost pair: Pair, ghost start: nat,
    ghost f: Faults, ghost r: Reach)
    requires temp != b.manifest && temp != b.checksum && temp !in b.existing
    requires RunSafe(b, pair, dir, start, f, r)
    modifies dir`live, dir`since, dir`history
    ensures old(dir.history) <= dir.history && RunSafe(b, pair, dir, start, f, r)
    ensures dir.live == if fails then old(dir.live) else old(dir.live) - {temp}
  {
    hide Allocated, Untouched, AllSafe, NoOrphan, Durable, NeverBare;
    ghost var v := dir.Now();
    var removed := dir.Remove(temp, fails);
    if removed {
      Removed(b, v, temp);
      QuietPoint(b, pair.checksum, old(dir.history), start, v, dir.Now());
      QuietDurable(v, dir.Now(), b.manifest, pair.manifest);
      QuietDurable(v, dir.Now(), b.checksum, pair.checksum);
    }
  }

  lemma Removed(b: Base, v: View, temp: string)
    requires Untouched(b, v) && temp !in b.existing
    ensures Untouched(b, v.(live := v.live - {temp}, since := v.since + [v.live - {temp}]))
  {
  }

  lemma QuietDurable(v: View, w: View, name: string, inode: Inode)
    requires Current(v) && w.since == v.since + [w.live] && Binding(w.live, name) == Binding(v.live, name)
    ensures Durable(v, name, inode) ==> Durable(w, name, inode)
  {
    var n := |v.since|;
    assert Durable(v, name, inode) ==> Binding(v.since[n - 1], name) == Some(inode);
    assert forall k | 0 <= k < n :: w.since[k] == v.since[k];
  }

  /** A change of another name leaves the run as safe as it was. */
  lemma QuietPoint(b: Base, checksum: Inode, h: seq<View>, start: nat, v: View, w: View)
    requires start < |h| && h[|h| - 1] == v && Current(v) && AllSafe(b, checksum, h, start) && Untouched(b, w)
    requires w.since == v.since + [w.live] && w.disk == v.disk
    requires Binding(w.live, b.manifest) == Binding(v.live, b.manifest) &&
      Binding(w.live, b.checksum) == Binding(v.live, b.checksum)
    ensures AllSafe(b, checksum, h + [w], start) && (NoOrphan(b, h + [w], start) <==> NoOrphan(b, h, start))
    ensures NeverBare(b, h + [w], start) <==> NeverBare(b, h, start)
  {
    hide Untouched, PointSafe, Orphan;
    SameShows(b, v, w);
    OrphanExtend(b, h, start, w);
    assert PointSafe(b, checksum, h, |h| - 1);
    forall i: nat | start <= i < |h| ensures PointSafe(b, checksum, h + [w], i) { SafePrefix(b, checksum, h, w, i); }
    QuietSafe(b, checksum, h, v, w);
    LastOrphan(b, h, start, v);
  }

  lemma LastOrphan(b: Base, h: seq<View>, start: nat, v: View)
    requires start < |h| && h[|h| - 1] == v
    ensures NoOrphan(b, h, start) ==> !Orphan(b, v)
  {
    hide Orphan;
  }

  lemma SameListing(b: Base, x: Names, y: Names)
    requires Binding(x, b.manifest) == Binding(y, b.manifest) && Binding(x, b.checksum) == Binding(y, b.checksum)
    ensures Ours(b, x) <==> Ours(b, y)
    ensures b.checksum in x <==> b.checksum in y
    ensures Ours(b, x) ==> x[b.manifest] == y[b.manifest]
  {
  }

  lemma SameShows(b: Base, v: View, w: View)
    requires Current(v) && w.since == v.since + [w.live] && w.disk == v.disk
    requires Binding(w.live, b.manifest) == Binding(v.live, b.manifest) &&
      Binding(w.live, b.checksum) == Binding(v.live, b.checksum)
    ensures ShowsManifest(b, w) <==> ShowsManifest(b, v)
    ensures ManifestStored(b, v) ==> ManifestStored(b, w)
    ensures Orphan(b, w) <==> Orphan(b, v)
  {
    hide Ours;
    var n := |v.since|;
    SameListing(b, w.live, v.live);
    assert forall k | 0 <= k < n :: w.since[k] == v.since[k];
    assert w.since[n] == w.live && v.since[n - 1] == v.live && w.since[n - 1] == v.live;
  }

  lemma QuietSafe(b: Base, checksum: Inode, h: seq<View>, v: View, w: View)
    requires h != [] && h[|h| - 1] == v && PointSafe(b, checksum, h, |h| - 1) && Untouched(b, w) && w.disk == v.disk
    requires ShowsManifest(b, w) <==> ShowsManifest(b, v)
    requires ManifestStored(b, v) ==> ManifestStored(b, w)
    ensures PointSafe(b, checksum, h + [w], |h|)
  {
    hide Untouched, ShowsManifest, ManifestStored, Durable;
    var more := h + [w];
    if ShowsManifest(b, w) {
      var j :| 0 <= j < |h| && Durable(h[j], b.checksum, checksum);
      assert more[j] == h[j];
    }
  }
}
