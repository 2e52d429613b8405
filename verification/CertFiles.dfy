/** Replacing a certificate and key file pair with backups and rollback, as a function of the files before
    and of which file operations fail. Paths are in cleaned form. */
module CertFilesModel {
  import opened Text

  datatype Item = File(content: string) | Dir(empty: bool)

  type Files = map<string, Item>

  datatype Action =
    | Create(path: string)
    | Fill(path: string, content: string)
    | Stat(path: string)
    | Remove(path: string)
    | Rename(path: string, dst: string)

  /** The files, every operation done so far, and the files after each of them. */
  datatype Disk = Disk(files: Files, done: seq<Action>, seen: seq<Files>)

  /** Whether the n-th operation fails for a reason outside the model. */
  type Faults = nat -> bool

  datatype Result = Result(ok: bool, disk: Disk)

  function Bak(path: string): string {
    path + ".bak"
  }

  function Moved(f: Files, src: string, dst: string): Files
    requires src in f
  {
    (f - {src})[dst := f[src]]
  }

  /** A rename replaces a file at the destination but not a directory; only empty directories can be removed. */
  function Effect(f: Files, a: Action): Option<Files> {
    match a
    case Create(p) => Some(f[p := File("")])
    case Fill(p, content) => Some(f[p := File(content)])
    case Stat(_) => Some(f)
    case Remove(p) => if p in f && f[p] != Dir(false) then Some(f - {p}) else None
    case Rename(p, dst) => if p in f && !(dst in f && f[dst].Dir?) then Some(Moved(f, p, dst)) else None
  }

  /** An operation that fails leaves the files as they are. */
  function Act(w: Faults, d: Disk, a: Action): (r: Result)
    ensures r.disk.done == d.done + [a] && r.disk.seen == d.seen + [r.disk.files]
    ensures r.ok <==> !w(|d.done|) && Effect(d.files, a).Some?
    ensures r.disk.files == if r.ok then Effect(d.files, a).value else d.files
  {
    var e := Effect(d.files, a);
    var ok := !w(|d.done|) && e.Some?;
    var f := if ok then e.value else d.files;
    Result(ok, Disk(f, d.done + [a], d.seen + [f]))
  }

  function WriteTemp(w: Faults, d: Disk, temp: string, data: string): Result {
    var created := Act(w, d, Create(temp));
    if !created.ok then created
    else
      var filled := Act(w, created.disk, Fill(temp, data));
      if filled.ok then filled else Result(false, Act(w, filled.disk, Remove(temp)).disk)
  }

  datatype Backed = Backed(had: bool, ok: bool, disk: Disk)

  /** Moves an existing file to its backup name, replacing an older backup. */
  function Backup(w: Faults, d: Disk, path: string): Backed {
    var stat := Act(w, d, Stat(path));
    if !stat.ok then Backed(false, false, stat.disk)
    else if path !in d.files then Backed(false, true, stat.disk)
    else if d.files[path].Dir? then Backed(false, false, stat.disk)
    else
      var removed := Act(w, stat.disk, Remove(Bak(path)));
      var moved := Act(w, removed.disk, Rename(path, Bak(path)));
      Backed(moved.ok, moved.ok, moved.disk)
  }

  /** Undoes an installation and puts the backup back. */
  function Restore(w: Faults, d: Disk, path: string, hadBackup: bool, installed: bool): Result {
    var cleared := if installed then Act(w, d, Remove(path)).disk else d;
    if !hadBackup then Result(true, cleared) else Act(w, cleared, Rename(Bak(path), path))
  }

  /** The request: target paths, new contents, and the names chosen for the temporary files. */
  datatype Request = Request(cert: string, key: string, certPEM: string, keyPEM: string, certTemp: string, keyTemp: string)

  function RestorePair(w: Faults, d: Disk, q: Request, hadCert: bool, hadKey: bool, keyInstalled: bool): Result {
    var cert := Restore(w, d, q.cert, hadCert, false);
    var key := Restore(w, cert.disk, q.key, hadKey, keyInstalled);
    Result(cert.ok && key.ok, key.disk)
  }

  function DropBackups(w: Faults, d: Disk, q: Request, hadCert: bool, hadKey: bool): Disk {
    var d' := if hadCert then Act(w, d, Remove(Bak(q.cert))).disk else d;
    if hadKey then Act(w, d', Remove(Bak(q.key))).disk else d'
  }

  /** `rolledBack` is false when the error text reports that the rollback failed. */
  datatype Outcome = Success | Invalid | Error(rolledBack: bool)

  /** An outcome, which temporary files were used up, and the disk. */
  datatype Replaced = Replaced(outcome: Outcome, keyUsed: bool, certUsed: bool, disk: Disk)

  /** Renames both temporary files into place, key first. */
  function Install(w: Faults, d: Disk, q: Request, hadCert: bool, hadKey: bool): Replaced {
    var key := Act(w, d, Rename(q.keyTemp, q.key));
    if !key.ok then
      var r := RestorePair(w, key.disk, q, hadCert, hadKey, false);
      Replaced(Error(r.ok), false, false, r.disk)
    else
      var cert := Act(w, key.disk, Rename(q.certTemp, q.cert));
      if !cert.ok then
        var r := RestorePair(w, cert.disk, q, hadCert, hadKey, true);
        Replaced(Error(r.ok), true, false, r.disk)
      else Replaced(Success, true, true, DropBackups(w, cert.disk, q, hadCert, hadKey))
  }

  /** Backs both targets up and installs the new pair. */
  function Replace(w: Faults, d: Disk, q: Request): Replaced {
    var key := Backup(w, d, q.key);
    if !key.ok then Replaced(Error(true), false, false, key.disk)
    else
      var cert := Backup(w, key.disk, q.cert);
      if !cert.ok then
        var r := RestorePair(w, cert.disk, q, false, key.had, false);
        Replaced(Error(r.ok), false, false, r.disk)
      else Install(w, cert.disk, q, cert.had, key.had)
  }

  /** Temporary files that are still there go away when the update returns. */
  function Cleanup(w: Faults, d: Disk, q: Request, keyUsed: bool, certUsed: bool): Disk {
    var d' := if certUsed then d else Act(w, d, Remove(q.certTemp)).disk;
    if keyUsed then d' else Act(w, d', Remove(q.keyTemp)).disk
  }

  datatype Updated = Updated(outcome: Outcome, disk: Disk)

  predicate ValidPaths(q: Request) {
    q.cert != "" && q.key != "" && q.cert != q.key
  }

  function Update(w: Faults, d: Disk, q: Request): Updated {
    if !ValidPaths(q) then Updated(Invalid, d)
    else
      var key := WriteTemp(w, d, q.keyTemp, q.keyPEM);
      if !key.ok then Updated(Error(true), key.disk)
      else
        var cert := WriteTemp(w, key.disk, q.certTemp, q.certPEM);
        if !cert.ok then Updated(Error(true), Act(w, cert.disk, Remove(q.keyTemp)).disk)
        else
          var r := Replace(w, cert.disk, q);
          Updated(r.outcome, Cleanup(w, r.disk, q, r.keyUsed, r.certUsed))
  }
}

/** What an update promises, for every choice of failing operations. */
module CertFilesProof {
  import opened Text
  import opened CertFilesModel

  ghost predicate Same(f0: Files, f: Files, p: string) {
    (p in f <==> p in f0) && (p in f ==> f[p] == f0[p])
  }

  predicate Watched(q: Request, p: string) {
    p == q.cert || p == q.key || p == Bak(q.cert) || p == Bak(q.key)
  }

  /** Temporary names are new: they differ from each other and from every path the update touches. */
  predicate TempsAreFresh(q: Request) {
    q.certTemp != q.keyTemp && !Watched(q, q.certTemp) && !Watched(q, q.keyTemp)
  }

  ghost predicate Installed(q: Request, f: Files) {
    && q.cert in f && f[q.cert] == File(q.certPEM)
    && q.key in f && f[q.key] == File(q.keyPEM)
  }

  ghost predicate Untouched(q: Request, f0: Files, f: Files) {
    Same(f0, f, q.cert) && Same(f0, f, q.key)
  }

  /** What was at `p` is still at `p` or at its backup name. */
  ghost predicate Recoverable(f0: Files, f: Files, p: string) {
    p in f0 ==> (p in f && f[p] == f0[p]) || (Bak(p) in f && f[Bak(p)] == f0[p])
  }

  /** A crash here loses nothing: the old pair can be put together, or the new pair is in place. */
  ghost predicate Safe(q: Request, f0: Files, f: Files) {
    (Recoverable(f0, f, q.cert) && Recoverable(f0, f, q.key)) || Installed(q, f)
  }

  /** One target is the other's backup name while the other exists. */
  predicate Clash(q: Request, f0: Files) {
    (q.cert == Bak(q.key) && q.key in f0) || (q.key == Bak(q.cert) && q.cert in f0)
  }

  /** A target that can be backed up by operations `n`, `n + 1` and `n + 2`: looked at, not a directory, its
      old backup out of the way unless a plain file, and moved. */
  predicate CanBackUp(w: Faults, n: nat, f: Files, p: string) {
    && !w(n)
    && (p in f ==> f[p].File? && !w(n + 2))
    && (p in f && Bak(p) in f && f[Bak(p)].Dir? ==> f[Bak(p)].empty && !w(n + 1))
  }

  /** How many operations a backup takes. */
  function BackupOps(f: Files, p: string): nat {
    if p in f then 3 else 1
  }

  /** The exact condition for success, by number of operation: the temporary files are written, both targets
      are backed up, and both renames work. */
  predicate WillSucceed(w: Faults, n: nat, f: Files, q: Request) {
    var m := n + 4 + BackupOps(f, q.key) + BackupOps(f, q.cert);
    && !w(n) && !w(n + 1) && !w(n + 2) && !w(n + 3)
    && CanBackUp(w, n + 4, f, q.key)
    && CanBackUp(w, n + 4 + BackupOps(f, q.key), f, q.cert)
    && !w(m) && !w(m + 1)
  }

  /** Since `d`, every state of the disk was safe. */
  ghost predicate Kept(q: Request, f0: Files, d: Disk, d': Disk) {
    && d.seen <= d'.seen
    && (forall i :: |d.seen| <= i < |d'.seen| ==> Safe(q, f0, d'.seen[i]))
    && Safe(q, f0, d'.files)
  }

  /** Since `d`, the key was not removed. */
  ghost predicate Quiet(q: Request, d: Disk, d': Disk) {
    && d.done <= d'.done
    && forall k :: |d.done| <= k < |d'.done| ==> d'.done[k] != Remove(q.key)
  }

  /** Since `d`, removing the key was tried and failed. */
  ghost predicate RemovalFailed(w: Faults, q: Request, d: Disk, d': Disk) {
    exists k :: |d.done| <= k < |d'.done| && d'.done[k] == Remove(q.key) && w(k)
  }

  lemma BakFacts(a: string, b: string)
    ensures Bak(a) == Bak(b) ==> a == b
    ensures |Bak(a)| == |a| + 4
  {
    assert Bak(a)[..|Bak(a)| - 4] == a && Bak(b)[..|Bak(b)| - 4] == b;
  }

  lemma KeptTrans(q: Request, f0: Files, a: Disk, b: Disk, c: Disk)
    requires Kept(q, f0, a, b) && Kept(q, f0, b, c)
    ensures Kept(q, f0, a, c)
  {
    hide Safe;
    forall i | |a.seen| <= i < |c.seen| ensures Safe(q, f0, c.seen[i]) {
      if i < |b.seen| { assert c.seen[i] == b.seen[i]; }
    }
  }

  lemma QuietTrans(q: Request, a: Disk, b: Disk, c: Disk)
    requires Quiet(q, a, b) && Quiet(q, b, c)
    ensures Quiet(q, a, c)
  {
    forall k | |a.done| <= k < |c.done| ensures c.done[k] != Remove(q.key) {
      if k < |b.done| { assert c.done[k] == b.done[k]; }
    }
  }

  lemma ActKept(w: Faults, q: Request, f0: Files, d: Disk, a: Action)
    requires Safe(q, f0, Act(w, d, a).disk.files)
    ensures Kept(q, f0, d, Act(w, d, a).disk)
    ensures a != Remove(q.key) ==> Quiet(q, d, Act(w, d, a).disk)
  {
    hide Safe, Effect, Act;
  }

  // ----- Single operations -----

  lemma BackupFacts(w: Faults, d: Disk, p: string)
    ensures var b := Backup(w, d, p);
            var f, f' := d.files, b.disk.files;
            && (b.ok <==> CanBackUp(w, |d.done|, f, p))
            && (b.ok ==> (b.had <==> p in f) && f' == (if p in f then Moved(f, p, Bak(p)) else f)
                         && |b.disk.done| == |d.done| + BackupOps(f, p))
            && (!b.ok ==> !b.had && (f' == f || (p in f && f' == f - {Bak(p)})))
  {
    BakFacts(p, p);
    hide Bak;
    if p in d.files && d.files[p].File? {
      var stat := Act(w, d, Stat(p)).disk;
      var removed := Act(w, stat, Remove(Bak(p))).disk;
      assert Moved(removed.files, p, Bak(p)) == Moved(d.files, p, Bak(p));
    }
  }

  lemma BackupKept(w: Faults, q: Request, f0: Files, d: Disk, p: string)
    requires Safe(q, f0, d.files)
    requires p in d.files ==> Safe(q, f0, d.files - {Bak(p)}) && Safe(q, f0, Moved(d.files, p, Bak(p)))
    ensures Kept(q, f0, d, Backup(w, d, p).disk)
    ensures (p in d.files ==> Bak(p) != q.key) ==> Quiet(q, d, Backup(w, d, p).disk)
  {
    BackupFacts(w, d, p);
    hide Safe, Bak, Kept, Quiet;
    var stat := Act(w, d, Stat(p)).disk;
    ActKept(w, q, f0, d, Stat(p));
    if p in d.files && d.files[p].File? && !w(|d.done|) {
      var removed := Act(w, stat, Remove(Bak(p))).disk;
      ActKept(w, q, f0, stat, Remove(Bak(p)));
      assert removed.files == d.files || removed.files == d.files - {Bak(p)};
      ActKept(w, q, f0, removed, Rename(p, Bak(p)));
      KeptTrans(q, f0, d, stat, removed);
      KeptTrans(q, f0, d, removed, Backup(w, d, p).disk);
      if Bak(p) != q.key {
        QuietTrans(q, d, stat, removed);
        QuietTrans(q, d, removed, Backup(w, d, p).disk);
      }
    }
  }

  /** The files once an installed file is removed, as far as that works. */
  function Cleared(w: Faults, d: Disk, p: string, installed: bool): Files {
    if installed then Act(w, d, Remove(p)).disk.files else d.files
  }

  lemma RestoreFacts(w: Faults, d: Disk, p: string, had: bool, installed: bool)
    ensures var r := Restore(w, d, p, had, installed);
            var c := Cleared(w, d, p, installed);
            && (!had ==> r.ok && r.disk.files == c)
            && (had && r.ok ==> Bak(p) in c && r.disk.files == Moved(c, Bak(p), p))
            && (had && !r.ok ==> r.disk.files == c)
            && r.disk.done == d.done + (if installed then [Remove(p)] else []) + (if had then [Rename(Bak(p), p)] else [])
  {
    hide Bak;
  }

  lemma RestoreKept(w: Faults, q: Request, f0: Files, d: Disk, p: string, had: bool, installed: bool)
    requires Safe(q, f0, d.files) && Safe(q, f0, Cleared(w, d, p, installed))
    requires Safe(q, f0, Restore(w, d, p, had, installed).disk.files)
    ensures Kept(q, f0, d, Restore(w, d, p, had, installed).disk)
  {
    hide Safe, Bak, Kept, Effect;
    var c := if installed then Act(w, d, Remove(p)).disk else d;
    KeptSelf(q, f0, d);
    if installed {
      ActKept(w, q, f0, d, Remove(p));
    }
    if had {
      ActKept(w, q, f0, c, Rename(Bak(p), p));
      KeptTrans(q, f0, d, c, Restore(w, d, p, had, installed).disk);
    }
  }

  lemma KeptSelf(q: Request, f0: Files, d: Disk)
    requires Safe(q, f0, d.files)
    ensures Kept(q, f0, d, d) && Quiet(q, d, d)
  {
    hide Safe;
  }

  // ----- Backing up -----

  /** Both old files are in their backups, and nothing is at the targets. */
  ghost predicate BackedUp(q: Request, f0: Files, f: Files) {
    && q.cert !in f && q.key !in f
    && (q.cert in f0 ==> Bak(q.cert) in f && f[Bak(q.cert)] == f0[q.cert])
    && (q.key in f0 ==> Bak(q.key) in f && f[Bak(q.key)] == f0[q.key])
  }

  function KeyMoved(q: Request, f0: Files): Files {
    if q.key in f0 then Moved(f0, q.key, Bak(q.key)) else f0
  }

  /** Moving the key away, and then the certificate, passes through safe states only. */
  lemma BackupStatesAreSafe(q: Request, f0: Files)
    requires q.cert != q.key && !Clash(q, f0)
    ensures Safe(q, f0, f0) && Safe(q, f0, KeyMoved(q, f0))
    ensures q.key in f0 ==> Safe(q, f0, f0 - {Bak(q.key)})
    ensures var f1 := KeyMoved(q, f0);
            && (q.cert in f1 <==> q.cert in f0)
            && (q.cert in f1 ==> Safe(q, f0, f1 - {Bak(q.cert)}) && Safe(q, f0, Moved(f1, q.cert, Bak(q.cert))))
  {
    BakFacts(q.cert, q.key);
    BakFacts(q.key, q.cert);
    hide Bak;
  }

  lemma BothMoved(q: Request, f0: Files)
    requires q.cert != q.key && !Clash(q, f0)
    ensures var f1 := KeyMoved(q, f0);
            var f2 := if q.cert in f1 then Moved(f1, q.cert, Bak(q.cert)) else f1;
            BackedUp(q, f0, f2)
  {
    BakFacts(q.cert, q.key);
    BakFacts(q.key, q.cert);
    hide Bak;
  }

  /** The certificate's surroundings are as they were when its backup starts. */
  lemma CertUnmoved(w: Faults, n: nat, q: Request, f0: Files)
    requires q.cert != q.key && !Clash(q, f0)
    ensures CanBackUp(w, n, KeyMoved(q, f0), q.cert) <==> CanBackUp(w, n, f0, q.cert)
    ensures BackupOps(KeyMoved(q, f0), q.cert) == BackupOps(f0, q.cert)
  {
    BakFacts(q.cert, q.key);
    BakFacts(q.key, q.cert);
    hide Bak;
  }

  lemma KeyNotMoved(q: Request, f0: Files, f: Files)
    requires q.cert != q.key && !Clash(q, f0)
    requires f == f0 || (f == f0 - {Bak(q.key)} && q.key in f0)
    ensures Untouched(q, f0, f)
  {
    BakFacts(q.cert, q.key);
    BakFacts(q.key, q.cert);
    hide Bak;
  }

  /** Putting the key back after the certificate could not be moved. */
  lemma KeyMovedBack(q: Request, f0: Files, f: Files)
    requires q.cert != q.key && !Clash(q, f0)
    requires f == KeyMoved(q, f0) || (f == KeyMoved(q, f0) - {Bak(q.cert)} && q.cert in KeyMoved(q, f0))
    ensures Safe(q, f0, f)
    ensures q.key in f0 ==> Bak(q.key) in f
                            && var g := Moved(f, Bak(q.key), q.key); Untouched(q, f0, g) && Safe(q, f0, g)
    ensures q.key !in f0 ==> Untouched(q, f0, f)
  {
    BakFacts(q.cert, q.key);
    BakFacts(q.key, q.cert);
    hide Bak;
  }

  /** The rollback after the certificate could not be backed up. */
  lemma KeyPutBack(w: Faults, q: Request, f0: Files, d: Disk)
    requires q.cert != q.key && !Clash(q, f0)
    requires d.files == KeyMoved(q, f0) || (d.files == KeyMoved(q, f0) - {Bak(q.cert)} && q.cert in KeyMoved(q, f0))
    ensures var r := RestorePair(w, d, q, false, q.key in f0, false);
            && Kept(q, f0, d, r.disk) && Quiet(q, d, r.disk)
            && (r.ok ==> Untouched(q, f0, r.disk.files))
  {
    KeyMovedBack(q, f0, d.files);
    RestoreFacts(w, d, q.cert, false, false);
    RestoreFacts(w, d, q.key, q.key in f0, false);
    hide Bak, Safe, Untouched, Restore;
    assert Restore(w, d, q.cert, false, false) == Result(true, d) by { NothingToRestore(w, d, q.cert); }
    RestoreKept(w, q, f0, d, q.key, q.key in f0, false);
  }

  lemma NothingToRestore(w: Faults, d: Disk, p: string)
    ensures Restore(w, d, p, false, false) == Result(true, d)
  {
  }

  // ----- Installing -----

  /** Where a rollback can start: the targets' old files are in their backups. */
  ghost predicate CanRestore(q: Request, f0: Files, f: Files, keyInstalled: bool) {
    && q.cert !in f
    && (q.key in f <==> keyInstalled) && (keyInstalled ==> f[q.key] == File(q.keyPEM))
    && (q.cert in f0 ==> Bak(q.cert) in f && f[Bak(q.cert)] == f0[q.cert])
    && (q.key in f0 ==> Bak(q.key) in f && f[Bak(q.key)] == f0[q.key])
  }

  /** The same, with the certificate settled: put back, or still in its backup. */
  ghost predicate CertSettled(q: Request, f0: Files, f: Files, keyInstalled: bool, certOk: bool) {
    && (q.key in f <==> keyInstalled) && (keyInstalled ==> f[q.key] == File(q.keyPEM))
    && (q.key in f0 ==> Bak(q.key) in f && f[Bak(q.key)] == f0[q.key])
    && (certOk ==> Same(f0, f, q.cert))
    && Recoverable(f0, f, q.cert)
  }

  lemma CertRestored(w: Faults, q: Request, f0: Files, d: Disk, keyInstalled: bool)
    requires q.cert != q.key && !Clash(q, f0) && CanRestore(q, f0, d.files, keyInstalled)
    ensures var r := Restore(w, d, q.cert, q.cert in f0, false);
            && CertSettled(q, f0, r.disk.files, keyInstalled, r.ok)
            && Kept(q, f0, d, r.disk) && Quiet(q, d, r.disk)
  {
    RestoreFacts(w, d, q.cert, q.cert in f0, false);
    BakFacts(q.cert, q.key);
    BakFacts(q.key, q.cert);
    hide Bak, Restore, Kept;
    RestoreKept(w, q, f0, d, q.cert, q.cert in f0, false);
  }

  lemma KeyRestored(w: Faults, q: Request, f0: Files, d: Disk, keyInstalled: bool, certOk: bool)
    requires q.cert != q.key && !Clash(q, f0) && CertSettled(q, f0, d.files, keyInstalled, certOk)
    ensures var r := Restore(w, d, q.key, q.key in f0, keyInstalled);
            && Kept(q, f0, d, r.disk) && d.done <= r.disk.done
            && (RemovalFailed(w, q, d, r.disk) <==> keyInstalled && w(|d.done|))
            && (!keyInstalled ==> Quiet(q, d, r.disk))
            && (certOk && r.ok ==>
                  (Untouched(q, f0, r.disk.files) <==> !(q.key !in f0 && keyInstalled && w(|d.done|))))
  {
    RestoreFacts(w, d, q.key, q.key in f0, keyInstalled);
    BakFacts(q.cert, q.key);
    BakFacts(q.key, q.cert);
    hide Bak, Restore, Kept;
    var r := Restore(w, d, q.key, q.key in f0, keyInstalled);
    var n := |d.done|;
    assert keyInstalled ==> r.disk.done[n] == Remove(q.key);
    RestoreKept(w, q, f0, d, q.key, q.key in f0, keyInstalled);
  }

  lemma RemovalFailedTrans(w: Faults, q: Request, a: Disk, b: Disk, c: Disk)
    requires Quiet(q, a, b) && b.done <= c.done
    ensures RemovalFailed(w, q, a, c) <==> RemovalFailed(w, q, b, c)
  {
    assert forall k :: |a.done| <= k < |b.done| ==> c.done[k] == b.done[k] && c.done[k] != Remove(q.key);
  }

  /** A rollback that reports no failure restores both targets, unless the key is new and its removal failed. */
  lemma RolledBack(w: Faults, q: Request, f0: Files, d: Disk, keyInstalled: bool)
    requires q.cert != q.key && !Clash(q, f0) && CanRestore(q, f0, d.files, keyInstalled)
    ensures var r := RestorePair(w, d, q, q.cert in f0, q.key in f0, keyInstalled);
            && Kept(q, f0, d, r.disk) && d.done <= r.disk.done
            && (!keyInstalled ==> Quiet(q, d, r.disk))
            && (r.ok ==> (Untouched(q, f0, r.disk.files) <==> !(q.key !in f0 && RemovalFailed(w, q, d, r.disk))))
  {
    hide Bak, Restore, Kept, Quiet, CanRestore, CertSettled, RemovalFailed, Untouched;
    var cert := Restore(w, d, q.cert, q.cert in f0, false);
    CertRestored(w, q, f0, d, keyInstalled);
    KeyRestored(w, q, f0, cert.disk, keyInstalled, cert.ok);
    var key := Restore(w, cert.disk, q.key, q.key in f0, keyInstalled);
    KeptTrans(q, f0, d, cert.disk, key.disk);
    RemovalFailedTrans(w, q, d, cert.disk, key.disk);
    QuietPrefix(q, d, cert.disk);
    if !keyInstalled {
      QuietTrans(q, d, cert.disk, key.disk);
    }
  }

  lemma QuietPrefix(q: Request, a: Disk, b: Disk)
    requires Quiet(q, a, b)
    ensures a.done <= b.done
  {
  }

  ghost predicate HoldsTemps(q: Request, f: Files) {
    && q.keyTemp in f && f[q.keyTemp] == File(q.keyPEM)
    && q.certTemp in f && f[q.certTemp] == File(q.certPEM)
  }

  /** The three states of an installation. */
  lemma InstallStates(q: Request, f0: Files, f: Files)
    requires q.cert != q.key && TempsAreFresh(q) && !Clash(q, f0) && BackedUp(q, f0, f) && HoldsTemps(q, f)
    ensures CanRestore(q, f0, f, false) && Safe(q, f0, f)
    ensures var f1 := Moved(f, q.keyTemp, q.key);
            && CanRestore(q, f0, f1, true) && Safe(q, f0, f1) && q.certTemp in f1
            && Installed(q, Moved(f1, q.certTemp, q.cert))
  {
    BakFacts(q.cert, q.key);
    BakFacts(q.key, q.cert);
    hide Bak;
  }

  /** Dropping the backups touches neither target and does not undo the installation. */
  lemma BackupsDropped(w: Faults, q: Request, f0: Files, d: Disk)
    requires q.cert != q.key && !Clash(q, f0) && Installed(q, d.files)
    ensures var d' := DropBackups(w, d, q, q.cert in f0, q.key in f0);
            Installed(q, d'.files) && Kept(q, f0, d, d')
  {
    BakFacts(q.cert, q.key);
    BakFacts(q.key, q.cert);
    hide Bak, Kept;
    var d1 := if q.cert in f0 then Act(w, d, Remove(Bak(q.cert))).disk else d;
    KeptSelf(q, f0, d);
    assert Installed(q, d1.files);
    if q.cert in f0 {
      ActKept(w, q, f0, d, Remove(Bak(q.cert)));
    }
    if q.key in f0 {
      ActKept(w, q, f0, d1, Remove(Bak(q.key)));
      KeptTrans(q, f0, d, d1, DropBackups(w, d, q, q.cert in f0, q.key in f0));
    }
  }

  /** What holds of every phase that starts with the old files `f0` recoverable. */
  ghost predicate Promised(w: Faults, q: Request, f0: Files, d: Disk, o: Outcome, d': Disk) {
    && Kept(q, f0, d, d')
    && d.done <= d'.done
    && (o.Success? ==> Installed(q, d'.files))
    && (o == Error(true) ==> (Untouched(q, f0, d'.files) <==> !(q.key !in f0 && RemovalFailed(w, q, d, d'))))
  }

  lemma InstallPromised(w: Faults, q: Request, f0: Files, d: Disk)
    requires q.cert != q.key && TempsAreFresh(q) && !Clash(q, f0) && BackedUp(q, f0, d.files) && HoldsTemps(q, d.files)
    ensures var r := Install(w, d, q, q.cert in f0, q.key in f0);
            && Promised(w, q, f0, d, r.outcome, r.disk)
            && (r.outcome.Success? || r.outcome.Error?)
            && (r.outcome.Success? <==> !w(|d.done|) && !w(|d.done| + 1))
  {
    hide Bak, RestorePair, DropBackups, Safe, Kept, Quiet, CanRestore, RemovalFailed, Untouched, TempsAreFresh, Clash;
    InstallStates(q, f0, d.files);
    var key := Act(w, d, Rename(q.keyTemp, q.key));
    ActKept(w, q, f0, d, Rename(q.keyTemp, q.key));
    var r := Install(w, d, q, q.cert in f0, q.key in f0);
    if !key.ok {
      RolledBack(w, q, f0, key.disk, false);
      PromisedAfterQuiet(w, q, f0, d, key.disk, r.outcome, r.disk);
    } else {
      var cert := Act(w, key.disk, Rename(q.certTemp, q.cert));
      if !cert.ok {
        ActKept(w, q, f0, key.disk, Rename(q.certTemp, q.cert));
        KeptTrans(q, f0, d, key.disk, cert.disk);
        QuietTrans(q, d, key.disk, cert.disk);
        RolledBack(w, q, f0, cert.disk, true);
        PromisedAfterQuiet(w, q, f0, d, cert.disk, r.outcome, r.disk);
      } else {
        InstalledIsSafe(q, f0, cert.disk.files);
        ActKept(w, q, f0, key.disk, Rename(q.certTemp, q.cert));
        KeptTrans(q, f0, d, key.disk, cert.disk);
        BackupsDropped(w, q, f0, cert.disk);
        KeptTrans(q, f0, d, cert.disk, r.disk);
        DroppedDone(w, cert.disk, q, q.cert in f0, q.key in f0);
      }
    }
  }

  lemma InstalledIsSafe(q: Request, f0: Files, f: Files)
    requires Installed(q, f)
    ensures Safe(q, f0, f)
  {
  }

  lemma DroppedDone(w: Faults, d: Disk, q: Request, hadCert: bool, hadKey: bool)
    ensures d.done <= DropBackups(w, d, q, hadCert, hadKey).done
  {
    hide Act;
  }

  /** A quiet safe stretch before a phase does not change what the phase promises. */
  lemma PromisedAfterQuiet(w: Faults, q: Request, f0: Files, a: Disk, b: Disk, o: Outcome, c: Disk)
    requires Kept(q, f0, a, b) && Quiet(q, a, b) && Promised(w, q, f0, b, o, c)
    ensures Promised(w, q, f0, a, o, c)
  {
    hide Kept, Untouched, RemovalFailed, Installed;
    KeptTrans(q, f0, a, b, c);
    RemovalFailedTrans(w, q, a, b, c);
  }

  // ----- The whole update -----

  lemma ReplacePromised(w: Faults, q: Request, d: Disk)
    requires q.cert != q.key && TempsAreFresh(q) && !Clash(q, d.files) && HoldsTemps(q, d.files)
    ensures var r := Replace(w, d, q);
            var f0, n := d.files, |d.done|;
            var m := n + BackupOps(f0, q.key) + BackupOps(f0, q.cert);
            && Promised(w, q, f0, d, r.outcome, r.disk)
            && (r.outcome.Success? || r.outcome.Error?)
            && (r.outcome.Success? <==>
                  && CanBackUp(w, n, f0, q.key) && CanBackUp(w, n + BackupOps(f0, q.key), f0, q.cert)
                  && !w(m) && !w(m + 1))
  {
    hide Bak, Backup, Install, RestorePair, Safe, Kept, Quiet, CanBackUp, BackupOps, RemovalFailed, Untouched, BackedUp, HoldsTemps;
    var f0 := d.files;
    BackupStatesAreSafe(q, f0);
    BothMoved(q, f0);
    KeyBackup(w, q, d);
    var key := Backup(w, d, q.key);
    var r := Replace(w, d, q);
    if key.ok {
      CertUnmoved(w, |key.disk.done|, q, f0);
      CertBackup(w, q, f0, key.disk);
      var cert := Backup(w, key.disk, q.cert);
      KeptTrans(q, f0, d, key.disk, cert.disk);
      QuietTrans(q, d, key.disk, cert.disk);
      if cert.ok {
        TempsStay(q, f0);
        InstallPromised(w, q, f0, cert.disk);
        PromisedAfterQuiet(w, q, f0, d, cert.disk, r.outcome, r.disk);
      } else {
        KeyPutBack(w, q, f0, cert.disk);
        KeptTrans(q, f0, d, cert.disk, r.disk);
        QuietTrans(q, d, cert.disk, r.disk);
        QuietMeansNoFailure(w, q, d, r.disk);
      }
    }
  }

  lemma QuietMeansNoFailure(w: Faults, q: Request, a: Disk, b: Disk)
    requires Quiet(q, a, b)
    ensures !RemovalFailed(w, q, a, b) && a.done <= b.done
  {
  }

  lemma KeyBackup(w: Faults, q: Request, d: Disk)
    requires q.cert != q.key && !Clash(q, d.files)
    ensures var b := Backup(w, d, q.key);
            && (b.ok <==> CanBackUp(w, |d.done|, d.files, q.key))
            && (b.ok ==> b.disk.files == KeyMoved(q, d.files) && (b.had <==> q.key in d.files)
                         && |b.disk.done| == |d.done| + BackupOps(d.files, q.key))
            && (!b.ok ==> Untouched(q, d.files, b.disk.files))
            && Kept(q, d.files, d, b.disk) && Quiet(q, d, b.disk)
            && !RemovalFailed(w, q, d, b.disk) && d.done <= b.disk.done
  {
    BakFacts(q.key, q.key);
    hide Bak, Backup, Safe, Kept, Quiet, CanBackUp, BackupOps, RemovalFailed, Untouched;
    BackupStatesAreSafe(q, d.files);
    BackupFacts(w, d, q.key);
    BackupKept(w, q, d.files, d, q.key);
    QuietMeansNoFailure(w, q, d, Backup(w, d, q.key).disk);
    if !Backup(w, d, q.key).ok {
      KeyNotMoved(q, d.files, Backup(w, d, q.key).disk.files);
    }
  }

  lemma CertBackup(w: Faults, q: Request, f0: Files, d: Disk)
    requires q.cert != q.key && !Clash(q, f0) && d.files == KeyMoved(q, f0)
    ensures var b := Backup(w, d, q.cert);
            && (b.ok <==> CanBackUp(w, |d.done|, d.files, q.cert))
            && (b.ok ==> b.disk.files == (if q.cert in d.files then Moved(d.files, q.cert, Bak(q.cert)) else d.files)
                         && (b.had <==> q.cert in f0)
                         && |b.disk.done| == |d.done| + BackupOps(d.files, q.cert))
            && (!b.ok ==> b.disk.files == d.files || (q.cert in d.files && b.disk.files == d.files - {Bak(q.cert)}))
            && Kept(q, f0, d, b.disk) && Quiet(q, d, b.disk)
  {
    hide Bak, Backup, Safe, Kept, Quiet, CanBackUp, BackupOps;
    BackupStatesAreSafe(q, f0);
    BackupFacts(w, d, q.cert);
    BackupKept(w, q, f0, d, q.cert);
  }

  lemma TempsStay(q: Request, f0: Files)
    requires TempsAreFresh(q) && HoldsTemps(q, f0)
    ensures var f1 := KeyMoved(q, f0);
            var f2 := if q.cert in f1 then Moved(f1, q.cert, Bak(q.cert)) else f1;
            HoldsTemps(q, f2)
  {
    hide Bak;
  }

  /** The two states agree on everything the update is about. */
  ghost predicate Agree(q: Request, f0: Files, f: Files) {
    Same(f0, f, q.cert) && Same(f0, f, q.key) && Same(f0, f, Bak(q.cert)) && Same(f0, f, Bak(q.key))
  }

  lemma AgreeingIsSafe(q: Request, f0: Files, f: Files, g: Files)
    requires Agree(q, f, g)
    ensures Safe(q, f0, f) <==> Safe(q, f0, g)
    ensures Untouched(q, f0, f) <==> Untouched(q, f0, g)
    ensures Installed(q, f) <==> Installed(q, g)
  {
    hide Bak;
  }

  lemma FromAgreeing(w: Faults, n: nat, q: Request, f0: Files, f1: Files, g: Files)
    requires Agree(q, f0, f1)
    ensures Safe(q, f1, g) <==> Safe(q, f0, g)
    ensures Clash(q, f1) <==> Clash(q, f0)
    ensures Untouched(q, f1, g) <==> Untouched(q, f0, g)
    ensures CanBackUp(w, n, f1, q.key) <==> CanBackUp(w, n, f0, q.key)
    ensures CanBackUp(w, n, f1, q.cert) <==> CanBackUp(w, n, f0, q.cert)
    ensures BackupOps(f1, q.key) == BackupOps(f0, q.key) && BackupOps(f1, q.cert) == BackupOps(f0, q.cert)
  {
    hide Bak;
  }

  /** An operation on a temporary file. */
  lemma TempAct(w: Faults, q: Request, f0: Files, d: Disk, a: Action)
    requires !Watched(q, a.path) && (a.Create? || a.Fill? || a.Remove?) && Safe(q, f0, d.files)
    ensures var r := Act(w, d, a);
            Agree(q, d.files, r.disk.files) && Kept(q, f0, d, r.disk) && Quiet(q, d, r.disk)
  {
    hide Safe, Kept, Quiet;
    var r := Act(w, d, a);
    assert Agree(q, d.files, r.disk.files) by { hide Bak; }
    AgreeingIsSafe(q, f0, d.files, r.disk.files);
    ActKept(w, q, f0, d, a);
  }

  /** Two quiet safe stretches. */
  lemma Stretch(q: Request, f0: Files, a: Disk, b: Disk, c: Disk)
    requires Kept(q, f0, a, b) && Quiet(q, a, b) && Agree(q, a.files, b.files)
    requires Kept(q, f0, b, c) && Quiet(q, b, c) && Agree(q, b.files, c.files)
    ensures Kept(q, f0, a, c) && Quiet(q, a, c) && Agree(q, a.files, c.files)
  {
    KeptTrans(q, f0, a, b, c);
    QuietTrans(q, a, b, c);
    hide Kept, Quiet, Bak;
  }

  lemma TempWritten(w: Faults, q: Request, f0: Files, d: Disk, temp: string, data: string)
    requires !Watched(q, temp) && Safe(q, f0, d.files)
    ensures var r := WriteTemp(w, d, temp, data);
            && Kept(q, f0, d, r.disk) && Quiet(q, d, r.disk) && Agree(q, d.files, r.disk.files)
            && (r.ok <==> !w(|d.done|) && !w(|d.done| + 1))
            && (r.ok ==> |r.disk.done| == |d.done| + 2 && r.disk.files == d.files[temp := File(data)])
  {
    hide Safe, Kept, Quiet, Agree, Watched;
    var created := Act(w, d, Create(temp));
    TempAct(w, q, f0, d, Create(temp));
    AgreeingIsSafe(q, f0, d.files, created.disk.files);
    if created.ok {
      var filled := Act(w, created.disk, Fill(temp, data));
      TempAct(w, q, f0, created.disk, Fill(temp, data));
      Stretch(q, f0, d, created.disk, filled.disk);
      assert created.disk.files[temp := File(data)] == d.files[temp := File(data)];
      if !filled.ok {
        AgreeingIsSafe(q, f0, created.disk.files, filled.disk.files);
        TempAct(w, q, f0, filled.disk, Remove(temp));
        Stretch(q, f0, d, filled.disk, Act(w, filled.disk, Remove(temp)).disk);
      }
    }
  }

  lemma CleanedUp(w: Faults, q: Request, f0: Files, d: Disk, keyUsed: bool, certUsed: bool)
    requires TempsAreFresh(q) && Safe(q, f0, d.files)
    ensures var d' := Cleanup(w, d, q, keyUsed, certUsed);
            Kept(q, f0, d, d') && Quiet(q, d, d') && Agree(q, d.files, d'.files)
  {
    hide Safe, Kept, Quiet, Watched;
    var d1 := if certUsed then d else Act(w, d, Remove(q.certTemp)).disk;
    KeptSelf(q, f0, d);
    TempAct(w, q, f0, d, Remove(q.certTemp));
    assert Agree(q, d.files, d1.files);
    AgreeingIsSafe(q, f0, d.files, d1.files);
    if !keyUsed {
      TempAct(w, q, f0, d1, Remove(q.keyTemp));
      Stretch(q, f0, d, d1, Act(w, d1, Remove(q.keyTemp)).disk);
    }
  }

  /** A quiet stretch on other files after a phase does not change what was promised. */
  lemma PromisedBeforeQuiet(w: Faults, q: Request, f0: Files, a: Disk, b: Disk, o: Outcome, c: Disk)
    requires Promised(w, q, f0, a, o, b) && Kept(q, f0, b, c) && Quiet(q, b, c) && Agree(q, b.files, c.files)
    ensures Promised(w, q, f0, a, o, c)
  {
    AgreeingIsSafe(q, f0, b.files, c.files);
    KeptTrans(q, f0, a, b, c);
    hide Kept, Untouched, Installed, Agree;
    assert forall k :: 0 <= k < |b.done| ==> b.done[k] == c.done[k];
    assert RemovalFailed(w, q, a, c) <==> RemovalFailed(w, q, a, b);
  }

  /** The promise is about the targets and backups before the update, whatever happened to temporary files. */
  lemma PromisedFromAgreeing(w: Faults, q: Request, f0: Files, f1: Files, d: Disk, o: Outcome, d': Disk)
    requires Agree(q, f0, f1) && Promised(w, q, f1, d, o, d')
    ensures Promised(w, q, f0, d, o, d')
  {
    hide Agree, Safe, Untouched, Installed, RemovalFailed, CanBackUp, BackupOps;
    forall g ensures Safe(q, f1, g) <==> Safe(q, f0, g) {
      FromAgreeing(w, 0, q, f0, f1, g);
    }
    FromAgreeing(w, 0, q, f0, f1, d'.files);
    KeyStays(q, f0, f1);
  }

  lemma KeyStays(q: Request, f0: Files, f1: Files)
    requires Agree(q, f0, f1)
    ensures q.key in f0 <==> q.key in f1
  {
  }

  /**
   * Without a clash, whatever operations fail: success means that both new files are installed; an error that
   * reports no failed rollback leaves both targets as they were, except exactly when the key did not exist
   * before and its removal failed; every state in between is safe; and success is decided by which operations
   * fail.
   */
  lemma UpdatePromised(w: Faults, q: Request, d: Disk)
    requires ValidPaths(q) && TempsAreFresh(q) && !Clash(q, d.files)
    ensures var u := Update(w, d, q);
            && Promised(w, q, d.files, d, u.outcome, u.disk)
            && !u.outcome.Invalid?
            && (u.outcome.Success? <==> WillSucceed(w, |d.done|, d.files, q))
  {
    hide Bak, WriteTemp, Replace, Cleanup, Safe, Kept, Quiet, CanBackUp, BackupOps, RemovalFailed, Untouched, Installed;
    hide Agree, Promised, Clash, Watched;
    var f0 := d.files;
    var u := Update(w, d, q);
    OldIsSafe(q, f0);
    TempWritten(w, q, f0, d, q.keyTemp, q.keyPEM);
    var key := WriteTemp(w, d, q.keyTemp, q.keyPEM);
    if !key.ok {
      NothingDone(w, q, d, u.disk);
      return;
    }
    AgreeingIsSafe(q, f0, f0, key.disk.files);
    TempWritten(w, q, f0, key.disk, q.certTemp, q.certPEM);
    var cert := WriteTemp(w, key.disk, q.certTemp, q.certPEM);
    Stretch(q, f0, d, key.disk, cert.disk);
    AgreeingIsSafe(q, f0, f0, cert.disk.files);
    if !cert.ok {
      TempAct(w, q, f0, cert.disk, Remove(q.keyTemp));
      Stretch(q, f0, d, cert.disk, u.disk);
      NothingDone(w, q, d, u.disk);
      return;
    }
    var f1 := cert.disk.files;
    FromAgreeing(w, 0, q, f0, f1, f1);
    assert HoldsTemps(q, f1);
    FromAgreeing(w, |d.done| + 4, q, f0, f1, f1);
    FromAgreeing(w, |d.done| + 4 + BackupOps(f0, q.key), q, f0, f1, f1);
    ReplacePromised(w, q, cert.disk);
    var r := Replace(w, cert.disk, q);
    PromisedFromAgreeing(w, q, f0, f1, cert.disk, r.outcome, r.disk);
    PromisedAfterQuiet(w, q, f0, d, cert.disk, r.outcome, r.disk);
    PromisedIsSafe(w, q, f0, d, r.outcome, r.disk);
    CleanedUp(w, q, f0, r.disk, r.keyUsed, r.certUsed);
    PromisedBeforeQuiet(w, q, f0, d, r.disk, r.outcome, u.disk);
  }

  lemma OldIsSafe(q: Request, f0: Files)
    ensures Safe(q, f0, f0)
  {
  }

  lemma PromisedIsSafe(w: Faults, q: Request, f0: Files, d: Disk, o: Outcome, d': Disk)
    requires Promised(w, q, f0, d, o, d')
    ensures Safe(q, f0, d'.files)
  {
  }

  lemma NothingDone(w: Faults, q: Request, d: Disk, d': Disk)
    requires Kept(q, d.files, d, d') && Quiet(q, d, d') && Agree(q, d.files, d'.files)
    ensures Promised(w, q, d.files, d, Error(true), d')
  {
    QuietMeansNoFailure(w, q, d, d');
  }

  // ----- Runs without faults, and what can go wrong -----

  ghost predicate NoFaults(w: Faults) {
    forall n :: !w(n)
  }

  /** Nothing at `p` or its backup name keeps `p` from being backed up. */
  predicate Plain(f: Files, p: string) {
    p in f ==> f[p].File? && !(Bak(p) in f && f[Bak(p)] == Dir(false))
  }

  ghost predicate NoDirs(f: Files) {
    forall p <- f :: f[p].File?
  }

  lemma NoFaultBackUp(w: Faults, n: nat, f: Files, p: string)
    requires NoFaults(w)
    ensures CanBackUp(w, n, f, p) <==> Plain(f, p)
  {
    hide Bak;
  }

  /** A last removal that hits a target undoes the installation. */
  lemma DropHitsTarget(w: Faults, d: Disk, q: Request, hadCert: bool, hadKey: bool)
    requires NoFaults(w) && q.cert != q.key
    requires (hadKey && q.cert == Bak(q.key)) || (hadCert && q.key == Bak(q.cert))
    ensures !Installed(q, DropBackups(w, d, q, hadCert, hadKey).files)
  {
    BakFacts(q.cert, q.key);
    BakFacts(q.key, q.cert);
    hide Bak;
  }

  /** With a clash both targets count as backed up. */
  lemma ClashBacksUpBoth(w: Faults, q: Request, d: Disk)
    requires q.cert != q.key && Clash(q, d.files)
    ensures var key := Backup(w, d, q.key);
            var cert := Backup(w, key.disk, q.cert);
            key.ok && cert.ok ==> (q.cert == Bak(q.key) && key.had) || (q.key == Bak(q.cert) && cert.had)
  {
    BackupFacts(w, d, q.key);
    BackupFacts(w, Backup(w, d, q.key).disk, q.cert);
    BakFacts(q.cert, q.key);
    BakFacts(q.key, q.cert);
    hide Bak, Backup, CanBackUp;
  }

  lemma ClashLosesTarget(w: Faults, q: Request, d: Disk)
    requires NoFaults(w) && q.cert != q.key && Clash(q, d.files)
    ensures var r := Replace(w, d, q);
            r.outcome.Success? ==> !Installed(q, r.disk.files) && r.keyUsed && r.certUsed
  {
    hide Bak, Backup, RestorePair, DropBackups, Installed;
    ClashBacksUpBoth(w, q, d);
    var key := Backup(w, d, q.key);
    var cert := Backup(w, key.disk, q.cert);
    if key.ok && cert.ok {
      var first := Act(w, cert.disk, Rename(q.keyTemp, q.key));
      var second := Act(w, first.disk, Rename(q.certTemp, q.cert));
      DropHitsTarget(w, second.disk, q, cert.had, key.had);
    }
  }

  /** When nothing fails, the update reports success and leaves both new files installed exactly when neither
      target is the backup name of an existing other, and no directory stands in the way. */
  lemma NoFaultInstallsExactlyWhen(w: Faults, q: Request, d: Disk)
    requires NoFaults(w) && ValidPaths(q) && TempsAreFresh(q)
    ensures var u := Update(w, d, q);
            u.outcome.Success? && Installed(q, u.disk.files) <==>
            !Clash(q, d.files) && Plain(d.files, q.key) && Plain(d.files, q.cert)
  {
    hide Bak, Update, CanBackUp, Plain, Installed, Clash, TempsAreFresh;
    if Clash(q, d.files) {
      ClashNeverInstalls(w, q, d);
    } else {
      UpdatePromised(w, q, d);
      NoFaultBackUp(w, |d.done| + 4, d.files, q.key);
      NoFaultBackUp(w, |d.done| + 4 + BackupOps(d.files, q.key), d.files, q.cert);
    }
  }

  lemma ClashNeverInstalls(w: Faults, q: Request, d: Disk)
    requires NoFaults(w) && ValidPaths(q) && TempsAreFresh(q) && Clash(q, d.files)
    ensures var u := Update(w, d, q); u.outcome.Success? ==> !Installed(q, u.disk.files)
  {
    hide Bak, WriteTemp, Replace, Installed, Clash, Watched, Agree;
    TempWritten(w, q, d.files, d, q.keyTemp, q.keyPEM) by { OldIsSafe(q, d.files); }
    var key := WriteTemp(w, d, q.keyTemp, q.keyPEM);
    if key.ok {
      OldIsSafe(q, key.disk.files);
      TempWritten(w, q, key.disk.files, key.disk, q.certTemp, q.certPEM);
      var cert := WriteTemp(w, key.disk, q.certTemp, q.certPEM);
      FromAgreeing(w, 0, q, d.files, key.disk.files, d.files);
      FromAgreeing(w, 0, q, key.disk.files, cert.disk.files, d.files);
      if cert.ok {
        ClashLosesTarget(w, q, cert.disk);
      }
    }
  }

  lemma BackupKeepsPlain(w: Faults, q: Request, d: Disk, p: string)
    requires NoFaults(w) && NoDirs(d.files) && HoldsTemps(q, d.files) && TempsAreFresh(q) && (p == q.key || p == q.cert)
    ensures var b := Backup(w, d, p); b.ok && NoDirs(b.disk.files) && HoldsTemps(q, b.disk.files)
  {
    BackupFacts(w, d, p);
    hide Bak, Backup;
  }

  lemma RenamesWork(w: Faults, q: Request, d: Disk, hadCert: bool, hadKey: bool)
    requires NoFaults(w) && NoDirs(d.files) && HoldsTemps(q, d.files) && TempsAreFresh(q)
    ensures Install(w, d, q, hadCert, hadKey).outcome.Success?
  {
    hide Bak, RestorePair, DropBackups;
  }

  /** Among plain files a run without faults reports success, so with a clash it reports a success that is none. */
  lemma ClashIsReportedAsSuccess(w: Faults, q: Request, d: Disk)
    requires NoFaults(w) && ValidPaths(q) && TempsAreFresh(q) && NoDirs(d.files)
    ensures var u := Update(w, d, q);
            u.outcome.Success? && (Clash(q, d.files) ==> !Installed(q, u.disk.files))
  {
    NoFaultInstallsExactlyWhen(w, q, d);
    hide Bak, Backup, Install, Installed, Clash;
    var key := WriteTemp(w, d, q.keyTemp, q.keyPEM);
    var cert := WriteTemp(w, key.disk, q.certTemp, q.certPEM);
    BackupKeepsPlain(w, q, cert.disk, q.key);
    var keyBackup := Backup(w, cert.disk, q.key);
    BackupKeepsPlain(w, q, keyBackup.disk, q.cert);
    var certBackup := Backup(w, keyBackup.disk, q.cert);
    RenamesWork(w, q, certBackup.disk, certBackup.had, keyBackup.had);
  }

  /** The schedule in which the certificate's rename and the removal of the new key fail. */
  function RenameAndRemovalFail(n: nat): Faults {
    k => k == n + 7 || k == n + 8
  }

  /** Where neither target exists, that schedule ends in an error that reports no failed rollback and leaves the
      new key behind. */
  lemma NewKeyCanStay(q: Request, d: Disk)
    requires ValidPaths(q) && TempsAreFresh(q) && q.key !in d.files && q.cert !in d.files
    ensures var u := Update(RenameAndRemovalFail(|d.done|), d, q);
            u.outcome == Error(true) && q.key in u.disk.files && u.disk.files[q.key] == File(q.keyPEM)
  {
    hide Bak, Replace;
    var w, n := RenameAndRemovalFail(|d.done|), |d.done|;
    var key := WriteTemp(w, d, q.keyTemp, q.keyPEM);
    var cert := WriteTemp(w, key.disk, q.certTemp, q.certPEM);
    assert key.ok && cert.ok && |cert.disk.done| == n + 4 && HoldsTemps(q, cert.disk.files);
    NewKeyStays(q, cert.disk, n);
  }

  lemma NewKeyStays(q: Request, d: Disk, n: nat)
    requires ValidPaths(q) && TempsAreFresh(q) && q.key !in d.files && q.cert !in d.files
    requires |d.done| == n + 4 && HoldsTemps(q, d.files)
    ensures var r := Replace(RenameAndRemovalFail(n), d, q);
            r.outcome == Error(true) && q.key in r.disk.files && r.disk.files[q.key] == File(q.keyPEM) && r.keyUsed
  {
    hide Bak;
    var w := RenameAndRemovalFail(n);
    var key := Backup(w, d, q.key);
    assert key == Backed(false, true, key.disk) && key.disk.files == d.files && |key.disk.done| == n + 5;
    var cert := Backup(w, key.disk, q.cert);
    assert cert == Backed(false, true, cert.disk) && cert.disk.files == d.files && |cert.disk.done| == n + 6;
  }
}

/** What an update leaves behind besides the targets. */
module CertFilesTidy {
  import opened Text
  import opened CertFilesModel
  import opened CertFilesProof

  /** Between the two states, removing `p` was tried and failed for a reason outside the model. */
  ghost predicate RemoveFailed(w: Faults, a: Disk, b: Disk, p: string) {
    exists k :: |a.done| <= k < |b.done| && b.done[k] == Remove(p) && w(k)
  }

  /** `b` comes later than `a`, and `p` is as it was. */
  ghost predicate Later(a: Disk, b: Disk, p: string) {
    a.done <= b.done && Same(a.files, b.files, p)
  }

  lemma LaterTrans(a: Disk, b: Disk, c: Disk, p: string)
    requires Later(a, b, p) && Later(b, c, p)
    ensures Later(a, c, p)
  {
  }

  lemma FailedEarlier(w: Faults, a: Disk, b: Disk, c: Disk, d: Disk, p: string)
    requires a.done <= b.done && c.done <= d.done && RemoveFailed(w, b, c, p)
    ensures RemoveFailed(w, a, d, p)
  {
    var k :| |b.done| <= k < |c.done| && c.done[k] == Remove(p) && w(k);
    assert d.done[k] == Remove(p);
  }

  lemma ActElsewhere(w: Faults, d: Disk, a: Action, p: string)
    requires p != a.path && (a.Rename? ==> p != a.dst)
    ensures Later(d, Act(w, d, a).disk, p)
  {
  }

  lemma BackupElsewhere(w: Faults, d: Disk, path: string, p: string)
    requires p != path && p != Bak(path)
    ensures Later(d, Backup(w, d, path).disk, p)
  {
    hide Bak, Effect, Same;
    ActElsewhere(w, d, Stat(path), p);
    var stat := Act(w, d, Stat(path)).disk;
    ActElsewhere(w, stat, Remove(Bak(path)), p);
    var removed := Act(w, stat, Remove(Bak(path))).disk;
    ActElsewhere(w, removed, Rename(path, Bak(path)), p);
    LaterTrans(d, stat, removed, p);
    LaterTrans(d, removed, Act(w, removed, Rename(path, Bak(path))).disk, p);
  }

  lemma SameSelf(d: Disk, p: string)
    ensures Later(d, d, p)
  {
  }

  lemma RestoreElsewhere(w: Faults, d: Disk, path: string, had: bool, installed: bool, p: string)
    requires p != path && p != Bak(path)
    ensures Later(d, Restore(w, d, path, had, installed).disk, p)
  {
    hide Bak, Effect, Later;
    SameSelf(d, p);
    ActElsewhere(w, d, Remove(path), p);
    var c := if installed then Act(w, d, Remove(path)).disk else d;
    ActElsewhere(w, c, Rename(Bak(path), path), p);
    LaterTrans(d, c, Act(w, c, Rename(Bak(path), path)).disk, p);
  }

  lemma RestorePairElsewhere(w: Faults, d: Disk, q: Request, hadCert: bool, hadKey: bool, installed: bool, p: string)
    requires !Watched(q, p)
    ensures Later(d, RestorePair(w, d, q, hadCert, hadKey, installed).disk, p)
  {
    hide Bak, Restore, Later;
    RestoreElsewhere(w, d, q.cert, hadCert, false, p);
    var c := Restore(w, d, q.cert, hadCert, false).disk;
    RestoreElsewhere(w, c, q.key, hadKey, installed, p);
    LaterTrans(d, c, Restore(w, c, q.key, hadKey, installed).disk, p);
  }

  lemma DropElsewhere(w: Faults, d: Disk, q: Request, hadCert: bool, hadKey: bool, p: string)
    requires p != Bak(q.cert) && p != Bak(q.key)
    ensures Later(d, DropBackups(w, d, q, hadCert, hadKey), p)
  {
    hide Bak, Effect, Later, Act;
    SameSelf(d, p);
    ActElsewhere(w, d, Remove(Bak(q.cert)), p);
    var c := if hadCert then Act(w, d, Remove(Bak(q.cert))).disk else d;
    ActElsewhere(w, c, Remove(Bak(q.key)), p);
    LaterTrans(d, c, Act(w, c, Remove(Bak(q.key))).disk, p);
  }

  /** The temporary file is still there exactly when it was not used. */
  ghost predicate TempState(f: Files, temp: string, content: string, used: bool) {
    (used ==> temp !in f) && (!used ==> temp in f && f[temp] == File(content))
  }

  lemma TempStateLater(a: Disk, b: Disk, temp: string, content: string, used: bool)
    requires Later(a, b, temp) && TempState(a.files, temp, content, used)
    ensures TempState(b.files, temp, content, used) && a.done <= b.done
  {
  }

  lemma InstallTemps(w: Faults, d: Disk, q: Request, hadCert: bool, hadKey: bool)
    requires TempsAreFresh(q) && HoldsTemps(q, d.files)
    ensures var r := Install(w, d, q, hadCert, hadKey);
            && d.done <= r.disk.done
            && TempState(r.disk.files, q.keyTemp, q.keyPEM, r.keyUsed)
            && TempState(r.disk.files, q.certTemp, q.certPEM, r.certUsed)
  {
    hide Bak, RestorePair, DropBackups;
    var key := Act(w, d, Rename(q.keyTemp, q.key));
    var cert := Act(w, key.disk, Rename(q.certTemp, q.cert));
    assert TempState(key.disk.files, q.keyTemp, q.keyPEM, key.ok) && TempState(key.disk.files, q.certTemp, q.certPEM, false);
    assert key.ok ==> TempState(cert.disk.files, q.keyTemp, q.keyPEM, true) && TempState(cert.disk.files, q.certTemp, q.certPEM, cert.ok);
    RestorePairElsewhere(w, key.disk, q, hadCert, hadKey, false, q.keyTemp);
    RestorePairElsewhere(w, key.disk, q, hadCert, hadKey, false, q.certTemp);
    RestorePairElsewhere(w, cert.disk, q, hadCert, hadKey, true, q.keyTemp);
    RestorePairElsewhere(w, cert.disk, q, hadCert, hadKey, true, q.certTemp);
    DropElsewhere(w, cert.disk, q, hadCert, hadKey, q.keyTemp);
    DropElsewhere(w, cert.disk, q, hadCert, hadKey, q.certTemp);
    hide Act, Effect, TempsAreFresh, HoldsTemps;
  }

  lemma HoldsLater(q: Request, a: Disk, b: Disk)
    requires Later(a, b, q.keyTemp) && Later(a, b, q.certTemp) && HoldsTemps(q, a.files)
    ensures HoldsTemps(q, b.files) && a.done <= b.done
  {
  }

  lemma ReplaceTemps(w: Faults, d: Disk, q: Request)
    requires TempsAreFresh(q) && HoldsTemps(q, d.files)
    ensures var r := Replace(w, d, q);
            && d.done <= r.disk.done
            && TempState(r.disk.files, q.keyTemp, q.keyPEM, r.keyUsed)
            && TempState(r.disk.files, q.certTemp, q.certPEM, r.certUsed)
  {
    hide Bak, Backup, RestorePair, Install, Later;
    var key := Backup(w, d, q.key);
    BackupElsewhere(w, d, q.key, q.keyTemp);
    BackupElsewhere(w, d, q.key, q.certTemp);
    HoldsLater(q, d, key.disk);
    var cert := Backup(w, key.disk, q.cert);
    BackupElsewhere(w, key.disk, q.cert, q.keyTemp);
    BackupElsewhere(w, key.disk, q.cert, q.certTemp);
    HoldsLater(q, key.disk, cert.disk);
    RestorePairElsewhere(w, cert.disk, q, false, key.had, false, q.keyTemp);
    RestorePairElsewhere(w, cert.disk, q, false, key.had, false, q.certTemp);
    HoldsLater(q, cert.disk, RestorePair(w, cert.disk, q, false, key.had, false).disk);
    InstallTemps(w, cert.disk, q, cert.had, key.had);
  }

  lemma RemovedUnlessFailed(w: Faults, d: Disk, p: string)
    requires p in d.files ==> d.files[p].File?
    ensures var d' := Act(w, d, Remove(p)).disk;
            d.done <= d'.done && (p in d'.files ==> RemoveFailed(w, d, d', p))
  {
    var d' := Act(w, d, Remove(p)).disk;
    assert d'.done[|d.done|] == Remove(p);
  }

  lemma CleanupTemps(w: Faults, d: Disk, q: Request, keyUsed: bool, certUsed: bool)
    requires TempsAreFresh(q)
    requires TempState(d.files, q.keyTemp, q.keyPEM, keyUsed) && TempState(d.files, q.certTemp, q.certPEM, certUsed)
    ensures var d' := Cleanup(w, d, q, keyUsed, certUsed);
            && d.done <= d'.done
            && (q.keyTemp in d'.files ==> RemoveFailed(w, d, d', q.keyTemp))
            && (q.certTemp in d'.files ==> RemoveFailed(w, d, d', q.certTemp))
  {
    hide Act, Effect, RemoveFailed, Watched;
    var c := if certUsed then d else Act(w, d, Remove(q.certTemp)).disk;
    RemovedUnlessFailed(w, d, q.certTemp);
    ActElsewhere(w, d, Remove(q.certTemp), q.keyTemp);
    RemovedUnlessFailed(w, c, q.keyTemp);
    ActElsewhere(w, c, Remove(q.keyTemp), q.certTemp);
    var d' := Cleanup(w, d, q, keyUsed, certUsed);
    if q.certTemp in d'.files { FailedEarlier(w, d, d, c, d', q.certTemp); }
    if q.keyTemp in d'.files { FailedEarlier(w, d, c, d', d', q.keyTemp); }
  }

  lemma TempGoesUnlessFailed(w: Faults, d: Disk, temp: string, data: string)
    requires temp !in d.files
    ensures var r := WriteTemp(w, d, temp, data);
            && d.done <= r.disk.done
            && (r.ok ==> r.disk.files == d.files[temp := File(data)])
            && (!r.ok && temp in r.disk.files ==> RemoveFailed(w, d, r.disk, temp))
            && forall p :: p != temp ==> Same(d.files, r.disk.files, p)
  {
    hide RemoveFailed;
    var created := Act(w, d, Create(temp));
    if created.ok {
      var filled := Act(w, created.disk, Fill(temp, data));
      RemovedUnlessFailed(w, filled.disk, temp);
      var r := WriteTemp(w, d, temp, data);
      if !filled.ok && temp in r.disk.files {
        FailedEarlier(w, d, filled.disk, r.disk, r.disk, temp);
      }
    }
  }

  /** A temporary file is left behind only if its removal failed. */
  lemma TempsGoUnlessRemovalFails(w: Faults, q: Request, d: Disk)
    requires TempsAreFresh(q) && q.keyTemp !in d.files && q.certTemp !in d.files
    ensures var u := Update(w, d, q);
            && (q.keyTemp in u.disk.files ==> RemoveFailed(w, d, u.disk, q.keyTemp))
            && (q.certTemp in u.disk.files ==> RemoveFailed(w, d, u.disk, q.certTemp))
  {
    hide Bak, WriteTemp, Replace, Cleanup, RemoveFailed, Watched, Act, Effect;
    var key := WriteTemp(w, d, q.keyTemp, q.keyPEM);
    TempGoesUnlessFailed(w, d, q.keyTemp, q.keyPEM);
    assert Same(d.files, key.disk.files, q.certTemp);
    var u := Update(w, d, q);
    if ValidPaths(q) && key.ok {
      var cert := WriteTemp(w, key.disk, q.certTemp, q.certPEM);
      TempGoesUnlessFailed(w, key.disk, q.certTemp, q.certPEM);
      assert Same(key.disk.files, cert.disk.files, q.keyTemp);
      if !cert.ok {
        RemovedUnlessFailed(w, cert.disk, q.keyTemp);
        ActElsewhere(w, cert.disk, Remove(q.keyTemp), q.certTemp);
        if q.keyTemp in u.disk.files { FailedEarlier(w, d, cert.disk, u.disk, u.disk, q.keyTemp); }
        if q.certTemp in u.disk.files { FailedEarlier(w, d, key.disk, cert.disk, u.disk, q.certTemp); }
      } else {
        ReplaceTemps(w, cert.disk, q);
        var r := Replace(w, cert.disk, q);
        CleanupTemps(w, r.disk, q, r.keyUsed, r.certUsed);
        if q.keyTemp in u.disk.files { FailedEarlier(w, d, r.disk, u.disk, u.disk, q.keyTemp); }
        if q.certTemp in u.disk.files { FailedEarlier(w, d, r.disk, u.disk, u.disk, q.certTemp); }
      }
    }
  }

  lemma DroppedUnlessFailed(w: Faults, d: Disk, q: Request, hadCert: bool, hadKey: bool)
    requires q.cert != q.key
    requires hadCert && Bak(q.cert) in d.files ==> d.files[Bak(q.cert)].File?
    requires hadKey && Bak(q.key) in d.files ==> d.files[Bak(q.key)].File?
    ensures var d' := DropBackups(w, d, q, hadCert, hadKey);
            && d.done <= d'.done
            && (hadCert && Bak(q.cert) in d'.files ==> RemoveFailed(w, d, d', Bak(q.cert)))
            && (hadKey && Bak(q.key) in d'.files ==> RemoveFailed(w, d, d', Bak(q.key)))
  {
    BakFacts(q.cert, q.key);
    hide Bak, Act, Effect, RemoveFailed;
    var c := if hadCert then Act(w, d, Remove(Bak(q.cert))).disk else d;
    if hadCert {
      RemovedUnlessFailed(w, d, Bak(q.cert));
      ActElsewhere(w, d, Remove(Bak(q.cert)), Bak(q.key));
    }
    if hadKey {
      RemovedUnlessFailed(w, c, Bak(q.key));
      ActElsewhere(w, c, Remove(Bak(q.key)), Bak(q.cert));
    }
    var d' := DropBackups(w, d, q, hadCert, hadKey);
    if hadCert && Bak(q.cert) in d'.files { FailedEarlier(w, d, d, c, d', Bak(q.cert)); }
    if hadKey && Bak(q.key) in d'.files { FailedEarlier(w, d, c, d', d', Bak(q.key)); }
  }

  /** A backup that was made is a plain file and stays in place while the new files are installed. */
  lemma BackupStays(w: Faults, d: Disk, q: Request, f0: Files, p: string)
    requires q.cert != q.key && TempsAreFresh(q) && !Clash(q, f0) && BackedUp(q, f0, d.files)
    requires (p == q.cert || p == q.key) && p in f0 && f0[p].File?
    ensures var key := Act(w, d, Rename(q.keyTemp, q.key)).disk;
            var cert := Act(w, key, Rename(q.certTemp, q.cert)).disk;
            d.done <= cert.done && Bak(p) in cert.files && cert.files[Bak(p)].File?
  {
    BakFacts(q.cert, q.key);
    BakFacts(q.key, q.cert);
    hide Bak, Act, Effect;
    ActElsewhere(w, d, Rename(q.keyTemp, q.key), Bak(p));
    ActElsewhere(w, Act(w, d, Rename(q.keyTemp, q.key)).disk, Rename(q.certTemp, q.cert), Bak(p));
  }

  lemma InstallDropsBackups(w: Faults, d: Disk, q: Request, f0: Files)
    requires q.cert != q.key && TempsAreFresh(q) && !Clash(q, f0) && BackedUp(q, f0, d.files)
    requires (q.cert in f0 ==> f0[q.cert].File?) && (q.key in f0 ==> f0[q.key].File?)
    ensures var r := Install(w, d, q, q.cert in f0, q.key in f0);
            r.outcome.Success? ==>
              && d.done <= r.disk.done
              && (q.cert in f0 && Bak(q.cert) in r.disk.files ==> RemoveFailed(w, d, r.disk, Bak(q.cert)))
              && (q.key in f0 && Bak(q.key) in r.disk.files ==> RemoveFailed(w, d, r.disk, Bak(q.key)))
  {
    hide Bak, RestorePair, DropBackups, RemoveFailed, Effect, TempsAreFresh, BackedUp;
    var key := Act(w, d, Rename(q.keyTemp, q.key));
    var cert := Act(w, key.disk, Rename(q.certTemp, q.cert));
    var r := Install(w, d, q, q.cert in f0, q.key in f0);
    if r.outcome.Success? {
      if q.cert in f0 { BackupStays(w, d, q, f0, q.cert); }
      if q.key in f0 { BackupStays(w, d, q, f0, q.key); }
      DroppedUnlessFailed(w, cert.disk, q, q.cert in f0, q.key in f0);
      if q.cert in f0 && Bak(q.cert) in r.disk.files { FailedEarlier(w, d, cert.disk, r.disk, r.disk, Bak(q.cert)); }
      if q.key in f0 && Bak(q.key) in r.disk.files { FailedEarlier(w, d, cert.disk, r.disk, r.disk, Bak(q.key)); }
    }
  }

  lemma ReplaceDropsBackups(w: Faults, d: Disk, q: Request)
    requires q.cert != q.key && TempsAreFresh(q) && !Clash(q, d.files)
    ensures var f0, r := d.files, Replace(w, d, q);
            r.outcome.Success? ==>
              && d.done <= r.disk.done
              && (q.cert in f0 && Bak(q.cert) in r.disk.files ==> RemoveFailed(w, d, r.disk, Bak(q.cert)))
              && (q.key in f0 && Bak(q.key) in r.disk.files ==> RemoveFailed(w, d, r.disk, Bak(q.key)))
  {
    hide Bak, Backup, RestorePair, Install, RemoveFailed, TempsAreFresh, Clash, BackedUp, Safe, Kept, Quiet;
    var f0, r := d.files, Replace(w, d, q);
    if r.outcome.Success? {
      var key := Backup(w, d, q.key);
      KeyBackup(w, q, d);
      CertBackup(w, q, f0, key.disk);
      CertUnmoved(w, |key.disk.done|, q, f0);
      BothMoved(q, f0);
      BackupStatesAreSafe(q, f0);
      QuietPrefix(q, d, key.disk);
      var cert := Backup(w, key.disk, q.cert);
      QuietPrefix(q, key.disk, cert.disk);
      InstallDropsBackups(w, cert.disk, q, f0);
      if q.cert in f0 && Bak(q.cert) in r.disk.files { FailedEarlier(w, d, cert.disk, r.disk, r.disk, Bak(q.cert)); }
      if q.key in f0 && Bak(q.key) in r.disk.files { FailedEarlier(w, d, cert.disk, r.disk, r.disk, Bak(q.key)); }
    }
  }

  /** After a success the backup of a replaced file is left behind only if its removal failed. */
  lemma BackupsGoUnlessRemovalFails(w: Faults, q: Request, d: Disk)
    requires ValidPaths(q) && TempsAreFresh(q) && !Clash(q, d.files)
    ensures var f0, u := d.files, Update(w, d, q);
            u.outcome.Success? ==>
              && (q.cert in f0 && Bak(q.cert) in u.disk.files ==> RemoveFailed(w, d, u.disk, Bak(q.cert)))
              && (q.key in f0 && Bak(q.key) in u.disk.files ==> RemoveFailed(w, d, u.disk, Bak(q.key)))
  {
    BakFacts(q.cert, q.key);
    hide Bak, WriteTemp, Replace, Cleanup, RemoveFailed, Act, Effect, Agree, Safe, Kept, Quiet, CanBackUp, BackupOps;
    var f0, u := d.files, Update(w, d, q);
    if u.outcome.Success? {
      OldIsSafe(q, f0);
      TempWritten(w, q, f0, d, q.keyTemp, q.keyPEM);
      var key := WriteTemp(w, d, q.keyTemp, q.keyPEM);
      AgreeingIsSafe(q, f0, f0, key.disk.files);
      TempWritten(w, q, f0, key.disk, q.certTemp, q.certPEM);
      var cert := WriteTemp(w, key.disk, q.certTemp, q.certPEM);
      Stretch(q, f0, d, key.disk, cert.disk);
      QuietPrefix(q, d, cert.disk);
      FromAgreeing(w, 0, q, f0, cert.disk.files, f0);
      ReplaceDropsBackups(w, cert.disk, q);
      var r := Replace(w, cert.disk, q);
      CleanupElsewhere(w, r.disk, q, r.keyUsed, r.certUsed, Bak(q.cert));
      CleanupElsewhere(w, r.disk, q, r.keyUsed, r.certUsed, Bak(q.key));
      KeysAgree(q, f0, cert.disk.files);
      if q.cert in f0 && Bak(q.cert) in u.disk.files { FailedEarlier(w, d, cert.disk, r.disk, u.disk, Bak(q.cert)); }
      if q.key in f0 && Bak(q.key) in u.disk.files { FailedEarlier(w, d, cert.disk, r.disk, u.disk, Bak(q.key)); }
    }
  }

  lemma KeysAgree(q: Request, f0: Files, f: Files)
    requires Agree(q, f0, f)
    ensures (q.cert in f <==> q.cert in f0) && (q.key in f <==> q.key in f0)
  {
  }

  lemma InstallElsewhere(w: Faults, d: Disk, q: Request, hadCert: bool, hadKey: bool, p: string)
    requires !Watched(q, p) && p != q.keyTemp && p != q.certTemp
    ensures Later(d, Install(w, d, q, hadCert, hadKey).disk, p)
  {
    hide Bak, RestorePair, DropBackups, Later, Effect;
    var key := Act(w, d, Rename(q.keyTemp, q.key));
    var cert := Act(w, key.disk, Rename(q.certTemp, q.cert));
    var r := Install(w, d, q, hadCert, hadKey).disk;
    ActElsewhere(w, d, Rename(q.keyTemp, q.key), p);
    ActElsewhere(w, key.disk, Rename(q.certTemp, q.cert), p);
    RestorePairElsewhere(w, key.disk, q, hadCert, hadKey, false, p);
    RestorePairElsewhere(w, cert.disk, q, hadCert, hadKey, true, p);
    DropElsewhere(w, cert.disk, q, hadCert, hadKey, p);
    if !key.ok {
      LaterTrans(d, key.disk, r, p);
    } else {
      LaterTrans(d, key.disk, cert.disk, p);
      LaterTrans(d, cert.disk, r, p);
    }
  }

  lemma ReplaceElsewhere(w: Faults, d: Disk, q: Request, p: string)
    requires !Watched(q, p) && p != q.keyTemp && p != q.certTemp
    ensures Later(d, Replace(w, d, q).disk, p)
  {
    hide Bak, Backup, RestorePair, Install, Later;
    var key := Backup(w, d, q.key);
    var cert := Backup(w, key.disk, q.cert);
    var r := Replace(w, d, q).disk;
    BackupElsewhere(w, d, q.key, p);
    BackupElsewhere(w, key.disk, q.cert, p);
    RestorePairElsewhere(w, cert.disk, q, false, key.had, false, p);
    InstallElsewhere(w, cert.disk, q, cert.had, key.had, p);
    if key.ok {
      LaterTrans(d, key.disk, cert.disk, p);
      LaterTrans(d, cert.disk, r, p);
    }
  }

  lemma WriteTempElsewhere(w: Faults, d: Disk, temp: string, data: string, p: string)
    requires p != temp
    ensures Later(d, WriteTemp(w, d, temp, data).disk, p)
  {
    hide Effect;
    ActElsewhere(w, d, Create(temp), p);
    var created := Act(w, d, Create(temp)).disk;
    ActElsewhere(w, created, Fill(temp, data), p);
    var filled := Act(w, created, Fill(temp, data)).disk;
    ActElsewhere(w, filled, Remove(temp), p);
    hide Act;
  }

  lemma CleanupElsewhere(w: Faults, d: Disk, q: Request, keyUsed: bool, certUsed: bool, p: string)
    requires p != q.keyTemp && p != q.certTemp
    ensures Later(d, Cleanup(w, d, q, keyUsed, certUsed), p)
  {
    hide Act, Effect;
    ActElsewhere(w, d, Remove(q.certTemp), p);
    var c := if certUsed then d else Act(w, d, Remove(q.certTemp)).disk;
    ActElsewhere(w, c, Remove(q.keyTemp), p);
  }

  /** Whatever fails, no file other than the targets, their backups and the temporary files is touched. */
  lemma OtherFilesUntouched(w: Faults, q: Request, d: Disk, p: string)
    requires !Watched(q, p) && p != q.keyTemp && p != q.certTemp
    ensures Same(d.files, Update(w, d, q).disk.files, p)
  {
    hide Bak, WriteTemp, Replace, Cleanup, Watched, Act, Effect;
    WriteTempElsewhere(w, d, q.keyTemp, q.keyPEM, p);
    var key := WriteTemp(w, d, q.keyTemp, q.keyPEM);
    WriteTempElsewhere(w, key.disk, q.certTemp, q.certPEM, p);
    var cert := WriteTemp(w, key.disk, q.certTemp, q.certPEM);
    ActElsewhere(w, cert.disk, Remove(q.keyTemp), p);
    ReplaceElsewhere(w, cert.disk, q, p);
    var r := Replace(w, cert.disk, q);
    CleanupElsewhere(w, r.disk, q, r.keyUsed, r.certUsed, p);
  }
}

/** The code's own form: each operation asks the file system, which decides whether it works. */
module CertFiles {
  import opened Text
  import opened CertFilesModel
  import opened CertFilesProof

  class FileSystem {
    var files: Files
    ghost var done: seq<Action>
    ghost var seen: seq<Files>
    var count: nat
    const faults: Faults

    ghost function State(): Disk
      reads this
    {
      Disk(files, done, seen)
    }

    ghost predicate Valid()
      reads this
    {
      count == |done|
    }

    constructor (files: Files, faults: Faults)
      ensures Valid() && State() == Disk(files, [], []) && this.faults == faults
    {
      this.files := files;
      this.faults := faults;
      count, done, seen := 0, [], [];
    }

    method Perform(a: Action) returns (ok: bool)
      requires Valid()
      modifies this
      ensures Valid() && Result(ok, State()) == Act(faults, old(State()), a)
    {
      var e := Effect(files, a);
      ok := !faults(count) && e.Some?;
      if ok {
        files := e.value;
      }
      count, done, seen := count + 1, done + [a], seen + [files];
    }
  }

  method WriteTempFile(fs: FileSystem, temp: string, data: string) returns (ok: bool)
    requires fs.Valid()
    modifies fs
    ensures fs.Valid() && Result(ok, fs.State()) == WriteTemp(fs.faults, old(fs.State()), temp, data)
  {
    hide Act;
    ok := fs.Perform(Create(temp));
    if !ok {
      return;
    }
    ok := fs.Perform(Fill(temp, data));
    if !ok {
      var _ := fs.Perform(Remove(temp));
    }
  }

  method BackupExistingFile(fs: FileSystem, path: string) returns (had: bool, ok: bool)
    requires fs.Valid()
    modifies fs
    ensures fs.Valid() && Backed(had, ok, fs.State()) == Backup(fs.faults, old(fs.State()), path)
  {
    had, ok := false, false;
    var known := fs.Perform(Stat(path));
    if !known {
      return;
    }
    if path !in fs.files {
      return false, true;
    }
    if fs.files[path].Dir? {
      return;
    }
    var _ := fs.Perform(Remove(Bak(path)));
    ok := fs.Perform(Rename(path, Bak(path)));
    had := ok;
  }

  method RestoreFile(fs: FileSystem, path: string, hadBackup: bool, installed: bool) returns (ok: bool)
    requires fs.Valid()
    modifies fs
    ensures fs.Valid() && Result(ok, fs.State()) == Restore(fs.faults, old(fs.State()), path, hadBackup, installed)
  {
    hide Act;
    if installed {
      var _ := fs.Perform(Remove(path));
    }
    if !hadBackup {
      return true;
    }
    ok := fs.Perform(Rename(Bak(path), path));
  }

  method RestoreCertKeyPair(fs: FileSystem, q: Request, hadCert: bool, hadKey: bool, keyInstalled: bool) returns (ok: bool)
    requires fs.Valid()
    modifies fs
    ensures fs.Valid() && Result(ok, fs.State()) == RestorePair(fs.faults, old(fs.State()), q, hadCert, hadKey, keyInstalled)
  {
    hide Restore;
    var certOk := RestoreFile(fs, q.cert, hadCert, false);
    var keyOk := RestoreFile(fs, q.key, hadKey, keyInstalled);
    ok := certOk && keyOk;
  }

  /** The part after the temporary files are written; the two flags are those whose names were cleared. */
  method ReplacePair(fs: FileSystem, q: Request) returns (r: Outcome, keyUsed: bool, certUsed: bool)
    requires fs.Valid()
    modifies fs
    ensures fs.Valid() && Replaced(r, keyUsed, certUsed, fs.State()) == Replace(fs.faults, old(fs.State()), q)
  {
    hide Act, Backup, RestorePair;
    keyUsed, certUsed := false, false;
    var hadKey, ok := BackupExistingFile(fs, q.key);
    if !ok {
      return Error(true), false, false;
    }
    var hadCert;
    hadCert, ok := BackupExistingFile(fs, q.cert);
    if !ok {
      var restored := RestoreCertKeyPair(fs, q, false, hadKey, false);
      return Error(restored), false, false;
    }
    ok := fs.Perform(Rename(q.keyTemp, q.key));
    if !ok {
      var restored := RestoreCertKeyPair(fs, q, hadCert, hadKey, false);
      return Error(restored), false, false;
    }
    ok := fs.Perform(Rename(q.certTemp, q.cert));
    if !ok {
      var restored := RestoreCertKeyPair(fs, q, hadCert, hadKey, true);
      return Error(restored), true, false;
    }
    if hadCert {
      var _ := fs.Perform(Remove(Bak(q.cert)));
    }
    if hadKey {
      var _ := fs.Perform(Remove(Bak(q.key)));
    }
    return Success, true, true;
  }

  /** The whole update: what it does to the disk and, without a clash, what that promises. */
  method WriteCertKeyPair(fs: FileSystem, q: Request) returns (r: Outcome)
    requires fs.Valid()
    modifies fs
    ensures fs.Valid() && Updated(r, fs.State()) == Update(fs.faults, old(fs.State()), q)
    ensures r.Invalid? <==> !ValidPaths(q)
    ensures ValidPaths(q) && TempsAreFresh(q) && !Clash(q, old(fs.files)) ==>
              && Promised(fs.faults, q, old(fs.files), old(fs.State()), r, fs.State())
              && (r.Success? <==> WillSucceed(fs.faults, |old(fs.done)|, old(fs.files), q))
  {
    hide Act, WriteTemp, Replace, Promised, WillSucceed, TempsAreFresh, Clash;
    if ValidPaths(q) && TempsAreFresh(q) && !Clash(q, fs.files) {
      UpdatePromised(fs.faults, q, fs.State());
    }
    ReplaceIsNotInvalid(fs.faults, q);
    if q.cert == "" || q.key == "" {
      return Invalid;
    }
    if q.cert == q.key {
      return Invalid;
    }
    var ok := WriteTempFile(fs, q.keyTemp, q.keyPEM);
    if !ok {
      return Error(true);
    }
    ok := WriteTempFile(fs, q.certTemp, q.certPEM);
    if !ok {
      var _ := fs.Perform(Remove(q.keyTemp));
      return Error(true);
    }
    var keyUsed, certUsed;
    r, keyUsed, certUsed := ReplacePair(fs, q);
    if !certUsed {
      var _ := fs.Perform(Remove(q.certTemp));
    }
    if !keyUsed {
      var _ := fs.Perform(Remove(q.keyTemp));
    }
  }

  lemma ReplaceIsNotInvalid(w: Faults, q: Request)
    ensures forall d :: !Replace(w, d, q).outcome.Invalid?
  {
    hide Act, Backup, RestorePair, DropBackups;
  }
}
