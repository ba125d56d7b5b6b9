/** What the on-disk log means: the disk that log recovery (log.c) produces
    from an arbitrary disk image, and why recovery may be interrupted and
    started over any number of times. */
module DiskLog {
  import opened Sectors

  const LOGSIZE := 10
  const INT_MAX := 0x7fff_ffff

  type Disk = seq<Sector>

  /** `lh->n` of a header sector; a negative C int makes every loop over it empty. */
  function Count(h: Sector): nat
  {
    if Word(h, 0) <= INT_MAX then Word(h, 0) else 0
  }

  /** `lh->sector[i]` of a header sector. */
  function Entry(h: Sector, i: nat): nat
    requires i < LOGSIZE
  {
    Word(h, 1 + i)
  }

  /** The header sector after `write_head` stores these sector numbers. */
  function HeaderWith(h: Sector, secs: seq<uint>): (r: Sector)
    requires |secs| <= LOGSIZE
    ensures Count(r) == |secs|
    ensures forall i :: 0 <= i < |secs| ==> Entry(r, i) == secs[i]
  {
    HeaderWords(h, secs, [|secs|] + secs);
    WithWords(h, 0, [|secs|] + secs)
  }

  lemma HeaderWords(h: Sector, secs: seq<uint>, ws: seq<uint>)
    requires |secs| <= LOGSIZE && ws == [|secs|] + secs
    ensures Word(WithWords(h, 0, ws), 0) == |secs|
    ensures forall i :: 0 <= i < |secs| ==> Word(WithWords(h, 0, ws), 1 + i) == secs[i]
  {
    WordOfWithWords(h, 0, ws, 0);
    forall i | 0 <= i < |secs| ensures Word(WithWords(h, 0, ws), 1 + i) == secs[i] {
      WordOfWithWords(h, 0, ws, 1 + i);
      assert ws[1 + i] == secs[i];
    }
  }

  /** The header describes blocks that lie in the log and go to distinct home sectors. */
  predicate WellFormed(d: Disk, start: nat)
  {
    && start < |d|
    && Count(d[start]) <= LOGSIZE
    && start + Count(d[start]) < |d|
    && (forall i :: 0 <= i < Count(d[start]) ==> Entry(d[start], i) < start)
    && (forall i, j :: 0 <= i < j < Count(d[start]) ==> Entry(d[start], i) != Entry(d[start], j))
  }

  /** The home area: every sector below the log. */
  function Home(d: Disk, start: nat): Disk
    requires start <= |d|
  {
    d[..start]
  }

  /** The disk after the first k iterations of `install_trans`. */
  function Install(d: Disk, start: nat, k: nat): (r: Disk)
    requires WellFormed(d, start) && k <= Count(d[start])
    ensures |r| == |d|
    ensures forall s :: start <= s < |d| ==> r[s] == d[s]
  {
    if k == 0 then d
    else Install(d, start, k - 1)[Entry(d[start], k - 1) := d[start + k]]
  }

  /** The disk after `recover_from_log` runs to completion. */
  function Recover(d: Disk, start: nat): (r: Disk)
    requires WellFormed(d, start)
    ensures |r| == |d|
  {
    Install(d, start, Count(d[start]))[start := HeaderWith(d[start], [])]
  }

  /** Some entry below k names sector s. */
  predicate Named(h: Sector, k: nat, s: nat)
    requires k <= LOGSIZE
  {
    exists i :: 0 <= i < k && Entry(h, i) == s
  }

  /** Installing over two images with the same log: named sectors agree, others keep. */
  lemma {:induction false} InstallPoint(d: Disk, e: Disk, start: nat, k: nat, s: nat)
    requires WellFormed(d, start) && WellFormed(e, start) && |d| == |e|
    requires forall i :: start <= i < |d| ==> d[i] == e[i]
    requires k <= Count(d[start]) && s < start
    ensures Named(d[start], k, s) ==> Install(d, start, k)[s] == Install(e, start, k)[s]
    ensures !Named(d[start], k, s) ==> Install(d, start, k)[s] == d[s] && Install(e, start, k)[s] == e[s]
    decreases k
  {
    if k > 0 {
      InstallPoint(d, e, start, k - 1, s);
      if Named(d[start], k - 1, s) {
        assert Named(d[start], k, s);
      }
      if Entry(d[start], k - 1) == s {
        assert Named(d[start], k, s);
      }
    }
  }

  /** Recovery may stop after any number of its sector writes. */
  predicate CrashedRecovery(d: Disk, e: Disk, start: nat)
    requires WellFormed(d, start)
  {
    e == Recover(d, start) || exists k: nat :: k <= Count(d[start]) && e == Install(d, start, k)
  }

  /** An interrupted recovery leaves a disk that recovers to the same home area. */
  lemma CrashDuringRecovery(d: Disk, e: Disk, start: nat)
    requires WellFormed(d, start) && CrashedRecovery(d, e, start)
    ensures |e| == |d| && WellFormed(e, start)
    ensures Home(Recover(e, start), start) == Home(Recover(d, start), start)
  {
    var n := Count(d[start]);
    if e != Recover(d, start) {
      var k: nat :| k <= n && e == Install(d, start, k);
      forall s: nat | s < start ensures Recover(e, start)[s] == Recover(d, start)[s] {
        InstallPoint(d, e, start, n, s);
        InstallPoint(d, d, start, k, s);
        if Named(d[start], k, s) {
          assert Named(d[start], n, s);
        }
      }
    }
  }

  /** A chain of boots, each interrupted during recovery. */
  predicate CrashChain(ds: seq<Disk>, start: nat)
  {
    && (forall i :: 0 <= i < |ds| ==> WellFormed(ds[i], start))
    && (forall i :: 0 <= i < |ds| - 1 ==> CrashedRecovery(ds[i], ds[i + 1], start))
  }

  /** However many boots crash in the middle of recovery, the one that completes
      leaves the home area the first would have left. */
  lemma {:induction false} RepeatedCrashes(ds: seq<Disk>, start: nat)
    requires ds != [] && CrashChain(ds, start)
    ensures |ds[|ds| - 1]| == |ds[0]|
    ensures Home(Recover(ds[|ds| - 1], start), start) == Home(Recover(ds[0], start), start)
  {
    if |ds| > 1 {
      var pre := ds[..|ds| - 1];
      assert CrashChain(pre, start);
      RepeatedCrashes(pre, start);
      CrashDuringRecovery(pre[|pre| - 1], ds[|ds| - 1], start);
    }
  }

  /** The logged contents by home sector, for the sectors `secs` logged in order. */
  function Logged(d: Disk, start: nat, secs: seq<uint>): (m: map<uint, Sector>)
    requires start + |secs| < |d|
  {
    if secs == [] then map[]
    else
      var k := |secs| - 1;
      Logged(d, start, secs[..k])[secs[k] := d[start + 1 + k]]
  }

  predicate Distinct(secs: seq<uint>)
  {
    forall i, j :: 0 <= i < j < |secs| ==> secs[i] != secs[j]
  }

  lemma {:induction false} LoggedAt(d: Disk, start: nat, secs: seq<uint>, i: nat)
    requires start + |secs| < |d| && Distinct(secs) && i < |secs|
    ensures secs[i] in Logged(d, start, secs) && Logged(d, start, secs)[secs[i]] == d[start + 1 + i]
  {
    var k := |secs| - 1;
    if i < k {
      assert secs[..k][i] == secs[i];
      LoggedAt(d, start, secs[..k], i);
    }
  }

  lemma {:induction false} LoggedKeys(d: Disk, start: nat, secs: seq<uint>, s: nat)
    requires start + |secs| < |d|
    ensures s in Logged(d, start, secs) <==> s in secs
  {
    if secs != [] {
      LoggedKeys(d, start, secs[..|secs| - 1], s);
    }
  }

  /** Logging a new sector adds it to the logged contents. */
  lemma LoggedAppend(d: Disk, start: nat, secs: seq<uint>, s: uint, x: Sector)
    requires start + |secs| + 1 < |d|
    ensures Logged(d[start + 1 + |secs| := x], start, secs + [s]) == Logged(d, start, secs)[s := x]
  {
    LoggedFrame(d, d[start + 1 + |secs| := x], start, secs);
    assert (secs + [s])[..|secs|] == secs;
  }

  /** Rewriting log block i (absorption) overrides that sector only. */
  lemma {:induction false} LoggedRewrite(d: Disk, start: nat, secs: seq<uint>, i: nat, x: Sector)
    requires start + |secs| < |d| && Distinct(secs) && i < |secs|
    ensures Logged(d[start + 1 + i := x], start, secs) == Logged(d, start, secs)[secs[i] := x]
    decreases |secs|
  {
    var d', k := d[start + 1 + i := x], |secs| - 1;
    var p := secs[..k];
    assert Logged(d', start, secs) == Logged(d', start, p)[secs[k] := d'[start + 1 + k]];
    if i == k {
      LoggedFrame(d, d', start, p);
    } else {
      LoggedRewrite(d, start, p, i, x);
      assert p[i] == secs[i];
      SwapUpdates(Logged(d, start, p), secs[i], x, secs[k], d[start + 1 + k]);
    }
  }

  lemma SwapUpdates(m: map<uint, Sector>, a: uint, x: Sector, b: uint, y: Sector)
    requires a != b
    ensures m[a := x][b := y] == m[b := y][a := x]
  {
  }

  /** A home area with the logged sectors laid over it. */
  function Overlay(home: Disk, m: map<uint, Sector>): (r: Disk)
    ensures |r| == |home|
  {
    seq(|home|, s requires 0 <= s < |home| => if s in m then m[s] else home[s])
  }

  /** One log_write: a sector and its new contents. */
  datatype Update = Update(s: uint, x: Sector)

  /** A home area with the updates made one after the other, in place. */
  function InPlace(home: Disk, us: seq<Update>): (r: Disk)
    requires forall i :: 0 <= i < |us| ==> us[i].s < |home|
    ensures |r| == |home|
  {
    if us == [] then home else InPlace(home, us[..|us| - 1])[us[|us| - 1].s := us[|us| - 1].x]
  }

  /** What a transaction has logged after these updates. */
  function Absorbed(us: seq<Update>): map<uint, Sector>
  {
    if us == [] then map[] else Absorbed(us[..|us| - 1])[us[|us| - 1].s := us[|us| - 1].x]
  }

  /** Logging the last contents of each sector, in one slot each, comes to the same as making every
      update in place: what is proved of a sequence of block updates holds of the committed disk. */
  lemma {:induction false} AbsorptionIsInPlace(home: Disk, us: seq<Update>)
    requires forall i :: 0 <= i < |us| ==> us[i].s < |home|
    ensures Overlay(home, Absorbed(us)) == InPlace(home, us)
  {
    if us != [] {
      AbsorptionIsInPlace(home, us[..|us| - 1]);
    }
  }

  lemma {:induction false} InstallIsOverlay(d: Disk, start: nat, secs: seq<uint>)
    requires WellFormed(d, start) && |secs| <= Count(d[start])
    requires forall i :: 0 <= i < |secs| ==> secs[i] == Entry(d[start], i)
    ensures Home(Install(d, start, |secs|), start) == Overlay(Home(d, start), Logged(d, start, secs))
  {
    if secs != [] {
      InstallIsOverlay(d, start, secs[..|secs| - 1]);
    }
  }

  /** The disk after each of the first k writes of `install_trans`. */
  function InstallStates(d: Disk, start: nat, k: nat): (r: seq<Disk>)
    requires WellFormed(d, start) && k <= Count(d[start])
  {
    if k == 0 then [] else InstallStates(d, start, k - 1) + [Install(d, start, k)]
  }

  lemma {:induction false} InstallStatesCrash(d: Disk, start: nat, k: nat)
    requires WellFormed(d, start) && k <= Count(d[start])
    ensures forall e :: e in InstallStates(d, start, k) ==> CrashedRecovery(d, e, start)
    decreases k
  {
    if k > 0 {
      InstallStatesCrash(d, start, k - 1);
    }
  }

  /** Recovery of disk d yields exactly this home area. */
  predicate RecoversTo(d: Disk, start: nat, home: Disk)
  {
    WellFormed(d, start) && Home(Recover(d, start), start) == home
  }

  /** With a clear header nothing is installed: the log blocks are ignored. */
  lemma ClearHeaderRecovers(d: Disk, start: nat)
    requires start < |d| && Count(d[start]) == 0
    ensures RecoversTo(d, start, Home(d, start))
  {
  }

  /** Writing the header commits: recovery now lays the logged sectors over the home area. */
  lemma HeaderCommits(d: Disk, start: nat, secs: seq<uint>)
    requires start + |secs| < |d| && |secs| <= LOGSIZE && Distinct(secs)
    requires forall i :: 0 <= i < |secs| ==> secs[i] < start
    ensures RecoversTo(d[start := HeaderWith(d[start], secs)], start,
                       Overlay(Home(d, start), Logged(d, start, secs)))
  {
    var e := d[start := HeaderWith(d[start], secs)];
    assert WellFormed(e, start);
    InstallIsOverlay(e, start, secs);
    LoggedFrame(d, e, start, secs);
    assert Home(e, start) == Home(d, start);
  }

  lemma {:induction false} LoggedFrame(d: Disk, e: Disk, start: nat, secs: seq<uint>)
    requires start + |secs| < |d| == |e|
    requires forall i :: start < i <= start + |secs| ==> d[i] == e[i]
    ensures Logged(d, start, secs) == Logged(e, start, secs)
  {
    if secs != [] {
      LoggedFrame(d, e, start, secs[..|secs| - 1]);
    }
  }

  /** The disk after each sector write of `recover_from_log` on d. */
  function RecoveryStates(d: Disk, start: nat): seq<Disk>
    requires WellFormed(d, start)
  {
    InstallStates(d, start, Count(d[start])) + [Recover(d, start)]
  }

  /** Every crash point of a recovery of d recovers to what d recovers to. */
  lemma RecoveryTrail(d: Disk, start: nat, home: Disk)
    requires RecoversTo(d, start, home)
    ensures forall e :: e in RecoveryStates(d, start) ==> CrashedRecovery(d, e, start) && RecoversTo(e, start, home)
    ensures Home(Recover(d, start), start) == home && Count(Recover(d, start)[start]) == 0
  {
    InstallStatesCrash(d, start, Count(d[start]));
    forall e | e in RecoveryStates(d, start) ensures CrashedRecovery(d, e, start) && RecoversTo(e, start, home) {
      assert CrashedRecovery(d, e, start);
      CrashDuringRecovery(d, e, start);
    }
  }
}
