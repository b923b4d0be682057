/** `find_volume`: walk from a path up through its parents and stop at the
    last path still on the starting device, detected by device and inode
    numbers alone. */
module VolumeLocator {
  import opened Results

  /** A path is its sequence of components; `[]` is the root, which has no
      parent. */
  type Path = seq<string>

  /** What the walk reads from `fs::metadata`: `dev()` and `ino()`. */
  datatype Stat = Stat(dev: nat, ino: nat)

  datatype IoError = MetadataUnavailable

  /** `fs::metadata` as a partial map: a path with no entry is an I/O error. */
  type FileSystem = map<Path, Stat>

  function Parent(p: Path): (r: Option<Path>)
    ensures r.None? <==> p == []
    ensures r.Some? ==> r.value < p && |r.value| == |p| - 1
  {
    if p == [] then None else Some(p[..|p| - 1])
  }

  /** The walk moves on from `p`, whose stat is `s`, to its parent: the
      parent can be read, is on the same device, and is a different inode. */
  predicate MovesOn(fs: FileSystem, p: Path, s: Stat)
  {
    p != [] && p[..|p| - 1] in fs
    && fs[p[..|p| - 1]].dev == s.dev && fs[p[..|p| - 1]].ino != s.ino
  }

  /** The walk stops at `p`: no parent, or a readable parent on another
      device or with the same inode. */
  predicate StopsAt(fs: FileSystem, p: Path, s: Stat)
  {
    p == [] || (p[..|p| - 1] in fs && (fs[p[..|p| - 1]].dev != s.dev || fs[p[..|p| - 1]].ino == s.ino))
  }

  /** The walk as a recursive function, one parent per step. */
  function Walk(fs: FileSystem, p: Path, s: Stat): Result<Path, IoError>
    decreases |p|
  {
    match Parent(p)
    case None => Success(p)
    case Some(q) =>
      if q !in fs then Failure(MetadataUnavailable)
      else if fs[q].dev != s.dev then Success(p)
      else if fs[q].ino == s.ino then Success(p)
      else Walk(fs, q, fs[q])
  }

  /** The loop of `find_volume`, holding the stat of the current path in
      `lastDev` and `lastIno`. */
  method FindVolume(fs: FileSystem, startPath: Path, startStat: Stat) returns (r: Result<Path, IoError>)
    ensures r == Walk(fs, startPath, startStat)
  {
    var lastDev, lastIno, lastPath := startStat.dev, startStat.ino, startPath;
    while true
      invariant Walk(fs, lastPath, Stat(lastDev, lastIno)) == Walk(fs, startPath, startStat)
      decreases |lastPath|
    {
      var parent := Parent(lastPath);
      if parent.None? {
        return Success(lastPath);
      }
      var parentPath := parent.value;
      if parentPath !in fs {
        return Failure(MetadataUnavailable);
      }
      var parentStat := fs[parentPath];
      if parentStat.dev != lastDev {
        return Success(lastPath);
      }
      if parentStat.ino == lastIno {
        return Success(lastPath);
      }
      lastDev, lastIno, lastPath := parentStat.dev, parentStat.ino, parentPath;
    }
  }

  /** The stat the walk holds at an ancestor `q` of the start. */
  function StatAt(fs: FileSystem, start: Path, s: Stat, q: Path): Stat
    requires q == start || q in fs
  {
    if q == start then s else fs[q]
  }

  /** The walk gets from `start` up to its ancestor `v`: every path in
      between can be read, and from every path below `v` the walk moves on. */
  ghost predicate Reaches(fs: FileSystem, start: Path, s: Stat, v: Path)
  {
    && v <= start
    && (forall k :: |v| <= k < |start| ==> start[..k] in fs)
    && (forall k :: |v| < k <= |start| ==> MovesOn(fs, start[..k], StatAt(fs, start, s, start[..k])))
  }

  /** An independent description of the answer: the walk reaches `v` and
      stops there. */
  ghost predicate IsVolumeRoot(fs: FileSystem, start: Path, s: Stat, v: Path)
  {
    && Reaches(fs, start, s, v)
    && (v == start || v in fs)
    && StopsAt(fs, v, StatAt(fs, start, s, v))
  }

  /** The walk returns `v` exactly when `v` is the volume root of `start`. */
  lemma {:induction false} WalkFindsVolumeRoot(fs: FileSystem, start: Path, s: Stat, v: Path)
    ensures Walk(fs, start, s) == Success(v) <==> IsVolumeRoot(fs, start, s, v)
    decreases |start|
  {
    if start != [] {
      var q := start[..|start| - 1];
      if q in fs && fs[q].dev == s.dev && fs[q].ino != s.ino {
        // The walk moves on: relate the roots of `start` to those of `q`.
        WalkFindsVolumeRoot(fs, q, fs[q], v);
        assert MovesOn(fs, start, s);
        if IsVolumeRoot(fs, q, fs[q], v) {
          assert IsVolumeRoot(fs, start, s, v) by {
            forall k | |v| <= k < |start| ensures start[..k] in fs {
              assert start[..k] == q[..k];
            }
            forall k | |v| < k <= |start|
              ensures MovesOn(fs, start[..k], StatAt(fs, start, s, start[..k]))
            {
              if k < |start| {
                assert start[..k] == q[..k];
                assert StatAt(fs, start, s, start[..k]) == StatAt(fs, q, fs[q], q[..k]);
              }
            }
            assert v != start;
            assert v in fs;
            assert StatAt(fs, start, s, v) == StatAt(fs, q, fs[q], v);
          }
        }
        if IsVolumeRoot(fs, start, s, v) {
          assert v != start by {
            assert v == start ==> StopsAt(fs, start, s);
          }
          assert v <= q;
          assert IsVolumeRoot(fs, q, fs[q], v) by {
            forall k | |v| <= k < |q| ensures q[..k] in fs {
              assert q[..k] == start[..k];
            }
            forall k | |v| < k <= |q|
              ensures MovesOn(fs, q[..k], StatAt(fs, q, fs[q], q[..k]))
            {
              assert q[..k] == start[..k];
              assert StatAt(fs, start, s, start[..k]) == StatAt(fs, q, fs[q], q[..k]);
            }
            assert v in fs;
            assert StatAt(fs, start, s, v) == StatAt(fs, q, fs[q], v);
          }
        }
      } else {
        // The walk ends here, with `start` or with an error.
        assert !MovesOn(fs, start, s);
        assert start[..|start|] == start;
      }
    }
  }

  /** The returned path and every path between it and the start lie on the
      starting device. */
  lemma {:induction false} WalkStaysOnDevice(fs: FileSystem, start: Path, s: Stat, v: Path)
    requires Walk(fs, start, s) == Success(v)
    ensures v <= start
    ensures forall k :: |v| <= k < |start| ==> start[..k] in fs && fs[start[..k]].dev == s.dev
    decreases |start|
  {
    if start != [] {
      var q := start[..|start| - 1];
      if q in fs && fs[q].dev == s.dev && fs[q].ino != s.ino {
        WalkStaysOnDevice(fs, q, fs[q], v);
        forall k | |v| <= k < |start| ensures start[..k] in fs && fs[start[..k]].dev == s.dev {
          assert start[..k] == q[..k];
          if k == |q| { assert q[..k] == q; }
        }
      }
    }
  }

  /** A failed walk reached an ancestor whose parent's metadata could not
      be read. */
  lemma {:induction false} WalkFailure(fs: FileSystem, start: Path, s: Stat)
    requires Walk(fs, start, s).Failure?
    ensures exists v :: Reaches(fs, start, s, v) && v != [] && v[..|v| - 1] !in fs
    decreases |start|
  {
    var q := start[..|start| - 1];
    if q !in fs {
      assert start[..|start|] == start;
      assert Reaches(fs, start, s, start);
    } else {
      WalkFailure(fs, q, fs[q]);
      var v :| Reaches(fs, q, fs[q], v) && v != [] && v[..|v| - 1] !in fs;
      assert Reaches(fs, start, s, v) by {
        forall k | |v| <= k < |start| ensures start[..k] in fs {
          assert start[..k] == q[..k];
        }
        forall k | |v| < k <= |start|
          ensures MovesOn(fs, start[..k], StatAt(fs, start, s, start[..k]))
        {
          if k < |start| {
            assert start[..k] == q[..k];
            assert StatAt(fs, start, s, start[..k]) == StatAt(fs, q, fs[q], q[..k]);
          } else {
            assert start[..k] == start;
          }
        }
      }
    }
  }

  /** Walking again from the volume root, with the stat the walk held
      there, finds the same root: the root is a fixed point. */
  lemma WalkIdempotent(fs: FileSystem, start: Path, s: Stat, v: Path)
    requires Walk(fs, start, s) == Success(v)
    ensures v == start || v in fs
    ensures Walk(fs, v, StatAt(fs, start, s, v)) == Success(v)
  {
    WalkFindsVolumeRoot(fs, start, s, v);
    assert StopsAt(fs, v, StatAt(fs, start, s, v));
  }
}
