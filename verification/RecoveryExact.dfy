/** One crash, any run of commits and checkpoints: recovery yields exactly a committed prefix. */
module RecoveryExact {
  import opened Bytes
  import opened WalFormat
  import opened WalCodec
  import opened Recovery
  import opened RecoveryLog
  import opened Wrappers

  // ---------------------------------------------------------------- commits and their records

  datatype Commit = Commit(kind: byte, ts: int, payload: seq<byte>)

  predicate CommitOk(c: Commit) {
    IsLsnCommit(c.kind) && Micros(c.ts) && |c.payload| < V6_FLAG
  }

  function StateAfter<S>(apply: Apply<S>, init: S, commits: seq<Commit>): S {
    if commits == [] then init
    else
      var c := commits[|commits| - 1];
      apply(StateAfter(apply, init, commits[..|commits| - 1]), c.kind, c.payload)
  }

  /** The v6 record of the commit with LSN `lsn`, linked to the LSN before it. */
  function CommitRec(scheme: byte, c: Commit, lsn: nat): Rec
    requires lsn > 0
  {
    V6(scheme, c.kind, lsn - 1, lsn, c.ts, c.payload)
  }

  function MarkerRec(scheme: byte, lsn: nat, ts: int, path: seq<byte>): Rec
    requires Lsn(lsn) && Micros(ts)
  {
    V6(scheme, CHECKPOINT_MARKER, if lsn == 0 then 0 else lsn - 1, lsn, ts, V6MarkerPayload(lsn, ts, path))
  }

  predicate SchemeOk(scheme: byte) {
    scheme == SCHEME_CRC32C || scheme == SCHEME_BLAKE3
  }

  /** `log` holds the commits with LSN 1, 2, ... in order, and markers no higher than those before them. */
  predicate LogOk(scheme: byte, commits: seq<Commit>, log: seq<Rec>)
    decreases |log|
  {
    if log == [] then commits == []
    else
      var r, front := log[|log| - 1], log[..|log| - 1];
      r.V6? && Writable(r) &&
      if IsMarker(r.typeByte) then r.lsn <= |commits| && LogOk(scheme, commits, front)
      else
        && commits != [] && CommitOk(commits[|commits| - 1])
        && r == CommitRec(scheme, commits[|commits| - 1], |commits|)
        && LogOk(scheme, commits[..|commits| - 1], front)
  }

  function CommitsIn(log: seq<Rec>): nat
    requires AllV6(log)
  {
    if log == [] then 0
    else CommitsIn(log[..|log| - 1]) + if IsMarker(log[|log| - 1].typeByte) then 0 else 1
  }

  lemma {:induction false} LogOkV6(scheme: byte, commits: seq<Commit>, log: seq<Rec>)
    requires LogOk(scheme, commits, log)
    ensures AllV6(log) && CommitsIn(log) == |commits|
    decreases |log|
  {
    if log != [] {
      var r, front := log[|log| - 1], log[..|log| - 1];
      if IsMarker(r.typeByte) {
        LogOkV6(scheme, commits, front);
      } else {
        LogOkV6(scheme, commits[..|commits| - 1], front);
      }
    }
  }

  /** A prefix of the log is the log of a prefix of the commits. */
  lemma {:induction false} LogOkPrefix(scheme: byte, commits: seq<Commit>, log: seq<Rec>, k: nat)
    requires LogOk(scheme, commits, log) && k <= |log|
    ensures AllV6(log[..k]) && CommitsIn(log[..k]) <= |commits|
    ensures LogOk(scheme, commits[..CommitsIn(log[..k])], log[..k])
    decreases |log|
  {
    LogOkV6(scheme, commits, log);
    if k == |log| {
      assert log[..k] == log && commits[..|commits|] == commits;
    } else {
      var r, front := log[|log| - 1], log[..|log| - 1];
      assert front[..k] == log[..k];
      if IsMarker(r.typeByte) {
        LogOkPrefix(scheme, commits, front, k);
      } else {
        LogOkPrefix(scheme, commits[..|commits| - 1], front, k);
        assert commits[..|commits| - 1][..CommitsIn(log[..k])] == commits[..CommitsIn(log[..k])];
      }
    }
  }

  // ---------------------------------------------------------------- replay as a fold over commits

  /** The commits above the floor, applied to `st`. */
  function ApplyAbove<S>(apply: Apply<S>, st: S, commits: seq<Commit>, floor: nat): S {
    if |commits| <= floor then st
    else
      var c := commits[|commits| - 1];
      apply(ApplyAbove(apply, st, commits[..|commits| - 1], floor), c.kind, c.payload)
  }

  lemma {:induction false} ReplayIsApplyAbove<S>(
      apply: Apply<S>, st: S, scheme: byte, commits: seq<Commit>, log: seq<Rec>, floor: nat)
    requires LogOk(scheme, commits, log)
    ensures AllV6(log) && ReplayR(apply, st, log, floor) == ApplyAbove(apply, st, commits, floor)
    decreases |log|
  {
    LogOkV6(scheme, commits, log);
    if log != [] {
      var r, front := log[|log| - 1], log[..|log| - 1];
      if IsMarker(r.typeByte) {
        ReplayIsApplyAbove(apply, st, scheme, commits, front, floor);
      } else {
        ReplayIsApplyAbove(apply, st, scheme, commits[..|commits| - 1], front, floor);
        if |commits| <= floor {
          assert ApplyAbove(apply, st, commits[..|commits| - 1], floor) == st;
        }
      }
    }
  }

  /** Replaying above the snapshot's own LSN continues the history exactly. */
  lemma {:induction false} ApplyAboveSnapshot<S>(
      apply: Apply<S>, init: S, all: seq<Commit>, floor: nat, m: nat)
    requires floor <= |all| && m <= |all|
    ensures ApplyAbove(apply, StateAfter(apply, init, all[..floor]), all[..m], floor)
         == StateAfter(apply, init, all[..MaxLsn(floor, m)])
    decreases m
  {
    if m > floor {
      ApplyAboveSnapshot(apply, init, all, floor, m - 1);
      assert all[..m][..m - 1] == all[..m - 1];
    }
  }
}
