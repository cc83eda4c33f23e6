/** The hold queries of internal/ledger/store: open holds, their total, and expiry. */
module Holds {
  import opened Options

  const HOLD_HOURS: int := 72

  datatype Hold = Hold(account: string, minor: int, placedAt: int, expiresAt: int, released: Option<int>)

  predicate Open(h: Hold, a: string, at: int) {
    h.account == a && h.released.None? && h.expiresAt > at
  }

  /** OpenHoldTotal. */
  function Pending(hs: seq<Hold>, a: string, at: int): int {
    if hs == [] then 0
    else Pending(hs[..|hs| - 1], a, at) + (if Open(hs[|hs| - 1], a, at) then hs[|hs| - 1].minor else 0)
  }

  predicate Due(h: Hold, t: int) {
    h.released.None? && h.expiresAt <= t
  }

  function Expire(h: Hold, t: int): Hold {
    if Due(h, t) then h.(released := Some(t)) else h
  }

  function DueCount(hs: seq<Hold>, t: int): nat {
    if hs == [] then 0 else DueCount(hs[..|hs| - 1], t) + (if Due(hs[|hs| - 1], t) then 1 else 0)
  }

  function ExpireAll(hs: seq<Hold>, t: int): (r: seq<Hold>)
    ensures |r| == |hs| && forall i | 0 <= i < |hs| :: r[i] == Expire(hs[i], t)
  {
    seq(|hs|, i requires 0 <= i < |hs| => Expire(hs[i], t))
  }

  /** A hold of a that was open at `at` and has lapsed by t. */
  ghost predicate LapsesBetween(hs: seq<Hold>, a: string, at: int, t: int) {
    exists i :: 0 <= i < |hs| && Open(hs[i], a, at) && hs[i].expiresAt <= t
  }

  /** Expiring at t changes the pending total read at `at` if and only if some hold lapsed between `at` and t;
      in particular no read at or after t can tell whether the expiry ran. */
  lemma {:induction false} ExpiryIsInvisibleAfterwards(hs: seq<Hold>, a: string, at: int, t: int)
    requires forall i | 0 <= i < |hs| :: hs[i].minor > 0
    ensures Pending(ExpireAll(hs, t), a, at) <= Pending(hs, a, at)
    ensures Pending(ExpireAll(hs, t), a, at) == Pending(hs, a, at) <==> !LapsesBetween(hs, a, at, t)
    ensures at >= t ==> Pending(ExpireAll(hs, t), a, at) == Pending(hs, a, at)
    decreases |hs|
  {
    if hs != [] {
      var n := |hs| - 1;
      ExpiryIsInvisibleAfterwards(hs[..n], a, at, t);
      LapsesAtLast(hs, a, at, t);
      PendingExpired(hs, a, at, t);
    }
  }

  lemma {:induction false} PendingExpired(hs: seq<Hold>, a: string, at: int, t: int)
    requires hs != []
    ensures var n := |hs| - 1;
            Pending(ExpireAll(hs, t), a, at) == Pending(ExpireAll(hs[..n], t), a, at)
                                               + (if Open(hs[n], a, at) && hs[n].expiresAt > t then hs[n].minor else 0)
  {
    var n := |hs| - 1;
    assert ExpireAll(hs, t)[..n] == ExpireAll(hs[..n], t);
  }

  lemma {:induction false} LapsesAtLast(hs: seq<Hold>, a: string, at: int, t: int)
    requires hs != []
    ensures var n := |hs| - 1;
            LapsesBetween(hs, a, at, t) <==> LapsesBetween(hs[..n], a, at, t) || (Open(hs[n], a, at) && hs[n].expiresAt <= t)
  {
    var n := |hs| - 1;
    assert forall i | 0 <= i < n :: hs[..n][i] == hs[i];
    if LapsesBetween(hs, a, at, t) {
      var i :| 0 <= i < |hs| && Open(hs[i], a, at) && hs[i].expiresAt <= t;
      assert i < n ==> Open(hs[..n][i], a, at);
    }
    if LapsesBetween(hs[..n], a, at, t) {
      var i :| 0 <= i < n && Open(hs[..n][i], a, at) && hs[..n][i].expiresAt <= t;
      assert Open(hs[i], a, at);
    }
  }

  lemma {:induction false} PendingSnoc(hs: seq<Hold>, h: Hold, a: string, at: int)
    ensures Pending(hs + [h], a, at) == Pending(hs, a, at) + (if Open(h, a, at) then h.minor else 0)
  {
    assert (hs + [h])[..|hs|] == hs;
  }

  /** What other callers do to the table: InsertHold, ReleaseHold on row i, ExpireHoldsAsOf. */
  datatype Change = Placed(hold: Hold) | Released(i: nat, at: int) | Expired(t: int)

  function After(hs: seq<Hold>, cs: seq<Change>): seq<Hold> {
    if cs == [] then hs else
      var was := After(hs, cs[..|cs| - 1]);
      match cs[|cs| - 1]
      case Placed(h) => was + [h]
      case Released(i, at) => if i < |was| && was[i].released.None? then was[i := was[i].(released := Some(at))] else was
      case Expired(t) => ExpireAll(was, t)
  }
}
