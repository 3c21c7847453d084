/** The gateway's notification debounce: a verified frame notifies unless the last
    notification is at most five whole seconds old. Instants are in nanoseconds of a clock
    that never runs backwards. */
module Debounce {
  import opened Base

  const SECOND := 1_000_000_000
  const DEBOUNCE_SECS := 5

  /** When a verified frame is looked at, and when its notification, if any, is noted */
  datatype Instants = Instants(check: nat, stamp: nat)

  predicate Monotone(ts: seq<Instants>) {
    && (forall i :: 0 <= i < |ts| ==> ts[i].check <= ts[i].stamp)
    && (forall i, j :: 0 <= i < j < |ts| ==> ts[i].stamp <= ts[j].check)
  }

  /** `Instant::elapsed` in whole seconds; it never goes below zero. */
  function ElapsedSecs(since: nat, t: nat): nat { if t < since then 0 else (t - since) / SECOND }

  predicate Fires(last: Option<nat>, t: nat) { last.None? || ElapsedSecs(last.value, t) > DEBOUNCE_SECS }

  /** What `last_ntfy` holds once the first `n` frames have been handled */
  function LastStamp(ts: seq<Instants>, n: nat): Option<nat>
    requires n <= |ts|
    decreases n, 0
  {
    if n == 0 then None
    else if Notifies(ts, n - 1) then Some(ts[n - 1].stamp)
    else LastStamp(ts, n - 1)
  }

  predicate Notifies(ts: seq<Instants>, k: nat)
    requires k < |ts|
    decreases k, 1
  {
    Fires(LastStamp(ts, k), ts[k].check)
  }

  /** Frame `i` is the latest of the first `n` that notified. */
  predicate IsLatest(ts: seq<Instants>, n: nat, i: nat)
    requires i < n <= |ts|
  {
    Notifies(ts, i) && forall j :: i < j < n ==> !Notifies(ts, j)
  }

  lemma {:induction false} LatestFrame(ts: seq<Instants>, n: nat) returns (i: nat)
    requires 0 < n <= |ts|
    ensures i < n && IsLatest(ts, n, i) && LastStamp(ts, n) == Some(ts[i].stamp)
  {
    if n == 1 || Notifies(ts, n - 1) {
      i := n - 1;
    } else {
      i := LatestFrame(ts, n - 1);
    }
  }

  lemma LatestDecides(ts: seq<Instants>, k: nat, i: nat)
    requires Monotone(ts) && i < k < |ts| && IsLatest(ts, k, i) && LastStamp(ts, k) == Some(ts[i].stamp)
    ensures Notifies(ts, k) <==> ts[k].check - ts[i].stamp >= 6_000_000_000
    ensures forall j :: 0 <= j < k && Notifies(ts, j) ==> ts[j].stamp <= ts[i].stamp
  {
    forall j | 0 <= j < k && Notifies(ts, j) ensures ts[j].stamp <= ts[i].stamp {
      if j != i { assert j < i; }
    }
  }

  /** A frame notifies exactly when no earlier notification was noted in the six seconds
      before it: the test on whole seconds against five comes to six. */
  lemma NotifiesUnlessRecent(ts: seq<Instants>, k: nat)
    requires Monotone(ts) && k < |ts|
    ensures Notifies(ts, k) <==> forall i :: 0 <= i < k && Notifies(ts, i) ==> ts[k].check - ts[i].stamp >= 6_000_000_000
  {
    if k > 0 {
      var i := LatestFrame(ts, k);
      LatestDecides(ts, k, i);
    }
  }

  /** Two notifications are at least six seconds apart. */
  lemma NotificationsAreSpaced(ts: seq<Instants>, i: nat, j: nat)
    requires Monotone(ts) && i < j < |ts| && Notifies(ts, i) && Notifies(ts, j)
    ensures ts[j].check - ts[i].check >= ts[j].check - ts[i].stamp >= 6_000_000_000
  {
    NotifiesUnlessRecent(ts, j);
  }

  /** Every verified frame notifies, or one was noted less than six seconds before it. */
  lemma EveryFrameIsCovered(ts: seq<Instants>, k: nat)
    requires Monotone(ts) && k < |ts|
    ensures Notifies(ts, k) || exists i :: 0 <= i < k && Notifies(ts, i) && 0 <= ts[k].check - ts[i].stamp < 6_000_000_000
  {
    NotifiesUnlessRecent(ts, k);
  }

  /** What later frames do not change */
  lemma {:induction false} LastStampOfPrefix(ts: seq<Instants>, t: Instants, n: nat)
    requires n <= |ts|
    ensures LastStamp(ts + [t], n) == LastStamp(ts, n)
  {
    if n > 0 {
      LastStampOfPrefix(ts, t, n - 1);
    }
  }
}
