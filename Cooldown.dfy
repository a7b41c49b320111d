/** The process-wide `last_email_sent` dictionary of app.py: for every
    (label, recipient e-mail) pair the time of the last alert, and the
    three-hour rule that decides whether a new alert may go out. */
module Cooldown {

  /** A (label, recipient e-mail) pair. The label keeps its original case. */
  type Key = (string, string)

  /** Three hours, in seconds. */
  const Window: int := 3 * 60 * 60

  /** A pair may be alerted when it was never alerted, or when strictly more than
      the window has passed since its last alert. */
  predicate Eligible(lastSent: map<Key, int>, k: Key, now: int) {
    k !in lastSent || now - lastSent[k] > Window
  }

  /** `after` is `before` with every key of `keys` set to `now`, and nothing else changed. */
  ghost predicate Stamped(before: map<Key, int>, after: map<Key, int>, keys: set<Key>, now: int) {
    && after.Keys == before.Keys + keys
    && (forall k :: k in keys ==> after[k] == now)
    && (forall k :: k in before && k !in keys ==> after[k] == before[k])
  }

  class Ledger {
    var lastSent: map<Key, int>

    /** The dictionary is empty when the service starts. */
    constructor ()
      ensures lastSent == map[]
    {
      lastSent := map[];
    }

    /** The check before an alert: no entry, or one older than the window. */
    method IsEligible(k: Key, now: int) returns (ok: bool)
      ensures ok <==> k !in lastSent || now - lastSent[k] > Window
    {
      if k in lastSent {
        ok := now - lastSent[k] > Window;
      } else {
        ok := true;
      }
    }

    /** `last_email_sent[(label, email)] = now`: overwrite one entry. */
    method MarkSent(k: Key, now: int)
      modifies this
      ensures lastSent == old(lastSent)[k := now]
      ensures !Eligible(lastSent, k, now)
      ensures forall other :: other != k ==> Eligible(lastSent, other, now) == Eligible(old(lastSent), other, now)
    {
      lastSent := lastSent[k := now];
    }
  }

  /** After an alert at `sent`, the pair becomes eligible again exactly when more
      than three hours have passed: at exactly three hours it is still suppressed. */
  lemma SuppressedForWindow(lastSent: map<Key, int>, k: Key, sent: int, now: int)
    ensures Eligible(lastSent[k := sent], k, now) <==> now > sent + Window
  {
  }

  /** The boundary cases: 2h59m and exactly 3h after an alert are suppressed, 3h00m01s is not. */
  lemma WindowBoundary(lastSent: map<Key, int>, k: Key, t0: int)
    ensures !Eligible(lastSent[k := t0], k, t0 + 2 * 3600 + 59 * 60)
    ensures !Eligible(lastSent[k := t0], k, t0 + 3 * 3600)
    ensures Eligible(lastSent[k := t0], k, t0 + 3 * 3600 + 1)
  {
  }

  /** Under a stamping, the stamped keys are suppressed at `now` and every other
      key is exactly as eligible as before. */
  lemma EligibleAfterStamp(before: map<Key, int>, after: map<Key, int>, keys: set<Key>, now: int, k: Key)
    requires Stamped(before, after, keys, now)
    ensures k in keys ==> !Eligible(after, k, now)
    ensures k !in keys ==> Eligible(after, k, now) == Eligible(before, k, now)
  {
  }

  /** Two stampings in a row are one stamping with the union of the keys. */
  lemma StampedTwice(m0: map<Key, int>, m1: map<Key, int>, m2: map<Key, int>, k1: set<Key>, k2: set<Key>, now: int)
    requires Stamped(m0, m1, k1, now) && Stamped(m1, m2, k2, now)
    ensures Stamped(m0, m2, k1 + k2, now)
  {
  }
}
