/**
 * `_notify_throttled` (lucy_notes_manager/modules/plasma_todo_sync.py and
 * note_manager/modules/git.py): a notification under a key goes out only
 * when the key last fired at least the cool-down ago; a key that never
 * fired counts as having fired at time 0. Time is a parameter.
 */
module Throttle {

  /** The time `key` last fired, 0 when it never did. */
  function LastFired(last: map<string, real>, key: string): real {
    if key in last then last[key] else 0.0
  }

  /** Whether the notification goes out, and the record of last times afterwards. */
  function Throttled(last: map<string, real>, key: string, now: real, cooldown: real): (r: (bool, map<string, real>))
    ensures r.0 <==> now - LastFired(last, key) >= cooldown
    ensures r.0 ==> LastFired(r.1, key) == now
    ensures !r.0 ==> r.1 == last
    ensures forall k :: k != key ==> LastFired(r.1, k) == LastFired(last, k)
  {
    if now - LastFired(last, key) < cooldown then (false, last)
    else (true, last[key := now])
  }

  /** After a notification goes out, the same key stays quiet for the whole cool-down. */
  lemma QuietAfterFiring(last: map<string, real>, key: string, now: real, later: real, cooldown: real)
    requires Throttled(last, key, now, cooldown).0
    requires now <= later < now + cooldown
    ensures !Throttled(Throttled(last, key, now, cooldown).1, key, later, cooldown).0
  {
  }

  /** Once the cool-down has passed, the key fires again. */
  lemma FiresAgain(last: map<string, real>, key: string, now: real, later: real, cooldown: real)
    requires Throttled(last, key, now, cooldown).0
    requires later >= now + cooldown
    ensures Throttled(Throttled(last, key, now, cooldown).1, key, later, cooldown).0
  {
  }

  /** The record of when each key last fired. */
  class Notifier {
    var last: map<string, real>

    constructor()
      ensures last == map[]
    {
      last := map[];
    }

    /** `_notify_throttled`: `sent` says whether the notification went out. */
    method Notify(key: string, now: real, cooldown: real) returns (sent: bool)
      modifies this
      ensures (sent, last) == Throttled(old(last), key, now, cooldown)
    {
      var prev := if key in last then last[key] else 0.0;
      if now - prev < cooldown {
        return false;
      }
      last := last[key := now];
      sent := true;
    }
  }
}
