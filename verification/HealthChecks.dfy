/** The health of the process: degraded is final. */
module HealthChecks {

  datatype Status = Initializing | Healthy | Degraded

  /** The health after a write of `s`. */
  function Settle(health: Status, s: Status): Status {
    if health == Degraded then health else s
  }

  class HealthCheck {
    var health: Status

    constructor ()
      ensures health == Initializing
    {
      health := Initializing;
    }

    method SetHealth(s: Status)
      modifies this
      ensures health == Settle(old(health), s)
      ensures health == if old(health).Degraded? then Degraded else s
    {
      if health == Degraded {
        return;
      }
      health := s;
    }

    method ServeHTTP() returns (code: int)
      ensures code == StatusCode(health)
      ensures code == match health case Initializing => 503 case Healthy => 200 case Degraded => 503
    {
      if health != Healthy {
        return 503;
      }
      return 200;
    }
  }

  function StatusCode(health: Status): int {
    if health == Healthy then 200 else 503
  }

  /** The health after a series of writes. */
  function SettleAll(health: Status, writes: seq<Status>): Status {
    if writes == [] then health else Settle(SettleAll(health, writes[..|writes| - 1]), writes[|writes| - 1])
  }

  /** However writes interleave: degraded exactly when some write said so, otherwise the last write. */
  lemma {:induction false} DegradedIsFinal(health: Status, writes: seq<Status>)
    ensures SettleAll(health, writes) == Degraded <==> health == Degraded || Degraded in writes
    ensures SettleAll(health, writes) != Degraded && writes != [] ==> SettleAll(health, writes) == writes[|writes| - 1]
    ensures StatusCode(SettleAll(health, writes)) == 200 ==> Degraded !in writes
  {
    if writes != [] {
      DegradedIsFinal(health, writes[..|writes| - 1]);
      assert writes == writes[..|writes| - 1] + [writes[|writes| - 1]];
    }
  }
}
