/**
  The counter behind a graceful stop (WorkInFlight in kontiki/messaging/consumer/core.py): how many
  handler scopes are open, and an event that tells when none is.
 */
module InFlight {
  class WorkInFlight {
    var count: int
    var empty: bool

    /** The event is set exactly when nothing is in flight. */
    predicate Valid()
      reads this
    {
      count >= 0 && (empty <==> count == 0)
    }

    constructor ()
      ensures Valid() && count == 0
    {
      count, empty := 0, true;
    }

    method Begin()
      requires Valid()
      modifies this
      ensures Valid() && count == old(count) + 1
    {
      count := count + 1;
      if count == 1 {
        empty := false;
      }
    }

    /** Each end closes a scope that a begin opened. */
    method End()
      requires Valid() && count > 0
      modifies this
      ensures Valid() && count == old(count) - 1
    {
      count := count - 1;
      if count == 0 {
        empty := true;
      }
    }
  }
}
