/** The lock service used by the publish pipeline, reduced to the set of
    names currently held.  Lock expiry and the holder token are not part of
    the model: `TryLock` succeeds exactly when nobody holds the name. */
module Locks {

  type SubscriberId = nat

  /** The two lock names the pipeline composes: the global "Transmit:Articles"
      lock of a batch run and one "Subscriber:Transmit:<id>" lock per subscriber. */
  datatype LockName = TransmitArticles | SubscriberTransmit(subscriber: SubscriberId)

  class LockService {
    var held: set<LockName>

    constructor ()
      ensures held == {}
    {
      held := {};
    }

    /** Non-blocking acquire: fails fast when the name is already held. */
    method TryLock(name: LockName) returns (acquired: bool)
      modifies this
      ensures acquired == (name !in old(held))
      ensures held == old(held) + {name}
    {
      acquired := name !in held;
      held := held + {name};
    }

    method Unlock(name: LockName)
      modifies this
      ensures held == old(held) - {name}
    {
      held := held - {name};
    }
  }
}
