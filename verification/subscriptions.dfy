/**
 * The subscribe-once guard every subscribing component applies before it
 * registers with the message bus.
 */
module Subscriptions {
  import Records

  /** The handle the message bus returns from `subscribe`; its content is opaque. */
  datatype Subscription = Subscription(token: nat)

  /**
   * `if (!this.subscription) this.subscription = subscribe(...)`: the handle the
   * bus would return is `handle`; a component registers at most once.
   */
  function Subscribed(current: Records.Option<Subscription>, handle: Subscription): (s: Records.Option<Subscription>)
    ensures s.Some?
    ensures current.Some? ==> s == current
    ensures current.None? ==> s == Records.Some(handle)
  {
    if current.None? then Records.Some(handle) else current
  }

  /** A second subscription attempt keeps the first handle. */
  lemma SubscribeOnce(current: Records.Option<Subscription>, first: Subscription, second: Subscription)
    ensures Subscribed(Subscribed(current, first), second) == Subscribed(current, first)
  {
  }
}
