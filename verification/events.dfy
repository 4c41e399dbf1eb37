/**
 What a worker event handler does besides changing the stores: the calls it makes
 into the platform and its collaborators, in the order it makes them, and how the
 promise it hands to `waitUntil` settles.
 */
module Events {
  import opened CacheStorage

  /** An action shown on a notification. */
  datatype NotificationAction = NotificationAction(action: string, title: string)

  /** What `showNotification(title, options)` is asked to display. */
  datatype Notification = Notification(
    title: string,
    body: string,
    icon: string,
    badge: string,
    tag: string,
    requireInteraction: bool,
    actions: seq<NotificationAction>)

  datatype Effect =
    | NetworkFetch(key: Key)            // a request handed to the network
    | SkipWaiting                       // `self.skipWaiting()`
    | DeleteStore(name: string)         // `caches.delete(name)`
    | ClaimClients                      // `self.clients.claim()`
    | Submit(id: int)                   // a queued subscription handed to the submission API
    | RemovePending(id: int)            // a queued subscription removed from the durable queue
    | ShowNotification(n: Notification) // `registration.showNotification`
    | CloseNotification                 // `notification.close()`
    | OpenWindow(url: string)           // `clients.openWindow(url)`

  /** How the promise passed to `waitUntil` ends. */
  datatype Settlement = Fulfilled | Rejected

  /** The outcome of a network request. */
  datatype NetResult = NetOk(response: Response) | NetFail

  /** The network, as seen by one event: what a request for each key yields. */
  type Network = Key -> NetResult
}
