/**
 Push and notification-click handlers. A push that carries data is shown as a
 notification of fixed shape with the payload's title and body; a click always
 closes the notification and opens the site root only for the `open` action.
 */
module PushNotifications {
  import opened Wrappers
  import opened Events

  /** A push payload: `event.data.json()` either parses to an object with a
      title and a body or throws. */
  datatype PushPayload = Json(title: string, body: string) | Malformed

  const OpenAction := NotificationAction("open", "Open Website")
  const CloseAction := NotificationAction("close", "Close")

  /** The notification shown for a parsed payload. */
  function NotificationFor(title: string, body: string): Notification {
    Notification(title, body, "/DataTribe_logo_circle.png", "/favicon.svg",
                 "datatribe-notification", true, [OpenAction, CloseAction])
  }

  /** The `push` event; `data` is `None` when the push carries no data. A
      malformed payload makes `json()` throw before anything is shown. */
  function HandlePush(data: Option<PushPayload>): (effects: seq<Effect>)
    ensures |effects| <= 1
    ensures effects == [] <==> data.None? || data.value.Malformed?
    ensures effects != [] ==>
              && effects[0].ShowNotification?
              && effects[0].n.title == data.value.title
              && effects[0].n.body == data.value.body
              && effects[0].n.requireInteraction
              && effects[0].n.tag == "datatribe-notification"
              && effects[0].n.icon == "/DataTribe_logo_circle.png"
              && effects[0].n.badge == "/favicon.svg"
              && effects[0].n.actions == [OpenAction, CloseAction]
  {
    match data
    case Some(Json(title, body)) => [ShowNotification(NotificationFor(title, body))]
    case _ => []
  }

  /** The `notificationclick` event for the chosen `action` (empty when the
      body of the notification was clicked). */
  function HandleNotificationClick(action: string): (effects: seq<Effect>)
    ensures |effects| == if action == "open" then 2 else 1
    ensures effects[0] == CloseNotification
    ensures forall url :: OpenWindow(url) in effects <==> action == "open" && url == "/"
    ensures forall e | e in effects[1..] :: e.OpenWindow?
  {
    [CloseNotification] + (if action == "open" then [OpenWindow("/")] else [])
  }

  /** Of the two actions a shown notification offers, the first opens the site
      root and the second only closes; clicking the body only closes. */
  lemma OfferedActionsRoute(title: string, body: string)
    ensures var n := HandlePush(Some(Json(title, body)))[0].n;
            && HandleNotificationClick(n.actions[0].action) == [CloseNotification, OpenWindow("/")]
            && HandleNotificationClick(n.actions[1].action) == [CloseNotification]
            && HandleNotificationClick("") == [CloseNotification]
  {
  }
}
