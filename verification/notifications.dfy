/** The payload handed to the notification transport. The transport itself (token lookup,
    delivery) is outside the model: sending a payload means appending it to an output. */
module Notifications {

  /** The in-app route the notification opens, and the document it shows. */
  datatype ScreenLink = ScreenLink(screen: string, id: string)

  /** One notification payload; `kind` is the payload's `type` tag. */
  datatype Notification = Notification(
    userId: string,
    title: string,
    body: string,
    kind: string,
    relatedDocId: string,
    relatedCollection: string,
    data: ScreenLink)
}
