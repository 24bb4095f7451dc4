/** The handler run when a family-member request document is created: it notifies the
    recipient that someone wants to add them, naming the sender when the request carries a name. */
module FamilyRequests {
  import opened Wrappers
  import opened Text
  import opened Notifications

  const DefaultSenderName := "Someone"
  const RequestTitle := "Family Member Request"
  const RequestBodySuffix := " has sent you a family member request."
  const FamilyRequestType := "FAMILY_REQUEST_RECEIVED"
  const FamilyRequestsCollection := "familyRequests"
  const FamilyRequestsScreen := "/familyRequests"

  /** The two fields of a request document that the handler reads. */
  datatype FamilyRequest = FamilyRequest(recipientId: Option<string>, senderName: Option<string>)

  /** The name shown in the message: the sender's name when it is truthy, else "Someone". */
  function SenderName(request: FamilyRequest): string {
    OrDefault(request.senderName, DefaultSenderName)
  }

  /** The sender's name as it appears in a request body, when the body has the request shape. */
  function SenderInBody(body: string): Option<string> {
    Unwrap(body, "", RequestBodySuffix)
  }

  /** The handler: no document data or no truthy recipient means no notification; otherwise
      exactly one, addressed to the recipient and linking back to the request. */
  function OnFamilyRequestCreate(request: Option<FamilyRequest>, requestId: string): (r: Option<Notification>)
    ensures r.Some? <==> request.Some? && Truthy(request.value.recipientId)
    ensures r.Some? ==> r.value.userId == request.value.recipientId.value && r.value.userId != ""
    ensures r.Some? ==>
              SenderInBody(r.value.body) ==
              Some(if Truthy(request.value.senderName) then request.value.senderName.value else DefaultSenderName)
    ensures r.Some? ==> r.value.title == RequestTitle && r.value.kind == FamilyRequestType
    ensures r.Some? ==> r.value.relatedDocId == requestId && r.value.relatedCollection == FamilyRequestsCollection
    ensures r.Some? ==> r.value.data == ScreenLink(FamilyRequestsScreen, requestId)
  {
    match request
    case None => None
    case Some(req) =>
      if !Truthy(req.recipientId) then None
      else
        var sender := SenderName(req);
        UnwrapWrap("", sender, RequestBodySuffix);
        assert "" + sender + RequestBodySuffix == sender + RequestBodySuffix;
        Some(Notification(
          req.recipientId.value,
          RequestTitle,
          sender + RequestBodySuffix,
          FamilyRequestType,
          requestId,
          FamilyRequestsCollection,
          ScreenLink(FamilyRequestsScreen, requestId)))
  }
}
