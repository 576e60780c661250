/** The host's set of pending local-notification requests, reduced to a map
    from request identifier to what the request shows and when it fires. */
module NotificationCenter {
  import opened Basics

  /** A calendar trigger matching the given components, repeating or not. */
  datatype Trigger = CalendarTrigger(dateMatching: TimeComponents, repeats: bool)

  datatype Request = Request(title: string, body: string, trigger: Trigger)

  class PendingCenter {
    var pending: map<string, Request>

    constructor ()
      ensures pending == map[]
    {
      pending := map[];
    }

    /** Identifiers of every pending request, as
        `getPendingNotificationRequests` reports them. */
    function PendingIdentifiers(): (ids: set<string>)
      reads this
      ensures ids == pending.Keys
    {
      pending.Keys
    }

    /** `add`: a request replaces any pending request with the same identifier. */
    method Add(identifier: string, request: Request)
      modifies this
      ensures pending == old(pending)[identifier := request]
    {
      pending := pending[identifier := request];
    }

    /** `removePendingNotificationRequests(withIdentifiers:)`: identifiers that
        are not pending are ignored. */
    method RemovePendingRequests(identifiers: set<string>)
      modifies this
      ensures pending == old(pending) - identifiers
    {
      pending := pending - identifiers;
    }
  }
}
