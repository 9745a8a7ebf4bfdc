/**
 * The notification pop-up: `showNotification` removes any notification in
 * the document before appending a new one, so at most one is ever present.
 * Each notification is shown by a 100 ms timer, hidden by a 5 s timer or its
 * close button, and removed 300 ms after it is hidden.
 */
module Notifications {

  /** A notification element: an identity (one per `showNotification`
      call), its message, its kind (the `notification-<kind>` class) and
      whether it carries the `show` class. */
  datatype Notice = Notice(id: nat, message: string, kind: string, shown: bool)

  /** The notification elements in the document, in document order. */
  class NotificationLayer {
    var notices: seq<Notice>
    var nextId: nat

    ghost predicate Valid()
      reads this
    {
      && |notices| <= 1
      && forall k :: 0 <= k < |notices| ==> notices[k].id < nextId
    }

    constructor ()
      ensures Valid() && notices == [] && nextId == 0
    {
      notices, nextId := [], 0;
    }

    /** `showNotification`: remove the existing notification, if any, and
        append a new, not yet shown one. */
    method Show(message: string, kind: string) returns (id: nat)
      requires Valid()
      modifies this
      ensures Valid()
      ensures id == old(nextId) && nextId == id + 1
      ensures notices == [Notice(id, message, kind, false)]
    {
      if |notices| > 0 {
        notices := notices[1..];
      }
      id := nextId;
      notices := notices + [Notice(id, message, kind, false)];
      nextId := nextId + 1;
    }

    /** A timer or the close button changes the `show` class of notification
        `id`; an element already removed from the document changes nothing
        the page shows. */
    method SetShown(id: nat, shown: bool)
      requires Valid()
      modifies this
      ensures Valid() && nextId == old(nextId)
      ensures |old(notices)| == 1 && old(notices)[0].id == id ==>
        notices == [old(notices)[0].(shown := shown)]
      ensures !(|old(notices)| == 1 && old(notices)[0].id == id) ==> notices == old(notices)
    {
      if |notices| == 1 && notices[0].id == id {
        notices := [notices[0].(shown := shown)];
      }
    }

    /** The 100 ms timer adds the `show` class. */
    method Reveal(id: nat)
      requires Valid()
      modifies this
      ensures Valid() && nextId == old(nextId)
      ensures |old(notices)| == 1 && old(notices)[0].id == id ==> notices == [old(notices)[0].(shown := true)]
      ensures !(|old(notices)| == 1 && old(notices)[0].id == id) ==> notices == old(notices)
    {
      SetShown(id, true);
    }

    /** The 5 s timer or a click on the close button removes the `show` class. */
    method Hide(id: nat)
      requires Valid()
      modifies this
      ensures Valid() && nextId == old(nextId)
      ensures |old(notices)| == 1 && old(notices)[0].id == id ==> notices == [old(notices)[0].(shown := false)]
      ensures !(|old(notices)| == 1 && old(notices)[0].id == id) ==> notices == old(notices)
    {
      SetShown(id, false);
    }

    /** The 300 ms timer after hiding removes notification `id`; removing an
        element that is no longer in the document does nothing, so a newer
        notification is never removed by an older one's timer. */
    method Remove(id: nat)
      requires Valid()
      modifies this
      ensures Valid() && nextId == old(nextId)
      ensures notices == if |old(notices)| == 1 && old(notices)[0].id == id then [] else old(notices)
    {
      if |notices| == 1 && notices[0].id == id {
        notices := [];
      }
    }
  }

  /** Two notifications in a row: only the second is in the document. */
  method ShowTwiceKeepsLatest(layer: NotificationLayer)
    requires layer.Valid()
    modifies layer
    ensures layer.Valid()
    ensures |layer.notices| == 1 && layer.notices[0].message == "B" && layer.notices[0].kind == "success"
  {
    var first := layer.Show("A", "error");
    var second := layer.Show("B", "success");
    layer.Remove(first);
    assert first != second;
  }
}
