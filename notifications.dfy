/**
 * The notification collection and the four helpers that write to it
 * (utils/notificationUtils.js). One record is addressed to many targets, and its read
 * flag is shared by all of them.
 */
module Notifications {
  import opened Basics
  import opened Text

  /** A stored notification. `isRead` starts out false. */
  datatype Notification = Notification(
    id: Id,
    title: string,
    body: string,
    targetIds: seq<string>,
    isRead: bool,
    navLink: string,
    createdAt: int)

  /** The `{ success, message }` object every helper resolves to. */
  datatype Reply = Reply(success: bool, message: string)

  const MissingFields := "Missing required fields"
  const CreatedMessage := "Notification created successfully"
  const MarkedMessage := "Notification marked as read"
  const AllMarkedMessage := "Notifications marked as read"
  const SaveFailedMessage := "Error creating notification"
  const MarkFailedMessage := "Failed to mark as read"

  /**
   * Every target casts to the schema's id type. The same test, `isObjectId`, stands for the
   * validity check the helpers run and for the cast the save performs.
   */
  predicate AllIds(ids: seq<string>, isObjectId: string -> bool) {
    forall i :: 0 <= i < |ids| ==> isObjectId(ids[i])
  }

  /**
   * The validation and target parsing of `createNotification`: a missing title or an empty
   * target string is refused; otherwise the targets are the comma-separated pieces, trimmed.
   */
  function ParseRequest(title: string, targetIds: string): (r: Result<seq<string>, Reply>)
    ensures r.Err? <==> title == "" || targetIds == ""
    ensures r.Err? ==> r.error == Reply(false, MissingFields)
    ensures r.Ok? ==> |r.value| == |Split(targetIds, ',')| == multiset(targetIds)[','] + 1
    ensures r.Ok? ==> forall i :: 0 <= i < |r.value| ==> r.value[i] == Trim(Split(targetIds, ',')[i])
  {
    if title == "" || |targetIds| == 0 then Err(Reply(false, MissingFields))
    else
      CommaListShape(targetIds);
      Ok(CommaList(targetIds))
  }

  /**
   * What the id-validity callback returns for each target: a failure reply for an ill-formed
   * id and nothing for a well-formed one. The helpers compute it and then discard it.
   */
  function IdChecks(ids: seq<string>, isValidId: string -> bool): (r: seq<Option<Reply>>)
    ensures |r| == |ids|
    ensures forall i :: 0 <= i < |ids| ==> (r[i].Some? <==> !isValidId(ids[i]))
  {
    seq(|ids|, i requires 0 <= i < |ids| =>
      if isValidId(ids[i]) then None else Some(Reply(false, "Invalid targetId : " + ids[i])))
  }

  /** `records` with the record whose id is `id` marked read; nothing else changes. */
  function MarkRead(records: seq<Notification>, id: Id): (r: seq<Notification>)
    ensures |r| == |records|
    ensures forall i :: 0 <= i < |records| ==>
      r[i] == if records[i].id == id then records[i].(isRead := true) else records[i]
  {
    if records == [] then []
    else
      var n := records[0];
      [if n.id == id then n.(isRead := true) else n] + MarkRead(records[1..], id)
  }

  /** `records` with every record addressed to `target` marked read; nothing else changes. */
  function MarkReadFor(records: seq<Notification>, target: string): (r: seq<Notification>)
    ensures |r| == |records|
    ensures forall i :: 0 <= i < |records| ==>
      r[i] == if target in records[i].targetIds then records[i].(isRead := true) else records[i]
  {
    if records == [] then []
    else
      var n := records[0];
      [if target in n.targetIds then n.(isRead := true) else n] + MarkReadFor(records[1..], target)
  }

  /** Marking a notification read a second time changes nothing. */
  lemma MarkReadIdempotent(records: seq<Notification>, id: Id)
    ensures MarkRead(MarkRead(records, id), id) == MarkRead(records, id)
  {
  }

  /** Marking an unknown id read changes nothing. */
  lemma MarkReadUnknown(records: seq<Notification>, id: Id)
    requires forall i :: 0 <= i < |records| ==> records[i].id != id
    ensures MarkRead(records, id) == records
  {
  }

  /** Marking all of a target's notifications read a second time changes nothing. */
  lemma MarkReadForIdempotent(records: seq<Notification>, target: string)
    ensures MarkReadFor(MarkReadFor(records, target), target) == MarkReadFor(records, target)
  {
  }

  /**
   * Because the read flag belongs to the record, marking one target's notifications read
   * marks them read for every other target they are addressed to as well.
   */
  lemma SharedReadState(records: seq<Notification>, target: string, other: string, i: nat)
    requires i < |records| && target in records[i].targetIds && other in records[i].targetIds
    ensures MarkReadFor(records, target)[i].isRead
    ensures other in MarkReadFor(records, target)[i].targetIds
  {
  }

  /** The collection of stored notifications. */
  class NotificationCollection {
    var records: seq<Notification>
    var nextId: Id

    /** Ids are handed out in increasing order, so they are distinct and below `nextId`. */
    ghost predicate Valid()
      reads this
    {
      && (forall i :: 0 <= i < |records| ==> records[i].id < nextId)
      && (forall i, j :: 0 <= i < j < |records| ==> records[i].id < records[j].id)
    }

    constructor ()
      ensures Valid() && records == []
    {
      records := [];
      nextId := 0;
    }

    /** Saves one record and hands out a fresh id. */
    method Append(title: string, body: string, targets: seq<string>, navLink: string, now: int)
      requires Valid()
      modifies this
      ensures Valid() && nextId > old(nextId)
      ensures records == old(records) + [Notification(old(nextId), title, body, targets, false, navLink, now)]
    {
      records := records + [Notification(nextId, title, body, targets, false, navLink, now)];
      nextId := nextId + 1;
    }

    /**
     * `createNotification`: the missing-fields reply with nothing stored, or one record
     * addressed to every parsed target. The validity checks run but cannot change the outcome:
     * an ill-formed target makes the save fail instead, and nothing is stored.
     */
    method CreateNotification(title: string, body: string, targetIds: string, navLink: string,
                              now: int, isObjectId: string -> bool) returns (reply: Reply)
      requires Valid()
      modifies this
      ensures Valid()
      ensures reply.message in {MissingFields, CreatedMessage, SaveFailedMessage}
      ensures reply.success <==> ParseRequest(title, targetIds).Ok? && AllIds(ParseRequest(title, targetIds).value, isObjectId)
      ensures ParseRequest(title, targetIds).Err? ==> reply == Reply(false, MissingFields)
      ensures ParseRequest(title, targetIds).Ok? && !AllIds(ParseRequest(title, targetIds).value, isObjectId) ==>
        reply == Reply(false, SaveFailedMessage)
      ensures !reply.success ==> records == old(records) && nextId == old(nextId)
      ensures reply.success ==>
        && reply.message == CreatedMessage
        && records == old(records) + [Notification(old(nextId), title, body,
                                                   ParseRequest(title, targetIds).value, false, navLink, now)]
    {
      var parsed := ParseRequest(title, targetIds);
      if parsed.Err? {
        return parsed.error;
      }
      var ids := parsed.value;
      var ignored := IdChecks(ids, isObjectId);
      if !AllIds(ids, isObjectId) {
        return Reply(false, SaveFailedMessage);
      }
      Append(title, body, ids, navLink, now);
      reply := Reply(true, CreatedMessage);
    }

    /** `markAsRead`: reports success whether or not a record has that id. */
    method MarkAsRead(id: Id) returns (reply: Reply)
      requires Valid()
      modifies this
      ensures Valid() && nextId == old(nextId)
      ensures records == MarkRead(old(records), id)
      ensures reply == Reply(true, MarkedMessage)
    {
      records := MarkRead(records, id);
      reply := Reply(true, MarkedMessage);
    }

    /**
     * `markAllAsRead`: every record addressed to `target` becomes read. A target that does not
     * cast to an ObjectId makes the cast throw before the update, so nothing changes and the
     * failure reply is returned.
     */
    method MarkAllAsRead(target: string, isObjectId: string -> bool) returns (reply: Reply)
      requires Valid()
      modifies this
      ensures Valid() && nextId == old(nextId)
      ensures reply.success <==> isObjectId(target)
      ensures isObjectId(target) ==> records == MarkReadFor(old(records), target) && reply.message == AllMarkedMessage
      ensures !isObjectId(target) ==> records == old(records) && reply == Reply(false, MarkFailedMessage)
    {
      if !isObjectId(target) {
        return Reply(false, MarkFailedMessage);
      }
      records := MarkReadFor(records, target);
      reply := Reply(true, AllMarkedMessage);
    }

    /**
     * `sendAdminNotifications`: the targets are the configured admin id list split on commas,
     * not trimmed. A missing title is refused; an ill-formed configured id (one with a space
     * after a comma, say) makes the save fail; otherwise one record goes to every admin.
     */
    method SendAdminNotifications(title: string, body: string, navLink: string,
                                  adminIds: string, now: int, isObjectId: string -> bool) returns (reply: Reply)
      requires Valid()
      modifies this
      ensures Valid()
      ensures title == "" ==> reply == Reply(false, MissingFields)
      ensures title != "" && !AllIds(Split(adminIds, ','), isObjectId) ==> reply == Reply(false, SaveFailedMessage)
      ensures !reply.success ==> records == old(records) && nextId == old(nextId)
      ensures reply.success <==> title != "" && AllIds(Split(adminIds, ','), isObjectId)
      ensures reply.success ==>
        && reply.message == CreatedMessage
        && records == old(records) + [Notification(old(nextId), title, body, Split(adminIds, ','), false, navLink, now)]
    {
      var ids := Split(adminIds, ',');
      if title == "" {
        return Reply(false, MissingFields);
      }
      var ignored := IdChecks(ids, isObjectId);
      if !AllIds(ids, isObjectId) {
        return Reply(false, SaveFailedMessage);
      }
      Append(title, body, ids, navLink, now);
      reply := Reply(true, CreatedMessage);
    }
  }
}
