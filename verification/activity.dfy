/** Activities (notifications with read receipts) and the audit trail.  The
    read-receipt validator is a pure check that raises; posting an activity
    or an audit record appends to a store. */
module Activity {
  import opened Base

  // ---------------------------------------------------------------------
  // Recipients and read receipts

  /** The `user_id` key of a recipient: missing (a desk recipient carries only
      `desk_id`), or present with a value that may be null. */
  datatype UserRef = Absent | Present(value: Option<string>)

  datatype Recipient = Recipient(userId: UserRef, deskId: Option<string>, read: bool)

  /** `r['user_id']` on a recipient without the key. */
  datatype KeyError = KeyError

  /** `is_recipient`: `any` over the recipients, reading `r['user_id']` of
      each one until the first match. */
  function IsRecipient(recipients: seq<Recipient>, key: Option<string>): Result<bool, KeyError> {
    if recipients == [] then Ok(false)
    else if recipients[0].userId.Absent? then Err(KeyError)
    else if recipients[0].userId.value == key then Ok(true)
    else IsRecipient(recipients[1..], key)
  }

  /** `is_read`: the `read` flag of the first recipient with that user id,
      `False` when there is none. */
  function IsRead(recipients: seq<Recipient>, key: Option<string>): Result<bool, KeyError> {
    if recipients == [] then Ok(false)
    else if recipients[0].userId.Absent? then Err(KeyError)
    else if recipients[0].userId.value == key then Ok(recipients[0].read)
    else IsRead(recipients[1..], key)
  }

  /** Position `i` holds the first recipient with the user id, and every
      recipient before it has a `user_id` key. */
  predicate FirstMatchAt(recipients: seq<Recipient>, key: Option<string>, i: int) {
    && 0 <= i < |recipients|
    && recipients[i].userId == Present(key)
    && forall j :: 0 <= j < i ==> recipients[j].userId.Present? && recipients[j].userId != Present(key)
  }

  predicate WellKeyed(recipients: seq<Recipient>) {
    forall j :: 0 <= j < |recipients| ==> recipients[j].userId.Present?
  }

  /** Both lookups scan the same way: they fail together, a user is a
      recipient exactly when a first match exists, and the read flag is that
      match's.  With every `user_id` present they never fail. */
  lemma {:induction false} RecipientLookupSpec(recipients: seq<Recipient>, key: Option<string>)
    ensures IsRecipient(recipients, key).Err? <==> IsRead(recipients, key).Err?
    ensures IsRecipient(recipients, key) == Ok(true) <==> exists i :: FirstMatchAt(recipients, key, i)
    ensures IsRead(recipients, key) == Ok(true) <==> exists i :: FirstMatchAt(recipients, key, i) && recipients[i].read
    ensures WellKeyed(recipients) ==>
      IsRecipient(recipients, key) == Ok(exists i :: 0 <= i < |recipients| && recipients[i].userId == Present(key))
  {
    if recipients != [] {
      var rest := recipients[1..];
      RecipientLookupSpec(rest, key);
      assert forall j :: 0 <= j < |rest| ==> rest[j] == recipients[j + 1];
      if recipients[0].userId == Present(key) {
        assert FirstMatchAt(recipients, key, 0);
      } else if recipients[0].userId.Present? {
        if exists i :: FirstMatchAt(rest, key, i) {
          var i :| FirstMatchAt(rest, key, i);
          assert FirstMatchAt(recipients, key, i + 1);
        }
        if exists i :: FirstMatchAt(recipients, key, i) {
          var i :| FirstMatchAt(recipients, key, i);
          assert FirstMatchAt(rest, key, i - 1);
        }
        if exists i :: 0 <= i < |recipients| && recipients[i].userId == Present(key) {
          var i :| 0 <= i < |recipients| && recipients[i].userId == Present(key);
          assert rest[i - 1].userId == Present(key);
        }
      } else {
        assert forall i :: !FirstMatchAt(recipients, key, i);
      }
    }
  }

  // ---------------------------------------------------------------------
  // The read-receipt validator

  /** A user record, as far as activities read it.  `emailNotification` is
      the answer of the preferences service for the user's preferences. */
  datatype User = User(
    id: string,
    displayName: Option<string>,
    email: Option<string>,
    isEnabled: Option<bool>,
    isActive: Option<bool>,
    emailNotification: bool)

  /** The PATCH body: its `recipients` (a key that may be missing) and how
      many other keys it has. */
  datatype ActivityUpdate = ActivityUpdate(recipients: Option<seq<Recipient>>, otherKeys: nat)

  /** `len(updates)`. */
  function KeyCount(u: ActivityUpdate): nat {
    (if u.recipients.Some? then 1 else 0) + u.otherKeys
  }

  /** Why a PATCH of an activity is refused: the API errors the validator
      raises, and the KeyError of a recipient without `user_id`. */
  datatype UpdateError = CannotDetermineUser | NotInList | CannotUnread | OthersChanged | OtherFields | RecipientKeyError

  /** The loop over the recipients of the update: nobody else's read flag
      may change.  `rest` is what the loop has still to visit. */
  function OthersUnchanged(rest: seq<Recipient>, updated: seq<Recipient>, original: seq<Recipient>, key: Option<string>): Result<(), UpdateError> {
    if rest == [] then Ok(())
    else if rest[0].userId.Absent? then Err(RecipientKeyError)
    else if rest[0].userId.value == key then OthersUnchanged(rest[1..], updated, original, key)
    else
      var other := rest[0].userId.value;
      match (IsRead(updated, other), IsRead(original, other))
      case (Err(_), _) => Err(RecipientKeyError)
      case (_, Err(_)) => Err(RecipientKeyError)
      case (Ok(a), Ok(b)) => if a != b then Err(OthersChanged) else OthersUnchanged(rest[1..], updated, original, key)
  }

  /** `ActivityService.on_update`: the checks in source order. */
  function OnUpdate(updates: ActivityUpdate, original: Option<seq<Recipient>>, user: Option<User>): Result<(), UpdateError> {
    if user.None? then Err(CannotDetermineUser)
    else
      var key := Some(user.value.id);
      var upd := updates.recipients.GetOr([]);
      var orig := original.GetOr([]);
      match IsRecipient(upd, key)
      case Err(_) => Err(RecipientKeyError)
      case Ok(false) => Err(NotInList)
      case Ok(true) =>
        match IsRead(upd, key)
        case Err(_) => Err(RecipientKeyError)
        case Ok(readNow) =>
          var unread: Result<bool, UpdateError> :=
            if readNow then Ok(false)
            else match IsRead(orig, key)
              case Err(_) => Err(RecipientKeyError)
              case Ok(readBefore) => Ok(readBefore);
          match unread
          case Err(e) => Err(e)
          case Ok(true) => Err(CannotUnread)
          case Ok(false) =>
            match OthersUnchanged(upd, upd, orig, key)
            case Err(e) => Err(e)
            case Ok(_) => if KeyCount(updates) != 2 then Err(OtherFields) else Ok(())
  }

  /** The read flag of a user in a well-keyed list. */
  function ReadFlag(recipients: seq<Recipient>, key: Option<string>): bool
    requires WellKeyed(recipients)
  {
    RecipientLookupSpec(recipients, key);
    IsRead(recipients, key).value
  }

  lemma {:induction false} OthersUnchangedSpec(rest: seq<Recipient>, updated: seq<Recipient>, original: seq<Recipient>, key: Option<string>)
    requires WellKeyed(rest) && WellKeyed(updated) && WellKeyed(original)
    ensures OthersUnchanged(rest, updated, original, key).Ok? <==>
      forall j :: 0 <= j < |rest| && rest[j].userId.value != key ==>
        ReadFlag(updated, rest[j].userId.value) == ReadFlag(original, rest[j].userId.value)
  {
    if rest != [] {
      OthersUnchangedSpec(rest[1..], updated, original, key);
      RecipientLookupSpec(updated, rest[0].userId.value);
      RecipientLookupSpec(original, rest[0].userId.value);
      assert forall j :: 0 < j < |rest| ==> rest[j] == rest[1..][j - 1];
    }
  }

  /** A recipient without `user_id` (a desk) in the update makes the loop over
      the recipients raise, so such an activity can never be marked read. */
  lemma {:induction false} DeskRecipientBlocksUpdate(rest: seq<Recipient>, updated: seq<Recipient>, original: seq<Recipient>, key: Option<string>, i: nat)
    requires i < |rest| && rest[i].userId.Absent?
    ensures OthersUnchanged(rest, updated, original, key).Err?
  {
    if i > 0 {
      DeskRecipientBlocksUpdate(rest[1..], updated, original, key, i - 1);
    }
  }

  /** With every recipient keyed, a PATCH is accepted exactly when there is a
      user, the user is a recipient, the user's flag does not go from read to
      unread, no other recipient's flag changes and the body has two keys. */
  lemma OnUpdateSpec(updates: ActivityUpdate, original: Option<seq<Recipient>>, user: Option<User>)
    requires WellKeyed(updates.recipients.GetOr([])) && WellKeyed(original.GetOr([]))
    ensures var upd := updates.recipients.GetOr([]);
      var orig := original.GetOr([]);
      OnUpdate(updates, original, user).Ok? <==>
        && user.Some?
        && (exists i :: 0 <= i < |upd| && upd[i].userId == Present(Some(user.value.id)))
        && !(!ReadFlag(upd, Some(user.value.id)) && ReadFlag(orig, Some(user.value.id)))
        && (forall j :: 0 <= j < |upd| && upd[j].userId.value != Some(user.value.id) ==>
              ReadFlag(upd, upd[j].userId.value) == ReadFlag(orig, upd[j].userId.value))
        && KeyCount(updates) == 2
  {
    if user.Some? {
      var key := Some(user.value.id);
      var upd := updates.recipients.GetOr([]);
      var orig := original.GetOr([]);
      RecipientLookupSpec(upd, key);
      RecipientLookupSpec(orig, key);
      OthersUnchangedSpec(upd, upd, orig, key);
    }
  }

  /** A refusal for a desk recipient, whatever else the update holds. */
  lemma DeskRecipientsNeverMarkedRead(updates: ActivityUpdate, original: Option<seq<Recipient>>, user: Option<User>, i: nat)
    requires updates.recipients.Some? && i < |updates.recipients.value| && updates.recipients.value[i].userId.Absent?
    ensures OnUpdate(updates, original, user).Err?
  {
    if user.Some? {
      var upd := updates.recipients.value;
      DeskRecipientBlocksUpdate(upd, upd, original.GetOr([]), Some(user.value.id), i);
    }
  }

  /** The recipients that carry a `user_id` key, in order. */
  function UserKeyed(recipients: seq<Recipient>): (r: seq<Recipient>)
    ensures WellKeyed(r)
    ensures forall x :: x in r <==> x in recipients && x.userId.Present?
  {
    if recipients == [] then []
    else (if recipients[0].userId.Present? then [recipients[0]] else []) + UserKeyed(recipients[1..])
  }

  /** The corrected validator: recipients without `user_id` (desks) take no
      part in the read-receipt checks, so an activity that also notified
      desks can be marked read. */
  function IntendedOnUpdate(updates: ActivityUpdate, original: Option<seq<Recipient>>, user: Option<User>): Result<(), UpdateError> {
    var upd := if updates.recipients.Some? then Some(UserKeyed(updates.recipients.value)) else None;
    var orig := if original.Some? then Some(UserKeyed(original.value)) else None;
    OnUpdate(ActivityUpdate(upd, updates.otherKeys), orig, user)
  }

  /** The corrected validator accepts a PATCH exactly when: there is a user;
      they are a recipient; their flag does not go from read to unread; no
      other user recipient's flag changes; the body has two keys.  Desk
      recipients anywhere in the lists no longer matter. */
  lemma IntendedOnUpdateSpec(updates: ActivityUpdate, original: Option<seq<Recipient>>, user: Option<User>)
    ensures var upd := UserKeyed(updates.recipients.GetOr([]));
      var orig := UserKeyed(original.GetOr([]));
      IntendedOnUpdate(updates, original, user).Ok? <==>
        && user.Some?
        && (exists i :: 0 <= i < |upd| && upd[i].userId == Present(Some(user.value.id)))
        && !(!ReadFlag(upd, Some(user.value.id)) && ReadFlag(orig, Some(user.value.id)))
        && (forall j :: 0 <= j < |upd| && upd[j].userId.value != Some(user.value.id) ==>
              ReadFlag(upd, upd[j].userId.value) == ReadFlag(orig, upd[j].userId.value))
        && KeyCount(updates) == 2
  {
    var upd := if updates.recipients.Some? then Some(UserKeyed(updates.recipients.value)) else None;
    var orig := if original.Some? then Some(UserKeyed(original.value)) else None;
    assert UserKeyed([]) == [];
    OnUpdateSpec(ActivityUpdate(upd, updates.otherKeys), orig, user);
  }

  /** A user and a desk were notified; the user marks the activity read.  The
      validator as written raises on the desk recipient, the corrected one
      accepts. */
  lemma DeskActivityMarkedRead()
    ensures var u := User("u", None, None, None, None, false);
      var before := [Recipient(Present(Some("u")), None, false), Recipient(Absent, Some("d"), false)];
      var after := [Recipient(Present(Some("u")), None, true), Recipient(Absent, Some("d"), false)];
      var patch := ActivityUpdate(Some(after), 1);
      && OnUpdate(patch, Some(before), Some(u)).Err?
      && IntendedOnUpdate(patch, Some(before), Some(u)).Ok?
  {
    var u := User("u", None, None, None, None, false);
    var before := [Recipient(Present(Some("u")), None, false), Recipient(Absent, Some("d"), false)];
    var after := [Recipient(Present(Some("u")), None, true), Recipient(Absent, Some("d"), false)];
    var patch := ActivityUpdate(Some(after), 1);
    DeskRecipientsNeverMarkedRead(patch, Some(before), Some(u), 1);
    assert UserKeyed(after) == [after[0]] by {
      assert after[1..][1..] == [];
    }
    assert UserKeyed(before) == [before[0]] by {
      assert before[1..][1..] == [];
    }
  }

  // ---------------------------------------------------------------------
  // The audit trail

  datatype Action = Created | Updated | Deleted

  /** A document handed to the audit hooks. */
  datatype Doc = Doc(fields: map<string, string>)

  datatype AuditRecord = AuditRecord(user: string, resource: string, action: Action, extra: Doc)

  /** `AuditResource.exclude`. */
  const AuditExcluded: set<string> := {"audit", "activity", "dictionaries"}

  /** The record a hook posts, if any: none for an excluded resource, without
      a current user, or without a document. */
  function AuditFor(resource: string, user: Option<User>, action: Action, extra: Option<Doc>): Option<AuditRecord> {
    if resource in AuditExcluded || user.None? || extra.None? then None
    else Some(AuditRecord(user.value.id, resource, action, extra.value))
  }

  /** The first inserted document, if there is one. */
  function FirstDoc(docs: seq<Doc>): Option<Doc> {
    if |docs| == 0 then None else Some(docs[0])
  }

  function AsSeq(r: Option<AuditRecord>): seq<AuditRecord> {
    if r.Some? then [r.value] else []
  }

  /** The audit collection, fed by the generic insert, update and delete hooks. */
  class AuditService {
    var records: seq<AuditRecord>

    /** No record is ever about an excluded resource. */
    ghost predicate Valid()
      reads this
    {
      forall k :: 0 <= k < |records| ==> records[k].resource !in AuditExcluded
    }

    constructor ()
      ensures Valid() && records == []
    {
      records := [];
    }

    method Post(r: Option<AuditRecord>)
      requires Valid() && (r.Some? ==> r.value.resource !in AuditExcluded)
      modifies this
      ensures Valid() && records == old(records) + AsSeq(r)
    {
      if r.Some? {
        records := records + [r.value];
      }
    }

    /** `on_generic_inserted`: audits the first document as `created`. */
    method OnGenericInserted(resource: string, docs: seq<Doc>, user: Option<User>)
      requires Valid()
      modifies this
      ensures Valid() && records == old(records) + AsSeq(AuditFor(resource, user, Created, FirstDoc(docs)))
    {
      if resource in AuditExcluded || user.None? || |docs| == 0 {
        return;
      }
      Post(Some(AuditRecord(user.value.id, resource, Created, docs[0])));
    }

    /** `on_generic_updated`: audits the update as `updated`. */
    method OnGenericUpdated(resource: string, doc: Doc, user: Option<User>)
      requires Valid()
      modifies this
      ensures Valid() && records == old(records) + AsSeq(AuditFor(resource, user, Updated, Some(doc)))
    {
      if resource in AuditExcluded || user.None? {
        return;
      }
      Post(Some(AuditRecord(user.value.id, resource, Updated, doc)));
    }

    /** `on_generic_deleted`: audits the deleted document as `deleted`. */
    method OnGenericDeleted(resource: string, doc: Doc, user: Option<User>)
      requires Valid()
      modifies this
      ensures Valid() && records == old(records) + AsSeq(AuditFor(resource, user, Deleted, Some(doc)))
    {
      if resource in AuditExcluded || user.None? {
        return;
      }
      Post(Some(AuditRecord(user.value.id, resource, Deleted, doc)));
    }
  }

  /** A hook writes exactly one record, by the current user with the hook's
      action and document, unless the resource is excluded, nobody is logged
      in or an insert had no documents; then it writes nothing. */
  lemma AuditForSpec(resource: string, user: Option<User>, action: Action, extra: Option<Doc>)
    ensures |AsSeq(AuditFor(resource, user, action, extra))| == if resource in AuditExcluded || user.None? || extra.None? then 0 else 1
    ensures forall r :: r in AsSeq(AuditFor(resource, user, action, extra)) ==>
      r == AuditRecord(user.value.id, resource, action, extra.value) && r.resource !in AuditExcluded
  {
  }

  // ---------------------------------------------------------------------
  // Activities

  /** The item an activity is about. */
  datatype ItemRef = ItemRef(guid: Option<string>, id: Option<string>, taskDesk: Option<string>)

  datatype ActivityRecord = ActivityRecord(
    name: string,
    message: string,
    data: map<string, string>,
    resource: Option<string>,
    user: Option<string>,
    recipients: seq<Recipient>,
    item: Option<string>,
    desk: Option<string>)

  function UserRecipients(ids: seq<string>): (r: seq<Recipient>)
    ensures |r| == |ids|
    ensures forall i :: 0 <= i < |ids| ==> r[i] == Recipient(Present(Some(ids[i])), None, false)
  {
    if ids == [] then [] else [Recipient(Present(Some(ids[0])), None, false)] + UserRecipients(ids[1..])
  }

  function DeskRecipients(ids: seq<string>): (r: seq<Recipient>)
    ensures |r| == |ids|
    ensures forall i :: 0 <= i < |ids| ==> r[i] == Recipient(Absent, Some(ids[i]), false)
  {
    if ids == [] then [] else [Recipient(Absent, Some(ids[0]), false)] + DeskRecipients(ids[1..])
  }

  /** The activity `add_activity` posts.  A list argument counts only when
      it is not empty. */
  function BuildActivity(name: string, msg: string, resource: Option<string>, item: Option<ItemRef>,
                         notify: Option<seq<string>>, notifyDesks: Option<seq<string>>,
                         data: map<string, string>, user: Option<User>): ActivityRecord
  {
    var users := if notify.Some? && |notify.value| > 0 then UserRecipients(notify.value) else [];
    var desks := if notifyDesks.Some? && |notifyDesks.value| > 0 then DeskRecipients(notifyDesks.value) else [];
    ActivityRecord(
      name, msg, data, resource,
      if user.Some? then Some(user.value.id) else None,
      users + desks,
      if item.Some? then Some(Show(if item.value.guid.Some? then item.value.guid else item.value.id)) else None,
      if item.Some? && item.value.taskDesk.Some? && item.value.taskDesk.value != "" then item.value.taskDesk else None)
  }

  /** Recipients are the notified users, in order, then the notified desks,
      every one unread; the item is referred to by guid, else by `_id`. */
  lemma BuildActivitySpec(name: string, msg: string, resource: Option<string>, item: Option<ItemRef>,
                          notify: seq<string>, notifyDesks: seq<string>, data: map<string, string>, user: Option<User>)
    ensures var a := BuildActivity(name, msg, resource, item, Some(notify), Some(notifyDesks), data, user);
      && |a.recipients| == |notify| + |notifyDesks|
      && (forall i :: 0 <= i < |notify| ==> a.recipients[i] == Recipient(Present(Some(notify[i])), None, false))
      && (forall i :: 0 <= i < |notifyDesks| ==> a.recipients[|notify| + i] == Recipient(Absent, Some(notifyDesks[i]), false))
      && (forall r :: r in a.recipients ==> !r.read)
      && (item.Some? && item.value.guid.Some? ==> a.item == item.value.guid)
      && (item.Some? && item.value.guid.None? && item.value.id.Some? ==> a.item == item.value.id)
  {
    var a := BuildActivity(name, msg, resource, item, Some(notify), Some(notifyDesks), data, user);
    var users := UserRecipients(notify);
    var desks := DeskRecipients(notifyDesks);
    assert a.recipients == users + desks;
    forall k | 0 <= k < |a.recipients|
      ensures !a.recipients[k].read
    {
      if k < |users| {
        assert a.recipients[k] == users[k];
      } else {
        assert a.recipients[k] == desks[k - |users|];
      }
    }
  }

  /** Every notified user finds a fresh activity unread and is one of its
      recipients: the desk entries come after all user entries. */
  lemma NotifiedUsersAreUnreadRecipients(name: string, msg: string, resource: Option<string>, item: Option<ItemRef>,
                                         notify: seq<string>, notifyDesks: Option<seq<string>>,
                                         data: map<string, string>, user: Option<User>, u: string)
    requires u in notify
    ensures var a := BuildActivity(name, msg, resource, item, Some(notify), notifyDesks, data, user);
      IsRecipient(a.recipients, Some(u)) == Ok(true) && IsRead(a.recipients, Some(u)) == Ok(false)
  {
    var a := BuildActivity(name, msg, resource, item, Some(notify), notifyDesks, data, user);
    var i :| 0 <= i < |notify| && notify[i] == u;
    var first :| 0 <= first <= i && notify[first] == u && forall j :: 0 <= j < first ==> notify[j] != u by {
      FirstIndex(notify, u, i);
    }
    var users := UserRecipients(notify);
    assert a.recipients[..|users|] == users;
    forall j | 0 <= j < first
      ensures a.recipients[j].userId.Present? && a.recipients[j].userId != Present(Some(u))
    {
      assert a.recipients[j] == a.recipients[..|users|][j] == users[j];
      assert users[j].userId == Present(Some(notify[j]));
    }
    assert a.recipients[first] == a.recipients[..|users|][first] == users[first];
    LookupAtFirstMatch(a.recipients, Some(u), first);
  }

  /** Both lookups stop at the first match. */
  lemma {:induction false} LookupAtFirstMatch(recipients: seq<Recipient>, key: Option<string>, i: nat)
    requires FirstMatchAt(recipients, key, i)
    ensures IsRecipient(recipients, key) == Ok(true)
    ensures IsRead(recipients, key) == Ok(recipients[i].read)
  {
    if i > 0 {
      var rest := recipients[1..];
      assert forall j :: 0 <= j < |rest| ==> rest[j] == recipients[j + 1];
      assert FirstMatchAt(rest, key, i - 1);
      LookupAtFirstMatch(rest, key, i - 1);
    }
  }

  lemma {:induction false} FirstIndex(s: seq<string>, u: string, i: nat)
    requires i < |s| && s[i] == u
    ensures exists first :: 0 <= first <= i && s[first] == u && forall j :: 0 <= j < first ==> s[j] != u
  {
    if exists j :: 0 <= j < i && s[j] == u {
      var j :| 0 <= j < i && s[j] == u;
      FirstIndex(s, u, j);
    }
  }

  /** The users `notify_and_add_activity` mails: enabled, active and with
      email notifications on. */
  predicate Mailable(u: User) {
    u.isEnabled.GetOr(false) && u.isActive.GetOr(false) && u.emailNotification
  }

  function EmailRecipients(users: seq<User>): seq<Option<string>> {
    if users == [] then []
    else (if Mailable(users[0]) then [users[0].email] else []) + EmailRecipients(users[1..])
  }

  /** Exactly the addresses of the mailable users are mailed. */
  lemma {:induction false} EmailRecipientsSpec(users: seq<User>)
    ensures forall e :: e in EmailRecipients(users) <==> exists u :: u in users && Mailable(u) && u.email == e
    ensures |EmailRecipients(users)| <= |users|
  {
    if users != [] {
      EmailRecipientsSpec(users[1..]);
      assert forall u :: u in users <==> u == users[0] || u in users[1..];
    }
  }

  datatype MessageError = MissingDisplayName

  /** The message of the activity email: "System " before an error; the
      current user's display name before anything else (a user without one
      makes the concatenation raise). */
  function EmailMessage(name: string, msg: string, currentUser: Option<User>): Result<string, MessageError> {
    if name != "error" then
      if currentUser.None? then Ok(msg)
      else if currentUser.value.displayName.None? then Err(MissingDisplayName)
      else Ok(currentUser.value.displayName.value + " " + msg)
    else Ok("System " + msg)
  }

  lemma EmailMessageSpec(name: string, msg: string, currentUser: Option<User>)
    ensures name == "error" ==> EmailMessage(name, msg, currentUser) == Ok("System " + msg)
    ensures name != "error" && currentUser.Some? && currentUser.value.displayName.Some? ==>
      EmailMessage(name, msg, currentUser) == Ok(currentUser.value.displayName.value + " " + msg)
    ensures EmailMessage(name, msg, currentUser).Ok? ==> msg <= EmailMessage(name, msg, currentUser).value[|EmailMessage(name, msg, currentUser).value| - |msg|..]
  {
  }

  /** The email `send_activity_emails` would be handed. */
  datatype Email = Email(name: string, message: string, data: map<string, string>, resource: Option<string>, recipients: seq<Option<string>>)

  function Ids(users: seq<User>): (ids: seq<string>)
    ensures |ids| == |users| && forall i :: 0 <= i < |users| ==> ids[i] == users[i].id
  {
    if users == [] then [] else [users[0].id] + Ids(users[1..])
  }

  /** The activity collection. */
  class ActivityLog {
    var activities: seq<ActivityRecord>

    constructor ()
      ensures activities == []
    {
      activities := [];
    }

    /** `add_activity`: posts the activity. */
    method AddActivity(name: string, msg: string, resource: Option<string>, item: Option<ItemRef>,
                       notify: Option<seq<string>>, notifyDesks: Option<seq<string>>,
                       data: map<string, string>, user: Option<User>)
      modifies this
      ensures activities == old(activities) + [BuildActivity(name, msg, resource, item, notify, notifyDesks, data, user)]
    {
      var activity := BuildActivity(name, msg, resource, item, notify, notifyDesks, data, user);
      activities := activities + [activity];
    }

    /** `notify_and_add_activity`: an error without users goes to the
        administrators; the activity is posted with the users as recipients,
        and the email for the mailable ones is returned (`None` when nobody is
        to be mailed).  `Err` is the raise of a current user without a display
        name, after the activity was posted. */
    method NotifyAndAddActivity(name: string, msg: string, resource: Option<string>, item: Option<ItemRef>,
                                userList: Option<seq<User>>, data: map<string, string>,
                                admins: seq<User>, currentUser: Option<User>)
      returns (email: Result<Option<Email>, MessageError>)
      modifies this
      ensures var users := if (userList.None? || |userList.value| == 0) && name == "error" then Some(admins) else userList;
        var notify := if users.Some? && |users.value| > 0 then Some(Ids(users.value)) else None;
        && activities == old(activities) + [BuildActivity(name, msg, resource, item, notify, None, data, currentUser)]
        && (notify.None? ==> email == Ok(None))
        && (notify.Some? ==>
              var recipients := EmailRecipients(users.value);
              var message := EmailMessage(name, msg, currentUser);
              && (message.Err? ==> email == Err(message.error))
              && (recipients == [] && message.Ok? ==> email == Ok(None))
              && (message.Ok? && recipients != [] ==> email == Ok(Some(Email(name, message.value, data, resource, recipients)))))
    {
      var users := userList;
      if (users.None? || |users.value| == 0) && name == "error" {
        users := Some(admins);
      }
      var notify := if users.Some? && |users.value| > 0 then Some(Ids(users.value)) else None;
      AddActivity(name, msg, resource, item, notify, None, data, currentUser);
      if notify.None? {
        return Ok(None);
      }
      var recipients := EmailRecipients(users.value);
      var message := EmailMessage(name, msg, currentUser);
      if message.Err? {
        return Err(message.error);
      }
      if |recipients| > 0 {
        email := Ok(Some(Email(name, message.value, data, resource, recipients)));
      } else {
        email := Ok(None);
      }
    }
  }
}
