/** Notifications and announcements: per-user read and hidden rows, the filtered list, and
    the unread count cached in Redis. */
module Notifications {
  import opened Wrappers
  import opened Redis

  type Id = string
  type UserId = string

  datatype Kind = Announcement | Message(name: string)

  datatype Status = Draft | Published | Withdrawn

  /** status is only set on announcements; isRead is only meaningful on messages. */
  datatype Notification = Notification(
    kind: Kind, title: string, content: string, userId: Option<UserId>, isRead: bool, status: Option<Status>)

  datatype ReadKey = ReadKey(notification: Id, user: UserId)

  /** readRows maps a read row to its hidden flag; the key is unique in the schema. */
  datatype Tables = Tables(notifications: map<Id, Notification>, readRows: map<ReadKey, bool>)

  datatype UnreadCount = UnreadCount(total: int, announcement: int, system: int)

  const UNREAD_CACHE_TTL := 300

  // ---------------------------------------------------------------- what the tables say

  predicate IsPublished(n: Notification) {
    n.kind.Announcement? && n.status == Some(Published) && n.userId.None?
  }

  predicate IsPersonal(n: Notification, user: UserId) {
    n.userId == Some(user) && !n.kind.Announcement?
  }

  function PublishedIds(t: Tables): set<Id> {
    set id | id in t.notifications && IsPublished(t.notifications[id])
  }

  function PersonalUnread(t: Tables, user: UserId): set<Id> {
    set id | id in t.notifications && IsPersonal(t.notifications[id], user) && !t.notifications[id].isRead
  }

  /** The notifications on which the user has a read row with this hidden flag. */
  function RowsOf(t: Tables, user: UserId, hidden: bool): set<Id> {
    set k | k in t.readRows && k.user == user && t.readRows[k] == hidden :: k.notification
  }

  function Recount(t: Tables, user: UserId): UnreadCount {
    var system, announcement := |PersonalUnread(t, user)|, Max(0, |PublishedIds(t)| - |RowsOf(t, user, false)|);
    UnreadCount(system + announcement, announcement, system)
  }

  // ---------------------------------------------------------------- the list

  datatype QueryType = Any | OnlyAnnouncements | OnlyMessages(name: string)

  /** The id part of the announcement condition: a field that is not set does not restrict. */
  datatype IdFilter = IdFilter(notIn: Option<set<Id>>, isIn: Option<set<Id>>)

  predicate Passes(f: IdFilter, id: Id) {
    (f.notIn.Some? ==> id !in f.notIn.value) && (f.isIn.Some? ==> id in f.isIn.value)
  }

  /** Whether a list item is shown as read: any read row counts for an announcement. */
  predicate ShownRead(t: Tables, user: UserId, id: Id)
    requires id in t.notifications
  {
    if t.notifications[id].kind.Announcement? then ReadKey(id, user) in t.readRows else t.notifications[id].isRead
  }

  /** An announcement the user can see, with the read state asked for. */
  predicate ListsAnnouncement(t: Tables, user: UserId, isRead: Option<bool>, id: Id) {
    && id in t.notifications && IsPublished(t.notifications[id])
    && (ReadKey(id, user) in t.readRows ==> !t.readRows[ReadKey(id, user)])
    && (isRead.Some? ==> ShownRead(t, user, id) == isRead.value)
  }

  predicate ListsMessage(t: Tables, user: UserId, name: Option<string>, isRead: Option<bool>, id: Id) {
    && id in t.notifications && IsPersonal(t.notifications[id], user)
    && (name.Some? ==> t.notifications[id].kind == Message(name.value))
    && (isRead.Some? ==> ShownRead(t, user, id) == isRead.value)
  }

  /** The ids of the list, pages put together. */
  function Listed(t: Tables, user: UserId, query: QueryType, isRead: Option<bool>): set<Id> {
    set id | id in t.notifications &&
             match query
             case OnlyAnnouncements => ListsAnnouncement(t, user, isRead, id)
             case OnlyMessages(name) => ListsMessage(t, user, Some(name), isRead, id)
             case Any => ListsMessage(t, user, None, isRead, id) || ListsAnnouncement(t, user, isRead, id)
  }

  /** Read and unread split the list, nothing hidden appears, and each shown flag agrees
      with the filter that selected the item. */
  lemma {:induction false} ReadAndUnreadSplit(t: Tables, user: UserId, query: QueryType)
    ensures Listed(t, user, query, Some(true)) !! Listed(t, user, query, Some(false))
    ensures Listed(t, user, query, Some(true)) + Listed(t, user, query, Some(false)) == Listed(t, user, query, None)
    ensures forall b, id :: id in Listed(t, user, query, Some(b)) ==> ShownRead(t, user, id) == b
    ensures forall id :: id in Listed(t, user, query, None) && t.notifications[id].kind.Announcement? ==>
              id !in RowsOf(t, user, true)
  {
  }

  // ---------------------------------------------------------------- the count

  lemma {:induction false} SplitSize(a: set<Id>, b: set<Id>)
    ensures |a| == |a * b| + |a - b|
  {
  }

  lemma {:induction false} RowsByKey(t: Tables, user: UserId)
    ensures forall id, hidden :: id in RowsOf(t, user, hidden) <==>
              ReadKey(id, user) in t.readRows && t.readRows[ReadKey(id, user)] == hidden
    ensures RowsOf(t, user, true) !! RowsOf(t, user, false)
  {
  }

  /** The unread announcements listed are the published ones without a row of either kind. */
  lemma {:induction false} UnreadListed(t: Tables, user: UserId)
    ensures Listed(t, user, OnlyAnnouncements, Some(false))
            == PublishedIds(t) - RowsOf(t, user, false) - RowsOf(t, user, true)
  {
  }

  lemma {:induction false} PublishedSize(t: Tables, user: UserId)
    ensures |PublishedIds(t)| ==
              |PublishedIds(t) * RowsOf(t, user, false)|
              + |PublishedIds(t) * RowsOf(t, user, true)|
              + |Listed(t, user, OnlyAnnouncements, Some(false))|
  {
    var published, visible, hidden := PublishedIds(t), RowsOf(t, user, false), RowsOf(t, user, true);
    RowsByKey(t, user);
    UnreadListed(t, user);
    SplitSize(published, visible);
    SplitSize(published - visible, hidden);
    assert (published - visible) * hidden == published * hidden;
  }

  lemma {:induction false} UnreadMessagesListed(t: Tables, user: UserId)
    ensures Listed(t, user, Any, Some(false)) - PublishedIds(t) == PersonalUnread(t, user)
  {
  }

  /** The computed announcement count in terms of what the user can see: U announcements are
      listed as unread, H published ones are hidden, and R visible read rows stand on
      announcements that are not published (any more). */
  lemma {:induction false} AnnouncementCountExactly(t: Tables, user: UserId)
    ensures Recount(t, user).announcement ==
              Max(0, |Listed(t, user, OnlyAnnouncements, Some(false))|
                     + |PublishedIds(t) * RowsOf(t, user, true)|
                     - |RowsOf(t, user, false) - PublishedIds(t)|)
    ensures Recount(t, user).system == |Listed(t, user, Any, Some(false)) - PublishedIds(t)|
    ensures Recount(t, user).total == Recount(t, user).announcement + Recount(t, user).system
  {
    PublishedSize(t, user);
    UnreadMessagesListed(t, user);
    SplitSize(RowsOf(t, user, false), PublishedIds(t));
    assert PublishedIds(t) * RowsOf(t, user, false) == RowsOf(t, user, false) * PublishedIds(t);
  }

  /** The count is the number of unread announcements listed exactly when the published
      announcements hidden balance the read rows on unpublished ones, or there are too few. */
  lemma {:induction false} BadgeMatchesListExactly(t: Tables, user: UserId)
    ensures var u := |Listed(t, user, OnlyAnnouncements, Some(false))|;
            var h := |PublishedIds(t) * RowsOf(t, user, true)|;
            var r := |RowsOf(t, user, false) - PublishedIds(t)|;
            Recount(t, user).announcement == u <==> h == r || (u == 0 && h < r)
  {
    AnnouncementCountExactly(t, user);
  }

  // ---------------------------------------------------------------- the service

  datatype Failure = NotFound | NotAllowed

  /** Read rows exist only on announcements (the foreign key, and the only writers). */
  ghost predicate ReadsOnAnnouncements(t: Tables) {
    forall k :: k in t.readRows ==> k.notification in t.notifications && t.notifications[k.notification].kind.Announcement?
  }

  /** Every live cached count is what the tables would give now. */
  ghost predicate CacheAgrees(cache: Db<UserId, UnreadCount>, now: int, t: Tables) {
    forall u :: Live(cache, now, u) ==> cache[u].value == Recount(t, u)
  }

  function WithRead(t: Tables, id: Id, user: UserId): Tables {
    if ReadKey(id, user) in t.readRows then t else t.(readRows := t.readRows[ReadKey(id, user) := false])
  }

  function WithoutNotification(t: Tables, id: Id): Tables {
    Tables(t.notifications - {id}, map k | k in t.readRows && k.notification != id :: t.readRows[k])
  }

  /** Read rows of a user, not hidden, on the given announcements. */
  function KeysFor(ids: set<Id>, user: UserId): set<ReadKey> {
    set id | id in ids :: ReadKey(id, user)
  }

  function VisibleRows(ids: set<Id>, user: UserId): map<ReadKey, bool> {
    var keys := KeysFor(ids, user);
    map k | k in keys :: false
  }

  /** The tables after mark-all-read: messages read, and a visible row on every published
      announcement that had no row. */
  function AllRead(t: Tables, user: UserId): Tables {
    var missing := set id | id in PublishedIds(t) && ReadKey(id, user) !in t.readRows;
    Tables(
      map id | id in t.notifications ::
        if IsPersonal(t.notifications[id], user) then t.notifications[id].(isRead := true) else t.notifications[id],
      t.readRows + VisibleRows(missing, user))
  }

  lemma {:induction false} AllReadRows(t: Tables, user: UserId)
    ensures PublishedIds(AllRead(t, user)) == PublishedIds(t)
    ensures RowsOf(AllRead(t, user), user, true) == RowsOf(t, user, true)
    ensures RowsOf(AllRead(t, user), user, false) == RowsOf(t, user, false) + (PublishedIds(t) - RowsOf(t, user, true))
  {
    RowsByKey(t, user);
    RowsByKey(AllRead(t, user), user);
    assert PublishedIds(AllRead(t, user)) == PublishedIds(t);
    forall id
      ensures ReadKey(id, user) in AllRead(t, user).readRows <==>
              ReadKey(id, user) in t.readRows || id in PublishedIds(t)
    {
      assert ReadKey(id, user).notification == id;
    }
  }

  lemma {:induction false} AllReadAnnouncements(t: Tables, user: UserId)
    ensures Listed(AllRead(t, user), user, OnlyAnnouncements, Some(false)) == {}
  {
  }

  lemma {:induction false} AllReadMessages(t: Tables, user: UserId)
    ensures PersonalUnread(AllRead(t, user), user) == {}
  {
  }

  /** The unread list is made of unread messages and unread announcements. */
  lemma {:induction false} UnreadParts(t: Tables, user: UserId)
    ensures Listed(t, user, Any, Some(false))
            == PersonalUnread(t, user) + Listed(t, user, OnlyAnnouncements, Some(false))
  {
  }

  /** After mark-all-read the unread list is empty, and the badge shows what is left over
      when more published announcements are hidden than read rows stand on unpublished ones. */
  lemma {:induction false} AllReadClears(t: Tables, user: UserId)
    ensures Listed(AllRead(t, user), user, Any, Some(false)) == {}
    ensures Recount(AllRead(t, user), user).total ==
              Max(0, |PublishedIds(t) * RowsOf(t, user, true)| - |RowsOf(t, user, false) - PublishedIds(t)|)
  {
    AllReadAnnouncements(t, user);
    AllReadMessages(t, user);
    UnreadParts(AllRead(t, user), user);
    AllReadBadge(t, user);
  }

  lemma {:induction false} LeftOver(published: set<Id>, visible: set<Id>, hidden: set<Id>, allVisible: set<Id>)
    requires visible !! hidden && allVisible == visible + (published - hidden)
    ensures |published| - |allVisible| == |published * hidden| - |visible - published|
  {
    SplitSize(published, hidden);
    SplitSize(allVisible, published);
    assert allVisible * published == published - hidden;
    assert allVisible - published == visible - published;
  }

  lemma {:induction false} AllReadBadge(t: Tables, user: UserId)
    ensures Recount(AllRead(t, user), user).announcement ==
              Max(0, |PublishedIds(t) * RowsOf(t, user, true)| - |RowsOf(t, user, false) - PublishedIds(t)|)
  {
    AllReadRows(t, user);
    RowsByKey(t, user);
    LeftOver(PublishedIds(t), RowsOf(t, user, false), RowsOf(t, user, true), RowsOf(AllRead(t, user), user, false));
  }

  // ---------------------------------------------------------------- what each change does to the lists

  predicate SameEntry<K(==), V(==)>(a: map<K, V>, b: map<K, V>, k: K) {
    (k in a <==> k in b) && (k in a && k in b ==> a[k] == b[k])
  }

  /** A list looks at a notification and at the user's row on it. */
  lemma {:induction false} ListedFrame(t: Tables, t': Tables, user: UserId, query: QueryType, isRead: Option<bool>, id: Id)
    requires SameEntry(t.notifications, t'.notifications, id) && SameEntry(t.readRows, t'.readRows, ReadKey(id, user))
    ensures id in Listed(t, user, query, isRead) <==> id in Listed(t', user, query, isRead)
  {
  }

  predicate IsHidden(t: Tables, user: UserId, id: Id) {
    ReadKey(id, user) in t.readRows && t.readRows[ReadKey(id, user)]
  }

  /** A published announcement marked as read is in the read list and not in the unread one, unless
      the user has hidden it: then it is in neither. */
  lemma {:induction false} MarkedAnnouncement(t: Tables, id: Id, user: UserId)
    requires id in t.notifications && IsPublished(t.notifications[id])
    ensures var t' := WithRead(t, id, user);
            && t'.notifications == t.notifications && IsHidden(t', user, id) == IsHidden(t, user, id)
            && (!IsHidden(t, user, id) ==>
                  id in Listed(t', user, OnlyAnnouncements, Some(true)) && id in Listed(t', user, Any, Some(true)))
            && (IsHidden(t, user, id) ==>
                  id !in Listed(t', user, OnlyAnnouncements, None) && id !in Listed(t', user, Any, None))
            && id !in Listed(t', user, OnlyAnnouncements, Some(false)) && id !in Listed(t', user, Any, Some(false))
  {
  }

  /** It changes nothing else, and no other user's lists. */
  lemma {:induction false} MarkedNothingElse(t: Tables, id: Id, user: UserId, other: Id, u: UserId, query: QueryType, isRead: Option<bool>)
    requires other != id || u != user
    ensures other in Listed(WithRead(t, id, user), u, query, isRead) <==> other in Listed(t, u, query, isRead)
  {
    ListedFrame(t, WithRead(t, id, user), u, query, isRead, other);
  }

  /** The same of a message of the user. */
  lemma {:induction false} MarkedMessage(t: Tables, id: Id, user: UserId)
    requires id in t.notifications && IsPersonal(t.notifications[id], user)
    ensures var t' := t.(notifications := t.notifications[id := t.notifications[id].(isRead := true)]);
            && id in Listed(t', user, OnlyMessages(t.notifications[id].kind.name), Some(true))
            && id in Listed(t', user, Any, Some(true)) && id !in Listed(t', user, Any, Some(false))
            && forall name :: id !in Listed(t', user, OnlyMessages(name), Some(false))
  {
  }

  lemma {:induction false} MarkedMessageNothingElse(t: Tables, id: Id, user: UserId, other: Id, u: UserId, query: QueryType,
                                                    isRead: Option<bool>)
    requires id in t.notifications && IsPersonal(t.notifications[id], user) && (other != id || u != user)
    ensures var t' := t.(notifications := t.notifications[id := t.notifications[id].(isRead := true)]);
            other in Listed(t', u, query, isRead) <==> other in Listed(t, u, query, isRead)
  {
    if other != id {
      ListedFrame(t, t.(notifications := t.notifications[id := t.notifications[id].(isRead := true)]), u, query, isRead, other);
    }
  }

  /** A hidden announcement is in no list of the user, and as before in those of others. */
  lemma {:induction false} HiddenForOne(t: Tables, id: Id, user: UserId, other: Id, u: UserId, query: QueryType, isRead: Option<bool>)
    requires id in t.notifications && t.notifications[id].kind.Announcement?
    ensures var t' := t.(readRows := t.readRows[ReadKey(id, user) := true]);
            && id !in Listed(t', user, query, isRead)
            && (other != id || u != user ==> (other in Listed(t', u, query, isRead) <==> other in Listed(t, u, query, isRead)))
  {
    if other != id || u != user {
      ListedFrame(t, t.(readRows := t.readRows[ReadKey(id, user) := true]), u, query, isRead, other);
    }
  }

  /** A deleted notification is gone with its rows, from every list; the others stay. */
  lemma {:induction false} DeletedEverywhere(t: Tables, id: Id, other: Id, u: UserId, query: QueryType, isRead: Option<bool>)
    ensures var t' := WithoutNotification(t, id);
            && id !in t'.notifications && ReadKey(id, u) !in t'.readRows && id !in Listed(t', u, query, isRead)
            && (other != id ==> SameEntry(t.notifications, t'.notifications, other) && SameEntry(t.readRows, t'.readRows, ReadKey(other, u)))
            && (other != id ==> (other in Listed(t', u, query, isRead) <==> other in Listed(t, u, query, isRead)))
  {
    if other != id {
      ListedFrame(t, WithoutNotification(t, id), u, query, isRead, other);
    }
  }

  /** After mark-all-read everything the user is shown is read, and they are shown the same. */
  lemma {:induction false} AllReadLists(t: Tables, user: UserId, query: QueryType)
    ensures Listed(AllRead(t, user), user, query, Some(true)) == Listed(t, user, query, None)
    ensures Listed(AllRead(t, user), user, query, None) == Listed(t, user, query, None)
  {
    forall id
      ensures id in Listed(AllRead(t, user), user, query, Some(true)) <==> id in Listed(t, user, query, None)
      ensures id in Listed(AllRead(t, user), user, query, None) <==> id in Listed(t, user, query, None)
    {
      AllReadEntry(t, user, query, id);
    }
  }

  lemma {:induction false} AllReadEntry(t: Tables, user: UserId, query: QueryType, id: Id)
    ensures id in Listed(AllRead(t, user), user, query, Some(true)) <==> id in Listed(t, user, query, None)
    ensures id in Listed(AllRead(t, user), user, query, None) <==> id in Listed(t, user, query, None)
  {
    AllReadKey(t, user, id, user);
  }

  lemma {:induction false} AllReadKey(t: Tables, user: UserId, id: Id, u: UserId)
    ensures ReadKey(id, user) in AllRead(t, user).readRows <==> ReadKey(id, user) in t.readRows || id in PublishedIds(t)
    ensures ReadKey(id, user) in t.readRows ==> AllRead(t, user).readRows[ReadKey(id, user)] == t.readRows[ReadKey(id, user)]
    ensures ReadKey(id, user) in AllRead(t, user).readRows && ReadKey(id, user) !in t.readRows ==>
              !AllRead(t, user).readRows[ReadKey(id, user)]
    ensures u != user ==> SameEntry(t.readRows, AllRead(t, user).readRows, ReadKey(id, u))
    ensures id in AllRead(t, user).notifications <==> id in t.notifications
    ensures id in t.notifications ==>
              AllRead(t, user).notifications[id] ==
              if IsPersonal(t.notifications[id], user) then t.notifications[id].(isRead := true) else t.notifications[id]
  {
  }

  lemma {:induction false} AllReadOthersEntry(t: Tables, user: UserId, u: UserId, query: QueryType, isRead: Option<bool>, id: Id)
    requires u != user
    ensures id in Listed(AllRead(t, user), u, query, isRead) <==> id in Listed(t, u, query, isRead)
  {
    AllReadKey(t, user, id, u);
  }

  lemma {:induction false} AllReadOthersLists(t: Tables, user: UserId, u: UserId, query: QueryType, isRead: Option<bool>)
    requires u != user
    ensures Listed(AllRead(t, user), u, query, isRead) == Listed(t, u, query, isRead)
  {
    forall id
      ensures id in Listed(AllRead(t, user), u, query, isRead) <==> id in Listed(t, u, query, isRead)
    {
      AllReadOthersEntry(t, user, u, query, isRead, id);
    }
  }

  /** A message sent is unread for its receiver, and shown to nobody else. */
  lemma {:induction false} SentMessage(t: Tables, id: Id, name: string, title: string, content: string, receiver: UserId, u: UserId,
                                       query: QueryType, isRead: Option<bool>)
    requires id !in t.notifications
    ensures var t' := t.(notifications := t.notifications[id := Notification(Message(name), title, content, Some(receiver), false, None)]);
            && id in Listed(t', receiver, Any, Some(false)) && id in Listed(t', receiver, OnlyMessages(name), Some(false))
            && id !in Listed(t', receiver, Any, Some(true))
            && (u != receiver ==> id !in Listed(t', u, query, isRead))
  {
  }

  /** Whether everybody is shown an announcement depends on its status alone, apart from those who have
      hidden it: a published one is unread for whoever has no row on it. */
  lemma {:induction false} StatusDecides(t: Tables, id: Id, u: UserId, status: Status)
    requires id in t.notifications && t.notifications[id].kind.Announcement? && t.notifications[id].userId.None?
    ensures var t' := t.(notifications := t.notifications[id := t.notifications[id].(status := Some(status))]);
            && (id in Listed(t', u, Any, None) <==> status == Published && !IsHidden(t, u, id))
            && (id in Listed(t', u, Any, Some(false)) <==> status == Published && ReadKey(id, u) !in t.readRows)
            && (id in PublishedIds(t') <==> status == Published)
  {
  }

  /** Recount only looks at the published ids, the user's unread messages and the user's rows. */
  lemma {:induction false} RecountFrame(t: Tables, t': Tables, user: UserId)
    requires PublishedIds(t') == PublishedIds(t)
    requires PersonalUnread(t', user) == PersonalUnread(t, user)
    requires RowsOf(t', user, false) == RowsOf(t, user, false)
    ensures Recount(t', user) == Recount(t, user)
  {
  }

  /** A change that leaves the other users' counts alone needs only this user's key dropped. */
  lemma {:induction false} DropOneKey(cache: Db<UserId, UnreadCount>, now: int, t: Tables, t': Tables, user: UserId)
    requires CacheAgrees(cache, now, t)
    requires forall u :: u != user ==> Recount(t', u) == Recount(t, u)
    ensures CacheAgrees(Remove(cache, user), now, t')
  {
  }

  lemma {:induction false} ReadTouchesOneUser(t: Tables, id: Id, user: UserId, hidden: bool, u: UserId)
    requires u != user
    ensures Recount(t.(readRows := t.readRows[ReadKey(id, user) := hidden]), u) == Recount(t, u)
  {
    var t' := t.(readRows := t.readRows[ReadKey(id, user) := hidden]);
    assert PublishedIds(t') == PublishedIds(t) && PersonalUnread(t', u) == PersonalUnread(t, u);
    RowsByKey(t, u);
    RowsByKey(t', u);
    assert RowsOf(t', u, false) == RowsOf(t, u, false);
    RecountFrame(t, t', u);
  }

  lemma {:induction false} MessageTouchesOneUser(t: Tables, id: Id, n: Notification, user: UserId, u: UserId)
    requires IsPersonal(n, user) && u != user
    requires id in t.notifications ==> IsPersonal(t.notifications[id], user)
    ensures Recount(t.(notifications := t.notifications[id := n]), u) == Recount(t, u)
  {
    var t' := t.(notifications := t.notifications[id := n]);
    assert PublishedIds(t') == PublishedIds(t) && PersonalUnread(t', u) == PersonalUnread(t, u);
    assert RowsOf(t', u, false) == RowsOf(t, u, false);
    RecountFrame(t, t', u);
  }

  lemma {:induction false} DeletedMessageTouchesOneUser(t: Tables, id: Id, user: UserId, u: UserId)
    requires id in t.notifications && IsPersonal(t.notifications[id], user) && u != user && ReadsOnAnnouncements(t)
    ensures Recount(WithoutNotification(t, id), u) == Recount(t, u)
  {
    var t' := WithoutNotification(t, id);
    assert PublishedIds(t') == PublishedIds(t) && PersonalUnread(t', u) == PersonalUnread(t, u);
    assert t'.readRows == t.readRows;
    assert RowsOf(t', u, false) == RowsOf(t, u, false);
    RecountFrame(t, t', u);
  }

  lemma {:induction false} AllReadTouchesOneUser(t: Tables, user: UserId, u: UserId)
    requires u != user
    ensures Recount(AllRead(t, user), u) == Recount(t, u)
  {
    var t' := AllRead(t, user);
    assert PublishedIds(t') == PublishedIds(t) && PersonalUnread(t', u) == PersonalUnread(t, u);
    RowsByKey(t, u);
    RowsByKey(t', u);
    assert RowsOf(t', u, false) == RowsOf(t, u, false);
    RecountFrame(t, t', u);
  }

  /** An announcement that is not published before or after changes nobody's count. */
  lemma {:induction false} UnpublishedIsNotCounted(t: Tables, id: Id, n: Notification, u: UserId)
    requires n.kind.Announcement? && (id in t.notifications ==> t.notifications[id].kind.Announcement?)
    requires IsPublished(n) <==> id in PublishedIds(t)
    ensures Recount(t.(notifications := t.notifications[id := n]), u) == Recount(t, u)
  {
    var t' := t.(notifications := t.notifications[id := n]);
    assert PublishedIds(t') == PublishedIds(t) && PersonalUnread(t', u) == PersonalUnread(t, u);
    assert RowsOf(t', u, false) == RowsOf(t, u, false);
    RecountFrame(t, t', u);
  }

  class NotificationService {
    const redis: RedisService<UserId, UnreadCount>
    var tables: Tables

    constructor (redis: RedisService<UserId, UnreadCount>)
      requires redis.db == map[]
      ensures this.redis == redis && Valid() && tables == Tables(map[], map[])
    {
      this.redis := redis;
      tables := Tables(map[], map[]);
    }

    ghost predicate Valid()
      reads this, redis
    {
      ReadsOnAnnouncements(tables) && CacheAgrees(redis.db, redis.now, tables)
    }

    /** Time passes: cached counts may expire, the rest stays. */
    method Wait(elapsed: nat)
      requires Valid()
      modifies redis`now
      ensures Valid() && redis.now == old(redis.now) + elapsed
    {
      redis.now := redis.now + elapsed;
    }

    /** The filter on announcement ids, built by assigning its fields. */
    method AnnouncementFilter(userId: UserId, isRead: Option<bool>) returns (f: IdFilter)
      ensures forall id :: id in tables.notifications && IsPublished(tables.notifications[id]) ==>
                (Passes(f, id) <==> ListsAnnouncement(tables, userId, isRead, id))
    {
      RowsByKey(tables, userId);
      var hiddenIds := RowsOf(tables, userId, true);
      f := IdFilter(None, None);
      if hiddenIds != {} {
        f := f.(notIn := Some(hiddenIds));
      }
      if isRead.Some? {
        var readIds := RowsOf(tables, userId, false);
        if isRead.value {
          f := f.(isIn := Some(set id | id in readIds && id !in hiddenIds));
        } else {
          var excludeIds := readIds + hiddenIds;
          if excludeIds != {} {
            f := f.(notIn := Some(excludeIds));
          }
        }
      }
    }

    method GetUserNotifications(userId: UserId, query: QueryType, isRead: Option<bool>) returns (ids: set<Id>)
      ensures ids == Listed(tables, userId, query, isRead)
    {
      var f := AnnouncementFilter(userId, isRead);
      var announcements := set id | id in tables.notifications && IsPublished(tables.notifications[id]) && Passes(f, id);
      var messages := set id | id in tables.notifications && IsPersonal(tables.notifications[id], userId) &&
                               (query.OnlyMessages? ==> tables.notifications[id].kind == Message(query.name)) &&
                               (isRead.Some? ==> tables.notifications[id].isRead == isRead.value);
      match query
      case OnlyAnnouncements => ids := announcements;
      case OnlyMessages(_) => ids := messages;
      case Any => ids := messages + announcements;
    }

    method GetUnreadCount(userId: UserId) returns (count: UnreadCount)
      requires Valid()
      modifies redis`db
      ensures Valid() && count == Recount(tables, userId)
      ensures redis.db == if Live(old(redis.db), redis.now, userId) then old(redis.db)
                          else old(redis.db)[userId := Entry(count, At(redis.now + 300000))]
    {
      var cached := redis.Get(userId);
      if cached.Some? {
        return cached.value;
      }
      var personalUnread := |PersonalUnread(tables, userId)|;
      var totalAnnouncements := |PublishedIds(tables)|;
      var readAnnouncements := |RowsOf(tables, userId, false)|;
      var unreadAnnouncement := Max(0, totalAnnouncements - readAnnouncements);
      count := UnreadCount(personalUnread + unreadAnnouncement, unreadAnnouncement, personalUnread);
      redis.Set(userId, count, UNREAD_CACHE_TTL);
    }

    method MarkAsRead(notificationId: Id, userId: UserId) returns (r: Result<(), Failure>)
      requires Valid()
      modifies redis`db, this`tables
      ensures Valid()
      ensures var t := old(tables);
              if notificationId !in t.notifications then r == Failure(NotFound) && tables == t
              else if t.notifications[notificationId].kind.Announcement? then
                r.Success? && tables == WithRead(t, notificationId, userId)
              else if t.notifications[notificationId].userId != Some(userId) then r == Failure(NotFound) && tables == t
              else
                && r.Success?
                && tables == t.(notifications :=
                     t.notifications[notificationId := t.notifications[notificationId].(isRead := true)])
      ensures var key := ReadKey(notificationId, userId);
              r.Success? && old(tables).notifications[notificationId].kind.Announcement? ==>
                && key in tables.readRows && tables.notifications == old(tables).notifications
                && tables.readRows == if key in old(tables).readRows then old(tables).readRows else old(tables).readRows[key := false]
    {
      if notificationId !in tables.notifications {
        return Failure(NotFound);
      }
      var notification := tables.notifications[notificationId];
      ghost var t := tables;
      if notification.kind.Announcement? {
        if ReadKey(notificationId, userId) !in tables.readRows {
          tables := tables.(readRows := tables.readRows[ReadKey(notificationId, userId) := false]);
        }
        forall u | u != userId
          ensures Recount(tables, u) == Recount(t, u)
        {
          ReadTouchesOneUser(t, notificationId, userId, false, u);
        }
      } else {
        if notification.userId != Some(userId) {
          return Failure(NotFound);
        }
        tables := tables.(notifications := tables.notifications[notificationId := notification.(isRead := true)]);
        forall u | u != userId
          ensures Recount(tables, u) == Recount(t, u)
        {
          MessageTouchesOneUser(t, notificationId, notification.(isRead := true), userId, u);
        }
      }
      DropOneKey(redis.db, redis.now, t, tables, userId);
      redis.Del(userId);
      return Success(());
    }

    method MarkAllAsRead(userId: UserId)
      requires Valid()
      modifies redis`db, this`tables
      ensures Valid() && tables == AllRead(old(tables), userId)
    {
      ghost var t := tables;
      tables := tables.(notifications := map id | id in tables.notifications ::
        if IsPersonal(tables.notifications[id], userId) then tables.notifications[id].(isRead := true)
        else tables.notifications[id]);
      assert PublishedIds(tables) == PublishedIds(t);
      var unread := set id | id in PublishedIds(tables) && ReadKey(id, userId) !in tables.readRows;
      if unread != {} {
        tables := tables.(readRows := tables.readRows + VisibleRows(unread, userId));
      }
      assert tables.readRows == AllRead(t, userId).readRows;
      forall u | u != userId
        ensures Recount(tables, u) == Recount(t, u)
      {
        AllReadTouchesOneUser(t, userId, u);
      }
      DropOneKey(redis.db, redis.now, t, tables, userId);
      redis.Del(userId);
    }

    method RemoveByUser(notificationId: Id, userId: UserId) returns (r: Result<(), Failure>)
      requires Valid()
      modifies redis`db, this`tables
      ensures Valid()
      ensures var t := old(tables);
              if notificationId !in t.notifications then r == Failure(NotFound) && tables == t
              else if t.notifications[notificationId].kind.Announcement? then
                r.Success? && tables == t.(readRows := t.readRows[ReadKey(notificationId, userId) := true])
              else if t.notifications[notificationId].userId != Some(userId) then r == Failure(NotFound) && tables == t
              else r.Success? && tables == WithoutNotification(t, notificationId)
    {
      if notificationId !in tables.notifications {
        return Failure(NotFound);
      }
      var notification := tables.notifications[notificationId];
      ghost var t := tables;
      if notification.kind.Announcement? {
        tables := tables.(readRows := tables.readRows[ReadKey(notificationId, userId) := true]);
        forall u | u != userId
          ensures Recount(tables, u) == Recount(t, u)
        {
          ReadTouchesOneUser(t, notificationId, userId, true, u);
        }
      } else {
        if notification.userId != Some(userId) {
          return Failure(NotFound);
        }
        tables := WithoutNotification(tables, notificationId);
        forall u | u != userId
          ensures Recount(tables, u) == Recount(t, u)
        {
          DeletedMessageTouchesOneUser(t, notificationId, userId, u);
        }
      }
      DropOneKey(redis.db, redis.now, t, tables, userId);
      redis.Del(userId);
      return Success(());
    }

    /** id is the generated key; the answer is the count pushed to the receiver. */
    method SendNotification(id: Id, title: string, content: string, receiver: UserId) returns (pushed: UnreadCount)
      requires Valid() && id !in tables.notifications
      modifies redis`db, this`tables
      ensures Valid()
      ensures tables == old(tables).(notifications := old(tables).notifications[
                id := Notification(Message("system"), title, content, Some(receiver), false, None)])
      ensures pushed == Recount(tables, receiver)
    {
      ghost var t := tables;
      var n := Notification(Message("system"), title, content, Some(receiver), false, None);
      tables := tables.(notifications := tables.notifications[id := n]);
      forall u | u != receiver
        ensures Recount(tables, u) == Recount(t, u)
      {
        MessageTouchesOneUser(t, id, n, receiver, u);
      }
      DropOneKey(redis.db, redis.now, t, tables, receiver);
      redis.Del(receiver);
      pushed := GetUnreadCount(receiver);
    }

    /** The cache part of broadcastAnnouncement: every unread key is dropped. */
    method DropAllCounts()
      modifies redis`db
      ensures redis.db == map[]
    {
      redis.DelPattern((u: UserId) => true);
    }

    method CreateAnnouncement(id: Id, title: string, content: string, status: Option<Status>)
      requires Valid() && id !in tables.notifications
      requires status != Some(Withdrawn)
      modifies redis`db, this`tables
      ensures Valid()
      ensures tables == old(tables).(notifications := old(tables).notifications[id :=
                Notification(Announcement, title, content, None, false, Some(if status.Some? then status.value else Published))])
    {
      ghost var t := tables;
      var n := Notification(Announcement, title, content, None, false, Some(if status.Some? then status.value else Published));
      tables := tables.(notifications := tables.notifications[id := n]);
      if n.status == Some(Published) {
        DropAllCounts();
      } else {
        forall u
          ensures Recount(tables, u) == Recount(t, u)
        {
          UnpublishedIsNotCounted(t, id, n, u);
        }
      }
    }

    /** The update carries no status, so no count changes and no key is dropped. */
    method UpdateAnnouncement(id: Id, title: Option<string>, content: Option<string>) returns (r: Result<(), Failure>)
      requires Valid()
      modifies this`tables
      ensures Valid()
      ensures var t := old(tables);
              if id !in t.notifications || !t.notifications[id].kind.Announcement? then r == Failure(NotFound) && tables == t
              else if t.notifications[id].status == Some(Withdrawn) then r == Failure(NotAllowed) && tables == t
              else
                && r.Success?
                && var n := t.notifications[id];
                && tables == t.(notifications := t.notifications[id :=
                     n.(title := if title.Some? then title.value else n.title,
                        content := if content.Some? then content.value else n.content)])
    {
      if id !in tables.notifications || !tables.notifications[id].kind.Announcement? {
        return Failure(NotFound);
      }
      var n := tables.notifications[id];
      if n.status == Some(Withdrawn) {
        return Failure(NotAllowed);
      }
      ghost var t := tables;
      if title.Some? {
        n := n.(title := title.value);
      }
      if content.Some? {
        n := n.(content := content.value);
      }
      tables := tables.(notifications := tables.notifications[id := n]);
      forall u
        ensures Recount(tables, u) == Recount(t, u)
      {
        UnpublishedIsNotCounted(t, id, n, u);
      }
      return Success(());
    }

    /** publishAnnouncement and revokeAnnouncement: a status change from one given status. */
    method ChangeStatus(id: Id, from: Status, to: Status) returns (r: Result<(), Failure>)
      requires Valid()
      modifies redis`db, this`tables
      ensures Valid()
      ensures var t := old(tables);
              if id !in t.notifications || !t.notifications[id].kind.Announcement? then r == Failure(NotFound) && tables == t
              else if t.notifications[id].status != Some(from) then r == Failure(NotAllowed) && tables == t
              else
                && r.Success?
                && tables == t.(notifications := t.notifications[id := t.notifications[id].(status := Some(to))])
    {
      if id !in tables.notifications || !tables.notifications[id].kind.Announcement? {
        return Failure(NotFound);
      }
      var n := tables.notifications[id];
      if n.status != Some(from) {
        return Failure(NotAllowed);
      }
      tables := tables.(notifications := tables.notifications[id := n.(status := Some(to))]);
      DropAllCounts();
      return Success(());
    }

    method PublishAnnouncement(id: Id) returns (r: Result<(), Failure>)
      requires Valid()
      modifies redis`db, this`tables
      ensures Valid()
      ensures r.Success? <==> id in old(tables).notifications && old(tables).notifications[id].kind.Announcement? &&
                              old(tables).notifications[id].status == Some(Draft)
      ensures r.Success? ==>
                tables == old(tables).(notifications := old(tables).notifications[
                  id := old(tables).notifications[id].(status := Some(Published))])
      ensures r.Failure? ==> tables == old(tables)
    {
      r := ChangeStatus(id, Draft, Published);
    }

    method RevokeAnnouncement(id: Id) returns (r: Result<(), Failure>)
      requires Valid()
      modifies redis`db, this`tables
      ensures Valid()
      ensures r.Success? <==> id in old(tables).notifications && old(tables).notifications[id].kind.Announcement? &&
                              old(tables).notifications[id].status == Some(Published)
      ensures r.Success? ==>
                tables == old(tables).(notifications := old(tables).notifications[
                  id := old(tables).notifications[id].(status := Some(Withdrawn))])
      ensures r.Failure? ==> tables == old(tables)
    {
      r := ChangeStatus(id, Published, Withdrawn);
    }

    method RemoveAnnouncement(id: Id) returns (r: Result<(), Failure>)
      requires Valid()
      modifies redis`db, this`tables
      ensures Valid()
      ensures var t := old(tables);
              if id !in t.notifications || !t.notifications[id].kind.Announcement? then r == Failure(NotFound) && tables == t
              else r.Success? && tables == WithoutNotification(t, id)
    {
      if id !in tables.notifications || !tables.notifications[id].kind.Announcement? {
        return Failure(NotFound);
      }
      tables := WithoutNotification(tables, id);
      DropAllCounts();
      return Success(());
    }
  }
}
