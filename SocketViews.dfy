/** The chat-room handlers of blog/app/socket/views.py: creating a room with
    its member associations, deleting a room under the author-or-administrator
    gate, and the recently-seen users page. */
module SocketViews {
  import opened Wrappers
  import opened Models
  import opened Http

  /** 10 minutes, the recency window of the online-users page. */
  const RecentWindow: int := 600

  /** No value occurs twice. */
  predicate Distinct<T(==)>(xs: seq<T>)
  {
    forall i, j | 0 <= i < j < |xs| :: xs[i] != xs[j]
  }

  /** The user ids of a list of users, in order. */
  function Ids(users: seq<User>): seq<int>
  {
    seq(|users|, i requires 0 <= i < |users| => users[i].id)
  }

  /** The primary keys (user_id, room_id) of association rows, in order. */
  function AssociationKeys(rus: seq<RoomUserAssociation>): seq<(int, int)>
  {
    seq(|rus|, i requires 0 <= i < |rus| => (rus[i].user.id, rus[i].roomId))
  }

  /** One `RoomUserAssociation(user=u, room=room)` per member, in order. */
  function Associations(members: seq<User>, roomId: int): (rus: seq<RoomUserAssociation>)
    ensures |rus| == |members|
    ensures forall i | 0 <= i < |rus| :: rus[i].user == members[i]
    ensures forall a | a in rus :: a.roomId == roomId
  {
    seq(|members|, i requires 0 <= i < |members| => RoomUserAssociation(members[i], roomId))
  }

  /** Distinct members give association rows with distinct primary keys. */
  lemma AssociationKeysDistinct(members: seq<User>, roomId: int)
    requires Distinct(Ids(members))
    ensures Distinct(AssociationKeys(Associations(members, roomId)))
  {
    var keys := AssociationKeys(Associations(members, roomId));
    forall i, j | 0 <= i < j < |keys| ensures keys[i] != keys[j] {
      assert keys[i].0 == Ids(members)[i] && keys[j].0 == Ids(members)[j];
    }
  }

  /** The members `create_room` lists as written: the selected users followed
      by the creator, whether or not the creator was selected. */
  function RoomMembersAsWritten(selected: seq<User>, creator: User): seq<User>
  {
    selected + [creator]
  }

  /** As written, a creator who also selects themself gets two association
      rows with the same primary key, so the room cannot be stored. */
  lemma SelfSelectionDuplicatesKey(creator: User, roomId: int)
    ensures !Distinct(AssociationKeys(Associations(RoomMembersAsWritten([creator], creator), roomId)))
  {
    var keys := AssociationKeys(Associations(RoomMembersAsWritten([creator], creator), roomId));
    assert keys[0] == keys[1] == (creator.id, roomId);
  }

  /** The members as intended: the selected users, plus the creator unless a
      selected user already is the creator's row. */
  function RoomMembers(selected: seq<User>, creator: User): (r: seq<User>)
    ensures creator.id in Ids(r)
    ensures forall u | u in selected :: u in r
    ensures forall u | u in r :: u in selected || u == creator
    ensures Distinct(Ids(selected)) ==> Distinct(Ids(r))
  {
    if creator.id in Ids(selected) then selected
    else
      var r := selected + [creator];
      assert Ids(r) == Ids(selected) + [creator.id];
      r
  }

  /** The intended members differ from the written ones only when the creator
      was selected too. */
  lemma RoomMembersAgreeUnlessSelfSelected(selected: seq<User>, creator: User)
    ensures creator.id !in Ids(selected) ==> RoomMembers(selected, creator) == RoomMembersAsWritten(selected, creator)
    ensures creator.id in Ids(selected) ==> RoomMembers(selected, creator) == selected
  {
  }

  /** The rows of a room built by `create_room`: every row references the new
      room, the creator has a row, every selected user has one, and no
      primary key repeats when the selection had none repeated. */
  lemma CreatedRoomMembership(selected: seq<User>, creator: User, roomId: int)
    ensures forall a | a in Associations(RoomMembers(selected, creator), roomId) :: a.roomId == roomId
    ensures (creator.id, roomId) in AssociationKeys(Associations(RoomMembers(selected, creator), roomId))
    ensures forall u | u in selected :: (u.id, roomId) in AssociationKeys(Associations(RoomMembers(selected, creator), roomId))
    ensures Distinct(Ids(selected)) ==> Distinct(AssociationKeys(Associations(RoomMembers(selected, creator), roomId)))
  {
    var members := RoomMembers(selected, creator);
    var keys := AssociationKeys(Associations(members, roomId));
    var k :| 0 <= k < |members| && Ids(members)[k] == creator.id;
    assert keys[k] == (creator.id, roomId);
    forall u | u in selected ensures (u.id, roomId) in keys {
      var i :| 0 <= i < |members| && members[i] == u;
      assert keys[i] == (u.id, roomId);
    }
    if Distinct(Ids(selected)) {
      AssociationKeysDistinct(members, roomId);
    }
  }

  /** A validated `RoomForm`: the room's name and the selected users. */
  datatype RoomForm = RoomForm(name: string, users: seq<User>)

  /** `create_room`. `form` is None when the form did not validate; `newId` is
      the identifier the database assigns to the new row. The page is
      rendered again either way. */
  method CreateRoom(db: Store, current: User, form: Option<RoomForm>, newId: int) returns (resp: Response, notice: Notice)
    requires newId !in db.rooms
    modifies db`rooms
    ensures resp == Render("socket/create-room-page.html")
    ensures form.None? ==> notice == NoNotice && db.rooms == old(db.rooms)
    ensures form.Some? ==>
      && notice == RoomCreated
      && db.rooms == old(db.rooms)[newId := Room(form.value.name, current.id, Associations(RoomMembers(form.value.users, current), newId))]
  {
    notice := NoNotice;
    if form.Some? {
      var members := RoomMembers(form.value.users, current);
      var room := Room(form.value.name, current.id, Associations(members, newId));
      db.rooms := db.rooms[newId := room];
      notice := RoomCreated;
    }
    resp := Render("socket/create-room-page.html");
  }

  /** The ids of a room's member users. */
  function MemberIds(room: Room): set<int>
  {
    set a | a in room.roomUsers :: a.user.id
  }

  /** The users table after `db.session.delete(room)` as written: the room's
      association rows go with it (`Room.room_users`, cascade "all"), and each
      deleted association deletes its user (`RoomUserAssociation.user`,
      cascade "all"). */
  function UsersAfterRoomDeleteAsWritten(users: map<int, User>, room: Room): (r: map<int, User>)
    ensures forall i | i in r :: i in users && i !in MemberIds(room)
    ensures forall i | i in users && i !in MemberIds(room) :: i in r && r[i] == users[i]
  {
    map i | i in users && i !in MemberIds(room) :: users[i]
  }

  /** As written, deleting a room built by `create_room` deletes the account
      of its creator. */
  lemma RoomDeleteRemovesCreatorAsWritten(users: map<int, User>, selected: seq<User>, creator: User, name: string, roomId: int)
    ensures creator.id !in UsersAfterRoomDeleteAsWritten(users, Room(name, creator.id, Associations(RoomMembers(selected, creator), roomId)))
  {
    var room := Room(name, creator.id, Associations(RoomMembers(selected, creator), roomId));
    var members := RoomMembers(selected, creator);
    var k :| 0 <= k < |members| && Ids(members)[k] == creator.id;
    assert room.roomUsers[k] in room.roomUsers;
    assert creator.id in MemberIds(room);
  }

  /** `delete_room`. Intended behaviour: the room and its association rows
      are deleted, and no user row goes with them. */
  method DeleteRoom(db: Store, current: User, id: int) returns (resp: Response, notice: Notice)
    modifies db`rooms
    ensures db.users == old(db.users)
    ensures id !in old(db.rooms) ==> resp == Abort(404) && notice == NoNotice && db.rooms == old(db.rooms)
    ensures id in old(db.rooms) && !(RoomIsAuthor(old(db.rooms)[id], current) || current.IsAdministrator()) ==>
      resp == Abort(401) && notice == NoNotice && db.rooms == old(db.rooms)
    ensures id in old(db.rooms) && (RoomIsAuthor(old(db.rooms)[id], current) || current.IsAdministrator()) ==>
      resp == Redirect(Rooms) && notice == RoomDeleted && db.rooms == old(db.rooms) - {id}
  {
    if id !in db.rooms {
      return Abort(404), NoNotice;
    }
    var room := db.rooms[id];
    if RoomIsAuthor(room, current) || current.IsAdministrator() {
      db.rooms := db.rooms - {id};
      return Redirect(Rooms), RoomDeleted;
    }
    return Abort(401), NoNotice;
  }

  /** The users the online-users page lists: seen within the last ten
      minutes, in table order (pagination is the ORM's). */
  function RecentlySeen(users: seq<User>, now: int): (r: seq<User>)
    reads set u | u in users
    ensures forall u | u in r :: u in users && u.lastSeen > now - RecentWindow
    ensures forall i | 0 <= i < |users| :: users[i].lastSeen > now - RecentWindow ==> users[i] in r
    ensures IsSubsequence(r, users)
  {
    if users == [] then []
    else if users[0].lastSeen > now - RecentWindow then [users[0]] + RecentlySeen(users[1..], now)
    else RecentlySeen(users[1..], now)
  }

  /** The page's ten-minute window is wider than `is_online`'s two minutes:
      every online user is listed, and a user seen five minutes ago is listed
      without being online. */
  lemma RecentWindowWiderThanOnline(u: User, users: seq<User>, now: int)
    requires u in users
    ensures u.IsOnline(now) ==> u in RecentlySeen(users, now)
    ensures u.lastSeen == now - 300 ==> u in RecentlySeen(users, now) && !u.IsOnline(now)
  {
  }
}
