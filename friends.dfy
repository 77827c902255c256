/** includes/friend_functions.php: the user_friendships table as a map from
    row id to record, the lookups sendFriendRequest and respondToFriendRequest
    make, the two state changes, and the three listing queries as filters.
    The user_account table is the read-only sequence `accounts`; the clock
    is the parameter `now`. */
module Friends {
  import opened Strings
  import opened Php

  datatype Account = Account(id: int, username: string)

  /** A row of user_friendships. The status column holds any text; the code
      gives "pending", "accepted" and "declined" a meaning. */
  datatype Friendship = Friendship(requester: int, addressee: int, status: string,
                                   createdAt: string, respondedAt: Option<string>)

  /** The table with its AUTO_INCREMENT counter. */
  datatype Table = Table(rows: map<nat, Friendship>, nextId: nat)

  /** Every row id was handed out by the counter. */
  predicate ValidTable(t: Table) {
    forall id :: id in t.rows ==> id < t.nextId
  }

  // ---------------------------------------------------------------------
  // Lookups

  /** The first account whose name equals `name` ignoring case. */
  function FirstNamed(accounts: seq<Account>, name: string): (r: Option<int>)
    ensures r.None? <==> forall i :: 0 <= i < |accounts| ==> !SameIgnoringCase(accounts[i].username, name)
    ensures r.Some? ==> exists i :: 0 <= i < |accounts| && accounts[i].id == r.value
                                  && SameIgnoringCase(accounts[i].username, name)
  {
    if accounts == [] then None
    else if SameIgnoringCase(accounts[0].username, name) then Some(accounts[0].id)
    else
      var r := FirstNamed(accounts[1..], name);
      assert forall i :: 1 <= i < |accounts| ==> accounts[i] == accounts[1..][i - 1];
      r
  }

  /** findUserIdByUsername: the name is trimmed, an empty name finds nobody,
      and names are compared ignoring case. */
  function FindUserIdByUsername(accounts: seq<Account>, username: string): (r: Option<int>)
    ensures Trim(username) == "" ==> r.None?
    ensures Trim(username) != "" ==>
      (r.None? <==> forall i :: 0 <= i < |accounts| ==> !SameIgnoringCase(accounts[i].username, Trim(username)))
    ensures r.Some? ==> exists i :: 0 <= i < |accounts| && accounts[i].id == r.value
                                  && SameIgnoringCase(accounts[i].username, Trim(username))
  {
    var normalized := Trim(username);
    if normalized == "" then None else FirstNamed(accounts, normalized)
  }

  /** The row is between `a` and `b`, in either direction. */
  predicate Links(f: Friendship, a: int, b: int) {
    (f.requester == a && f.addressee == b) || (f.requester == b && f.addressee == a)
  }

  /** The lowest row id below `n` linking `a` and `b`. */
  function FirstLink(rows: map<nat, Friendship>, a: int, b: int, n: nat): (r: Option<nat>)
    ensures r.Some? ==> r.value < n && r.value in rows && Links(rows[r.value], a, b)
    ensures r.None? <==> forall id :: id in rows && id < n ==> !Links(rows[id], a, b)
  {
    if n == 0 then None
    else match FirstLink(rows, a, b, n - 1)
      case Some(id) => Some(id)
      case None => if n - 1 in rows && Links(rows[n - 1], a, b) then Some(n - 1) else None
  }

  /** findExistingFriendship: the row linking the two users, if any. */
  function FindExistingFriendship(t: Table, a: int, b: int): (r: Option<nat>)
    requires ValidTable(t)
    ensures r.None? <==> forall id :: id in t.rows ==> !Links(t.rows[id], a, b)
    ensures r.Some? ==> r.value in t.rows && Links(t.rows[r.value], a, b)
  {
    FirstLink(t.rows, a, b, t.nextId)
  }

  // ---------------------------------------------------------------------
  // sendFriendRequest and respondToFriendRequest as values

  datatype Change = Change(table: Table, notice: Notice)

  const NoSuchPilot := "We could not find a pilot with that callsign."
  const NoSelfRequest := "You cannot send yourself a friend request."
  const AlreadyAllies := "You are already linked as allies."
  const AwaitingThem := "A request is already awaiting their response."
  const AwaitingYou := "They have already reached out. Check your incoming requests."
  const Retransmitted := "New request transmitted."
  const RequestSent := "Friend request sent successfully."

  /** A fresh pending request. */
  function PendingRow(requester: int, target: int, now: string): Friendship {
    Friendship(requester, target, "pending", now, None)
  }

  /** sendFriendRequest: the target is looked up by name, then SendTo decides. */
  function Send(t: Table, accounts: seq<Account>, requesterId: int, toUsername: string, now: string): Change
    requires ValidTable(t)
  {
    SendTo(t, requesterId, FindUserIdByUsername(accounts, toUsername), now)
  }

  /** The request's checks and its change once the target's id is known. */
  function SendTo(t: Table, requesterId: int, targetId: Option<int>, now: string): Change
    requires ValidTable(t)
  {
    match targetId
    case None => Change(t, Notice(Error, NoSuchPilot))
    case Some(target) =>
      if target == requesterId then Change(t, Notice(Error, NoSelfRequest))
      else match FindExistingFriendship(t, requesterId, target)
        case Some(id) =>
          var f := t.rows[id];
          if f.status == "accepted" then Change(t, Notice(Info, AlreadyAllies))
          else if f.status == "pending" then
            Change(t, Notice(Info, if f.requester == requesterId then AwaitingThem else AwaitingYou))
          else Change(Table(t.rows[id := PendingRow(requesterId, target, now)], t.nextId), Notice(Success, Retransmitted))
        case None =>
          Change(Table(t.rows[t.nextId := PendingRow(requesterId, target, now)], t.nextId + 1), Notice(Success, RequestSent))
  }

  const NotFound := "Friend request not found."
  const NotAuthorized := "You are not authorized to respond to that request."
  const AlreadyHandled := "That request has already been handled."
  const Accepted := "Friend request accepted."
  const Declined := "Friend request declined."

  function Respond(t: Table, friendshipId: int, userId: int, response: string, now: string): Change {
    if friendshipId < 0 || friendshipId !in t.rows then Change(t, Notice(Error, NotFound))
    else
      var f := t.rows[friendshipId];
      if f.addressee != userId then Change(t, Notice(Error, NotAuthorized))
      else if f.status != "pending" then Change(t, Notice(Info, AlreadyHandled))
      else if response == "accept" then
        Change(Table(t.rows[friendshipId := f.(status := "accepted", respondedAt := Some(now))], t.nextId),
               Notice(Success, Accepted))
      else
        Change(Table(t.rows[friendshipId := f.(status := "declined", respondedAt := Some(now))], t.nextId),
               Notice(Info, Declined))
  }

  // ---------------------------------------------------------------------
  // The listing queries

  predicate HasAccount(accounts: seq<Account>, id: int) {
    exists i :: 0 <= i < |accounts| && accounts[i].id == id
  }

  /** getIncomingFriendRequests: pending rows addressed to the user whose
      requester has an account. */
  function Incoming(t: Table, accounts: seq<Account>, userId: int): set<nat> {
    set id | id in t.rows && t.rows[id].addressee == userId && t.rows[id].status == "pending"
                          && HasAccount(accounts, t.rows[id].requester)
  }

  /** getOutgoingFriendRequests: pending rows the user sent whose addressee
      has an account. */
  function Outgoing(t: Table, accounts: seq<Account>, userId: int): set<nat> {
    set id | id in t.rows && t.rows[id].requester == userId && t.rows[id].status == "pending"
                          && HasAccount(accounts, t.rows[id].addressee)
  }

  /** The other party of a row, seen from `userId`. */
  function Other(f: Friendship, userId: int): int {
    if f.requester == userId then f.addressee else f.requester
  }

  /** getAcceptedFriends: accepted rows on either side, each with the other
      party, when that party has an account. */
  function AcceptedFriends(t: Table, accounts: seq<Account>, userId: int): set<(nat, int)> {
    set id | id in t.rows && (t.rows[id].requester == userId || t.rows[id].addressee == userId)
                          && t.rows[id].status == "accepted"
                          && HasAccount(accounts, Other(t.rows[id], userId))
           :: (id, Other(t.rows[id], userId))
  }

  // ---------------------------------------------------------------------
  // The store

  class FriendStore {
    var rows: map<nat, Friendship>
    var nextId: nat

    ghost predicate Valid()
      reads this
    {
      ValidTable(Table(rows, nextId))
    }

    constructor()
      ensures Valid() && rows == map[] && nextId == 1
    {
      rows := map[];
      nextId := 1;
    }

    method SendFriendRequest(accounts: seq<Account>, requesterId: int, toUsername: string, now: string)
      returns (notice: Notice)
      requires Valid()
      modifies this
      ensures Valid()
      ensures Change(Table(rows, nextId), notice) == Send(old(Table(rows, nextId)), accounts, requesterId, toUsername, now)
    {
      var targetId := FindUserIdByUsername(accounts, toUsername);
      notice := SendToTarget(requesterId, targetId, now);
    }

    /** The checks and the change once the target is looked up. */
    method SendToTarget(requesterId: int, targetId: Option<int>, now: string) returns (notice: Notice)
      requires Valid()
      modifies this
      ensures Valid()
      ensures Change(Table(rows, nextId), notice) == SendTo(old(Table(rows, nextId)), requesterId, targetId, now)
    {
      if targetId.None? {
        return Notice(Error, NoSuchPilot);
      }
      if targetId.value == requesterId {
        return Notice(Error, NoSelfRequest);
      }
      var existing := FindExistingFriendship(Table(rows, nextId), requesterId, targetId.value);
      if existing.Some? {
        var status := rows[existing.value].status;
        if status == "accepted" {
          return Notice(Info, AlreadyAllies);
        }
        if status == "pending" {
          if rows[existing.value].requester == requesterId {
            return Notice(Info, AwaitingThem);
          }
          return Notice(Info, AwaitingYou);
        }
        rows := rows[existing.value := PendingRow(requesterId, targetId.value, now)];
        return Notice(Success, Retransmitted);
      }
      rows := rows[nextId := PendingRow(requesterId, targetId.value, now)];
      nextId := nextId + 1;
      return Notice(Success, RequestSent);
    }

    method RespondToFriendRequest(friendshipId: int, userId: int, response: string, now: string)
      returns (notice: Notice)
      requires Valid()
      modifies this
      ensures Valid()
      ensures Change(Table(rows, nextId), notice) == Respond(old(Table(rows, nextId)), friendshipId, userId, response, now)
    {
      if friendshipId < 0 || friendshipId !in rows {
        return Notice(Error, NotFound);
      }
      var f := rows[friendshipId];
      if f.addressee != userId {
        return Notice(Error, NotAuthorized);
      }
      if f.status != "pending" {
        return Notice(Info, AlreadyHandled);
      }
      if response == "accept" {
        rows := rows[friendshipId := f.(status := "accepted", respondedAt := Some(now))];
        return Notice(Success, Accepted);
      }
      rows := rows[friendshipId := f.(status := "declined", respondedAt := Some(now))];
      return Notice(Info, Declined);
    }
  }
}
