/** What sendFriendRequest and respondToFriendRequest promise: which requests
    leave the table alone, how a row is rewritten or added, that a pair of
    users never gets a second row, and how each change shows in the listing
    queries. */
module FriendProperties {
  import opened Strings
  import opened Php
  import opened Friends

  /** No two rows link the same two users. */
  predicate OnePerPair(t: Table) {
    forall i, j :: i in t.rows && j in t.rows && i != j ==>
      !Links(t.rows[j], t.rows[i].requester, t.rows[i].addressee)
  }

  lemma LinksSymmetric(f: Friendship, a: int, b: int)
    ensures Links(f, a, b) <==> Links(f, b, a)
  {
  }

  // ---------------------------------------------------------------------
  // sendFriendRequest

  /** An unknown target, and the requester as target, are refused with the
      table unchanged. A name that is blank after trimming is unknown. */
  lemma SendRefusals(t: Table, accounts: seq<Account>, requesterId: int, toUsername: string, now: string)
    requires ValidTable(t)
    ensures var target := FindUserIdByUsername(accounts, toUsername);
      var c := Send(t, accounts, requesterId, toUsername, now);
      && (Trim(toUsername) == "" ==> c == Change(t, Notice(Error, NoSuchPilot)))
      && (target.None? ==> c == Change(t, Notice(Error, NoSuchPilot)))
      && (target == Some(requesterId) ==> c == Change(t, Notice(Error, NoSelfRequest)))
  {
  }

  /** A row that is accepted or pending answers with information and leaves the
      table unchanged; for a pending row, the message says who is waiting. */
  lemma SendLinkStands(t: Table, accounts: seq<Account>, requesterId: int, toUsername: string, now: string)
    requires ValidTable(t)
    requires FindUserIdByUsername(accounts, toUsername).Some?
    requires FindUserIdByUsername(accounts, toUsername).value != requesterId
    requires FindExistingFriendship(t, requesterId, FindUserIdByUsername(accounts, toUsername).value).Some?
    ensures var target := FindUserIdByUsername(accounts, toUsername).value;
      var f := t.rows[FindExistingFriendship(t, requesterId, target).value];
      var c := Send(t, accounts, requesterId, toUsername, now);
      && (f.status == "accepted" ==> c == Change(t, Notice(Info, AlreadyAllies)))
      && (f.status == "pending" && f.requester == requesterId ==> c == Change(t, Notice(Info, AwaitingThem)))
      && (f.status == "pending" && f.requester != requesterId ==> c == Change(t, Notice(Info, AwaitingYou)))
  {
  }

  /** A row with any other status is reused: it becomes a pending request from
      the requester to the target, its response time is cleared, and no row
      is added. */
  lemma SendReusesRow(t: Table, accounts: seq<Account>, requesterId: int, toUsername: string, now: string)
    requires ValidTable(t)
    requires FindUserIdByUsername(accounts, toUsername).Some?
    requires FindUserIdByUsername(accounts, toUsername).value != requesterId
    requires FindExistingFriendship(t, requesterId, FindUserIdByUsername(accounts, toUsername).value).Some?
    requires t.rows[FindExistingFriendship(t, requesterId, FindUserIdByUsername(accounts, toUsername).value).value].status
             !in {"accepted", "pending"}
    ensures var target := FindUserIdByUsername(accounts, toUsername).value;
      var id := FindExistingFriendship(t, requesterId, target).value;
      var c := Send(t, accounts, requesterId, toUsername, now);
      && c.notice == Notice(Success, Retransmitted)
      && c.table.rows == t.rows[id := Friendship(requesterId, target, "pending", now, None)]
      && c.table.rows.Keys == t.rows.Keys
      && c.table.nextId == t.nextId
  {
  }

  /** With no row between the two users, exactly one pending row from the
      requester to the target is added, under the next id. */
  lemma SendAddsRow(t: Table, accounts: seq<Account>, requesterId: int, toUsername: string, now: string)
    requires ValidTable(t)
    requires FindUserIdByUsername(accounts, toUsername).Some?
    requires FindUserIdByUsername(accounts, toUsername).value != requesterId
    requires FindExistingFriendship(t, requesterId, FindUserIdByUsername(accounts, toUsername).value).None?
    ensures var target := FindUserIdByUsername(accounts, toUsername).value;
      var c := Send(t, accounts, requesterId, toUsername, now);
      && c.notice == Notice(Success, RequestSent)
      && t.nextId !in t.rows
      && c.table.rows == t.rows[t.nextId := Friendship(requesterId, target, "pending", now, None)]
      && c.table.rows.Keys == t.rows.Keys + {t.nextId}
      && |c.table.rows| == |t.rows| + 1
      && c.table.nextId == t.nextId + 1
  {
    NewRowAdded(t, requesterId, FindUserIdByUsername(accounts, toUsername).value, now);
  }

  lemma NewRowAdded(t: Table, requesterId: int, target: int, now: string)
    requires ValidTable(t) && target != requesterId
    requires FindExistingFriendship(t, requesterId, target).None?
    ensures var c := SendTo(t, requesterId, Some(target), now);
      && c.notice == Notice(Success, RequestSent)
      && t.nextId !in t.rows
      && c.table.rows == t.rows[t.nextId := Friendship(requesterId, target, "pending", now, None)]
      && c.table.rows.Keys == t.rows.Keys + {t.nextId}
      && |c.table.rows| == |t.rows| + 1
      && c.table.nextId == t.nextId + 1
  {
    var rows := t.rows[t.nextId := PendingRow(requesterId, target, now)];
    assert t.nextId !in t.rows;
    assert rows.Keys == t.rows.Keys + {t.nextId};
  }

  /** Sending keeps the ids below the counter and never gives a pair of users
      a second row. */
  lemma SendKeepsOnePerPair(t: Table, accounts: seq<Account>, requesterId: int, toUsername: string, now: string)
    requires ValidTable(t) && OnePerPair(t)
    ensures ValidTable(Send(t, accounts, requesterId, toUsername, now).table)
    ensures OnePerPair(Send(t, accounts, requesterId, toUsername, now).table)
  {
    SendToKeepsOnePerPair(t, requesterId, FindUserIdByUsername(accounts, toUsername), now);
  }

  lemma SendToKeepsOnePerPair(t: Table, requesterId: int, target: Option<int>, now: string)
    requires ValidTable(t) && OnePerPair(t)
    ensures ValidTable(SendTo(t, requesterId, target, now).table)
    ensures OnePerPair(SendTo(t, requesterId, target, now).table)
  {
    if target.Some? && target.value != requesterId {
      var existing := FindExistingFriendship(t, requesterId, target.value);
      var row := PendingRow(requesterId, target.value, now);
      if existing.None? {
        NewRowSingle(t, row, requesterId, target.value);
      } else if t.rows[existing.value].status !in {"accepted", "pending"} {
        ReusedRowSingle(t, existing.value, row, requesterId, target.value);
      }
    }
  }

  /** Adding a row for a pair no row links keeps one row per pair. */
  lemma NewRowSingle(t: Table, row: Friendship, a: int, b: int)
    requires ValidTable(t) && OnePerPair(t)
    requires row.requester == a && row.addressee == b
    requires forall id :: id in t.rows ==> !Links(t.rows[id], a, b)
    ensures OnePerPair(Table(t.rows[t.nextId := row], t.nextId + 1))
  {
    var rows := t.rows[t.nextId := row];
    forall i, j | i in rows && j in rows && i != j
      ensures !Links(rows[j], rows[i].requester, rows[i].addressee)
    {
      if i == t.nextId {
        assert !Links(t.rows[j], a, b);
      } else if j == t.nextId {
        assert !Links(t.rows[i], a, b);
      }
    }
  }

  /** Replacing a row by one for the same pair keeps one row per pair. */
  lemma ReusedRowSingle(t: Table, id: nat, row: Friendship, a: int, b: int)
    requires ValidTable(t) && OnePerPair(t)
    requires id in t.rows && Links(t.rows[id], a, b)
    requires row.requester == a && row.addressee == b
    ensures OnePerPair(Table(t.rows[id := row], t.nextId))
  {
    var rows := t.rows[id := row];
    forall i, j | i in rows && j in rows && i != j
      ensures !Links(rows[j], rows[i].requester, rows[i].addressee)
    {
      if i == id {
        assert !Links(t.rows[j], t.rows[id].requester, t.rows[id].addressee);
      } else if j == id {
        assert !Links(t.rows[id], t.rows[i].requester, t.rows[i].addressee);
      }
    }
  }

  // ---------------------------------------------------------------------
  // respondToFriendRequest

  /** The checks run in order (missing row, wrong addressee, not pending) and
      each leaves the table unchanged. */
  lemma RespondRefusals(t: Table, friendshipId: int, userId: int, response: string, now: string)
    ensures var c := Respond(t, friendshipId, userId, response, now);
      && (friendshipId !in t.rows ==> c == Change(t, Notice(Error, NotFound)))
      && (friendshipId in t.rows && t.rows[friendshipId].addressee != userId ==>
            c == Change(t, Notice(Error, NotAuthorized)))
      && ((friendshipId in t.rows && t.rows[friendshipId].addressee == userId
           && t.rows[friendshipId].status != "pending") ==> c == Change(t, Notice(Info, AlreadyHandled)))
  {
  }

  /** A pending request addressed to the caller is accepted on "accept" and
      declined on any other answer; either way its response time is set and
      nothing else in the table changes. */
  lemma RespondDecides(t: Table, friendshipId: int, userId: int, response: string, now: string)
    requires friendshipId in t.rows
    requires t.rows[friendshipId].addressee == userId && t.rows[friendshipId].status == "pending"
    ensures var f := t.rows[friendshipId];
      var c := Respond(t, friendshipId, userId, response, now);
      var status := if response == "accept" then "accepted" else "declined";
      && c.table == Table(t.rows[friendshipId := Friendship(f.requester, f.addressee, status, f.createdAt, Some(now))],
                          t.nextId)
      && c.notice == (if response == "accept" then Notice(Success, Accepted) else Notice(Info, Declined))
  {
  }

  /** Responding keeps the ids below the counter and one row per pair. */
  lemma RespondKeepsOnePerPair(t: Table, friendshipId: int, userId: int, response: string, now: string)
    requires ValidTable(t) && OnePerPair(t)
    ensures ValidTable(Respond(t, friendshipId, userId, response, now).table)
    ensures OnePerPair(Respond(t, friendshipId, userId, response, now).table)
  {
    var c := Respond(t, friendshipId, userId, response, now);
    if c.table != t {
      SamePairRowSingle(t, friendshipId as nat, c.table.rows[friendshipId]);
    }
  }

  /** Replacing a row by one with the same two parties keeps one row per pair. */
  lemma SamePairRowSingle(t: Table, id: nat, row: Friendship)
    requires ValidTable(t) && OnePerPair(t)
    requires id in t.rows && row.requester == t.rows[id].requester && row.addressee == t.rows[id].addressee
    ensures OnePerPair(Table(t.rows[id := row], t.nextId))
  {
    ReusedRowSingle(t, id, row, row.requester, row.addressee);
  }

  // ---------------------------------------------------------------------
  // The changes as the listing queries see them

  /** A request that was sent, new or reused, is incoming for the target and
      outgoing for the requester. */
  lemma SentRequestListed(t: Table, accounts: seq<Account>, requesterId: int, toUsername: string, now: string)
    returns (id: nat)
    requires ValidTable(t) && HasAccount(accounts, requesterId)
    requires Send(t, accounts, requesterId, toUsername, now).notice.kind == Success
    ensures var target := FindUserIdByUsername(accounts, toUsername);
      var u := Send(t, accounts, requesterId, toUsername, now).table;
      && target.Some?
      && id in Incoming(u, accounts, target.value)
      && id in Outgoing(u, accounts, requesterId)
  {
    var target := FindUserIdByUsername(accounts, toUsername).value;
    FoundHasAccount(accounts, toUsername);
    var existing := FindExistingFriendship(t, requesterId, target);
    var row := PendingRow(requesterId, target, now);
    if existing.Some? {
      SendReusesRow(t, accounts, requesterId, toUsername, now);
      id := existing.value;
      PendingRowListed(t.rows[id := row], accounts, id, requesterId, target, now);
    } else {
      SendAddsRow(t, accounts, requesterId, toUsername, now);
      id := t.nextId;
      PendingRowListed(t.rows[id := row], accounts, id, requesterId, target, now);
    }
  }

  /** A user that findUserIdByUsername finds has an account. */
  lemma FoundHasAccount(accounts: seq<Account>, username: string)
    requires FindUserIdByUsername(accounts, username).Some?
    ensures HasAccount(accounts, FindUserIdByUsername(accounts, username).value)
  {
  }

  lemma PendingRowListed(rows: map<nat, Friendship>, accounts: seq<Account>, id: nat, a: int, b: int, now: string)
    requires id in rows && rows[id] == PendingRow(a, b, now)
    requires HasAccount(accounts, a) && HasAccount(accounts, b)
    ensures forall n :: id in Incoming(Table(rows, n), accounts, b) && id in Outgoing(Table(rows, n), accounts, a)
  {
  }

  /** Accepting moves the request out of the caller's incoming list and makes
      each party the other's friend. */
  lemma AcceptMakesFriends(t: Table, accounts: seq<Account>, friendshipId: int, userId: int, now: string)
    requires friendshipId in t.rows
    requires t.rows[friendshipId].addressee == userId && t.rows[friendshipId].status == "pending"
    requires HasAccount(accounts, userId) && HasAccount(accounts, t.rows[friendshipId].requester)
    ensures var u := Respond(t, friendshipId, userId, "accept", now).table;
      var requester := t.rows[friendshipId].requester;
      && friendshipId as nat !in Incoming(u, accounts, userId)
      && (friendshipId as nat, requester) in AcceptedFriends(u, accounts, userId)
      && (friendshipId as nat, userId) in AcceptedFriends(u, accounts, requester)
  {
    var u := Respond(t, friendshipId, userId, "accept", now).table;
    var g := u.rows[friendshipId];
    assert g.status == "accepted" && g.requester == t.rows[friendshipId].requester && g.addressee == userId;
    assert Other(g, userId) == g.requester;
    assert Other(g, g.requester) == userId;
  }

  /** Declining takes the request off both pending lists without making
      friends. */
  lemma DeclineEndsRequest(t: Table, accounts: seq<Account>, friendshipId: int, userId: int,
                           response: string, now: string)
    requires friendshipId in t.rows && response != "accept"
    requires t.rows[friendshipId].addressee == userId && t.rows[friendshipId].status == "pending"
    ensures var u := Respond(t, friendshipId, userId, response, now).table;
      var requester := t.rows[friendshipId].requester;
      && friendshipId as nat !in Incoming(u, accounts, userId)
      && friendshipId as nat !in Outgoing(u, accounts, requester)
      && (forall w, x :: x in AcceptedFriends(u, accounts, w) ==> x.0 != friendshipId)
  {
    var u := Respond(t, friendshipId, userId, response, now).table;
    assert u.rows[friendshipId].status == "declined";
  }
}
