/**
 * The notification service of the scooter project: a ledger of payment
 * notifications, appended to by a message consumer and read per user.
 * The row holds the columns the handler's `INSERT` names.
 */
module Notifications {
  import opened Wrappers
  import opened PyText
  import opened Postgres

  /** A row of `notification.notification`; `createdAt` is the clock reading given to the handler. */
  datatype Notification = Notification(id: nat, userId: int, createdAt: int, amount: string, status: string)

  /** Failures the consumer does not catch: the message is processed and nothing is stored. */
  datatype Failure =
    | MissingKey(key: string)   // KeyError on the payload
    | IntegerOutOfRange         // the driver refuses a user id beyond INTEGER (DataError)

  /** `sep.join` of a non-empty list ends with its last piece, after a separator when there are several. */
  lemma {:induction false} JoinEndsWithLast(parts: seq<string>, sep: char)
    requires |parts| >= 1
    ensures var s := Join(parts, sep); var last := parts[|parts| - 1];
      && |last| <= |s| && s[|s| - |last|..] == last
      && (|parts| > 1 ==> |last| < |s| && s[|s| - |last| - 1] == sep)
  {
    if |parts| > 1 {
      var tail := parts[1..];
      JoinEndsWithLast(tail, sep);
      assert tail[|tail| - 1] == parts[|parts| - 1];
      var s := Join(parts, sep);
      assert s == parts[0] + [sep] + Join(tail, sep);
      if |tail| == 1 {
        assert Join(tail, sep) == tail[0];
      }
    }
  }

  /** `routing_key.split(".")[-1]`: the part of the routing key after its last dot. */
  function RoutingStatus(routingKey: string): (status: string)
    ensures '.' !in status
    ensures |status| <= |routingKey| && routingKey[|routingKey| - |status|..] == status
    ensures |status| < |routingKey| ==> routingKey[|routingKey| - |status| - 1] == '.'
    ensures '.' !in routingKey ==> status == routingKey
  {
    var parts := Split(routingKey, '.');
    JoinEndsWithLast(parts, '.');
    parts[|parts| - 1]
  }

  /** The status of a `<event>.<status>` key is its second part. */
  lemma RoutingStatusOfPair(event: string, status: string)
    requires '.' !in event && '.' !in status
    ensures RoutingStatus(event + "." + status) == status
  {
    var key := event + "." + status;
    assert Join([event, status], '.') == key;
    SplitJoin([event, status], '.');
  }

  /** `SELECT ... WHERE user_id = $1 ORDER BY id DESC` over a ledger kept in insertion order. */
  function UserNotifications(rows: seq<Notification>, userId: int): (r: seq<Notification>)
    ensures forall n :: n in r <==> n in rows && n.userId == userId
    ensures |r| <= |rows|
  {
    if rows == [] then []
    else
      var last := rows[|rows| - 1];
      var rest := UserNotifications(rows[..|rows| - 1], userId);
      assert rows == rows[..|rows| - 1] + [last];
      if last.userId == userId then [last] + rest else rest
  }

  /** `SERIAL` ids: increasing in insertion order. */
  predicate IncreasingIds(rows: seq<Notification>) {
    forall i, j :: 0 <= i < j < |rows| ==> rows[i].id < rows[j].id
  }

  predicate DecreasingIds(rows: seq<Notification>) {
    forall i, j :: 0 <= i < j < |rows| ==> rows[i].id > rows[j].id
  }

  /** The newest notification comes first: the listed ids strictly decrease. */
  lemma {:induction false} NewestFirst(rows: seq<Notification>, userId: int)
    requires IncreasingIds(rows)
    ensures DecreasingIds(UserNotifications(rows, userId))
  {
    if rows != [] {
      var init := rows[..|rows| - 1];
      var last := rows[|rows| - 1];
      assert IncreasingIds(init);
      NewestFirst(init, userId);
      var rest := UserNotifications(init, userId);
      BelowLast(rows, rest, userId);
      if last.userId == userId {
        PrependDecreasing(last, rest);
      }
    }
  }

  /** Every row listed from all but the last row has a smaller id than the last. */
  lemma BelowLast(rows: seq<Notification>, rest: seq<Notification>, userId: int)
    requires rows != [] && IncreasingIds(rows)
    requires rest == UserNotifications(rows[..|rows| - 1], userId)
    ensures forall n :: n in rest ==> n.id < rows[|rows| - 1].id
  {
    var init := rows[..|rows| - 1];
    forall n | n in rest ensures n.id < rows[|rows| - 1].id {
      var k :| 0 <= k < |init| && init[k] == n;
      assert rows[k] == n;
    }
  }

  lemma PrependDecreasing(first: Notification, rest: seq<Notification>)
    requires DecreasingIds(rest)
    requires forall n :: n in rest ==> n.id < first.id
    ensures DecreasingIds([first] + rest)
  {
    var r := [first] + rest;
    forall i, j | 0 <= i < j < |r| ensures r[i].id > r[j].id {
      assert r[j] == rest[j - 1] && rest[j - 1] in rest;
      if i > 0 {
        assert r[i] == rest[i - 1];
      }
    }
  }

  class NotificationService {
    var rows: seq<Notification>
    /** The next value of the id sequence. */
    var nextId: nat

    predicate Valid()
      reads this
    {
      IncreasingIds(rows) && forall i :: 0 <= i < |rows| ==> rows[i].id < nextId
    }

    constructor ()
      ensures Valid() && rows == [] && nextId == 1
    {
      rows := [];
      nextId := 1;
    }

    /**
     * `create_notification`: reads `user_id` and `amount` from the payload
     * (a missing key raises `KeyError`, naming it) and appends one row
     * whose status is the routing key's last part; a user id beyond
     * `INTEGER` fails in the driver before the insert draws an id. Rows
     * are only appended.
     */
    method CreateNotification(userId: Option<int>, amount: Option<string>, routingKey: string, now: int)
      returns (r: Result<Notification, Failure>)
      requires Valid()
      modifies this
      ensures Valid()
      ensures userId.None? ==> r == Err(MissingKey("user_id"))
      ensures userId.Some? && amount.None? ==> r == Err(MissingKey("amount"))
      ensures userId.Some? && amount.Some? && !IsInt32(userId.value) ==> r == Err(IntegerOutOfRange)
      ensures r.Err? ==> rows == old(rows) && nextId == old(nextId)
      ensures userId.Some? && amount.Some? && IsInt32(userId.value) ==>
        && r == Ok(Notification(old(nextId), userId.value, now, amount.value, RoutingStatus(routingKey)))
        && rows == old(rows) + [r.value]
        && nextId == old(nextId) + 1
    {
      if userId.None? {
        return Err(MissingKey("user_id"));
      }
      if amount.None? {
        return Err(MissingKey("amount"));
      }
      if !IsInt32(userId.value) {
        return Err(IntegerOutOfRange);
      }
      var row := Notification(nextId, userId.value, now, amount.value, RoutingStatus(routingKey));
      rows := rows + [row];
      nextId := nextId + 1;
      r := Ok(row);
    }

    /** `get_notifications`: the user's rows, newest first; 500 for a user id the driver refuses. */
    method GetNotifications(userId: int) returns (status: int, list: seq<Notification>)
      requires Valid()
      ensures status == 500 <==> !IsInt32(userId)
      ensures status != 500 ==> status == 200 && list == UserNotifications(rows, userId)
      ensures status == 500 ==> list == []
      ensures DecreasingIds(list)
    {
      if !IsInt32(userId) {
        return 500, [];
      }
      NewestFirst(rows, userId);
      status, list := 200, UserNotifications(rows, userId);
    }
  }
}
