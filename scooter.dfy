/**
 * The scooter management service: the scooter table, the rent table with
 * its two partial unique indexes, and the handlers that insert and update
 * rents. Each handler is one atomic step; every publish to the broker is
 * an append to the ghost `outbox`.
 */
module ScooterRent {
  import opened Wrappers
  import opened Postgres

  /** The `status` column of a rent. */
  datatype RentStatus = Pending | Active | Canceled | Finished

  /** The rows the partial unique indexes cover: `status IN ('PENDING', 'ACTIVE')`. */
  predicate IsOpen(s: RentStatus) {
    s == Pending || s == Active
  }

  /** A row of `scooter.scooter`. The charge is kept as a number to order by; coordinates are left out. */
  datatype Scooter = Scooter(id: string, charge: real)

  /** A row of `scooter.rent`. */
  datatype Rent = Rent(id: nat, scooterId: string, userId: int, status: RentStatus)

  /** The `rent.pending` message. */
  datatype RentPending = RentPending(userId: int, scooterId: string, idempotencyKey: string)

  // ---------------------------------------------------------------------
  // Table constraints

  /** Index `user_idx`: no two open rents of one user. */
  predicate OnePerUser(rents: seq<Rent>) {
    forall i, j :: 0 <= i < |rents| && 0 <= j < |rents| && i != j && IsOpen(rents[i].status) && IsOpen(rents[j].status)
      ==> rents[i].userId != rents[j].userId
  }

  /** Index `scooter_idx`: no two open rents of one scooter. */
  predicate OnePerScooter(rents: seq<Rent>) {
    forall i, j :: 0 <= i < |rents| && 0 <= j < |rents| && i != j && IsOpen(rents[i].status) && IsOpen(rents[j].status)
      ==> rents[i].scooterId != rents[j].scooterId
  }

  /** Both partial unique indexes hold. */
  predicate Exclusive(rents: seq<Rent>) {
    OnePerUser(rents) && OnePerScooter(rents)
  }

  predicate HasOpenRentOfUser(rents: seq<Rent>, userId: int) {
    exists i :: 0 <= i < |rents| && rents[i].userId == userId && IsOpen(rents[i].status)
  }

  predicate HasOpenRentOfScooter(rents: seq<Rent>, scooterId: string) {
    exists i :: 0 <= i < |rents| && rents[i].scooterId == scooterId && IsOpen(rents[i].status)
  }

  /** The `REFERENCES scooter.scooter (id)` target exists. */
  predicate ScooterKnown(scooters: seq<Scooter>, id: string) {
    exists k :: 0 <= k < |scooters| && scooters[k].id == id
  }

  /** `SERIAL` ids: increasing in insertion order and below the next value of the sequence. */
  predicate SerialIds(rents: seq<Rent>, nextId: nat) {
    && (forall i, j :: 0 <= i < j < |rents| ==> rents[i].id < rents[j].id)
    && (forall i :: 0 <= i < |rents| ==> rents[i].id < nextId)
  }

  /** Adding a new pending rent for a user and a scooter that have no open rent keeps both indexes. */
  lemma InsertKeepsExclusive(rents: seq<Rent>, rent: Rent)
    requires Exclusive(rents)
    requires !HasOpenRentOfUser(rents, rent.userId) && !HasOpenRentOfScooter(rents, rent.scooterId)
    ensures Exclusive(rents + [rent])
  {
    var after := rents + [rent];
    forall i, j | 0 <= i < |after| && 0 <= j < |after| && i != j && IsOpen(after[i].status) && IsOpen(after[j].status)
      ensures after[i].userId != after[j].userId && after[i].scooterId != after[j].scooterId
    {
      if i == |rents| {
        assert after[j] == rents[j];
      } else if j == |rents| {
        assert after[i] == rents[i];
      }
    }
  }

  // ---------------------------------------------------------------------
  // Status updates

  /** The `WHERE user_id = $1 [AND scooter_id = $2] AND status = from` of an update. */
  predicate Matches(rent: Rent, userId: int, scooterId: Option<string>, from: RentStatus) {
    rent.userId == userId && (scooterId.None? || rent.scooterId == scooterId.value) && rent.status == from
  }

  /** `UPDATE scooter.rent SET status = to WHERE ...`: every matching row gets the new status. */
  function UpdateStatus(rents: seq<Rent>, userId: int, scooterId: Option<string>, from: RentStatus, to: RentStatus): (r: seq<Rent>)
    ensures |r| == |rents|
  {
    seq(|rents|, i requires 0 <= i < |rents| => if Matches(rents[i], userId, scooterId, from) then rents[i].(status := to) else rents[i])
  }

  /**
   * `activate_rent`: the user's pending rent of that scooter becomes
   * active. Afterwards no such pending rent is left, every row has moved
   * along the lifecycle, and the indexes still hold.
   */
  function AfterActivate(rents: seq<Rent>, userId: int, scooterId: string): (r: seq<Rent>)
    ensures forall i :: 0 <= i < |r| ==> !Matches(r[i], userId, Some(scooterId), Pending)
    ensures Evolves(rents, r) && |r| == |rents|
    ensures Exclusive(rents) ==> Exclusive(r)
  {
    UpdateStatusEvolves(rents, userId, Some(scooterId), Pending, Active);
    UpdateStatusKeepsExclusiveIf(rents, userId, Some(scooterId), Pending, Active);
    UpdateStatus(rents, userId, Some(scooterId), Pending, Active)
  }

  /** `cancel_rent`: the user's pending rent of that scooter is canceled, with the same guarantees. */
  function AfterCancel(rents: seq<Rent>, userId: int, scooterId: string): (r: seq<Rent>)
    ensures forall i :: 0 <= i < |r| ==> !Matches(r[i], userId, Some(scooterId), Pending)
    ensures Evolves(rents, r) && |r| == |rents|
    ensures Exclusive(rents) ==> Exclusive(r)
  {
    UpdateStatusEvolves(rents, userId, Some(scooterId), Pending, Canceled);
    UpdateStatusKeepsExclusiveIf(rents, userId, Some(scooterId), Pending, Canceled);
    UpdateStatus(rents, userId, Some(scooterId), Pending, Canceled)
  }

  /** `stop_rent`: the user's active rent is finished; afterwards the user has no active rent. */
  function AfterStop(rents: seq<Rent>, userId: int): (r: seq<Rent>)
    ensures forall i :: 0 <= i < |r| ==> !Matches(r[i], userId, None, Active)
    ensures Evolves(rents, r) && |r| == |rents|
    ensures Exclusive(rents) ==> Exclusive(r)
  {
    UpdateStatusEvolves(rents, userId, None, Active, Finished);
    UpdateStatusKeepsExclusiveIf(rents, userId, None, Active, Finished);
    UpdateStatus(rents, userId, None, Active, Finished)
  }

  /** Only rows matching the `WHERE` clause change, and only in their status. */
  lemma UpdateStatusRows(rents: seq<Rent>, userId: int, scooterId: Option<string>, from: RentStatus, to: RentStatus, i: int)
    requires 0 <= i < |rents|
    ensures var r := UpdateStatus(rents, userId, scooterId, from, to);
      && (Matches(rents[i], userId, scooterId, from) ==> r[i] == rents[i].(status := to))
      && (!Matches(rents[i], userId, scooterId, from) ==> r[i] == rents[i])
  {
  }

  /** Applying an update a second time changes nothing: redelivered messages are harmless. */
  lemma UpdateStatusIdempotent(rents: seq<Rent>, userId: int, scooterId: Option<string>, from: RentStatus, to: RentStatus)
    requires from != to
    ensures UpdateStatus(UpdateStatus(rents, userId, scooterId, from, to), userId, scooterId, from, to)
         == UpdateStatus(rents, userId, scooterId, from, to)
  {
    var once := UpdateStatus(rents, userId, scooterId, from, to);
    var twice := UpdateStatus(once, userId, scooterId, from, to);
    forall i | 0 <= i < |rents| ensures twice[i] == once[i] {
      assert !Matches(once[i], userId, scooterId, from);
    }
  }

  /** The same, for callers that do not yet know the indexes hold. */
  lemma UpdateStatusKeepsExclusiveIf(rents: seq<Rent>, userId: int, scooterId: Option<string>, from: RentStatus, to: RentStatus)
    requires IsOpen(to) ==> IsOpen(from)
    ensures Exclusive(rents) ==> Exclusive(UpdateStatus(rents, userId, scooterId, from, to))
  {
    if Exclusive(rents) {
      UpdateStatusKeepsExclusive(rents, userId, scooterId, from, to);
    }
  }

  /** An update whose target is open only when its source is open keeps both indexes. */
  lemma UpdateStatusKeepsExclusive(rents: seq<Rent>, userId: int, scooterId: Option<string>, from: RentStatus, to: RentStatus)
    requires Exclusive(rents)
    requires IsOpen(to) ==> IsOpen(from)
    ensures Exclusive(UpdateStatus(rents, userId, scooterId, from, to))
  {
    var r := UpdateStatus(rents, userId, scooterId, from, to);
    forall i, j | 0 <= i < |r| && 0 <= j < |r| && i != j && IsOpen(r[i].status) && IsOpen(r[j].status)
      ensures r[i].userId != r[j].userId && r[i].scooterId != r[j].scooterId
    {
      assert IsOpen(rents[i].status) && IsOpen(rents[j].status);
    }
  }

  /** The status changes of the rent lifecycle: PENDING to ACTIVE or CANCELED, ACTIVE to FINISHED. */
  predicate AllowedStep(before: RentStatus, after: RentStatus) {
    || before == after
    || (before == Pending && (after == Active || after == Canceled))
    || (before == Active && after == Finished)
  }

  /** Every existing row keeps its id, scooter and user and moves only along the lifecycle. */
  predicate Evolves(before: seq<Rent>, after: seq<Rent>) {
    && |before| <= |after|
    && forall i :: 0 <= i < |before| ==>
      && after[i].id == before[i].id
      && after[i].scooterId == before[i].scooterId
      && after[i].userId == before[i].userId
      && AllowedStep(before[i].status, after[i].status)
  }

  lemma UpdateStatusEvolves(rents: seq<Rent>, userId: int, scooterId: Option<string>, from: RentStatus, to: RentStatus)
    requires AllowedStep(from, to)
    ensures Evolves(rents, UpdateStatus(rents, userId, scooterId, from, to))
  {
  }

  /** No transition moves a rent out of CANCELED or FINISHED. */
  lemma ClosedRentsStay(before: seq<Rent>, after: seq<Rent>, i: int)
    requires Evolves(before, after)
    requires 0 <= i < |before| && (before[i].status == Canceled || before[i].status == Finished)
    ensures after[i] == before[i]
  {
  }

  // ---------------------------------------------------------------------
  // Queries

  /** The scooters not named by any open rent (`id NOT IN (... status IN ('PENDING', 'ACTIVE'))`). */
  function FreeScooters(scooters: seq<Scooter>, rents: seq<Rent>): (r: seq<Scooter>)
    ensures forall x :: x in r <==> x in scooters && !HasOpenRentOfScooter(rents, x.id)
    ensures multiset(r) <= multiset(scooters)
  {
    if scooters == [] then []
    else
      var rest := FreeScooters(scooters[1..], rents);
      assert scooters == [scooters[0]] + scooters[1..];
      if HasOpenRentOfScooter(rents, scooters[0].id) then rest else [scooters[0]] + rest
  }

  predicate ChargeDescending(s: seq<Scooter>) {
    forall i, j :: 0 <= i < j < |s| ==> s[i].charge >= s[j].charge
  }

  /** A scooter charged at least as much as the head of an ordered list can go in front of it. */
  lemma PrependDescending(y: Scooter, rest: seq<Scooter>)
    requires ChargeDescending(rest) && (rest == [] || rest[0].charge <= y.charge)
    ensures ChargeDescending([y] + rest)
  {
    var r := [y] + rest;
    forall i, j | 0 <= i < j < |r| ensures r[i].charge >= r[j].charge {
      assert r[j] == rest[j - 1];
      if i > 0 {
        assert r[i] == rest[i - 1];
      } else if j > 1 {
        assert rest[0].charge >= rest[j - 1].charge;
      }
    }
  }

  /** The tail of an ordered list is ordered and headed by a scooter charged no more than the first. */
  lemma DescendingTail(s: seq<Scooter>)
    requires s != [] && ChargeDescending(s)
    ensures ChargeDescending(s[1..])
    ensures |s| > 1 ==> s[1..][0].charge <= s[0].charge
  {
    var t := s[1..];
    forall i, j | 0 <= i < j < |t| ensures t[i].charge >= t[j].charge {
      assert t[i] == s[i + 1] && t[j] == s[j + 1];
    }
  }

  /** Places a scooter into a list ordered by charge, highest first. */
  function InsertByCharge(x: Scooter, s: seq<Scooter>): (r: seq<Scooter>)
    requires ChargeDescending(s)
    ensures ChargeDescending(r) && multiset(r) == multiset(s) + multiset{x}
    ensures |r| == |s| + 1 && (r[0] == x || (s != [] && r[0] == s[0]))
  {
    if s == [] || s[0].charge <= x.charge then
      PrependDescending(x, s);
      assert multiset([x] + s) == multiset{x} + multiset(s);
      [x] + s
    else
      DescendingTail(s);
      var rest := InsertByCharge(x, s[1..]);
      InsertBehindHead(x, s, rest);
      [s[0]] + rest
  }

  /** The step of `InsertByCharge` that keeps the head of the list in front. */
  lemma InsertBehindHead(x: Scooter, s: seq<Scooter>, rest: seq<Scooter>)
    requires s != [] && s[0].charge > x.charge && ChargeDescending(s[1..])
    requires |s| > 1 ==> s[1..][0].charge <= s[0].charge
    requires ChargeDescending(rest) && multiset(rest) == multiset(s[1..]) + multiset{x}
    requires |rest| == |s[1..]| + 1 && (rest[0] == x || (s[1..] != [] && rest[0] == s[1..][0]))
    ensures ChargeDescending([s[0]] + rest)
    ensures multiset([s[0]] + rest) == multiset(s) + multiset{x}
  {
    PrependDescending(s[0], rest);
    assert s == [s[0]] + s[1..];
  }

  /** `ORDER BY charge DESC`. */
  function SortByCharge(s: seq<Scooter>): (r: seq<Scooter>)
    ensures ChargeDescending(r) && multiset(r) == multiset(s)
  {
    if s == [] then []
    else
      assert s == [s[0]] + s[1..];
      InsertByCharge(s[0], SortByCharge(s[1..]))
  }

  /** `get_scooters`: the free scooters, highest charge first. */
  function AvailableScooters(scooters: seq<Scooter>, rents: seq<Rent>): (r: seq<Scooter>)
    ensures ChargeDescending(r)
    ensures multiset(r) == multiset(FreeScooters(scooters, rents))
  {
    SortByCharge(FreeScooters(scooters, rents))
  }

  /** Exactly the scooters with no pending or active rent are listed. */
  lemma AvailableScootersMembers(scooters: seq<Scooter>, rents: seq<Rent>, x: Scooter)
    ensures x in AvailableScooters(scooters, rents) <==> x in scooters && !HasOpenRentOfScooter(rents, x.id)
  {
    var free := FreeScooters(scooters, rents);
    assert x in AvailableScooters(scooters, rents) <==> x in multiset(free);
  }

  /** `get_rent_info`: the user's rent with the largest id (`ORDER BY id DESC LIMIT 1`). */
  function LatestRent(rents: seq<Rent>, userId: int): (r: Option<Rent>)
    ensures r.Some? <==> exists i :: 0 <= i < |rents| && rents[i].userId == userId
    ensures r.Some? ==> r.value in rents && r.value.userId == userId
    ensures r.Some? ==> forall i :: 0 <= i < |rents| && rents[i].userId == userId ==> rents[i].id <= r.value.id
  {
    if rents == [] then None
    else
      var rest := LatestRent(rents[1..], userId);
      assert forall i :: 1 <= i < |rents| ==> rents[i] == rents[1..][i - 1];
      if rents[0].userId != userId then rest
      else if rest.Some? && rest.value.id > rents[0].id then rest
      else Some(rents[0])
  }

  /**
   * The scooter id the insert runs with: the canonical UUID text of a body
   * the schema takes, or `None` when the driver refuses an argument (a text
   * that is no UUID, or a user id beyond `INTEGER`).
   */
  function InsertArgument(scooterText: Option<string>, userId: int, uuidOf: string -> Option<string>): (sid: Option<string>)
    ensures sid.Some? <==> scooterText.Some? && IsInt32(userId) && uuidOf(scooterText.value).Some?
    ensures sid.Some? ==> sid == uuidOf(scooterText.value)
  {
    if scooterText.None? || !IsInt32(userId) then None else uuidOf(scooterText.value)
  }

  // ---------------------------------------------------------------------
  // The service

  class RentService {
    /** The scooter table; no handler changes it. */
    const scooters: seq<Scooter>
    var rents: seq<Rent>
    /** The next value of the rent id sequence. */
    var nextId: nat
    ghost var outbox: seq<RentPending>

    predicate Valid()
      reads this
    {
      && Exclusive(rents)
      && SerialIds(rents, nextId)
      && (forall i :: 0 <= i < |rents| ==> ScooterKnown(scooters, rents[i].scooterId))
    }

    constructor (scooters: seq<Scooter>)
      ensures Valid()
      ensures this.scooters == scooters && rents == [] && nextId == 1 && outbox == []
    {
      this.scooters := scooters;
      rents := [];
      nextId := 1;
      outbox := [];
    }

    /**
     * `start_rent`. `scooterText` is the `scooter_id` of the body, `None`
     * standing for a body the schema refuses (no `scooter_id`, or one that
     * is no string), which gives 400; the schema takes any string.
     * `uuidOf` stands for the UUID codec of the database driver: the
     * canonical text of the UUID a string denotes, or `None` when the
     * driver refuses it. A refused scooter id, or a user id outside the
     * `INTEGER` column's range, fails before the insert runs with an error
     * the handler does not catch: 500, and no id is drawn. Otherwise the
     * insert draws an id; an open rent of the user or the scooter violates
     * a unique index (409, checked before the foreign key), an unknown
     * scooter violates the foreign key (404), and a successful insert
     * publishes `rent.pending` with the text as given and returns the new
     * row, which holds the canonical id.
     */
    method StartRent(scooterText: Option<string>, userId: int, idempotencyKey: string, uuidOf: string -> Option<string>)
      returns (status: int, rent: Option<Rent>)
      requires Valid()
      modifies this
      ensures Valid()
      ensures status == 400 <==> scooterText.None?
      ensures status == 500 <==> scooterText.Some? && InsertArgument(scooterText, userId, uuidOf).None?
      ensures InsertArgument(scooterText, userId, uuidOf).None? ==>
        rent.None? && rents == old(rents) && nextId == old(nextId) && outbox == old(outbox)
      ensures InsertArgument(scooterText, userId, uuidOf).Some? ==> nextId == old(nextId) + 1
      ensures var sid := InsertArgument(scooterText, userId, uuidOf);
        status == 409 <==> sid.Some? && (HasOpenRentOfUser(old(rents), userId) || HasOpenRentOfScooter(old(rents), sid.value))
      ensures var sid := InsertArgument(scooterText, userId, uuidOf);
        status == 404 <==>
          && sid.Some?
          && !HasOpenRentOfUser(old(rents), userId) && !HasOpenRentOfScooter(old(rents), sid.value)
          && !ScooterKnown(scooters, sid.value)
      ensures status != 200 ==> rent.None? && rents == old(rents) && outbox == old(outbox)
      ensures var sid := InsertArgument(scooterText, userId, uuidOf);
        status == 200 ==>
          && sid.Some?
          && rent == Some(Rent(old(nextId), sid.value, userId, Pending))
          && rents == old(rents) + [rent.value]
          && outbox == old(outbox) + [RentPending(userId, scooterText.value, idempotencyKey)]
      ensures status in {200, 400, 404, 409, 500}
    {
      if scooterText.None? {
        return 400, None;
      }
      var arg := InsertArgument(scooterText, userId, uuidOf);
      if arg.None? {
        return 500, None;
      }
      var sid := arg.value;
      var id := nextId;
      nextId := nextId + 1;
      if HasOpenRentOfUser(rents, userId) || HasOpenRentOfScooter(rents, sid) {
        return 409, None;
      }
      if !ScooterKnown(scooters, sid) {
        return 404, None;
      }
      var row := Rent(id, sid, userId, Pending);
      InsertKeepsExclusive(rents, row);
      rents := rents + [row];
      outbox := outbox + [RentPending(userId, scooterText.value, idempotencyKey)];
      status, rent := 200, Some(row);
    }

    /**
     * `stop_rent`: the user's active rent becomes FINISHED and is returned;
     * 404 when there is none. A user id outside `INTEGER` fails in the
     * driver before the update runs: 500 and nothing changes.
     */
    method StopRent(userId: int) returns (status: int, rent: Option<Rent>)
      requires Valid()
      modifies this
      ensures Valid()
      ensures nextId == old(nextId) && outbox == old(outbox)
      ensures status == 500 <==> !IsInt32(userId)
      ensures status == 500 ==> rents == old(rents) && rent.None?
      ensures IsInt32(userId) ==> rents == AfterStop(old(rents), userId)
      ensures status == 404 <==>
        IsInt32(userId) && !exists i :: 0 <= i < |old(rents)| && Matches(old(rents)[i], userId, None, Active)
      ensures status == 404 ==> rents == old(rents) && rent.None?
      ensures status == 200 ==> rent.Some? && rent.value.userId == userId && rent.value.status == Finished
      ensures status == 200 ==> exists i :: 0 <= i < |rents| && rents[i] == rent.value && old(rents)[i] == rent.value.(status := Active)
      ensures status in {200, 404, 500}
    {
      if !IsInt32(userId) {
        return 500, None;
      }
      var before := rents;
      UpdateStatusKeepsExclusive(rents, userId, None, Active, Finished);
      rents := AfterStop(rents, userId);
      var i := 0;
      while i < |before|
        invariant i <= |before|
        invariant forall k :: 0 <= k < i ==> !Matches(before[k], userId, None, Active)
      {
        if Matches(before[i], userId, None, Active) {
          return 200, Some(rents[i]);
        }
        i := i + 1;
      }
      assert rents == before by {
        forall k | 0 <= k < |before| ensures rents[k] == before[k] {
          assert !Matches(before[k], userId, None, Active);
        }
      }
      return 404, None;
    }

    /**
     * `get_rent_info`: the user's latest rent, or 404; 500 for a user id
     * outside `INTEGER`, which the driver refuses before the query runs.
     */
    method GetRentInfo(userId: int) returns (status: int, rent: Option<Rent>)
      ensures !IsInt32(userId) ==> status == 500 && rent.None?
      ensures IsInt32(userId) ==> rent == LatestRent(rents, userId) && status == (if rent.None? then 404 else 200)
    {
      if !IsInt32(userId) {
        return 500, None;
      }
      rent := LatestRent(rents, userId);
      status := if rent.None? then 404 else 200;
    }

    /** `get_scooters`: the scooters a user can rent now, highest charge first. */
    method GetScooters() returns (list: seq<Scooter>)
      ensures list == AvailableScooters(scooters, rents)
    {
      list := AvailableScooters(scooters, rents);
    }

    /**
     * `activate_rent`, consuming `rent.activated`; a user id outside `INTEGER` fails
     * in the driver and the message changes nothing.
     */
    method ActivateRent(userId: int, scooterId: string)
      requires Valid()
      modifies this
      ensures Valid()
      ensures IsInt32(userId) ==> rents == AfterActivate(old(rents), userId, scooterId)
      ensures !IsInt32(userId) ==> rents == old(rents)
      ensures nextId == old(nextId) && outbox == old(outbox)
      ensures Evolves(old(rents), rents)
    {
      if !IsInt32(userId) {
        return;
      }
      UpdateStatusKeepsExclusive(rents, userId, Some(scooterId), Pending, Active);
      UpdateStatusEvolves(rents, userId, Some(scooterId), Pending, Active);
      rents := AfterActivate(rents, userId, scooterId);
    }

    /**
     * `cancel_rent`, consuming `rent.canceled`; a user id outside `INTEGER` fails
     * in the driver and the message changes nothing.
     */
    method CancelRent(userId: int, scooterId: string)
      requires Valid()
      modifies this
      ensures Valid()
      ensures IsInt32(userId) ==> rents == AfterCancel(old(rents), userId, scooterId)
      ensures !IsInt32(userId) ==> rents == old(rents)
      ensures nextId == old(nextId) && outbox == old(outbox)
      ensures Evolves(old(rents), rents)
    {
      if !IsInt32(userId) {
        return;
      }
      UpdateStatusKeepsExclusive(rents, userId, Some(scooterId), Pending, Canceled);
      UpdateStatusEvolves(rents, userId, Some(scooterId), Pending, Canceled);
      rents := AfterCancel(rents, userId, scooterId);
    }
  }

  /** A rent just started and then activated by billing is the user's active rent. */
  lemma StartedThenActivated(rents: seq<Rent>, rent: Rent)
    requires rent.status == Pending
    ensures var after := AfterActivate(rents + [rent], rent.userId, rent.scooterId);
      after[|rents|] == rent.(status := Active)
  {
  }
}
