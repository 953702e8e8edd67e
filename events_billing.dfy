/**
 * The earlier, synchronous billing service: accounts with a balance,
 * top-ups, and payments of a requested amount answered directly over
 * HTTP. Money is in cents in a `NUMERIC(13,2)` column. Each handler is
 * one atomic step; every publish is an append to the ghost `outbox`.
 */
module EventsBilling {
  import opened Wrappers
  import opened Postgres

  /** The largest value of a `NUMERIC(13,2)` column, in cents. */
  const NUMERIC_MAX: int := 9_999_999_999_999
  const INSUFFICIENT_FUNDS: string := "Insufficient funds."

  /** The messages the service publishes, with the amount in cents. */
  datatype PaymentEvent =
    | PaymentSucceeded(userId: int, amount: int)
    | PaymentCanceled(userId: int, amount: int)

  /** A value the `NUMERIC(13,2)` balance column accepts. */
  predicate Fits(balance: int) {
    -NUMERIC_MAX <= balance <= NUMERIC_MAX
  }

  /** How `create_payment` ends. */
  datatype PaymentOutcome =
    | PaymentInvalid           // 400 with the schema's messages
    | PaymentOutOfRange        // the driver refuses a user id beyond INTEGER
    | PaymentCrashed           // no account: `row["balance"]` on `None` raises
    | PaymentRefused           // 400 {"error": "Insufficient funds."}
    | PaymentOverflow          // the new balance does not fit the column
    | PaymentDone(balance: int)

  /** The response status of a payment; an uncaught exception is a 500. */
  function PaymentStatus(o: PaymentOutcome): (code: int)
    ensures code == 201 <==> o.PaymentDone?
    ensures code == 400 <==> o.PaymentInvalid? || o.PaymentRefused?
  {
    match o
    case PaymentInvalid => 400
    case PaymentOutOfRange => 500
    case PaymentCrashed => 500
    case PaymentRefused => 400
    case PaymentOverflow => 500
    case PaymentDone(_) => 201
  }

  /**
   * `create_payment` on the account table: after the body is validated, a
   * user id beyond `INTEGER` fails in the driver; otherwise the amount is
   * taken unless the balance is smaller.
   */
  function Payment(accounts: map<int, int>, userId: int, amount: Option<int>): (r: PaymentOutcome)
    ensures r == PaymentInvalid <==> amount.None?
    ensures r == PaymentOutOfRange <==> amount.Some? && !IsInt32(userId)
    ensures r == PaymentCrashed <==> amount.Some? && IsInt32(userId) && userId !in accounts
    ensures r == PaymentRefused <==> amount.Some? && IsInt32(userId) && userId in accounts && accounts[userId] < amount.value
    ensures r.PaymentDone? ==>
      && amount.Some? && IsInt32(userId) && userId in accounts && accounts[userId] >= amount.value
      && r.balance == accounts[userId] - amount.value
  {
    if amount.None? then PaymentInvalid
    else if !IsInt32(userId) then PaymentOutOfRange
    else if userId !in accounts then PaymentCrashed
    else if accounts[userId] < amount.value then PaymentRefused
    else if !Fits(accounts[userId] - amount.value) then PaymentOverflow
    else PaymentDone(accounts[userId] - amount.value)
  }

  /** A payment of a non-negative amount always succeeds when the balance covers it, and leaves it non-negative. */
  lemma PaymentKeepsNonNegative(accounts: map<int, int>, userId: int, amount: int)
    requires IsInt32(userId) && userId in accounts && 0 <= amount <= accounts[userId] && Fits(accounts[userId])
    ensures Payment(accounts, userId, Some(amount)).PaymentDone?
    ensures 0 <= Payment(accounts, userId, Some(amount)).balance <= accounts[userId]
  {
  }

  /** How `add_funds` ends. */
  datatype TopUpOutcome =
    | TopUpInvalid
    | TopUpOutOfRange
    | TopUpNoAccount
    | TopUpOverflow
    | TopUpDone(balance: int)

  /**
   * `add_funds`: `UPDATE ... SET balance = balance + $1 ... RETURNING *`,
   * or 404 when no row matches; a user id beyond `INTEGER` fails in the
   * driver once the body is validated.
   */
  function TopUp(accounts: map<int, int>, userId: int, amount: Option<int>): (r: TopUpOutcome)
    ensures r == TopUpInvalid <==> amount.None?
    ensures r == TopUpOutOfRange <==> amount.Some? && !IsInt32(userId)
    ensures r == TopUpNoAccount <==> amount.Some? && IsInt32(userId) && userId !in accounts
    ensures r.TopUpDone? ==> amount.Some? && userId in accounts && r.balance == accounts[userId] + amount.value
    ensures r.TopUpDone? <==> amount.Some? && IsInt32(userId) && userId in accounts && Fits(accounts[userId] + amount.value)
  {
    if amount.None? then TopUpInvalid
    else if !IsInt32(userId) then TopUpOutOfRange
    else if userId !in accounts then TopUpNoAccount
    else if !Fits(accounts[userId] + amount.value) then TopUpOverflow
    else TopUpDone(accounts[userId] + amount.value)
  }

  class BillingService {
    var accounts: map<int, int>
    ghost var outbox: seq<PaymentEvent>

    predicate Valid()
      reads this
    {
      forall u :: u in accounts ==> IsInt32(u) && Fits(accounts[u])
    }

    constructor ()
      ensures Valid() && accounts == map[] && outbox == []
    {
      accounts := map[];
      outbox := [];
    }

    /**
     * `create_account`, consuming `user.created`: a zero balance; a second
     * account for a user, or a user id beyond `INTEGER`, is refused.
     */
    method CreateAccount(userId: Option<int>) returns (created: bool)
      requires Valid()
      modifies this
      ensures Valid() && outbox == old(outbox)
      ensures created <==> userId.Some? && IsInt32(userId.value) && userId.value !in old(accounts)
      ensures created ==> accounts == old(accounts)[userId.value := 0]
      ensures !created ==> accounts == old(accounts)
    {
      if userId.None? || !IsInt32(userId.value) || userId.value in accounts {
        return false;
      }
      accounts := accounts[userId.value := 0];
      created := true;
    }

    /** `add_funds`: the new balance, or 400/404 (or 500 on overflow or an out-of-range user id) with nothing changed. */
    method AddFunds(userId: int, amount: Option<int>) returns (outcome: TopUpOutcome)
      requires Valid()
      modifies this
      ensures Valid() && outbox == old(outbox)
      ensures outcome == TopUp(old(accounts), userId, amount)
      ensures outcome.TopUpDone? ==> accounts == old(accounts)[userId := outcome.balance]
      ensures !outcome.TopUpDone? ==> accounts == old(accounts)
    {
      outcome := TopUp(accounts, userId, amount);
      if outcome.TopUpDone? {
        accounts := accounts[userId := outcome.balance];
      }
    }

    /**
     * `create_payment`: a refused payment publishes `payment.canceled` and
     * changes nothing; a successful one debits the amount and publishes
     * `payment.succeeded`.
     */
    method CreatePayment(userId: int, amount: Option<int>) returns (outcome: PaymentOutcome)
      requires Valid()
      modifies this
      ensures Valid()
      ensures outcome == Payment(old(accounts), userId, amount)
      ensures outcome.PaymentDone? ==>
        && accounts == old(accounts)[userId := outcome.balance]
        && outbox == old(outbox) + [PaymentSucceeded(userId, amount.value)]
      ensures outcome == PaymentRefused ==>
        accounts == old(accounts) && outbox == old(outbox) + [PaymentCanceled(userId, amount.value)]
      ensures !outcome.PaymentDone? && outcome != PaymentRefused ==> accounts == old(accounts) && outbox == old(outbox)
    {
      outcome := Payment(accounts, userId, amount);
      match outcome
      case PaymentRefused =>
        outbox := outbox + [PaymentCanceled(userId, amount.value)];
      case PaymentDone(balance) =>
        accounts := accounts[userId := balance];
        outbox := outbox + [PaymentSucceeded(userId, amount.value)];
      case _ =>
    }

    /** `get_balance`: the balance, or 404; 500 for a user id the driver refuses. */
    method GetBalance(userId: int) returns (status: int, balance: Option<int>)
      ensures status == 500 <==> !IsInt32(userId)
      ensures status == 404 <==> IsInt32(userId) && userId !in accounts
      ensures balance.Some? <==> status == 200
      ensures balance.Some? ==> userId in accounts && balance.value == accounts[userId]
      ensures status in {200, 404, 500}
    {
      if !IsInt32(userId) {
        return 500, None;
      }
      if userId in accounts {
        status, balance := 200, Some(accounts[userId]);
      } else {
        status, balance := 404, None;
      }
    }
  }
}
