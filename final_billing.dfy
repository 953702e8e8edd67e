/**
 * The billing service of the scooter project: accounts with a balance and
 * an optimistic-lock `version`, the flat rent payment taken when a rent is
 * pending, and top-ups. Money is in cents: `NUMERIC(13,2)` holds at most
 * 99 999 999 999.99. Each handler is one atomic step; every publish is an
 * append to the ghost `outbox`.
 */
module FinalBilling {
  import opened Wrappers
  import ScooterRent
  import opened Postgres

  /** `RENT_PRICE = Decimal("100.00")`. */
  const RENT_PRICE: int := 10000
  /** The largest value of a `NUMERIC(13,2)` column, in cents. */
  const NUMERIC_MAX: int := 9_999_999_999_999
  /** `validate.Range(min=0, max=1_000_000)` on a top-up amount, in cents. */
  const TOP_UP_MAX: int := 100_000_000
  /** The version a new account starts with (the column default). */
  const INITIAL_VERSION: int := 1

  /** A row of `billing.account`. */
  datatype Account = Account(balance: int, version: int)

  /** The messages the service publishes. */
  datatype BillingEvent =
    | RentActivated(userId: int, scooterId: string)
    | RentCanceled(userId: int, scooterId: string)

  /** Failures a handler does not catch: the exception ends the handler and nothing is stored. */
  datatype Failure =
    | MissingKey(key: string)   // KeyError on the payload or the loaded body
    | UniqueViolation           // a second account for the same user
    | NumericOverflow           // the new balance does not fit NUMERIC(13,2)
    | IntegerOutOfRange         // the driver refuses a user id beyond INTEGER (DataError)

  /** The user id and balance columns fit their types and the lock version has started. */
  predicate Sound(accounts: map<int, Account>) {
    forall u :: u in accounts ==>
      IsInt32(u) && 0 <= accounts[u].balance <= NUMERIC_MAX && accounts[u].version >= INITIAL_VERSION
  }

  // ---------------------------------------------------------------------
  // Rent payment

  /** The JSON payload of a payment request; a key may be missing. */
  datatype PaymentMessage = PaymentMessage(userId: Option<int>, scooterId: Option<string>, version: Option<int>)

  /** How `create_payment` ends. */
  datatype PaymentOutcome =
    | PaymentFailed(failure: Failure)
    | PaymentDeclined(userId: int, scooterId: string)
    | PaymentTaken(userId: int, scooterId: string)

  /**
   * The row `SELECT ... WHERE user_id = $1 AND version = $2` finds holds
   * at least the rent price, so debiting it leaves no negative balance.
   */
  predicate CanPay(accounts: map<int, Account>, userId: int, version: int): (ok: bool)
    ensures ok ==> userId in accounts && Debit(accounts, userId)[userId].balance >= 0
  {
    userId in accounts && accounts[userId].version == version && accounts[userId].balance >= RENT_PRICE
  }

  /** The update of a payment: the price is taken and the version moves on. */
  function Debit(accounts: map<int, Account>, userId: int): (r: map<int, Account>)
    requires userId in accounts
    ensures r.Keys == accounts.Keys
  {
    accounts[userId := Account(accounts[userId].balance - RENT_PRICE, accounts[userId].version + 1)]
  }

  /**
   * `create_payment`: the payload keys are read in the order `user_id`,
   * `scooter_id`, `version`; a user id beyond `INTEGER` then fails in the
   * driver; otherwise the payment is taken when the account exists at that
   * version with enough money, and declined otherwise.
   */
  function Payment(accounts: map<int, Account>, msg: PaymentMessage): (r: PaymentOutcome)
    ensures msg.userId.None? ==> r == PaymentFailed(MissingKey("user_id"))
    ensures msg.userId.Some? && msg.scooterId.None? ==> r == PaymentFailed(MissingKey("scooter_id"))
    ensures msg.userId.Some? && msg.scooterId.Some? && msg.version.None? ==> r == PaymentFailed(MissingKey("version"))
    ensures msg.userId.Some? && msg.scooterId.Some? && msg.version.Some? && !IsInt32(msg.userId.value) ==>
      r == PaymentFailed(IntegerOutOfRange)
    ensures r.PaymentTaken? <==>
      && msg.userId.Some? && msg.scooterId.Some? && msg.version.Some? && IsInt32(msg.userId.value)
      && CanPay(accounts, msg.userId.value, msg.version.value)
    ensures !r.PaymentFailed? ==> r.userId == msg.userId.value && r.scooterId == msg.scooterId.value
  {
    if msg.userId.None? then PaymentFailed(MissingKey("user_id"))
    else if msg.scooterId.None? then PaymentFailed(MissingKey("scooter_id"))
    else if msg.version.None? then PaymentFailed(MissingKey("version"))
    else if !IsInt32(msg.userId.value) then PaymentFailed(IntegerOutOfRange)
    else if CanPay(accounts, msg.userId.value, msg.version.value) then PaymentTaken(msg.userId.value, msg.scooterId.value)
    else PaymentDeclined(msg.userId.value, msg.scooterId.value)
  }

  /** A debit lowers the payer's balance by exactly the rent price, bumps its version and touches no other account. */
  lemma DebitExact(accounts: map<int, Account>, userId: int, other: int)
    requires userId in accounts
    ensures Debit(accounts, userId)[userId].balance == accounts[userId].balance - RENT_PRICE
    ensures Debit(accounts, userId)[userId].version == accounts[userId].version + 1
    ensures other != userId && other in accounts ==> Debit(accounts, userId)[other] == accounts[other]
  {
  }

  /** A payment never makes a balance negative: the debit only follows the balance check. */
  lemma PaymentKeepsSound(accounts: map<int, Account>, userId: int, version: int)
    requires Sound(accounts) && CanPay(accounts, userId, version)
    ensures Sound(Debit(accounts, userId))
  {
  }

  /** Redelivering a message that was paid is declined: the version it names has moved on. */
  lemma ReplayDeclined(accounts: map<int, Account>, msg: PaymentMessage)
    requires Payment(accounts, msg).PaymentTaken?
    ensures Payment(Debit(accounts, msg.userId.value), msg).PaymentDeclined?
  {
  }

  /** The payload of `rent.pending`, as the scooter service publishes it: it carries no version. */
  function PendingPayload(e: ScooterRent.RentPending): PaymentMessage {
    PaymentMessage(Some(e.userId), Some(e.scooterId), None)
  }

  /** So every `rent.pending` message fails on its missing `version` key, whatever the accounts. */
  lemma PendingMessageFails(accounts: map<int, Account>, e: ScooterRent.RentPending)
    ensures Payment(accounts, PendingPayload(e)) == PaymentFailed(MissingKey("version"))
  {
  }

  // ---------------------------------------------------------------------
  // Top-up

  /** The JSON body of `add_funds`: each field may be missing. */
  datatype TopUpBody = TopUpBody(amount: Option<int>, idempotencyKey: Option<string>, version: Option<int>)

  /** How `add_funds` ends. */
  datatype TopUpOutcome =
    | TopUpInvalid             // 400 with the schema's messages
    | TopUpNoAccount           // 404
    | TopUpVersionMismatch     // 412
    | TopUpFailed(failure: Failure)
    | TopUpDone(account: Account)

  /** The response status of a top-up; an uncaught exception is a 500. */
  function TopUpStatus(o: TopUpOutcome): (code: int)
    ensures code in {200, 400, 404, 412, 500}
    ensures code == 200 <==> o.TopUpDone?
  {
    match o
    case TopUpInvalid => 400
    case TopUpNoAccount => 404
    case TopUpVersionMismatch => 412
    case TopUpFailed(_) => 500
    case TopUpDone(_) => 200
  }

  /** `amount` is required and within the range; `idempotency_key` is required. */
  predicate AmountAndKeyValid(body: TopUpBody) {
    body.amount.Some? && 0 <= body.amount.value <= TOP_UP_MAX && body.idempotencyKey.Some?
  }

  /**
   * `add_funds` as written. `AddFundsSchema` declares no `version`, so a
   * body carrying one is refused as an unknown field, and the loaded body
   * of any other has no `version` key for the lock check to read.
   */
  function TopUpAsWritten(accounts: map<int, Account>, userId: int, body: TopUpBody): (r: TopUpOutcome)
    ensures r == TopUpInvalid <==> !AmountAndKeyValid(body) || body.version.Some?
    ensures r == TopUpFailed(IntegerOutOfRange) <==> AmountAndKeyValid(body) && body.version.None? && !IsInt32(userId)
    ensures r == TopUpNoAccount <==> AmountAndKeyValid(body) && body.version.None? && IsInt32(userId) && userId !in accounts
  {
    if !AmountAndKeyValid(body) || body.version.Some? then TopUpInvalid
    else if !IsInt32(userId) then TopUpFailed(IntegerOutOfRange)
    else if userId !in accounts then TopUpNoAccount
    else TopUpFailed(MissingKey("version"))
  }

  /** As written, no top-up can ever succeed. */
  lemma TopUpAsWrittenNeverCredits(accounts: map<int, Account>, userId: int, body: TopUpBody)
    ensures !TopUpAsWritten(accounts, userId, body).TopUpDone?
    ensures TopUpStatus(TopUpAsWritten(accounts, userId, body)) != 200
  {
  }

  /**
   * `add_funds` with `version` declared in the body schema: 400 for an
   * invalid body, 500 for a user id beyond `INTEGER`, 404 without an
   * account, 412 on a version mismatch, otherwise the amount is added and
   * the version bumped.
   */
  function TopUp(accounts: map<int, Account>, userId: int, body: TopUpBody): (r: TopUpOutcome)
    ensures r == TopUpInvalid <==> !AmountAndKeyValid(body) || body.version.None?
    ensures r == TopUpFailed(IntegerOutOfRange) <==> AmountAndKeyValid(body) && body.version.Some? && !IsInt32(userId)
    ensures r == TopUpNoAccount <==> AmountAndKeyValid(body) && body.version.Some? && IsInt32(userId) && userId !in accounts
    ensures r == TopUpVersionMismatch <==>
      && AmountAndKeyValid(body) && body.version.Some? && IsInt32(userId)
      && userId in accounts && accounts[userId].version != body.version.value
    ensures r.TopUpDone? ==>
      && IsInt32(userId) && userId in accounts && AmountAndKeyValid(body)
      && r.account == Account(accounts[userId].balance + body.amount.value, accounts[userId].version + 1)
  {
    if !AmountAndKeyValid(body) || body.version.None? then TopUpInvalid
    else if !IsInt32(userId) then TopUpFailed(IntegerOutOfRange)
    else if userId !in accounts then TopUpNoAccount
    else
      var a := accounts[userId];
      if a.version != body.version.value then TopUpVersionMismatch
      else if a.balance + body.amount.value > NUMERIC_MAX then TopUpFailed(NumericOverflow)
      else TopUpDone(Account(a.balance + body.amount.value, a.version + 1))
  }

  /** A valid top-up at the current version succeeds unless the balance would overflow. */
  lemma TopUpCredits(accounts: map<int, Account>, userId: int, body: TopUpBody)
    requires AmountAndKeyValid(body) && IsInt32(userId) && userId in accounts
    requires body.version == Some(accounts[userId].version)
    requires accounts[userId].balance + body.amount.value <= NUMERIC_MAX
    ensures TopUp(accounts, userId, body).TopUpDone?
    ensures TopUp(accounts, userId, body).account.balance >= accounts[userId].balance
  {
  }

  /** A top-up never lowers a balance and keeps the account sound. */
  lemma TopUpKeepsSound(accounts: map<int, Account>, userId: int, body: TopUpBody)
    requires Sound(accounts) && TopUp(accounts, userId, body).TopUpDone?
    ensures TopUp(accounts, userId, body).account.balance >= accounts[userId].balance
    ensures Sound(accounts[userId := TopUp(accounts, userId, body).account])
  {
  }

  /** `get_balance`: the balance, or `None` for a 404. */
  function Balance(accounts: map<int, Account>, userId: int): (r: Option<int>)
    ensures r.Some? <==> userId in accounts
    ensures r.Some? ==> r.value == accounts[userId].balance
  {
    if userId in accounts then Some(accounts[userId].balance) else None
  }

  // ---------------------------------------------------------------------
  // The service

  class BillingService {
    var accounts: map<int, Account>
    ghost var outbox: seq<BillingEvent>

    predicate Valid()
      reads this
    {
      Sound(accounts)
    }

    constructor ()
      ensures Valid() && accounts == map[] && outbox == []
    {
      accounts := map[];
      outbox := [];
    }

    /**
     * `create_account`, consuming `user.created`: a new account with a zero
     * balance. A user id beyond `INTEGER` fails in the driver before the
     * insert runs.
     */
    method CreateAccount(userId: Option<int>) returns (r: Result<(), Failure>)
      requires Valid()
      modifies this
      ensures Valid() && outbox == old(outbox)
      ensures r.Err? ==> accounts == old(accounts)
      ensures userId.None? ==> r == Err(MissingKey("user_id"))
      ensures userId.Some? && !IsInt32(userId.value) ==> r == Err(IntegerOutOfRange)
      ensures userId.Some? && userId.value in old(accounts) ==> r == Err(UniqueViolation)
      ensures r.Ok? <==> userId.Some? && IsInt32(userId.value) && userId.value !in old(accounts)
      ensures r.Ok? ==> accounts == old(accounts)[userId.value := Account(0, INITIAL_VERSION)]
    {
      if userId.None? {
        return Err(MissingKey("user_id"));
      }
      if !IsInt32(userId.value) {
        return Err(IntegerOutOfRange);
      }
      if userId.value in accounts {
        return Err(UniqueViolation);
      }
      accounts := accounts[userId.value := Account(0, INITIAL_VERSION)];
      r := Ok(());
    }

    /** `create_payment`, consuming a payment request: debit and `rent.activated`, or `rent.canceled`. */
    method CreatePayment(msg: PaymentMessage) returns (outcome: PaymentOutcome)
      requires Valid()
      modifies this
      ensures Valid()
      ensures outcome == Payment(old(accounts), msg)
      ensures outcome.PaymentFailed? ==> accounts == old(accounts) && outbox == old(outbox)
      ensures outcome.PaymentDeclined? ==>
        accounts == old(accounts) && outbox == old(outbox) + [RentCanceled(outcome.userId, outcome.scooterId)]
      ensures outcome.PaymentTaken? ==>
        && accounts == Debit(old(accounts), outcome.userId)
        && outbox == old(outbox) + [RentActivated(outcome.userId, outcome.scooterId)]
    {
      outcome := Payment(accounts, msg);
      match outcome
      case PaymentFailed(_) =>
      case PaymentDeclined(u, s) =>
        outbox := outbox + [RentCanceled(u, s)];
      case PaymentTaken(u, s) =>
        PaymentKeepsSound(accounts, u, msg.version.value);
        accounts := Debit(accounts, u);
        outbox := outbox + [RentActivated(u, s)];
    }

    /** `add_funds` as written: it changes nothing, since it always stops before the update. */
    method AddFundsAsWritten(userId: int, body: TopUpBody) returns (status: int)
      ensures status == TopUpStatus(TopUpAsWritten(accounts, userId, body)) && status != 200
    {
      TopUpAsWrittenNeverCredits(accounts, userId, body);
      status := TopUpStatus(TopUpAsWritten(accounts, userId, body));
    }

    /** `add_funds` with the version in its body schema. */
    method AddFunds(userId: int, body: TopUpBody) returns (outcome: TopUpOutcome)
      requires Valid()
      modifies this
      ensures Valid() && outbox == old(outbox)
      ensures outcome == TopUp(old(accounts), userId, body)
      ensures outcome.TopUpDone? ==> accounts == old(accounts)[userId := outcome.account]
      ensures !outcome.TopUpDone? ==> accounts == old(accounts)
    {
      outcome := TopUp(accounts, userId, body);
      if outcome.TopUpDone? {
        TopUpKeepsSound(accounts, userId, body);
        accounts := accounts[userId := outcome.account];
      }
    }

    /** `get_balance`; a user id beyond `INTEGER` fails in the driver: 500. */
    method GetBalance(userId: int) returns (status: int, balance: Option<int>)
      ensures !IsInt32(userId) ==> status == 500 && balance.None?
      ensures IsInt32(userId) ==> balance == Balance(accounts, userId) && status == (if balance.None? then 404 else 200)
    {
      if !IsInt32(userId) {
        return 500, None;
      }
      balance := Balance(accounts, userId);
      status := if balance.None? then 404 else 200;
    }
  }
}
