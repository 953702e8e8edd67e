/**
 * The scoring API: requests are declared as classes of fields, a
 * handler validates the payload, checks authentication, records facts in
 * the request context and answers; the method handler dispatches to the
 * `online_score` and `clients_interests` handlers, and `do_POST` wraps
 * the answer in a JSON envelope.
 */
module ScoringApi {
  import opened Wrappers
  import opened PyText
  import opened ScoringFields
  import opened Scoring

  const OK: int := 200
  const BAD_REQUEST: int := 400
  const FORBIDDEN: int := 403
  const NOT_FOUND: int := 404
  const INVALID_REQUEST: int := 422
  const INTERNAL_ERROR: int := 500

  /** The status codes that get an `error` envelope, with their default texts. */
  const ERRORS: map<int, string> := map[
    400 := "Bad Request",
    403 := "Forbidden",
    404 := "Not Found",
    422 := "Invalid Request",
    500 := "Internal Server Error"]

  const ADMIN_LOGIN: string := "admin"
  const ADMIN_SCORE: int := 42
  const INSUFFICIENT_DATA: string := "Insufficient data."
  const NOT_ALLOWED: string := "Method is not allowed."

  // ---------------------------------------------------------------------
  // Request classes

  /** A class attribute: a field, or anything else (a method, a property). */
  datatype Attr = FieldAttr(field: Field) | OtherAttr

  /** The fields among a class's attributes, in the order given. */
  function FieldsOf(attrs: seq<(string, Attr)>): (r: seq<(string, Field)>)
    ensures |r| <= |attrs|
  {
    if attrs == [] then []
    else if attrs[0].1.FieldAttr? then [(attrs[0].0, attrs[0].1.field)] + FieldsOf(attrs[1..])
    else FieldsOf(attrs[1..])
  }

  /** Every field attribute is collected, and only those. */
  lemma {:induction false} FieldsOfMembers(attrs: seq<(string, Attr)>)
    ensures forall p :: p in FieldsOf(attrs) ==> (p.0, FieldAttr(p.1)) in attrs
    ensures forall i :: 0 <= i < |attrs| && attrs[i].1.FieldAttr? ==> (attrs[i].0, attrs[i].1.field) in FieldsOf(attrs)
  {
    if attrs != [] {
      FieldsOfMembers(attrs[1..]);
      assert forall i :: 1 <= i < |attrs| ==> attrs[i] == attrs[1..][i - 1];
    }
  }

  /** `RequestMeta.__new__`: the fields become `declared_fields`, each labelled with its name unless labelled already. */
  function DeclaredFields(attrs: seq<(string, Attr)>): (r: seq<(string, Field)>)
    ensures forall i :: 0 <= i < |r| ==> r[i].1.fieldLabel.Some?
  {
    Labelled(FieldsOf(attrs))
  }

  /** Each declared field is a field attribute of the class, labelled. */
  lemma DeclaredFieldsMembers(attrs: seq<(string, Attr)>)
    ensures var r := DeclaredFields(attrs);
      forall i :: 0 <= i < |r| ==>
        (exists f :: (r[i].0, FieldAttr(f)) in attrs && r[i].1 == f.(fieldLabel := if f.fieldLabel.None? then Some(r[i].0) else f.fieldLabel))
  {
    var fs := FieldsOf(attrs);
    FieldsOfMembers(attrs);
    var r := DeclaredFields(attrs);
    forall i | 0 <= i < |r|
      ensures exists f :: (r[i].0, FieldAttr(f)) in attrs && r[i].1 == f.(fieldLabel := if f.fieldLabel.None? then Some(r[i].0) else f.fieldLabel)
    {
      assert fs[i] in fs;
      var f := fs[i].1;
      assert (r[i].0, FieldAttr(f)) in attrs;
    }
  }

  /** The three request classes. */
  datatype Kind = MethodKind | OnlineScoreKind | ClientsInterestsKind

  function Rank(kind: Kind): nat {
    if kind.MethodKind? then 1 else 0
  }

  function ClassAttrs(kind: Kind): seq<(string, Attr)> {
    match kind
    case ClientsInterestsKind => [
      ("client_ids", FieldAttr(PlainField(true, true))),
      ("date", FieldAttr(PlainField(false, true)))]
    case OnlineScoreKind => [
      ("first_name", FieldAttr(CharField(false, true, CHAR_MAX_LEN))),
      ("last_name", FieldAttr(CharField(false, true, CHAR_MAX_LEN))),
      ("email", FieldAttr(CharField(false, true, CHAR_MAX_LEN))),
      ("phone", FieldAttr(PlainField(false, true))),
      ("birthday", FieldAttr(PlainField(false, true))),
      ("gender", FieldAttr(PlainField(false, true))),
      ("validate", OtherAttr)]
    case MethodKind => [
      ("account", FieldAttr(CharField(false, true, CHAR_MAX_LEN))),
      ("login", FieldAttr(CharField(true, true, CHAR_MAX_LEN))),
      ("token", FieldAttr(CharField(true, true, 512))),
      ("arguments", FieldAttr(PlainField(true, true))),
      ("method", FieldAttr(CharField(true, false, CHAR_MAX_LEN))),
      ("is_admin", OtherAttr)]
  }

  /** The `declared_fields` of each request class, labelled with their attribute names. */
  function Declared(kind: Kind): seq<(string, Field)> {
    match kind
    case ClientsInterestsKind => [
      ("client_ids", PlainField(true, true).(fieldLabel := Some("client_ids"))),
      ("date", PlainField(false, true).(fieldLabel := Some("date")))]
    case OnlineScoreKind => [
      ("first_name", CharField(false, true, CHAR_MAX_LEN).(fieldLabel := Some("first_name"))),
      ("last_name", CharField(false, true, CHAR_MAX_LEN).(fieldLabel := Some("last_name"))),
      ("email", CharField(false, true, CHAR_MAX_LEN).(fieldLabel := Some("email"))),
      ("phone", PlainField(false, true).(fieldLabel := Some("phone"))),
      ("birthday", PlainField(false, true).(fieldLabel := Some("birthday"))),
      ("gender", PlainField(false, true).(fieldLabel := Some("gender")))]
    case MethodKind => [
      ("account", CharField(false, true, CHAR_MAX_LEN).(fieldLabel := Some("account"))),
      ("login", CharField(true, true, CHAR_MAX_LEN).(fieldLabel := Some("login"))),
      ("token", CharField(true, true, 512).(fieldLabel := Some("token"))),
      ("arguments", PlainField(true, true).(fieldLabel := Some("arguments"))),
      ("method", CharField(true, false, CHAR_MAX_LEN).(fieldLabel := Some("method")))]
  }

  /** Collecting from two runs of attributes collects from each in turn. */
  lemma {:induction false} FieldsOfAppend(a: seq<(string, Attr)>, b: seq<(string, Attr)>)
    ensures FieldsOf(a + b) == FieldsOf(a) + FieldsOf(b)
  {
    if a != [] {
      assert (a + b)[1..] == a[1..] + b;
      FieldsOfAppend(a[1..], b);
    } else {
      assert a + b == b;
    }
  }

  /** Attributes that are all fields are all collected, in order. */
  lemma {:induction false} FieldsOfFields(attrs: seq<(string, Attr)>)
    requires forall i :: 0 <= i < |attrs| ==> attrs[i].1.FieldAttr?
    ensures FieldsOf(attrs) == seq(|attrs|, i requires 0 <= i < |attrs| => (attrs[i].0, attrs[i].1.field))
  {
    if attrs != [] {
      assert forall i :: 0 <= i < |attrs[1..]| ==> attrs[1..][i] == attrs[i + 1];
      FieldsOfFields(attrs[1..]);
    }
  }

  /**
   * Unlabelled fields, possibly followed by one attribute that is not a
   * field, are declared in order, each labelled with its attribute name.
   */
  lemma DeclaredInOrder(fields: seq<(string, Attr)>, tail: seq<(string, Attr)>, d: seq<(string, Field)>)
    requires forall i :: 0 <= i < |fields| ==> fields[i].1.FieldAttr? && fields[i].1.field.fieldLabel.None?
    requires tail == [] || (|tail| == 1 && tail[0].1.OtherAttr?)
    requires |d| == |fields|
    requires forall i :: 0 <= i < |d| ==> d[i] == (fields[i].0, fields[i].1.field.(fieldLabel := Some(fields[i].0)))
    ensures DeclaredFields(fields + tail) == d
  {
    FieldsOfFields(fields);
    FieldsOfAppend(fields, tail);
    assert FieldsOf(tail) == [];
    var fs := FieldsOf(fields + tail);
    assert fs == FieldsOf(fields);
    var l := Labelled(fs);
    forall i | 0 <= i < |d| ensures l[i] == d[i] {
      assert fs[i] == (fields[i].0, fields[i].1.field);
    }
  }

  /** These are exactly what `RequestMeta` collects from the class bodies. */
  lemma DeclaredByMeta(kind: Kind)
    ensures Declared(kind) == DeclaredFields(ClassAttrs(kind))
  {
    var a := ClassAttrs(kind);
    match kind
    case ClientsInterestsKind =>
      assert a + [] == a;
      DeclaredInOrder(a, [], Declared(kind));
    case OnlineScoreKind =>
      assert a == a[..6] + a[6..];
      DeclaredInOrder(a[..6], a[6..], Declared(kind));
    case MethodKind =>
      assert a == a[..5] + a[5..];
      DeclaredInOrder(a[..5], a[5..], Declared(kind));
  }

  /** The value a validated request holds for a field, read through its label. */
  function FieldValue(f: Field, attrs: map<string, Value>): Value {
    if f.fieldLabel.None? then NoneV else Lookup(attrs, f.fieldLabel.value)
  }

  // ---------------------------------------------------------------------
  // Decisions

  /** `v == t` in Python 2 for an ASCII text `t`: a `str` or a `unicode` with those characters. */
  predicate IsText(v: Value, t: string) {
    (v.StrV? && v.s == t) || (v.UnicodeV? && v.u == t)
  }

  /** `isinstance(v, int)` in Python 2: a machine integer (a `long` is not one) or a boolean. */
  predicate IsInt(v: Value) {
    v.BoolV? || (v.IntV? && -0x8000_0000_0000_0000 <= v.i < 0x8000_0000_0000_0000)
  }

  /** The extra check of `OnlineScoreRequest.validate`: some pair of data is present. */
  predicate Sufficient(attrs: map<string, Value>) {
    || (Truthy(Lookup(attrs, "first_name")) && Truthy(Lookup(attrs, "last_name")))
    || (Truthy(Lookup(attrs, "email")) && Truthy(Lookup(attrs, "phone")))
    || (Truthy(Lookup(attrs, "birthday")) && IsInt(Lookup(attrs, "gender")))
  }

  /** The gender must be an integer, not merely truthy: a birthday with gender 0 suffices, one with `"1"` does not. */
  lemma SufficientGender(birthday: Value)
    requires Truthy(birthday)
    ensures Sufficient(map["birthday" := birthday, "gender" := IntV(0)])
    ensures !Sufficient(map["birthday" := birthday, "gender" := StrV("1")])
  {
    var bad := map["birthday" := birthday, "gender" := StrV("1")];
    assert Lookup(bad, "first_name") == NoneV && Lookup(bad, "email") == NoneV;
  }

  /** `MethodRequest.is_admin`. */
  predicate IsAdmin(attrs: map<string, Value>) {
    IsText(Lookup(attrs, "login"), ADMIN_LOGIN)
  }

  const SALT: string := "Otus"
  const ADMIN_SALT: string := "42"

  /** The characters of a `str` or `unicode` value. */
  function TextOf(v: Value): string
    requires v.StrV? || v.UnicodeV?
  {
    if v.StrV? then v.s else v.u
  }

  /**
   * `account + login + SALT` in Python 2: text joins text (a `str` with a
   * `unicode` gives a `unicode`); any other operand, `None` included,
   * raises a `TypeError` at one of the two additions.
   */
  function UserKey(account: Value, login: Value): (r: Result<string, Crash>)
    ensures r.Ok? <==> (exists a :: IsText(account, a)) && (exists l :: IsText(login, l))
    ensures r.Err? ==> r.error == TypeError
    ensures r.Ok? ==> exists a, l :: IsText(account, a) && IsText(login, l) && r.value == a + l + SALT
  {
    if (account.StrV? || account.UnicodeV?) && (login.StrV? || login.UnicodeV?) then
      assert IsText(account, TextOf(account)) && IsText(login, TextOf(login));
      Ok(TextOf(account) + TextOf(login) + SALT)
    else Err(TypeError)
  }

  /**
   * What `MethodHandler.check_auth` needs from outside: the current hour
   * as `strftime("%Y%m%d%H")` writes it, and `sha512(...).hexdigest()`.
   */
  datatype AuthEnv = AuthEnv(hour: string, sha512: string -> string)

  /**
   * `MethodHandler.check_auth`: an admin's token must be the digest of the
   * hour and the admin salt, anyone else's the digest of account, login
   * and salt, which raises when those are not both text.
   */
  function CheckAuth(attrs: map<string, Value>, auth: AuthEnv): (r: Result<bool, Crash>)
    ensures IsAdmin(attrs) ==> r == Ok(IsText(Lookup(attrs, "token"), auth.sha512(auth.hour + ADMIN_SALT)))
    ensures !IsAdmin(attrs) ==>
      var key := UserKey(Lookup(attrs, "account"), Lookup(attrs, "login"));
      && (r.Err? <==> key.Err?)
      && (r.Err? ==> r == Err(TypeError))
      && (key.Ok? ==> r == Ok(IsText(Lookup(attrs, "token"), auth.sha512(key.value))))
    ensures r == Ok(true) ==> exists d :: IsText(Lookup(attrs, "token"), d)
  {
    if IsAdmin(attrs) then Ok(IsText(Lookup(attrs, "token"), auth.sha512(auth.hour + ADMIN_SALT)))
    else
      match UserKey(Lookup(attrs, "account"), Lookup(attrs, "login"))
      case Err(e) => Err(e)
      case Ok(key) => Ok(IsText(Lookup(attrs, "token"), auth.sha512(key)))
  }

  /** `check_auth`: the base handler lets everything through; the method handler compares digests. */
  function Authorized(kind: Kind, attrs: map<string, Value>, auth: AuthEnv): (r: Result<bool, Crash>)
    ensures !kind.MethodKind? ==> r == Ok(true)
  {
    if kind.MethodKind? then CheckAuth(attrs, auth) else Ok(true)
  }

  /** `allowed_methods.get(request.method)`. */
  function Dispatch(name: Value): (r: Option<Kind>)
    ensures r.Some? ==> r.value != MethodKind
    ensures r == Some(OnlineScoreKind) <==> IsText(name, "online_score")
    ensures r == Some(ClientsInterestsKind) <==> IsText(name, "clients_interests")
    ensures r.None? <==> !IsText(name, "online_score") && !IsText(name, "clients_interests")
  {
    if IsText(name, "online_score") then Some(OnlineScoreKind)
    else if IsText(name, "clients_interests") then Some(ClientsInterestsKind)
    else None
  }

  /** As written, `CharField` stores `None` for the method name, so no validated request is ever dispatched. */
  lemma NoDispatchAsWritten(v: Value)
    requires ValidateAsWritten(CharField(true, false, CHAR_MAX_LEN).(fieldLabel := Some("method")), v).Ok?
    ensures Dispatch(ValidateAsWritten(CharField(true, false, CHAR_MAX_LEN).(fieldLabel := Some("method")), v).value).None?
    ensures Validate(CharField(true, false, CHAR_MAX_LEN).(fieldLabel := Some("method")), v) == Ok(v)
  {
    CharFieldStoresNone(CharField(true, false, CHAR_MAX_LEN).(fieldLabel := Some("method")), v);
  }

  /**
   * As written, `CharField` also stores `None` for `account` and `login`,
   * so the request is not an admin's and `None + None` raises in
   * `check_auth`, before `process` is reached: the dispatch defect above
   * stays latent behind this `TypeError`.
   */
  lemma AuthRaisesAsWritten(account: Value, login: Value, attrs: map<string, Value>, auth: AuthEnv)
    requires ValidateAsWritten(Declared(MethodKind)[0].1, account).Ok?
    requires ValidateAsWritten(Declared(MethodKind)[1].1, login).Ok?
    requires Lookup(attrs, "account") == ValidateAsWritten(Declared(MethodKind)[0].1, account).value
    requires Lookup(attrs, "login") == ValidateAsWritten(Declared(MethodKind)[1].1, login).value
    ensures !IsAdmin(attrs)
    ensures CheckAuth(attrs, auth) == Err(TypeError)
  {
    CharFieldStoresNone(Declared(MethodKind)[0].1, account);
    CharFieldStoresNone(Declared(MethodKind)[1].1, login);
  }

  /** The declared fields that hold a value which is not `None` yet falsy, in declaration order. */
  function Has(declared: seq<(string, Field)>, attrs: map<string, Value>): (r: seq<string>)
    ensures |r| <= |declared|
  {
    if declared == [] then []
    else
      var init := Has(declared[..|declared| - 1], attrs);
      var last := declared[|declared| - 1];
      var v := FieldValue(last.1, attrs);
      if !v.NoneV? && !IsNullable(v) then init + [last.0] else init
  }

  /** A name is listed exactly when some declared field of that name holds a falsy value other than `None`. */
  lemma {:induction false} HasExactly(declared: seq<(string, Field)>, attrs: map<string, Value>, name: string)
    ensures name in Has(declared, attrs) <==>
      exists i :: 0 <= i < |declared| && declared[i].0 == name
        && !FieldValue(declared[i].1, attrs).NoneV? && !Truthy(FieldValue(declared[i].1, attrs))
  {
    if declared != [] {
      var init := declared[..|declared| - 1];
      HasExactly(init, attrs, name);
      assert forall i :: 0 <= i < |init| ==> init[i] == declared[i];
    }
  }

  function NamesValue(names: seq<string>): (v: Value)
    ensures v.ListV? && |v.items| == |names|
    ensures forall i :: 0 <= i < |names| ==> v.items[i] == StrV(names[i])
  {
    ListV(seq(|names|, i requires 0 <= i < |names| => StrV(names[i])))
  }

  /** `len(v)`: `None` for a value without a length, where Python raises `TypeError`. */
  function Len(v: Value): (r: Option<nat>)
    ensures v.ListV? ==> r == Some(|v.items|)
    ensures v.NoneV? || v.IntV? || v.BoolV? || v.FloatV? || v.DateV? ==> r.None?
  {
    match v
    case ListV(items) => Some(|items|)
    case StrV(s) => Some(|s|)
    case UnicodeV(u) => Some(|u|)
    case DictV(entries) => Some(|entries.Keys|)
    case _ => None
  }

  /** The elements `for cid in v` visits: list items, one-character strings, or the keys of a decoded object. */
  function Elements(v: Value): (r: Option<set<Value>>)
    ensures r.Some? <==> Len(v).Some?
    ensures v.ListV? ==> r == Some(set i | 0 <= i < |v.items| :: v.items[i])
  {
    match v
    case ListV(items) => Some(set i | 0 <= i < |items| :: items[i])
    case StrV(s) => Some(set i | 0 <= i < |s| :: StrV([s[i]]))
    case UnicodeV(u) => Some(set i | 0 <= i < |u| :: UnicodeV([u[i]]))
    case DictV(entries) => Some(set k | k in entries.Keys :: UnicodeV(k))
    case _ => None
  }

  /** The `clients_interests` answer: for each client id, its interests under `str(cid)`. */
  function Interests(ids: set<Value>, data: map<string, Value>, show: Value -> string): (r: map<string, Value>)
    ensures forall cid :: cid in ids ==> PyStr(cid, show) in r && r[PyStr(cid, show)] == Lookup(data, "i:" + PyStr(cid, show))
    ensures forall k :: k in r ==> exists cid :: cid in ids && PyStr(cid, show) == k
  {
    map k | k in (set cid | cid in ids :: PyStr(cid, show)) :: Lookup(data, "i:" + k)
  }

  /** Each distinct integer client id gets its own entry. */
  lemma InterestsPerClient(items: seq<int>, data: map<string, Value>, show: Value -> string)
    ensures var ids := set i | 0 <= i < |items| :: IntV(items[i]);
      |Interests(ids, data, show).Keys| == |NumsOf(items)|
  {
    var ids := set i | 0 <= i < |items| :: IntV(items[i]);
    var r := Interests(ids, data, show);
    assert r.Keys == TextsOf(items) by {
      forall k | k in r.Keys ensures k in TextsOf(items) {
        var cid :| cid in ids && PyStr(cid, show) == k;
        var i :| 0 <= i < |items| && cid == IntV(items[i]);
        assert IntToText(items[i]) == k;
      }
      forall k | k in TextsOf(items) ensures k in r.Keys {
        var i :| 0 <= i < |items| && k == IntToText(items[i]);
        assert IntV(items[i]) in ids;
      }
    }
    TextsCount(items);
  }

  function TextsOf(items: seq<int>): set<string> {
    set i | 0 <= i < |items| :: IntToText(items[i])
  }

  function NumsOf(items: seq<int>): set<int> {
    set i | 0 <= i < |items| :: items[i]
  }

  lemma NumsSnoc(items: seq<int>)
    requires items != []
    ensures NumsOf(items) == NumsOf(items[..|items| - 1]) + {items[|items| - 1]}
  {
    var init := items[..|items| - 1];
    forall n | n in NumsOf(items) ensures n in NumsOf(init) + {items[|items| - 1]} {
      var i :| 0 <= i < |items| && n == items[i];
      if i < |init| { assert init[i] == items[i]; }
    }
    forall n | n in NumsOf(init) ensures n in NumsOf(items) {
      var i :| 0 <= i < |init| && n == init[i];
      assert items[i] == init[i];
    }
  }

  lemma TextsSnoc(items: seq<int>)
    requires items != []
    ensures TextsOf(items) == TextsOf(items[..|items| - 1]) + {IntToText(items[|items| - 1])}
  {
    var init := items[..|items| - 1];
    forall k | k in TextsOf(items) ensures k in TextsOf(init) + {IntToText(items[|items| - 1])} {
      var i :| 0 <= i < |items| && k == IntToText(items[i]);
      if i < |init| { assert init[i] == items[i]; }
    }
    forall k | k in TextsOf(init) ensures k in TextsOf(items) {
      var i :| 0 <= i < |init| && k == IntToText(init[i]);
      assert items[i] == init[i];
    }
  }

  lemma TextOfNew(init: seq<int>, x: int)
    ensures x in NumsOf(init) <==> IntToText(x) in TextsOf(init)
  {
    if IntToText(x) in TextsOf(init) {
      var i :| 0 <= i < |init| && IntToText(x) == IntToText(init[i]);
      IntToTextRoundTrip(x);
      IntToTextRoundTrip(init[i]);
    }
  }

  /** Writing integers out loses none of them. */
  lemma {:induction false} TextsCount(items: seq<int>)
    ensures |TextsOf(items)| == |NumsOf(items)|
  {
    if items != [] {
      var init, x := items[..|items| - 1], items[|items| - 1];
      TextsCount(init);
      NumsSnoc(items);
      TextsSnoc(items);
      TextOfNew(init, x);
      if x in NumsOf(init) {
        assert NumsOf(items) == NumsOf(init) && TextsOf(items) == TextsOf(init);
      } else {
        assert |NumsOf(items)| == |NumsOf(init)| + 1;
        assert |TextsOf(items)| == |TextsOf(init)| + 1;
      }
    }
  }

  // ---------------------------------------------------------------------
  // Handlers

  /** What the handlers cannot see: the two digests, MD5 for the score key, and `str` of other values. */
  datatype Env = Env(auth: AuthEnv, md5: string -> string, show: Value -> string)

  /** The request context and the cache, the state a handler changes. */
  datatype State = State(context: map<string, Value>, data: map<string, Value>, expiry: map<string, nat>)

  /** A handler's `(response, status)` pair, or the exception it raises. */
  type Reply = Result<(Value, int), Crash>

  /** A failed `request.validate()`: a `ValidationError` becomes `(str(exc), 422)`; anything else escapes. */
  function Rejected(e: PyError): (r: Reply)
    ensures e.ValidationError? ==> r == Ok((StrV(e.message), INVALID_REQUEST))
    ensures !e.ValidationError? ==> r.Err?
  {
    match e
    case ValidationError(m) => Ok((StrV(m), INVALID_REQUEST))
    case ValueError(_) => Err(Crash.ValueError)
    case KeyError(_) => Err(Crash.KeyError)
  }

  function ScoreReply(score: Value): Value {
    DictV(map["score" := score])
  }

  /**
   * `Handler.get_response`: `request_class(**payload)` (the payload must
   * be a dictionary), validation, the authentication check, then
   * `update_context` and `process`; with the corrected validator, and with
   * `get_score` and `get_interests` given the store.
   */
  function Respond(kind: Kind, payload: Value, st: State, env: Env): (r: (Reply, State))
    decreases Rank(kind), 1
  {
    if !payload.DictV? then (Err(TypeError), st)
    else
      match SetAll(Declared(kind), payload.entries, map[])
      case Err(e) => (Rejected(e), st)
      case Ok(attrs) =>
        if kind.OnlineScoreKind? && !Sufficient(attrs) then (Ok((StrV(INSUFFICIENT_DATA), INVALID_REQUEST)), st)
        else
          match Authorized(kind, attrs, env.auth)
          case Err(c) => (Err(c), st)
          case Ok(allowed) =>
            if !allowed then (Ok((NoneV, FORBIDDEN)), st)
            else Proceed(kind, attrs, st, env)
  }

  /**
   * `update_context` then `process` of each handler, on a validated,
   * authenticated request, with `get_score` and `get_interests` given the store.
   */
  function Proceed(kind: Kind, attrs: map<string, Value>, st: State, env: Env): (r: (Reply, State))
    decreases Rank(kind), 0
  {
    match kind
    case MethodKind =>
      var st1 := st.(context := st.context["is_admin" := BoolV(IsAdmin(attrs))]);
      (match Dispatch(Lookup(attrs, "method"))
       case None => (Ok((StrV(NOT_ALLOWED), INVALID_REQUEST)), st1)
       case Some(sub) => Respond(sub, Lookup(attrs, "arguments"), st1, env))
    case OnlineScoreKind =>
      var st1 := st.(context := st.context["has" := NamesValue(Has(Declared(kind), attrs))]);
      if Truthy(Lookup(st1.context, "is_admin")) then (Ok((ScoreReply(IntV(ADMIN_SCORE)), OK)), st1)
      else
        var scored := ScoreSpec(st1.data, st1.expiry,
          Lookup(attrs, "phone"), Lookup(attrs, "email"), Lookup(attrs, "birthday"),
          Lookup(attrs, "gender"), Lookup(attrs, "first_name"), Lookup(attrs, "last_name"), env.md5, env.show);
        (match scored.0
         case Err(c) => (Err(c), st1)
         case Ok(score) => (Ok((ScoreReply(score), OK)), st1.(data := scored.1, expiry := scored.2)))
    case ClientsInterestsKind =>
      var ids := Lookup(attrs, "client_ids");
      match Len(ids)
      case None => (Err(TypeError), st)
      case Some(n) =>
        var st1 := st.(context := st.context["nclients" := IntV(n)]);
        (Ok((DictV(Interests(Elements(ids).value, st1.data, env.show)), OK)), st1)
  }

  /** A request that fails validation is answered 422 with the error's text, and nothing changes. */
  lemma RespondInvalid(kind: Kind, payload: Value, st: State, env: Env, message: string)
    requires payload.DictV? && SetAll(Declared(kind), payload.entries, map[]) == Err(ValidationError(message))
    ensures Respond(kind, payload, st, env) == (Ok((StrV(message), INVALID_REQUEST)), st)
  {
  }

  /** A validated online-score request without a pair of data is answered 422 "Insufficient data.". */
  lemma RespondInsufficient(payload: Value, st: State, env: Env)
    requires payload.DictV? && SetAll(Declared(OnlineScoreKind), payload.entries, map[]).Ok?
    requires !Sufficient(SetAll(Declared(OnlineScoreKind), payload.entries, map[]).value)
    ensures Respond(OnlineScoreKind, payload, st, env) == (Ok((StrV(INSUFFICIENT_DATA), INVALID_REQUEST)), st)
  {
  }

  /** A method request whose token does not match is answered `(None, 403)`, and nothing changes. */
  lemma RespondForbidden(payload: Value, st: State, env: Env)
    requires payload.DictV? && SetAll(Declared(MethodKind), payload.entries, map[]).Ok?
    requires CheckAuth(SetAll(Declared(MethodKind), payload.entries, map[]).value, env.auth) == Ok(false)
    ensures Respond(MethodKind, payload, st, env) == (Ok((NoneV, FORBIDDEN)), st)
  {
  }

  /** An authenticated request for an unknown method is answered 422 "Method is not allowed.", after `is_admin` is recorded. */
  lemma RespondUnknownMethod(payload: Value, st: State, env: Env)
    requires payload.DictV? && SetAll(Declared(MethodKind), payload.entries, map[]).Ok?
    requires CheckAuth(SetAll(Declared(MethodKind), payload.entries, map[]).value, env.auth) == Ok(true)
    requires Dispatch(Lookup(SetAll(Declared(MethodKind), payload.entries, map[]).value, "method")).None?
    ensures var attrs := SetAll(Declared(MethodKind), payload.entries, map[]).value;
      Respond(MethodKind, payload, st, env) ==
        (Ok((StrV(NOT_ALLOWED), INVALID_REQUEST)), st.(context := st.context["is_admin" := BoolV(IsAdmin(attrs))]))
  {
    var attrs := SetAll(Declared(MethodKind), payload.entries, map[]).value;
    assert Respond(MethodKind, payload, st, env) == Proceed(MethodKind, attrs, st, env);
  }

  /** A known method is answered by its handler, from `arguments`, in the context with `is_admin` recorded. */
  lemma RespondDispatch(payload: Value, st: State, env: Env)
    requires payload.DictV? && SetAll(Declared(MethodKind), payload.entries, map[]).Ok?
    requires CheckAuth(SetAll(Declared(MethodKind), payload.entries, map[]).value, env.auth) == Ok(true)
    requires Dispatch(Lookup(SetAll(Declared(MethodKind), payload.entries, map[]).value, "method")).Some?
    ensures var attrs := SetAll(Declared(MethodKind), payload.entries, map[]).value;
      Respond(MethodKind, payload, st, env) ==
        Respond(Dispatch(Lookup(attrs, "method")).value, Lookup(attrs, "arguments"),
                st.(context := st.context["is_admin" := BoolV(IsAdmin(attrs))]), env)
  {
    var attrs := SetAll(Declared(MethodKind), payload.entries, map[]).value;
    assert Respond(MethodKind, payload, st, env) == Proceed(MethodKind, attrs, st, env);
  }

  /** For an administrator the score is 42, computed from nothing and cached nowhere. */
  lemma RespondAdminScore(payload: Value, st: State, env: Env)
    requires payload.DictV? && SetAll(Declared(OnlineScoreKind), payload.entries, map[]).Ok?
    requires Sufficient(SetAll(Declared(OnlineScoreKind), payload.entries, map[]).value)
    requires Truthy(Lookup(st.context, "is_admin"))
    ensures Respond(OnlineScoreKind, payload, st, env).0 == Ok((DictV(map["score" := IntV(42)]), OK))
    ensures Respond(OnlineScoreKind, payload, st, env).1.data == st.data
    ensures Respond(OnlineScoreKind, payload, st, env).1.expiry == st.expiry
  {
    var attrs := SetAll(Declared(OnlineScoreKind), payload.entries, map[]).value;
    var st1 := st.(context := st.context["has" := NamesValue(Has(Declared(OnlineScoreKind), attrs))]);
    assert Lookup(st1.context, "is_admin") == Lookup(st.context, "is_admin");
  }

  /** For anyone else the score is `get_score`'s, with the cache as `get_score` leaves it. */
  lemma RespondComputedScore(payload: Value, st: State, env: Env)
    requires payload.DictV? && SetAll(Declared(OnlineScoreKind), payload.entries, map[]).Ok?
    requires Sufficient(SetAll(Declared(OnlineScoreKind), payload.entries, map[]).value)
    requires !Truthy(Lookup(st.context, "is_admin"))
    ensures var attrs := SetAll(Declared(OnlineScoreKind), payload.entries, map[]).value;
      var scored := ScoreSpec(st.data, st.expiry,
        Lookup(attrs, "phone"), Lookup(attrs, "email"), Lookup(attrs, "birthday"),
        Lookup(attrs, "gender"), Lookup(attrs, "first_name"), Lookup(attrs, "last_name"), env.md5, env.show);
      var r := Respond(OnlineScoreKind, payload, st, env);
      && (scored.0.Ok? ==> r.0 == Ok((ScoreReply(scored.0.value), OK)) && r.1.data == scored.1 && r.1.expiry == scored.2)
      && (scored.0.Err? ==> r.0 == Err(scored.0.error) && r.1.data == st.data)
      && r.1.context == st.context["has" := NamesValue(Has(Declared(OnlineScoreKind), attrs))]
  {
    var attrs := SetAll(Declared(OnlineScoreKind), payload.entries, map[]).value;
    var st1 := st.(context := st.context["has" := NamesValue(Has(Declared(OnlineScoreKind), attrs))]);
    assert Lookup(st1.context, "is_admin") == Lookup(st.context, "is_admin");
  }

  /** The interests answer for a list of ids: `nclients` is its length, and one entry per `str(cid)`. */
  lemma RespondInterests(payload: Value, st: State, env: Env)
    requires payload.DictV? && SetAll(Declared(ClientsInterestsKind), payload.entries, map[]).Ok?
    requires Lookup(SetAll(Declared(ClientsInterestsKind), payload.entries, map[]).value, "client_ids").ListV?
    ensures var ids := Lookup(SetAll(Declared(ClientsInterestsKind), payload.entries, map[]).value, "client_ids");
      var r := Respond(ClientsInterestsKind, payload, st, env);
      && r.1 == st.(context := st.context["nclients" := IntV(|ids.items|)])
      && r.0.Ok? && r.0.value.1 == OK && r.0.value.0.DictV?
      && (forall i :: 0 <= i < |ids.items| ==>
            PyStr(ids.items[i], env.show) in r.0.value.0.entries
            && r.0.value.0.entries[PyStr(ids.items[i], env.show)] == Lookup(st.data, "i:" + PyStr(ids.items[i], env.show)))
  {
    var ids := Lookup(SetAll(Declared(ClientsInterestsKind), payload.entries, map[]).value, "client_ids");
    forall i | 0 <= i < |ids.items| ensures ids.items[i] in Elements(ids).value {
    }
  }

  // ---------------------------------------------------------------------
  // The imperative side: request objects, the context dictionary, handlers

  /** The context dictionary shared by the method handler and the handler it dispatches to. */
  class Context {
    var entries: map<string, Value>

    constructor (entries: map<string, Value>)
      ensures this.entries == entries
    {
      this.entries := entries;
    }

    method Put(key: string, value: Value)
      modifies this
      ensures entries == old(entries)[key := value]
    {
      entries := entries[key := value];
    }
  }

  /** A request object: its `raw` arguments and the validated field values in its `__dict__`. */
  class Request {
    const declared: seq<(string, Field)>
    var raw: map<string, Value>
    var attrs: map<string, Value>

    /** `Request.__init__`: `raw` holds `kwargs.get(name)` for every declared field. */
    constructor (declared: seq<(string, Field)>, kwargs: map<string, Value>)
      ensures this.declared == declared && attrs == map[]
      ensures raw.Keys == set i | 0 <= i < |declared| :: declared[i].0
      ensures forall name :: name in raw ==> raw[name] == Lookup(kwargs, name)
    {
      var r: map<string, Value> := map[];
      for i := 0 to |declared|
        invariant r.Keys == set j | 0 <= j < i :: declared[j].0
        invariant forall name :: name in r ==> r[name] == Lookup(kwargs, name)
      {
        r := r[declared[i].0 := Lookup(kwargs, declared[i].0)];
      }
      this.declared := declared;
      raw := r;
      attrs := map[];
    }

    /** `Request.validate`: each raw value is set through its field; the first `ValidationError` stops the loop. */
    method Validate() returns (r: Result<(), PyError>)
      modifies this
      ensures raw == old(raw)
      ensures attrs == Progress(declared, raw, old(attrs))
      ensures SetAll(declared, raw, old(attrs)).Ok? ==> r == Ok(())
      ensures SetAll(declared, raw, old(attrs)).Err? ==> r == Err(SetAll(declared, raw, old(attrs)).error)
    {
      var i := 0;
      while i < |declared|
        invariant i <= |declared| && raw == old(raw)
        invariant SetAll(declared, raw, old(attrs)) == SetAll(declared[i..], raw, attrs)
        invariant Progress(declared, raw, old(attrs)) == Progress(declared[i..], raw, attrs)
      {
        assert declared[i..][1..] == declared[i + 1..];
        var step := SetField(declared[i].1, Lookup(raw, declared[i].0), attrs);
        if step.Err? {
          return Err(step.error);
        }
        attrs := step.value;
        i := i + 1;
      }
      r := Ok(());
    }
  }

  /** `OnlineScoreHandler.update_context`: `has` lists the fields holding a falsy value other than `None`. */
  method UpdateHas(ctx: Context, declared: seq<(string, Field)>, attrs: map<string, Value>)
    modifies ctx
    ensures ctx.entries == old(ctx.entries)["has" := NamesValue(Has(declared, attrs))]
  {
    var has: seq<string> := [];
    for i := 0 to |declared|
      invariant has == Has(declared[..i], attrs)
    {
      assert declared[..i + 1][..i] == declared[..i];
      var value := FieldValue(declared[i].1, attrs);
      if !value.NoneV? && !IsNullable(value) {
        has := has + [declared[i].0];
      }
    }
    assert declared[..|declared|] == declared;
    ctx.Put("has", NamesValue(has));
  }

  /**
   * `get_response` of each handler, with the corrected validator and store
   * arguments: the context and the cache change as `Respond` says.
   */
  method GetResponse(kind: Kind, payload: Value, ctx: Context, store: Store, env: Env) returns (r: Reply)
    modifies ctx, store
    ensures (r, State(ctx.entries, store.data, store.expiry)) ==
      Respond(kind, payload, State(old(ctx.entries), old(store.data), old(store.expiry)), env)
    decreases Rank(kind), 1
  {
    if !payload.DictV? {
      return Err(TypeError);
    }
    var declared := Declared(kind);
    var request := new Request(declared, payload.entries);
    SetAllSameValues(declared, request.raw, payload.entries, map[]);
    var valid := request.Validate();
    if valid.Err? {
      return Rejected(valid.error);
    }
    ProgressOfSuccess(declared, request.raw, map[]);
    var attrs := request.attrs;
    if kind.OnlineScoreKind? && !Sufficient(attrs) {
      return Ok((StrV(INSUFFICIENT_DATA), INVALID_REQUEST));
    }
    var auth := Authorized(kind, attrs, env.auth);
    if auth.Err? {
      return Err(auth.error);
    }
    if !auth.value {
      return Ok((NoneV, FORBIDDEN));
    }
    r := Process(kind, attrs, ctx, store, env);
  }

  /** `update_context` and `process` of each handler, with the store arguments given, as `Proceed` says. */
  method Process(kind: Kind, attrs: map<string, Value>, ctx: Context, store: Store, env: Env) returns (r: Reply)
    modifies ctx, store
    ensures (r, State(ctx.entries, store.data, store.expiry)) ==
      Proceed(kind, attrs, State(old(ctx.entries), old(store.data), old(store.expiry)), env)
    decreases Rank(kind), 0
  {
    match kind {
      case MethodKind =>
        ctx.Put("is_admin", BoolV(IsAdmin(attrs)));
        var sub := Dispatch(Lookup(attrs, "method"));
        if sub.None? {
          return Ok((StrV(NOT_ALLOWED), INVALID_REQUEST));
        }
        r := GetResponse(sub.value, Lookup(attrs, "arguments"), ctx, store, env);
      case OnlineScoreKind =>
        UpdateHas(ctx, Declared(kind), attrs);
        if Truthy(Lookup(ctx.entries, "is_admin")) {
          return Ok((ScoreReply(IntV(ADMIN_SCORE)), OK));
        }
        var score := GetScore(store, Lookup(attrs, "phone"), Lookup(attrs, "email"), Lookup(attrs, "birthday"),
          Lookup(attrs, "gender"), Lookup(attrs, "first_name"), Lookup(attrs, "last_name"), env.md5, env.show);
        if score.Err? {
          return Err(score.error);
        }
        r := Ok((ScoreReply(score.value), OK));
      case ClientsInterestsKind =>
        var ids := Lookup(attrs, "client_ids");
        var n := Len(ids);
        if n.None? {
          return Err(TypeError);
        }
        ctx.Put("nclients", IntV(n.value));
        r := Ok((DictV(Interests(Elements(ids).value, store.data, env.show)), OK));
    }
  }

  // ---------------------------------------------------------------------
  // Handler bodies as written

  /**
   * `OnlineScoreHandler.process` as written: `get_score` is called
   * without its `store` argument, so every caller except an
   * administrator gets a `TypeError`.
   */
  function OnlineScoreProcessAsWritten(context: map<string, Value>): (r: Result<Value, Crash>)
    ensures Truthy(Lookup(context, "is_admin")) ==> r == Ok(ScoreReply(IntV(ADMIN_SCORE)))
    ensures !Truthy(Lookup(context, "is_admin")) ==> r == Err(TypeError)
  {
    if Truthy(Lookup(context, "is_admin")) then Ok(ScoreReply(IntV(ADMIN_SCORE))) else Err(TypeError)
  }

  /**
   * `ClientsInterestsHandler.process` as written: `get_interests(cid)`
   * lacks `store`, so the comprehension raises on the first id.
   */
  function InterestsProcessAsWritten(ids: set<Value>): (r: Result<Value, Crash>)
    ensures r.Ok? <==> ids == {}
    ensures r.Ok? ==> r.value == DictV(map[])
  {
    if ids == {} then Ok(DictV(map[])) else Err(TypeError)
  }

  // ---------------------------------------------------------------------
  // do_POST

  function TrimLeft(p: string): (r: string)
    ensures |r| <= |p|
    ensures r == [] || r[0] != '/'
  {
    if p != [] && p[0] == '/' then TrimLeft(p[1..]) else p
  }

  function TrimRight(p: string): (r: string)
    ensures |r| <= |p| && r == p[..|r|]
    ensures r == [] || r[|r| - 1] != '/'
  {
    if p != [] && p[|p| - 1] == '/' then TrimRight(p[..|p| - 1]) else p
  }

  /** `path.strip("/")`. */
  function StripSlashes(p: string): (r: string)
    ensures |r| <= |p|
    ensures r == [] || (r[0] != '/' && r[|r| - 1] != '/')
  {
    var l := TrimLeft(p);
    var r := TrimRight(l);
    assert r != [] ==> r[0] == l[0];
    r
  }

  function Slashes(n: nat): (r: string)
    ensures |r| == n && forall i :: 0 <= i < n ==> r[i] == '/'
  {
    if n == 0 then [] else "/" + Slashes(n - 1)
  }

  lemma {:induction false} TrimLeftSlashes(n: nat, s: string)
    requires s == [] || s[0] != '/'
    ensures TrimLeft(Slashes(n) + s) == s
  {
    if n > 0 {
      SlashesStep(n, s);
      TrimLeftStep(Slashes(n) + s);
      TrimLeftSlashes(n - 1, s);
    } else {
      assert Slashes(n) + s == s;
    }
  }

  lemma SlashesStep(n: nat, s: string)
    requires n > 0
    ensures (Slashes(n) + s)[0] == '/' && (Slashes(n) + s)[1..] == Slashes(n - 1) + s
  {
    assert Slashes(n) == "/" + Slashes(n - 1);
  }

  lemma TrimLeftStep(t: string)
    requires t != [] && t[0] == '/'
    ensures TrimLeft(t) == TrimLeft(t[1..])
  {
  }

  lemma {:induction false} TrimRightSlashes(s: string, m: nat)
    requires s == [] || s[|s| - 1] != '/'
    ensures TrimRight(s + Slashes(m)) == s
  {
    if m > 0 {
      var t := s + Slashes(m);
      assert t[|t| - 1] == '/';
      assert Slashes(m) == Slashes(m - 1) + "/" by {
        var a := Slashes(m);
        var b := Slashes(m - 1) + "/";
        assert |a| == |b|;
        assert forall i :: 0 <= i < |a| ==> a[i] == b[i];
      }
      assert t[..|t| - 1] == s + Slashes(m - 1);
      TrimRightSlashes(s, m - 1);
    } else {
      assert s + Slashes(m) == s;
    }
  }

  /** Any number of slashes around a clean path are removed, and nothing else is. */
  lemma StripSlashesAround(n: nat, s: string, m: nat)
    requires s != [] && s[0] != '/' && s[|s| - 1] != '/'
    ensures StripSlashes(Slashes(n) + s + Slashes(m)) == s
  {
    var tail := s + Slashes(m);
    var p := Slashes(n) + s + Slashes(m);
    assert p == Slashes(n) + tail;
    TrimLeftSlashes(n, tail);
    assert tail[0] == s[0];
    TrimRightSlashes(s, m);
    assert TrimLeft(p) == tail;
    assert TrimRight(tail) == s;
  }

  /** The JSON envelope: `{"response", "code"}` for a code without an entry in `ERRORS`, else `{"error", "code"}`. */
  function Envelope(response: Value, code: int): (r: Value)
    ensures r.DictV? && "code" in r.entries && r.entries["code"] == IntV(code)
    ensures "response" in r.entries <==> code !in ERRORS
    ensures "error" in r.entries <==> code in ERRORS
    ensures code !in ERRORS ==> r.entries["response"] == response
    ensures code in ERRORS ==> r.entries["error"] == (if Truthy(response) then response else StrV(ERRORS[code]))
  {
    if code !in ERRORS then DictV(map["response" := response, "code" := IntV(code)])
    else DictV(map["error" := (if Truthy(response) then response else StrV(ERRORS[code])), "code" := IntV(code)])
  }

  /** The route table: only `method`. */
  predicate Routed(path: string) {
    StripSlashes(path) == "method"
  }

  /**
   * `do_POST` with the handler's answer taken from `get_response()`.
   * `parsed` is the decoded JSON body, `None` when reading or decoding
   * raised; `requestId` is the header named `HTTP_X_REQUEST_ID` or a
   * fresh UUID.
   * The result is the envelope, the status, and the cache afterwards.
   */
  function DoPostSpec(parsed: Option<Value>, path: string, requestId: string,
                      data: map<string, Value>, expiry: map<string, nat>, env: Env): (r: (Value, int, map<string, Value>, map<string, nat>))
  {
    if parsed.None? then (Envelope(DictV(map[]), BAD_REQUEST), BAD_REQUEST, data, expiry)
    else if !Truthy(parsed.value) then (Envelope(DictV(map[]), OK), OK, data, expiry)
    else if !Routed(path) then (Envelope(DictV(map[]), NOT_FOUND), NOT_FOUND, data, expiry)
    else
      var answered := Respond(MethodKind, parsed.value, State(map["request_id" := StrV(requestId)], data, expiry), env);
      match answered.0
      case Err(_) => (Envelope(DictV(map[]), INTERNAL_ERROR), INTERNAL_ERROR, answered.1.data, answered.1.expiry)
      case Ok(reply) => (Envelope(reply.0, reply.1), reply.1, answered.1.data, answered.1.expiry)
  }

  /**
   * `do_POST` as written: `response, code = self.router[path](...)`
   * unpacks the handler object itself, which is not iterable, so every
   * routed request is answered 500.
   */
  function DoPostAsWritten(parsed: Option<Value>, path: string): (r: (Value, int))
  {
    if parsed.None? then (Envelope(DictV(map[]), BAD_REQUEST), BAD_REQUEST)
    else if !Truthy(parsed.value) then (Envelope(DictV(map[]), OK), OK)
    else if !Routed(path) then (Envelope(DictV(map[]), NOT_FOUND), NOT_FOUND)
    else (Envelope(DictV(map[]), INTERNAL_ERROR), INTERNAL_ERROR)
  }

  /** An unreadable body is 400, an empty one 200 with an empty response, an unknown path 404; the cache is untouched. */
  lemma DoPostEarlyAnswers(parsed: Option<Value>, path: string, requestId: string,
                           data: map<string, Value>, expiry: map<string, nat>, env: Env)
    ensures parsed.None? ==>
      DoPostSpec(parsed, path, requestId, data, expiry, env) ==
        (DictV(map["error" := StrV("Bad Request"), "code" := IntV(400)]), 400, data, expiry)
    ensures parsed.Some? && !Truthy(parsed.value) ==>
      DoPostSpec(parsed, path, requestId, data, expiry, env) ==
        (DictV(map["response" := DictV(map[]), "code" := IntV(200)]), 200, data, expiry)
    ensures parsed.Some? && Truthy(parsed.value) && !Routed(path) ==>
      DoPostSpec(parsed, path, requestId, data, expiry, env) ==
        (DictV(map["error" := StrV("Not Found"), "code" := IntV(404)]), 404, data, expiry)
  {
  }

  /** As written, a routed request with a body is always answered 500, whatever the handler would have said. */
  lemma DoPostAsWrittenFails(parsed: Option<Value>, path: string)
    requires parsed.Some? && Truthy(parsed.value) && Routed(path)
    ensures DoPostAsWritten(parsed, path) == (DictV(map["error" := StrV("Internal Server Error"), "code" := IntV(500)]), 500)
  {
  }

  /**
   * With `get_response()` called, the handler's status reaches the
   * client: a validation failure is 422 with its message, and only an
   * exception is 500.
   */
  lemma DoPostForwards(parsed: Option<Value>, path: string, requestId: string,
                       data: map<string, Value>, expiry: map<string, nat>, env: Env)
    requires parsed.Some? && Truthy(parsed.value) && Routed(path)
    ensures var answered := Respond(MethodKind, parsed.value, State(map["request_id" := StrV(requestId)], data, expiry), env);
      var r := DoPostSpec(parsed, path, requestId, data, expiry, env);
      && (answered.0.Ok? ==> r.1 == answered.0.value.1 && r.0 == Envelope(answered.0.value.0, answered.0.value.1))
      && (answered.0.Err? <==> r.1 == INTERNAL_ERROR && !(answered.0.Ok? && answered.0.value.1 == INTERNAL_ERROR))
      && r.2 == answered.1.data
  {
  }

  /** The two differ only on routed requests, where the handler's answer replaces the blanket 500. */
  lemma DoPostAgreesOffRoute(parsed: Option<Value>, path: string, requestId: string,
                             data: map<string, Value>, expiry: map<string, nat>, env: Env)
    requires !(parsed.Some? && Truthy(parsed.value) && Routed(path))
    ensures DoPostSpec(parsed, path, requestId, data, expiry, env).0 == DoPostAsWritten(parsed, path).0
    ensures DoPostSpec(parsed, path, requestId, data, expiry, env).1 == DoPostAsWritten(parsed, path).1
  {
  }

  /**
   * `MainHTTPHandler.do_POST` with the corrected call of the handler's
   * `get_response()`: a fresh context holding the request id, the method
   * handler, then the envelope.
   */
  method DoPost(parsed: Option<Value>, path: string, requestId: string, store: Store, env: Env)
    returns (envelope: Value, code: int)
    modifies store
    ensures (envelope, code, store.data, store.expiry) ==
      DoPostSpec(parsed, path, requestId, old(store.data), old(store.expiry), env)
  {
    var response := DictV(map[]);
    code := OK;
    if parsed.None? {
      code := BAD_REQUEST;
    } else if Truthy(parsed.value) {
      if Routed(path) {
        var ctx := new Context(map["request_id" := StrV(requestId)]);
        var reply := GetResponse(MethodKind, parsed.value, ctx, store, env);
        if reply.Err? {
          code := INTERNAL_ERROR;
        } else {
          response, code := reply.value.0, reply.value.1;
        }
      } else {
        code := NOT_FOUND;
      }
    }
    envelope := Envelope(response, code);
  }
}
