/**
 * The scoring functions: the cache key of a client's data, the score
 * read from the cache or computed from which data are present, and a
 * client's interests read from the store. Scores are counted in half
 * points: 1.5 is three halves.
 */
module Scoring {
  import opened Wrappers
  import opened PyText
  import opened ScoringFields

  /** The exceptions the scoring code lets escape. */
  datatype Crash = TypeError | AttributeError | ValueError | KeyError

  /**
   * `str(v)`: integers, booleans, `None` and strings are written out;
   * any other value uses `show`, which stands for Python's formatting.
   */
  function PyStr(v: Value, show: Value -> string): (r: string)
    ensures v.IntV? ==> r == IntToText(v.i)
    ensures v.StrV? ==> r == v.s
  {
    match v
    case IntV(i) => IntToText(i)
    case BoolV(b) => if b then "True" else "False"
    case NoneV => "None"
    case StrV(s) => s
    case UnicodeV(u) => u
    case _ => show(v)
  }

  /** `v or ""` as an element of `"".join(...)`: a value that is truthy but not text makes `join` raise. */
  function KeyPart(v: Value): (r: Option<string>)
    ensures !Truthy(v) ==> r == Some("")
    ensures v.StrV? ==> r == Some(v.s)
    ensures Truthy(v) && !v.StrV? && !v.UnicodeV? ==> r.None?
  {
    if !Truthy(v) then Some("")
    else
      match v
      case StrV(s) => Some(s)
      case UnicodeV(u) => Some(u)
      case _ => None
  }

  function Pow10(n: nat): (r: nat)
    ensures r >= 1
  {
    if n == 0 then 1 else 10 * Pow10(n - 1)
  }

  function Zeros(n: nat): (r: string)
    ensures |r| == n && AllDigits(r)
    ensures forall i :: 0 <= i < n ==> r[i] == '0'
  {
    if n == 0 then [] else Zeros(n - 1) + "0"
  }

  /** `n` written with at least `width` digits, padded with leading zeros, as `strftime` does. */
  function ZeroPad(n: nat, width: nat): (r: string)
    ensures AllDigits(r) && |r| >= width
    ensures |NatToText(n)| <= width ==> |r| == width
  {
    var digits := NatToText(n);
    if |digits| >= width then digits else Zeros(width - |digits|) + digits
  }

  /** The value of digits written one after the other. */
  lemma {:induction false} DigitsConcat(a: string, b: string)
    requires AllDigits(a) && AllDigits(b)
    ensures AllDigits(a + b)
    ensures DigitsValue(a + b) == DigitsValue(a) * Pow10(|b|) + DigitsValue(b)
    decreases |b|
  {
    var ab := a + b;
    assert AllDigits(ab) by {
      forall i | 0 <= i < |ab| ensures IsDigit(ab[i]) {
        if i < |a| { assert ab[i] == a[i]; } else { assert ab[i] == b[i - |a|]; }
      }
    }
    if b == [] {
      assert ab == a;
    } else {
      var init := b[..|b| - 1];
      assert AllDigits(init) by {
        forall i | 0 <= i < |init| ensures IsDigit(init[i]) { assert init[i] == b[i]; }
      }
      assert ab[..|ab| - 1] == a + init;
      assert ab[|ab| - 1] == b[|b| - 1];
      DigitsConcat(a, init);
      var x, y, d := DigitsValue(a), DigitsValue(init), DigitValue(b[|b| - 1]);
      assert DigitsValue(ab) == DigitsValue(a + init) * 10 + d;
      assert DigitsValue(b) == y * 10 + d;
      assert Pow10(|b|) == 10 * Pow10(|init|);
      ShiftDigit(x, Pow10(|init|), y, d);
    }
  }

  /** Appending one digit to a number multiplies its leading part's weight by ten. */
  lemma ShiftDigit(x: int, p: int, y: int, d: int)
    ensures (x * p + y) * 10 + d == x * (10 * p) + (y * 10 + d)
  {
  }

  lemma {:induction false} ZerosValue(n: nat)
    ensures DigitsValue(Zeros(n)) == 0
  {
    if n > 0 {
      assert Zeros(n)[..n - 1] == Zeros(n - 1);
      ZerosValue(n - 1);
    }
  }

  /** Padding does not change the number the digits stand for. */
  lemma ZeroPadValue(n: nat, width: nat)
    ensures DigitsValue(ZeroPad(n, width)) == n
  {
    NatToTextValue(n);
    var digits := NatToText(n);
    if |digits| < width {
      PaddedValue(width - |digits|, digits);
    }
  }

  lemma PaddedValue(z: nat, s: string)
    requires AllDigits(s)
    ensures DigitsValue(Zeros(z) + s) == DigitsValue(s)
  {
    var zs := Zeros(z);
    DigitsConcat(zs, s);
    ZerosValue(z);
    ZeroWeight(DigitsValue(zs), Pow10(|s|), DigitsValue(s));
  }

  /** A leading part worth nothing adds nothing, whatever its weight. */
  lemma ZeroWeight(x: int, p: int, y: int)
    requires x == 0
    ensures x * p + y == y
  {
  }

  /** A `date` can hold these fields; Python 2's `strftime` further refuses years before 1900. */
  predicate Formattable(v: Value) {
    v.DateV? && 1900 <= v.year <= 9999 && 1 <= v.month <= 12 && 1 <= v.day <= 31
  }

  /**
   * `birthday.strftime("%Y%m%d")`: `None` stands for the exception, an
   * `AttributeError` for a value that is no date and a `ValueError` for a
   * year before 1900.
   */
  function DateText(v: Value): (r: Option<string>)
    ensures r.Some? <==> Formattable(v)
    ensures r.Some? ==> |r.value| == 8 && AllDigits(r.value)
  {
    if !Formattable(v) then None
    else
      assert |NatToText(v.year)| <= 4 by { NatToTextWidth(v.year, 4); }
      assert |NatToText(v.month)| <= 2 by { NatToTextWidth(v.month, 2); }
      assert |NatToText(v.day)| <= 2 by { NatToTextWidth(v.day, 2); }
      var text := ZeroPad(v.year, 4) + ZeroPad(v.month, 2) + ZeroPad(v.day, 2);
      assert AllDigits(text) by {
        DigitsConcat(ZeroPad(v.year, 4), ZeroPad(v.month, 2));
        DigitsConcat(ZeroPad(v.year, 4) + ZeroPad(v.month, 2), ZeroPad(v.day, 2));
      }
      Some(text)
  }

  lemma {:induction false} NatToTextWidth(n: nat, width: nat)
    requires 1 <= width && n < Pow10(width)
    ensures |NatToText(n)| <= width
  {
    if n >= 10 {
      assert width >= 2 && Pow10(width) == 10 * Pow10(width - 1);
      NatToTextWidth(n / 10, width - 1);
    }
  }

  /** The eight digits read back as year, month and day. */
  lemma DateTextReadBack(v: Value)
    requires Formattable(v)
    ensures var t := DateText(v).value;
      DigitsValue(t[..4]) == v.year && DigitsValue(t[4..6]) == v.month && DigitsValue(t[6..]) == v.day
  {
    var t := DateText(v).value;
    NatToTextWidth(v.year, 4);
    NatToTextWidth(v.month, 2);
    NatToTextWidth(v.day, 2);
    assert t[..4] == ZeroPad(v.year, 4);
    assert t[4..6] == ZeroPad(v.month, 2);
    assert t[6..] == ZeroPad(v.day, 2);
    ZeroPadValue(v.year, 4);
    ZeroPadValue(v.month, 2);
    ZeroPadValue(v.day, 2);
  }

  /** The six parts of the key, in order: names, email, phone, then `str(gender)` and the birthday unless they are `None`. */
  function KeyParts(first: Value, last: Value, email: Value, phone: Value, gender: Value, birthday: Value, show: Value -> string)
    : (r: Result<seq<string>, Crash>)
    ensures r.Ok? <==> (KeyPart(first).Some? && KeyPart(last).Some? && KeyPart(email).Some?
                        && KeyPart(phone).Some? && (birthday.NoneV? || Formattable(birthday)))
    ensures r.Ok? ==> |r.value| == 6
    ensures r.Ok? ==> r.value[0] == KeyPart(first).value && r.value[1] == KeyPart(last).value
    ensures r.Ok? ==> r.value[2] == KeyPart(email).value && r.value[3] == KeyPart(phone).value
    ensures r.Ok? ==> r.value[4] == (if gender.NoneV? then "" else PyStr(gender, show))
    ensures r.Ok? ==> r.value[5] == (if birthday.NoneV? then "" else DateText(birthday).value)
    ensures birthday.DateV? && !Formattable(birthday) ==> r == Err(Crash.ValueError)
    ensures !birthday.NoneV? && !birthday.DateV? ==> r == Err(AttributeError)
  {
    var genderText := if gender.NoneV? then "" else PyStr(gender, show);
    if birthday.DateV? && DateText(birthday).None? then Err(Crash.ValueError)
    else if !birthday.NoneV? && DateText(birthday).None? then Err(AttributeError)
    else
      var birthdayText := if birthday.NoneV? then "" else DateText(birthday).value;
      if KeyPart(first).None? || KeyPart(last).None? || KeyPart(email).None? || KeyPart(phone).None? then Err(TypeError)
      else Ok([KeyPart(first).value, KeyPart(last).value, KeyPart(email).value, KeyPart(phone).value, genderText, birthdayText])
  }

  function Concat(parts: seq<string>): (r: string)
    ensures |parts| > 0 ==> r == Concat(parts[..|parts| - 1]) + parts[|parts| - 1]
  {
    if parts == [] then [] else Concat(parts[..|parts| - 1]) + parts[|parts| - 1]
  }

  /** `build_score_key`: `"uid:"` and the MD5 hex digest (`md5`) of the joined parts. */
  function BuildScoreKey(first: Value, last: Value, email: Value, phone: Value, gender: Value, birthday: Value,
                         md5: string -> string, show: Value -> string): (r: Result<string, Crash>)
    ensures KeyParts(first, last, email, phone, gender, birthday, show).Ok? ==>
      r == Ok("uid:" + md5(Concat(KeyParts(first, last, email, phone, gender, birthday, show).value)))
    ensures KeyParts(first, last, email, phone, gender, birthday, show).Err? ==>
      r == Err(KeyParts(first, last, email, phone, gender, birthday, show).error)
  {
    match KeyParts(first, last, email, phone, gender, birthday, show)
    case Err(e) => Err(e)
    case Ok(parts) => Ok("uid:" + md5(Concat(parts)))
  }

  /** A gender of 0 still contributes `"0"`, while an empty name contributes nothing. */
  lemma GenderZeroInKey(first: Value, last: Value, email: Value, phone: Value, show: Value -> string)
    requires !Truthy(first) && !Truthy(last) && !Truthy(email) && !Truthy(phone)
    ensures KeyParts(first, last, email, phone, IntV(0), NoneV, show) == Ok(["", "", "", "", "0", ""])
    ensures KeyParts(first, last, email, phone, NoneV, NoneV, show) == Ok(["", "", "", "", "", ""])
  {
  }

  /** The half points a client earns: phone, e-mail, birthday with gender, both names. */
  function Halves(phone: Value, email: Value, birthday: Value, gender: Value, first: Value, last: Value): (h: nat)
    ensures h <= 10
    ensures h == 0 <==> !Truthy(phone) && !Truthy(email) && !(Truthy(birthday) && Truthy(gender)) && !(Truthy(first) && Truthy(last))
    ensures h == 10 <==> Truthy(phone) && Truthy(email) && Truthy(birthday) && Truthy(gender) && Truthy(first) && Truthy(last)
  {
    (if Truthy(phone) then 3 else 0)
    + (if Truthy(email) then 3 else 0)
    + (if Truthy(birthday) && Truthy(gender) then 3 else 0)
    + (if Truthy(first) && Truthy(last) then 1 else 0)
  }

  /** The score `get_score` builds from `0`: the integer 0 when nothing adds, a float otherwise. */
  function ScoreValue(h: nat): (v: Value)
    ensures h == 0 ==> v == IntV(0)
    ensures h > 0 ==> v.FloatV? && v.f * 2.0 == h as real
    ensures Truthy(v) <==> h > 0
  {
    if h == 0 then IntV(0) else FloatV(h as real / 2.0)
  }

  /** Adding a point never lowers the score: each datum only adds. */
  lemma HalvesMonotone(phone: Value, email: Value, birthday: Value, gender: Value, first: Value, last: Value, phone': Value)
    requires Truthy(phone) ==> Truthy(phone')
    ensures Halves(phone, email, birthday, gender, first, last) <= Halves(phone', email, birthday, gender, first, last)
  {
  }

  /** A gender of 0 earns no birthday points: `get_score` tests its truthiness. */
  lemma GenderZeroEarnsNothing(birthday: Value)
    ensures Halves(NoneV, NoneV, birthday, IntV(0), NoneV, NoneV) == 0
    ensures Truthy(birthday) ==> Halves(NoneV, NoneV, birthday, IntV(1), NoneV, NoneV) == 3
  {
  }

  /** The key-value cache behind `store`, with the expiry given to each key written. */
  class Store {
    var data: map<string, Value>
    var expiry: map<string, nat>

    constructor (data: map<string, Value>)
      ensures this.data == data && expiry == map[]
    {
      this.data := data;
      expiry := map[];
    }

    /** `cache_get` / `get`: the stored value, `None` for a missing key. */
    function Get(key: string): (v: Value)
      reads this
      ensures key !in data ==> v == NoneV
      ensures key in data ==> v == data[key]
    {
      Lookup(data, key)
    }

    /** `cache_set(key, value, ex)`. */
    method Set(key: string, value: Value, ex: nat)
      modifies this
      ensures data == old(data)[key := value] && expiry == old(expiry)[key := ex]
    {
      data := data[key := value];
      expiry := expiry[key := ex];
    }
  }

  /** The cache lifetime of a computed score: an hour. */
  const SCORE_TTL: nat := 60 * 60

  /**
   * What `get_score` does to a cache holding `data` with expiries
   * `expiry`: the result and the cache afterwards. The cache changes
   * only by one entry, the score returned, stored for an hour.
   */
  function ScoreSpec(data: map<string, Value>, expiry: map<string, nat>,
                     phone: Value, email: Value, birthday: Value, gender: Value, first: Value, last: Value,
                     md5: string -> string, show: Value -> string): (r: (Result<Value, Crash>, map<string, Value>, map<string, nat>))
    ensures r.0.Err? ==> r.1 == data && r.2 == expiry
    ensures data.Keys <= r.1.Keys
    ensures forall k :: k in r.1 && (k !in data || r.1[k] != data[k]) ==>
      r.0 == Ok(r.1[k]) && k in r.2 && r.2[k] == SCORE_TTL
  {
    match BuildScoreKey(first, last, email, phone, gender, birthday, md5, show)
    case Err(e) => (Err(e), data, expiry)
    case Ok(key) =>
      var cached := Lookup(data, key);
      if Truthy(cached) then (Ok(cached), data, expiry)
      else
        var score := ScoreValue(Halves(phone, email, birthday, gender, first, last));
        (Ok(score), data[key := score], expiry[key := SCORE_TTL])
  }

  /** A truthy cached value is returned as it is, and the cache is left alone. */
  lemma CachedScoreReturned(data: map<string, Value>, expiry: map<string, nat>,
                            phone: Value, email: Value, birthday: Value, gender: Value, first: Value, last: Value,
                            md5: string -> string, show: Value -> string, key: string)
    requires BuildScoreKey(first, last, email, phone, gender, birthday, md5, show) == Ok(key)
    requires key in data && Truthy(data[key])
    ensures ScoreSpec(data, expiry, phone, email, birthday, gender, first, last, md5, show) == (Ok(data[key]), data, expiry)
  {
  }

  /**
   * On a miss, or a cached falsy value such as 0, the score is computed
   * in half points (between 0 and 5 points) and cached for an hour under
   * the key.
   */
  lemma ComputedScoreCached(data: map<string, Value>, expiry: map<string, nat>,
                            phone: Value, email: Value, birthday: Value, gender: Value, first: Value, last: Value,
                            md5: string -> string, show: Value -> string, key: string)
    requires BuildScoreKey(first, last, email, phone, gender, birthday, md5, show) == Ok(key)
    requires key !in data || !Truthy(data[key])
    ensures var r := ScoreSpec(data, expiry, phone, email, birthday, gender, first, last, md5, show);
      && r.0.Ok? && r.1 == data[key := r.0.value] && r.2 == expiry[key := 3600]
      && (r.0.value == IntV(0) || (r.0.value.FloatV? && 0.0 < r.0.value.f <= 5.0))
  {
    var h := Halves(phone, email, birthday, gender, first, last);
    var v := ScoreValue(h);
    if h > 0 {
      assert v.f * 2.0 == h as real;
    }
  }

  /** A key that cannot be built (a part `join` refuses, a birthday without `strftime`) raises before the cache is read. */
  lemma ScoreKeyFailure(data: map<string, Value>, expiry: map<string, nat>,
                        phone: Value, email: Value, birthday: Value, gender: Value, first: Value, last: Value,
                        md5: string -> string, show: Value -> string)
    requires KeyPart(phone).None? || (!birthday.NoneV? && !Formattable(birthday))
    ensures ScoreSpec(data, expiry, phone, email, birthday, gender, first, last, md5, show).0.Err?
    ensures ScoreSpec(data, expiry, phone, email, birthday, gender, first, last, md5, show).1 == data
  {
  }

  /**
   * `get_score`: the key, then the cache, then the sum of the points,
   * which is written back with an hour's expiry.
   */
  method GetScore(store: Store, phone: Value, email: Value, birthday: Value, gender: Value, first: Value, last: Value,
                  md5: string -> string, show: Value -> string) returns (r: Result<Value, Crash>)
    modifies store
    ensures (r, store.data, store.expiry) ==
      ScoreSpec(old(store.data), old(store.expiry), phone, email, birthday, gender, first, last, md5, show)
  {
    var built := BuildScoreKey(first, last, email, phone, gender, birthday, md5, show);
    if built.Err? {
      return Err(built.error);
    }
    var key := built.value;
    ghost var data, expiry := store.data, store.expiry;
    var cached := store.Get(key);
    if Truthy(cached) {
      return Ok(cached);
    }
    var hasPhone, hasEmail, hasBirthday, hasGender, hasFirst, hasLast :=
      Truthy(phone), Truthy(email), Truthy(birthday), Truthy(gender), Truthy(first), Truthy(last);
    var halves: nat := 0;
    if hasPhone {
      halves := halves + 3;
    }
    if hasEmail {
      halves := halves + 3;
    }
    if hasBirthday && hasGender {
      halves := halves + 3;
    }
    if hasFirst && hasLast {
      halves := halves + 1;
    }
    var score := ScoreValue(halves);
    MissedScoreSpec(data, expiry, phone, email, birthday, gender, first, last, md5, show, key, halves);
    store.Set(key, score, SCORE_TTL);
    r := Ok(score);
  }

  /** The miss path of `ScoreSpec`, with the half points counted by the caller. */
  lemma MissedScoreSpec(data: map<string, Value>, expiry: map<string, nat>,
                        phone: Value, email: Value, birthday: Value, gender: Value, first: Value, last: Value,
                        md5: string -> string, show: Value -> string, key: string, halves: nat)
    requires BuildScoreKey(first, last, email, phone, gender, birthday, md5, show) == Ok(key)
    requires !Truthy(Lookup(data, key))
    requires halves == (if Truthy(phone) then 3 else 0) + (if Truthy(email) then 3 else 0)
      + (if Truthy(birthday) && Truthy(gender) then 3 else 0) + (if Truthy(first) && Truthy(last) then 1 else 0)
    ensures ScoreSpec(data, expiry, phone, email, birthday, gender, first, last, md5, show)
      == (Ok(ScoreValue(halves)), data[key := ScoreValue(halves)], expiry[key := SCORE_TTL])
  {
  }

  /** The store key of a client's interests, `"i:%s" % cid`. */
  function InterestsKey(cid: Value, show: Value -> string): (key: string)
    ensures |key| >= 2 && key[..2] == "i:" && key[2..] == PyStr(cid, show)
  {
    "i:" + PyStr(cid, show)
  }

  /** `get_interests`: what the store holds under the client's key. */
  function GetInterests(store: Store, cid: Value, show: Value -> string): (r: Value)
    reads store
    ensures InterestsKey(cid, show) !in store.data ==> r == NoneV
    ensures InterestsKey(cid, show) in store.data ==> r == store.data[InterestsKey(cid, show)]
  {
    store.Get(InterestsKey(cid, show))
  }

  /** Integer client ids with different values read different keys. */
  lemma InterestsKeysDistinct(a: int, b: int, show: Value -> string)
    requires a != b
    ensures InterestsKey(IntV(a), show) != InterestsKey(IntV(b), show)
  {
    var ka := InterestsKey(IntV(a), show);
    var kb := InterestsKey(IntV(b), show);
    IntToTextRoundTrip(a);
    IntToTextRoundTrip(b);
    assert ka[2..] == IntToText(a) && kb[2..] == IntToText(b);
    assert ka[2..] != kb[2..];
  }
}
