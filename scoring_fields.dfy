/**
 * The field validators of the scoring service (Python 2): a `Field`
 * checks a value for presence, type and truthiness; `CharField` also
 * bounds its length. Descriptors store validated values in an instance's
 * `__dict__`, and the metaclasses label fields and validate keyword
 * arguments.
 */
module ScoringFields {
  import opened Wrappers
  import opened PyText

  /** The Python 2 values that reach the validators. `str` and `unicode` are distinct types. */
  datatype Value =
    | NoneV
    | BoolV(b: bool)
    | IntV(i: int)
    | FloatV(f: real)
    | StrV(s: string)
    | UnicodeV(u: string)
    | ListV(items: seq<Value>)
    | DictV(entries: map<string, Value>)
    | DateV(year: int, month: int, day: int)

  /** `bool(value)`. */
  predicate Truthy(v: Value) {
    match v
    case NoneV => false
    case BoolV(b) => b
    case IntV(i) => i != 0
    case FloatV(f) => f != 0.0
    case StrV(s) => s != []
    case UnicodeV(u) => u != []
    case ListV(items) => items != []
    case DictV(entries) => entries != map[]
    case DateV(_, _, _) => true
  }

  /** `dict.get(key)`: `None` for a missing key. */
  function Lookup(d: map<string, Value>, key: string): (v: Value)
    ensures key !in d ==> v == NoneV
    ensures key in d ==> v == d[key]
  {
    if key in d then d[key] else NoneV
  }

  /** `Field` has no type to check; `CharField` checks `str` and a maximum length. */
  datatype FieldKind = Plain | Char(maxLen: nat)

  datatype Field = Field(fieldLabel: Option<string>, required: bool, nullable: bool, kind: FieldKind)

  /** `CharField`'s default `max_len`. */
  const CHAR_MAX_LEN: nat := 128

  /** `Field(label=None, required=False, nullable=True)`. */
  function PlainField(required: bool, nullable: bool): (f: Field)
    ensures f.fieldLabel.None? && f.kind == Plain
  {
    Field(None, required, nullable, Plain)
  }

  /** `CharField(max_len=128, ...)`. */
  function CharField(required: bool, nullable: bool, maxLen: nat): (f: Field)
    ensures f.fieldLabel.None? && f.kind == Char(maxLen)
  {
    Field(None, required, nullable, Char(maxLen))
  }

  /** The defaults of the constructors: not required, nullable, 128 characters. */
  lemma FieldDefaults()
    ensures !PlainField(false, true).required && PlainField(false, true).nullable
    ensures CharField(false, true, CHAR_MAX_LEN).kind.maxLen == 128
  {
  }

  /**
   * `Field.is_nullable(value)`, which is `bool(value)`: despite its name,
   * it holds of the values that are NOT empty, and never of `None`, `""`,
   * `0`, `False`, an empty list or an empty dict.
   */
  predicate IsNullable(v: Value): (truthy: bool)
    ensures truthy ==> !v.NoneV?
    ensures v in {StrV([]), UnicodeV([]), IntV(0), BoolV(false), ListV([]), DictV(map[])} ==> !truthy
    ensures v.DateV? ==> truthy
  {
    Truthy(v)
  }

  /** `"{}".format(self.fieldLabel)`: a missing label prints as `None`. */
  function LabelText(f: Field): string {
    if f.fieldLabel.None? then "None" else f.fieldLabel.value
  }

  function RequiredMessage(f: Field): string {
    "Field `" + LabelText(f) + "` is required."
  }

  /** Python 2 prints the `str` type as `<type 'str'>`. */
  function TypeMessage(f: Field): string {
    "Field `" + LabelText(f) + "` must be an instance of <type 'str'> type."
  }

  function NullableMessage(f: Field): string {
    "Field `" + LabelText(f) + "` may not be nullable."
  }

  function LengthMessage(f: Field, maxLen: nat): string {
    "Field `" + LabelText(f) + "` is longer than " + NatToText(maxLen) + "."
  }

  /** `Field.validate`: required, then type, then nullability; a passing value comes back unchanged. */
  function BaseValidate(f: Field, v: Value): (r: Result<Value, string>)
    ensures r.Ok? ==> r.value == v
    ensures f.required && v.NoneV? ==> r == Err(RequiredMessage(f))
    ensures f.kind.Char? && !v.StrV? && !(f.required && v.NoneV?) ==> r == Err(TypeMessage(f))
    ensures r.Ok? <==>
      !(f.required && v.NoneV?) && (f.kind.Char? ==> v.StrV?) && (f.nullable || IsNullable(v))
  {
    if f.required && v.NoneV? then Err(RequiredMessage(f))
    else if f.kind.Char? && !v.StrV? then Err(TypeMessage(f))
    else if !f.nullable && !IsNullable(v) then Err(NullableMessage(f))
    else Ok(v)
  }

  /** `CharField.validate` as written: after the checks it falls off the end and returns `None`. */
  function ValidateAsWritten(f: Field, v: Value): (r: Result<Value, string>)
  {
    match BaseValidate(f, v)
    case Err(e) => Err(e)
    case Ok(value) =>
      match f.kind
      case Plain => Ok(value)
      case Char(maxLen) =>
        if |value.s| > maxLen then Err(LengthMessage(f, maxLen)) else Ok(NoneV)
  }

  /** `validate` returning the validated value, as the base class documents. */
  function Validate(f: Field, v: Value): (r: Result<Value, string>)
    ensures r.Ok? ==> r.value == v
    ensures r.Ok? <==> BaseValidate(f, v).Ok? && (f.kind.Char? ==> |v.s| <= f.kind.maxLen)
  {
    match BaseValidate(f, v)
    case Err(e) => Err(e)
    case Ok(value) =>
      match f.kind
      case Plain => Ok(value)
      case Char(maxLen) =>
        if |value.s| > maxLen then Err(LengthMessage(f, maxLen)) else Ok(value)
  }

  /** As written, every `str` a `CharField` accepts is stored as `None`. */
  lemma CharFieldStoresNone(f: Field, v: Value)
    requires f.kind.Char? && ValidateAsWritten(f, v).Ok?
    ensures ValidateAsWritten(f, v) == Ok(NoneV)
    ensures v.StrV? && Validate(f, v) == Ok(v)
  {
  }

  /** The two differ only in the value a passing `CharField` returns. */
  lemma ValidateAgreesOnErrors(f: Field, v: Value)
    ensures ValidateAsWritten(f, v).Err? <==> Validate(f, v).Err?
    ensures ValidateAsWritten(f, v).Err? ==> ValidateAsWritten(f, v) == Validate(f, v)
    ensures f.kind.Plain? ==> ValidateAsWritten(f, v) == Validate(f, v)
  {
  }

  /** `CharField` turns away `None` even when the field is not required: `None` is not a `str`. */
  lemma CharFieldRejectsNone(f: Field)
    requires f.kind.Char?
    ensures Validate(f, NoneV).Err?
  {
  }

  /** Without `nullable`, exactly the falsy values are refused (after the other checks pass). */
  lemma NotNullableRejectsFalsy(f: Field, v: Value)
    requires !f.nullable && f.kind.Plain? && !(f.required && v.NoneV?)
    ensures Validate(f, v).Ok? <==> Truthy(v)
  {
  }

  /** What a descriptor raises. */
  datatype PyError = ValueError(message: string) | ValidationError(message: string) | KeyError(key: string)

  const LABEL_NONE: string := "Label of an instance of `Field` class may not be None."

  /** `Field.__set__` with the corrected validator: the validated value goes under the field's label. */
  function SetField(f: Field, v: Value, dict: map<string, Value>): (r: Result<map<string, Value>, PyError>)
    ensures f.fieldLabel.None? ==> r == Err(ValueError(LABEL_NONE))
    ensures f.fieldLabel.Some? && Validate(f, v).Err? ==> r == Err(ValidationError(Validate(f, v).error))
    ensures r.Ok? <==> f.fieldLabel.Some? && Validate(f, v).Ok?
    ensures r.Ok? ==> r.value == dict[f.fieldLabel.value := v]
  {
    if f.fieldLabel.None? then Err(ValueError(LABEL_NONE))
    else
      match Validate(f, v)
      case Err(e) => Err(ValidationError(e))
      case Ok(cleaned) => Ok(dict[f.fieldLabel.value := cleaned])
  }

  /**
   * `Field.__set__` as written, with `CharField.validate` returning `None`:
   * it fails exactly when `SetField` does and with the same error, but a
   * `CharField` that passes stores `None`.
   */
  function SetFieldAsWritten(f: Field, v: Value, dict: map<string, Value>): (r: Result<map<string, Value>, PyError>)
    ensures r.Ok? <==> SetField(f, v, dict).Ok?
    ensures r.Err? ==> r == SetField(f, v, dict)
    ensures f.kind.Plain? ==> r == SetField(f, v, dict)
    ensures r.Ok? && f.kind.Char? ==> r.value == dict[f.fieldLabel.value := NoneV]
  {
    ValidateAgreesOnErrors(f, v);
    if f.fieldLabel.None? then Err(ValueError(LABEL_NONE))
    else
      match ValidateAsWritten(f, v)
      case Err(e) => Err(ValidationError(e))
      case Ok(cleaned) => Ok(dict[f.fieldLabel.value := cleaned])
  }

  /** As written, a `CharField` set to a string it accepts reads back as `None`, not as that string. */
  lemma CharFieldReadsNone(f: Field, v: Value, dict: map<string, Value>)
    requires f.kind.Char? && SetFieldAsWritten(f, v, dict).Ok?
    ensures GetField(f, SetFieldAsWritten(f, v, dict).value) == Ok(NoneV)
    ensures v.StrV? && GetField(f, SetField(f, v, dict).value) == Ok(v)
  {
    GetAfterSet(f, v, dict);
  }

  /** `Field.__get__` on an instance: the value stored under the label. */
  function GetField(f: Field, dict: map<string, Value>): (r: Result<Value, PyError>)
    ensures f.fieldLabel.None? ==> r == Err(ValueError(LABEL_NONE))
    ensures f.fieldLabel.Some? && f.fieldLabel.value !in dict ==> r == Err(KeyError(f.fieldLabel.value))
    ensures r.Ok? <==> f.fieldLabel.Some? && f.fieldLabel.value in dict
    ensures r.Ok? ==> r.value == dict[f.fieldLabel.value]
  {
    if f.fieldLabel.None? then Err(ValueError(LABEL_NONE))
    else if f.fieldLabel.value !in dict then Err(KeyError(f.fieldLabel.value))
    else Ok(dict[f.fieldLabel.value])
  }

  /** After a successful set, reading the field gives the value back. */
  lemma GetAfterSet(f: Field, v: Value, dict: map<string, Value>)
    requires SetField(f, v, dict).Ok?
    ensures GetField(f, SetField(f, v, dict).value) == Ok(v)
  {
  }

  /** An object whose attributes are validated fields. */
  class Instance {
    var dict: map<string, Value>

    constructor ()
      ensures dict == map[]
    {
      dict := map[];
    }

    /** `setattr(instance, name, value)` through the field's `__set__`. */
    method Set(f: Field, v: Value) returns (r: Result<(), PyError>)
      modifies this
      ensures SetField(f, v, old(dict)).Ok? ==> r == Ok(()) && dict == SetField(f, v, old(dict)).value
      ensures SetField(f, v, old(dict)).Err? ==> r == Err(SetField(f, v, old(dict)).error) && dict == old(dict)
    {
      var after := SetField(f, v, dict);
      if after.Err? {
        return Err(after.error);
      }
      dict := after.value;
      r := Ok(());
    }

    /** `getattr(instance, name)` through the field's `__get__`. */
    function Get(f: Field): (r: Result<Value, PyError>)
      reads this
      ensures r == GetField(f, dict)
    {
      GetField(f, dict)
    }
  }

  /** `UseValidationMeta.__new__`: a field without a label takes the attribute's name. */
  function Labelled(attrs: seq<(string, Field)>): (r: seq<(string, Field)>)
    ensures |r| == |attrs|
    ensures forall i :: 0 <= i < |r| ==> r[i].0 == attrs[i].0 && r[i].1.fieldLabel.Some?
    ensures forall i :: 0 <= i < |r| ==>
      r[i].1 == attrs[i].1.(fieldLabel := if attrs[i].1.fieldLabel.None? then Some(attrs[i].0) else attrs[i].1.fieldLabel)
  {
    seq(|attrs|, i requires 0 <= i < |attrs| =>
      (attrs[i].0, attrs[i].1.(fieldLabel := if attrs[i].1.fieldLabel.None? then Some(attrs[i].0) else attrs[i].1.fieldLabel)))
  }

  /**
   * Setting each field in turn from `values.get(name)`, stopping at the
   * first error: the body of `UseValidationMeta.__call__` and of
   * `Request.validate`.
   */
  function SetAll(fields: seq<(string, Field)>, values: map<string, Value>, dict: map<string, Value>): (r: Result<map<string, Value>, PyError>)
    decreases |fields|
  {
    if fields == [] then Ok(dict)
    else
      match SetField(fields[0].1, Lookup(values, fields[0].0), dict)
      case Err(e) => Err(e)
      case Ok(next) => SetAll(fields[1..], values, next)
  }

  /** The dictionary as the loop leaves it: every field before the failing one has been stored. */
  function Progress(fields: seq<(string, Field)>, values: map<string, Value>, dict: map<string, Value>): (r: map<string, Value>)
    decreases |fields|
  {
    if fields == [] then dict
    else
      match SetField(fields[0].1, Lookup(values, fields[0].0), dict)
      case Err(_) => dict
      case Ok(next) => Progress(fields[1..], values, next)
  }

  /** When no field fails, the loop leaves exactly the dictionary `SetAll` produces. */
  lemma {:induction false} ProgressOfSuccess(fields: seq<(string, Field)>, values: map<string, Value>, dict: map<string, Value>)
    requires SetAll(fields, values, dict).Ok?
    ensures Progress(fields, values, dict) == SetAll(fields, values, dict).value
    decreases |fields|
  {
    if fields != [] {
      ProgressOfSuccess(fields[1..], values, SetField(fields[0].1, Lookup(values, fields[0].0), dict).value);
    }
  }

  /** Only the names of the fields matter: two sources of values that agree on them validate alike. */
  lemma {:induction false} SetAllSameValues(fields: seq<(string, Field)>, a: map<string, Value>, b: map<string, Value>, dict: map<string, Value>)
    requires forall i :: 0 <= i < |fields| ==> Lookup(a, fields[i].0) == Lookup(b, fields[i].0)
    ensures SetAll(fields, a, dict) == SetAll(fields, b, dict)
    ensures Progress(fields, a, dict) == Progress(fields, b, dict)
    decreases |fields|
  {
    if fields != [] {
      assert Lookup(a, fields[0].0) == Lookup(b, fields[0].0);
      var step := SetField(fields[0].1, Lookup(a, fields[0].0), dict);
      if step.Ok? {
        forall i | 0 <= i < |fields[1..]| ensures Lookup(a, fields[1..][i].0) == Lookup(b, fields[1..][i].0) {
          assert fields[1..][i] == fields[i + 1];
        }
        SetAllSameValues(fields[1..], a, b, step.value);
      }
    }
  }

  /** With the corrected validator, when every field passes, each labelled field ends up holding the value given for its name. */
  lemma {:induction false} SetAllStores(fields: seq<(string, Field)>, values: map<string, Value>, dict: map<string, Value>, k: int)
    requires SetAll(fields, values, dict).Ok?
    requires 0 <= k < |fields|
    requires forall i, j :: 0 <= i < j < |fields| ==> fields[i].1.fieldLabel != fields[j].1.fieldLabel
    ensures fields[k].1.fieldLabel.Some?
    ensures var d := SetAll(fields, values, dict).value;
      fields[k].1.fieldLabel.value in d && d[fields[k].1.fieldLabel.value] == Lookup(values, fields[k].0)
  {
    var next := SetField(fields[0].1, Lookup(values, fields[0].0), dict).value;
    var tail := fields[1..];
    assert forall i, j :: 0 <= i < j < |tail| ==> tail[i].1.fieldLabel != tail[j].1.fieldLabel by {
      forall i, j | 0 <= i < j < |tail| ensures tail[i].1.fieldLabel != tail[j].1.fieldLabel {
        assert tail[i] == fields[i + 1] && tail[j] == fields[j + 1];
      }
    }
    if k == 0 {
      SetAllKeeps(tail, values, next, fields[0].1.fieldLabel.value);
    } else {
      assert tail[k - 1] == fields[k];
      SetAllStores(tail, values, next, k - 1);
    }
  }

  /** An entry whose key no remaining field is labelled with is left alone. */
  lemma {:induction false} SetAllKeeps(fields: seq<(string, Field)>, values: map<string, Value>, dict: map<string, Value>, key: string)
    requires SetAll(fields, values, dict).Ok?
    requires key in dict
    requires forall i :: 0 <= i < |fields| ==> fields[i].1.fieldLabel != Some(key)
    ensures key in SetAll(fields, values, dict).value && SetAll(fields, values, dict).value[key] == dict[key]
  {
    if fields != [] {
      var next := SetField(fields[0].1, Lookup(values, fields[0].0), dict).value;
      assert forall i :: 0 <= i < |fields[1..]| ==> fields[1..][i].1.fieldLabel != Some(key) by {
        forall i | 0 <= i < |fields[1..]| ensures fields[1..][i].1.fieldLabel != Some(key) {
          assert fields[1..][i] == fields[i + 1];
        }
      }
      SetAllKeeps(fields[1..], values, next, key);
    }
  }

  const POSITIONAL_ARGUMENTS: string := "Positional arguments are not allowed."

  /**
   * `UseValidationMeta.__call__`: positional arguments are refused; then
   * each field of the class is set on a new instance from the keyword
   * arguments, a missing one as `None`.
   */
  method Construct(fields: seq<(string, Field)>, positional: bool, kwargs: map<string, Value>)
    returns (r: Result<map<string, Value>, PyError>)
    ensures positional ==> r == Err(ValueError(POSITIONAL_ARGUMENTS))
    ensures !positional ==> r == SetAll(fields, kwargs, map[])
  {
    if positional {
      return Err(ValueError(POSITIONAL_ARGUMENTS));
    }
    var instance := new Instance();
    var i := 0;
    while i < |fields|
      invariant i <= |fields|
      invariant SetAll(fields, kwargs, map[]) == SetAll(fields[i..], kwargs, instance.dict)
    {
      assert fields[i..][1..] == fields[i + 1..];
      var stored := instance.Set(fields[i].1, Lookup(kwargs, fields[i].0));
      if stored.Err? {
        return Err(stored.error);
      }
      i := i + 1;
    }
    r := Ok(instance.dict);
  }
}
