/**
 * The line format of the installed-apps log loader: one tab-separated line
 * per device, `type<TAB>id<TAB>lat<TAB>lon<TAB>app,app,...`, read by
 * `AppsInstalled.from_raw` into a device record.
 */
module Memcload {
  import opened Wrappers
  import opened PyText

  /** The four advertising id kinds, in declaration order (values 0 to 3). */
  datatype DeviceType = IDFA | GAID | ADID | DVID

  /** The enum member name: four capital letters. */
  function DeviceName(d: DeviceType): (name: string)
    ensures |name| == 4 && forall i :: 0 <= i < |name| ==> 'A' <= name[i] <= 'Z'
  {
    match d
    case IDFA => "IDFA"
    case GAID => "GAID"
    case ADID => "ADID"
    case DVID => "DVID"
  }

  /** `DeviceType[name]`: lookup by exact member name, `None` for the `KeyError`. */
  function LookupDeviceType(name: string): (r: Option<DeviceType>)
    ensures r.Some? <==> name in {"IDFA", "GAID", "ADID", "DVID"}
    ensures r.Some? ==> DeviceName(r.value) == name
  {
    if name == "IDFA" then Some(IDFA)
    else if name == "GAID" then Some(GAID)
    else if name == "ADID" then Some(ADID)
    else if name == "DVID" then Some(DVID)
    else None
  }

  /** `str(DeviceType)`: the member name in lower case. */
  function DeviceTypeText(d: DeviceType): (s: string)
    ensures |s| == 4
    ensures forall i :: 0 <= i < |s| ==> s[i] == LowerChar(DeviceName(d)[i])
  {
    Lower(DeviceName(d))
  }

  /** The text `str(d)` names is read back as `d` by the case-insensitive lookup of `from_raw`. */
  lemma DeviceTypeTextRoundTrip(d: DeviceType)
    ensures LookupDeviceType(Upper(Strip(DeviceTypeText(d)))) == Some(d)
  {
    var n := DeviceName(d);
    var s := DeviceTypeText(d);
    assert 'a' <= s[0] <= 'z' && 'a' <= s[3] <= 'z';
    StripUnpadded(s);
    UpperOfLower(n);
  }

  /** Upper-casing undoes lower-casing on capital letters. */
  lemma UpperOfLower(n: string)
    requires forall i :: 0 <= i < |n| ==> 'A' <= n[i] <= 'Z'
    ensures Upper(Lower(n)) == n
  {
    var u := Upper(Lower(n));
    assert |u| == |n|;
    assert forall i :: 0 <= i < |n| ==> u[i] == n[i];
  }

  /** The processing outcomes of one line and their enum values. */
  datatype ProcessingStatus = OK | ERROR | SKIP

  function StatusValue(p: ProcessingStatus): (v: int)
    ensures -1 <= v <= 1
    ensures (v == 1 <==> p == OK) && (v == -1 <==> p == ERROR) && (v == 0 <==> p == SKIP)
  {
    match p
    case OK => 1
    case ERROR => -1
    case SKIP => 0
  }

  /** A parsed line. `coords` is `None` where the source stores NaN in both `lat` and `lon`. */
  datatype AppsInstalled = AppsInstalled(
    devType: DeviceType,
    devId: string,
    coords: Option<(real, real)>,
    apps: seq<int>)

  /** The `ValueError`s `from_raw` raises. */
  datatype ParseError =
    | InvalidFormat               // fewer than five fields: "Invalid format."
    | TooManyValues               // more than five: the tuple unpacking fails
    | UnknownDeviceType(name: string)  // "Unknown device type: <name>"
    | DeviceIdMissed              // "Device ID missed."

  /** The fields of a line: the line without surrounding whitespace, split at every tab. */
  function Fields(line: string): (f: seq<string>)
    ensures |f| >= 1 && Join(f, '\t') == Strip(line)
    ensures forall i :: 0 <= i < |f| ==> '\t' !in f[i]
  {
    Split(Strip(line), '\t')
  }

  /** Every comma item is accepted by `int` once stripped. */
  predicate AllIntegers(items: seq<string>) {
    forall i :: 0 <= i < |items| ==> ParseInt(Strip(items[i])).Some?
  }

  /** `[int(a.strip()) for a in items]`, when no item raises. */
  function IntegerItems(items: seq<string>): (r: seq<int>)
    requires AllIntegers(items)
    ensures |r| == |items|
    ensures forall i :: 0 <= i < |items| ==> ParseInt(Strip(items[i])) == Some(r[i])
  {
    if items == [] then [] else [ParseInt(Strip(items[0])).value] + IntegerItems(items[1..])
  }

  /** `[int(a.strip()) for a in items if a.strip().isdigit()]`. */
  function DigitItems(items: seq<string>): (r: seq<int>)
    ensures |r| <= |items|
    ensures forall k :: 0 <= k < |r| ==> r[k] >= 0
  {
    if items == [] then []
    else
      var a := Strip(items[0]);
      (if IsDigitText(a) then [DigitsValue(a) as int] else []) + DigitItems(items[1..])
  }

  /**
   * The app list of a line: all items if every one is an integer, else
   * only the digit items, which are never negative and at least one fewer.
   */
  function ParseApps(raw: string): (r: seq<int>)
    ensures var items := Split(raw, ',');
      && (AllIntegers(items) ==>
            |r| == |items| && forall i :: 0 <= i < |items| ==> ParseInt(Strip(items[i])) == Some(r[i]))
      && (!AllIntegers(items) ==> |r| < |items| && forall k :: 0 <= k < |r| ==> r[k] >= 0)
  {
    var items := Split(raw, ',');
    if AllIntegers(items) then IntegerItems(items)
    else
      DigitItemsShorter(items);
      DigitItems(items)
  }

  /**
   * `AppsInstalled.from_raw`. `parseFloat` is Python's `float` on one
   * field, `None` for its `ValueError`.
   */
  function FromRaw(line: string, parseFloat: string -> Option<real>): (r: Result<AppsInstalled, ParseError>)
    ensures r == Err(InvalidFormat) <==> |Fields(line)| < 5
    ensures r == Err(TooManyValues) <==> |Fields(line)| > 5
    ensures r.Ok? ==> |Fields(line)| == 5 && r.value.devId == Fields(line)[1] != []
    ensures r.Ok? ==> DeviceName(r.value.devType) == Upper(Strip(Fields(line)[0]))
    ensures r.Ok? ==> r.value.apps == ParseApps(Fields(line)[4])
    ensures r.Ok? ==> (r.value.coords.Some? <==>
                        parseFloat(Fields(line)[2]).Some? && parseFloat(Fields(line)[3]).Some?)
    ensures r.Ok? && r.value.coords.Some? ==>
      r.value.coords.value == (parseFloat(Fields(line)[2]).value, parseFloat(Fields(line)[3]).value)
  {
    var parts := Fields(line);
    if |parts| < 5 then Err(InvalidFormat)
    else if |parts| > 5 then Err(TooManyValues)
    else
      var name := Upper(Strip(parts[0]));
      match LookupDeviceType(name)
      case None => Err(UnknownDeviceType(name))
      case Some(devType) =>
        if parts[1] == [] then Err(DeviceIdMissed)
        else
          var coords :=
            match (parseFloat(parts[2]), parseFloat(parts[3]))
            case (Some(lat), Some(lon)) => Some((lat, lon))
            case _ => None;
          Ok(AppsInstalled(devType, parts[1], coords, ParseApps(parts[4])))
  }

  /** With five fields, the device type is rejected exactly when its upper-cased name is no member. */
  lemma UnknownDeviceTypeRejected(line: string, parseFloat: string -> Option<real>)
    requires |Fields(line)| == 5
    ensures var name := Upper(Strip(Fields(line)[0]));
      FromRaw(line, parseFloat) == Err(UnknownDeviceType(name)) <==> LookupDeviceType(name).None?
  {
  }

  /** With five fields and a known device type, an empty id is rejected and nothing else is. */
  lemma EmptyIdRejected(line: string, parseFloat: string -> Option<real>)
    requires |Fields(line)| == 5
    requires LookupDeviceType(Upper(Strip(Fields(line)[0]))).Some?
    ensures FromRaw(line, parseFloat) == Err(DeviceIdMissed) <==> Fields(line)[1] == []
    ensures Fields(line)[1] != [] ==> FromRaw(line, parseFloat).Ok?
  {
  }

  /** The digit filter works item by item, so it keeps the order of the items. */
  lemma {:induction false} DigitItemsAppend(a: seq<string>, b: seq<string>)
    ensures DigitItems(a + b) == DigitItems(a) + DigitItems(b)
  {
    if a == [] {
      assert a + b == b;
    } else {
      var t := Strip(a[0]);
      var head := if IsDigitText(t) then [DigitsValue(t) as int] else [];
      assert (a + b)[0] == a[0];
      assert (a + b)[1..] == a[1..] + b;
      assert DigitItems(a + b) == head + DigitItems(a[1..] + b);
      DigitItemsAppend(a[1..], b);
      assert head + (DigitItems(a[1..]) + DigitItems(b)) == (head + DigitItems(a[1..])) + DigitItems(b);
    }
  }

  /** A single item survives the digit filter exactly when it is all digits once stripped. */
  lemma DigitItemsSingle(a: string)
    ensures DigitItems([a]) == if IsDigitText(Strip(a)) then [DigitsValue(Strip(a)) as int] else []
  {
    assert [a][1..] == [];
  }

  /** A string of digits is an integer to `int`, with the value of its digits. */
  lemma DigitItemParses(a: string)
    requires IsDigitText(Strip(a))
    ensures ParseInt(Strip(a)) == Some(DigitsValue(Strip(a)) as int)
  {
    var t := Strip(a);
    StripIdempotent(a);
    ParseUnpadded(t);
    StrippedDigits(t);
  }

  /** Where every item is all digits, both ways of reading the list agree. */
  lemma {:induction false} DigitItemsAgree(items: seq<string>)
    requires forall i :: 0 <= i < |items| ==> IsDigitText(Strip(items[i]))
    ensures AllIntegers(items)
    ensures DigitItems(items) == IntegerItems(items)
  {
    forall i | 0 <= i < |items| ensures ParseInt(Strip(items[i])).Some? {
      DigitItemParses(items[i]);
    }
    if items != [] {
      DigitItemParses(items[0]);
      DigitItemsAgree(items[1..]);
    }
  }

  /** The fallback drops at least one item: it is taken only when some item is no integer. */
  lemma {:induction false} DigitItemsShorter(items: seq<string>)
    requires !AllIntegers(items)
    ensures |DigitItems(items)| < |items|
  {
    var i :| 0 <= i < |items| && ParseInt(Strip(items[i])).None?;
    if IsDigitText(Strip(items[i])) {
      DigitItemParses(items[i]);
      assert false;
    }
    DigitItemsDropsNonDigit(items, i);
  }

  lemma {:induction false} DigitItemsDropsNonDigit(items: seq<string>, i: nat)
    requires i < |items| && !IsDigitText(Strip(items[i]))
    ensures |DigitItems(items)| < |items|
  {
    if i > 0 {
      DigitItemsDropsNonDigit(items[1..], i - 1);
    }
  }
}
