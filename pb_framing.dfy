/**
 * The `pb` extension module: it packs Python dicts describing a device and
 * its installed apps into `DeviceApps` protobuf messages, writes each one
 * behind an 8-byte header, and reads such a file back into dicts.
 *
 * The protobuf wire encoding is not modelled: `encode` and `decode` stand
 * for protobuf-c's pack and unpack. The file is the decompressed byte
 * stream; gzip itself is not modelled.
 */
module PbFraming {
  import opened Wrappers
  import opened PyText

  type uint32 = x: int | 0 <= x < 0x1_0000_0000

  const MAGIC: nat := 0xFFFF_FFFF
  const DEVICE_APPS_TYPE: nat := 1
  /** `sizeof(pbheader_t)`: a `uint32` magic, a `uint16` type and a `uint16` length. */
  const HEADER_SIZE: nat := 8
  const UINT16_LIMIT: nat := 0x1_0000
  const UINT32_MAX: int := 0xFFFF_FFFF
  /** The range of a C `long` on the 64-bit platforms the module is built for. */
  const LONG_MIN: int := -0x8000_0000_0000_0000
  const LONG_MAX: int := 0x7FFF_FFFF_FFFF_FFFF

  /**
   * The smallest magnitude of an `int` that `PyLong_AsDouble` refuses with
   * an `OverflowError`: 2^1024 - 2^970, the midpoint between the largest
   * double and 2^1024, from which rounding to 53 bits leaves the double
   * range.
   */
  const DOUBLE_OVERFLOW: int := 0xffff_ffff_ffff_fc00_0000_0000_0000_0000_0000_0000_0000_0000_0000_0000_0000_0000_0000_0000_0000_0000_0000_0000_0000_0000_0000_0000_0000_0000_0000_0000_0000_0000_0000_0000_0000_0000_0000_0000_0000_0000_0000_0000_0000_0000_0000_0000_0000_0000_0000_0000_0000_0000_0000_0000_0000_0000_0000_0000_0000_0000_0000_0000_0000_0000

  /**
   * The Python objects the module looks at. `bool` is a subtype of `int`.
   * `PyFloatLike` is an object of another type with a `__float__` method
   * (a `Decimal`, say), carrying what that method returns, `None` when it
   * raises; `PyIndexLike` is an object with no `__float__` but an
   * `__index__` method, carrying the int that method returns, `None` when
   * it raises; `PyOther` is any other object.
   */
  datatype PyValue =
    | PyNone
    | PyBool(b: bool)
    | PyInt(i: int)
    | PyFloat(f: real)
    | PyStr(s: string)
    | PyList(items: seq<PyValue>)
    | PyDict(entries: map<string, PyValue>)
    | PyFloatLike(asFloat: Option<real>)
    | PyIndexLike(asIndex: Option<int>)
    | PyOther

  /** `PyDict_GetItemString`: the value under `key`, or `None` (a C `NULL`). */
  function Get(entries: map<string, PyValue>, key: string): (r: Option<PyValue>)
    ensures r.Some? <==> key in entries
    ensures r.Some? ==> r.value == entries[key]
  {
    if key in entries then Some(entries[key]) else None
  }

  /** The `DeviceApps.Device` submessage: optional id and type bytes. */
  datatype Device = Device(id: Option<seq<byte>>, devType: Option<seq<byte>>)

  /** The `DeviceApps` message. A message without a device reads like one with an empty device. */
  datatype DeviceApps = DeviceApps(device: Device, lat: Option<real>, lon: Option<real>, apps: seq<uint32>)

  /** Why packing one message stops: `STATUS_ERROR_SERIALIZATION`. */
  datatype PackError = SerializationError

  // ---------------------------------------------------------------------
  // C strings

  /** `strlen` applied to a buffer: the bytes before the first zero byte. */
  function BeforeZero(bs: seq<byte>): (r: seq<byte>)
    ensures |r| <= |bs| && r == bs[..|r|] && 0 !in r
    ensures |r| < |bs| ==> bs[|r|] == 0
  {
    if bs == [] || bs[0] == 0 then [] else [bs[0]] + BeforeZero(bs[1..])
  }

  /** The characters before the first U+0000. */
  function BeforeNul(s: string): (r: string)
    ensures |r| <= |s| && r == s[..|r|] && '\0' !in r
    ensures |r| < |s| ==> s[|r|] == '\0'
  {
    if s == [] || s[0] == '\0' then [] else [s[0]] + BeforeNul(s[1..])
  }

  /** `strlen(PyUnicode_AsUTF8(s))` cuts the text at its first U+0000 and nowhere else. */
  lemma {:induction false} CStringOfText(s: string)
    ensures BeforeZero(Utf8(s)) == Utf8(BeforeNul(s))
  {
    if s != [] {
      var head := Utf8Char(s[0]);
      assert Utf8(s) == head + Utf8(s[1..]);
      if s[0] == '\0' {
        assert Utf8(s)[0] == 0;
      } else {
        Utf8CharNonZero(s[0]);
        CStringOfText(s[1..]);
        BeforeZeroSkips(head, Utf8(s[1..]));
        assert BeforeNul(s) == [s[0]] + BeforeNul(s[1..]);
      }
    }
  }

  lemma {:induction false} BeforeZeroSkips(head: seq<byte>, tail: seq<byte>)
    requires 0 !in head
    ensures BeforeZero(head + tail) == head + BeforeZero(tail)
  {
    if head != [] {
      assert (head + tail)[1..] == head[1..] + tail;
      BeforeZeroSkips(head[1..], tail);
    } else {
      assert head + tail == tail;
    }
  }

  // ---------------------------------------------------------------------
  // Packing a dict into a message

  /** The `id` or `type` of a device: absent, or a `str` cut at its first NUL. */
  function PackText(v: Option<PyValue>): (r: Result<Option<seq<byte>>, PackError>)
    ensures v.None? ==> r == Ok(None)
    ensures r.Err? <==> v.Some? && !v.value.PyStr?
    ensures v.Some? && v.value.PyStr? ==> r == Ok(Some(Utf8(BeforeNul(v.value.s))))
  {
    match v
    case None => Ok(None)
    case Some(PyStr(s)) =>
      CStringOfText(s);
      Ok(Some(BeforeZero(Utf8(s))))
    case Some(_) => Err(SerializationError)
  }

  /** `pack_device`: an absent device packs as an empty one; a present one must be a dict. */
  function PackDevice(msg: map<string, PyValue>): (r: Result<Device, PackError>)
    ensures "device" !in msg ==> r == Ok(Device(None, None))
    ensures "device" in msg && !msg["device"].PyDict? ==> r.Err?
    ensures "device" in msg && msg["device"].PyDict? ==>
      var d := msg["device"].entries;
      (r.Ok? <==> PackText(Get(d, "id")).Ok? && PackText(Get(d, "type")).Ok?)
  {
    match Get(msg, "device")
    case None => Ok(Device(None, None))
    case Some(PyDict(d)) =>
      var id := PackText(Get(d, "id"));
      var devType := PackText(Get(d, "type"));
      if id.Err? || devType.Err? then Err(SerializationError)
      else Ok(Device(id.value, devType.value))
    case Some(_) => Err(SerializationError)
  }

  /** The objects `PyFloat_AsDouble` converts without setting an error. */
  predicate AsDoubleAccepts(v: PyValue) {
    || v.PyFloat? || v.PyBool?
    || (v.PyInt? && -DOUBLE_OVERFLOW < v.i < DOUBLE_OVERFLOW)
    || (v.PyFloatLike? && v.asFloat.Some?)
    || (v.PyIndexLike? && v.asIndex.Some? && -DOUBLE_OVERFLOW < v.asIndex.value < DOUBLE_OVERFLOW)
  }

  /**
   * `pack_lat`/`pack_lon`: `PyFloat_AsDouble` (CPython 3.8 and later)
   * accepts a float, a bool, an int within the double range, an object
   * whose `__float__` returns and one without `__float__` whose `__index__`
   * returns an int within the double range; anything else sets an error.
   */
  function PackCoordinate(v: Option<PyValue>): (r: Result<Option<real>, PackError>)
    ensures v.None? ==> r == Ok(None)
    ensures r.Err? <==> v.Some? && !AsDoubleAccepts(v.value)
    ensures v.Some? && v.value.PyFloat? ==> r == Ok(Some(v.value.f))
    ensures v.Some? && v.value.PyFloatLike? && v.value.asFloat.Some? ==> r == Ok(v.value.asFloat)
    ensures v.Some? && v.value.PyIndexLike? && AsDoubleAccepts(v.value) ==> r == Ok(Some(v.value.asIndex.value as real))
  {
    match v
    case None => Ok(None)
    case Some(PyFloat(f)) => Ok(Some(f))
    case Some(PyInt(i)) =>
      if -DOUBLE_OVERFLOW < i < DOUBLE_OVERFLOW then Ok(Some(i as real)) else Err(SerializationError)
    case Some(PyBool(b)) => Ok(Some(if b then 1.0 else 0.0))
    case Some(PyFloatLike(f)) => if f.Some? then Ok(f) else Err(SerializationError)
    case Some(PyIndexLike(n)) =>
      if n.Some? && -DOUBLE_OVERFLOW < n.value < DOUBLE_OVERFLOW then Ok(Some(n.value as real)) else Err(SerializationError)
    case Some(_) => Err(SerializationError)
  }

  /** `PyLong_AsLongAndOverflow`: the value when it fits a C `long`, `None` when `overflow` is set. */
  function AsLong(i: int): (r: Option<int>)
    ensures r.Some? <==> LONG_MIN <= i <= LONG_MAX
    ensures r.Some? ==> r.value == i
  {
    if LONG_MIN <= i <= LONG_MAX then Some(i) else None
  }

  /**
   * The app id one list item contributes: an item is kept exactly when it
   * is an int in `[0, 2^32 - 1]` (or a bool), with that value.
   */
  function AppItem(v: PyValue): (r: Option<uint32>)
    ensures r.Some? <==> v.PyBool? || (v.PyInt? && 0 <= v.i <= UINT32_MAX)
    ensures v.PyInt? && r.Some? ==> r.value == v.i
  {
    match v
    case PyBool(b) => Some(if b then 1 else 0)
    case PyInt(i) =>
      (match AsLong(i)
       case None => None
       case Some(n) => if n < 0 || n > UINT32_MAX then None else Some(n))
    case _ => None
  }

  /** The ids `pack_apps` keeps from a list, in list order. */
  function AppsFilter(items: seq<PyValue>): (r: seq<uint32>)
    ensures |r| <= |items|
  {
    if items == [] then []
    else
      var rest := AppsFilter(items[1..]);
      match AppItem(items[0])
      case None => rest
      case Some(n) => [n] + rest
  }

  /** The filter works item by item: filtering a concatenation concatenates the results. */
  lemma {:induction false} AppsFilterAppend(a: seq<PyValue>, b: seq<PyValue>)
    ensures AppsFilter(a + b) == AppsFilter(a) + AppsFilter(b)
  {
    if a == [] {
      assert a + b == b;
    } else {
      assert (a + b)[0] == a[0];
      assert (a + b)[1..] == a[1..] + b;
      AppsFilterAppend(a[1..], b);
    }
  }

  /** Out-of-range ints, including those beyond a C `long`, are dropped; the bounds are kept. */
  lemma AppsFilterBounds()
    ensures AppsFilter([PyInt(-0x1_0000_0000_0000_0000), PyInt(-1), PyInt(1), PyInt(UINT32_MAX),
                        PyInt(0x1_0000_0000), PyInt(0x1_0000_0000_0000_0000)]) == [1, UINT32_MAX]
  {
    var xs := [PyInt(-0x1_0000_0000_0000_0000), PyInt(-1), PyInt(1), PyInt(UINT32_MAX),
               PyInt(0x1_0000_0000), PyInt(0x1_0000_0000_0000_0000)];
    assert AppsFilter(xs[5..]) == [];
    assert AppsFilter(xs[4..]) == [];
    assert AppsFilter(xs[3..]) == [UINT32_MAX];
    assert AppsFilter(xs[2..]) == [1, UINT32_MAX];
    assert AppsFilter(xs[1..]) == [1, UINT32_MAX];
  }

  /** Every kept id comes from an item of the list, and every acceptable item is kept. */
  lemma {:induction false} AppsFilterMembers(items: seq<PyValue>, n: uint32)
    ensures n in AppsFilter(items) <==> exists i :: 0 <= i < |items| && AppItem(items[i]) == Some(n)
  {
    if items != [] {
      AppsFilterMembers(items[1..], n);
      if AppItem(items[0]) != Some(n) {
        if exists i :: 0 <= i < |items| && AppItem(items[i]) == Some(n) {
          var i :| 0 <= i < |items| && AppItem(items[i]) == Some(n);
          assert i > 0 && AppItem(items[1..][i - 1]) == Some(n);
        }
      }
    }
  }

  /**
   * `pack_apps`' loop over the list: each acceptable item goes into the
   * buffer at the running length.
   */
  method PackAppsList(items: seq<PyValue>) returns (apps: seq<uint32>)
    ensures apps == AppsFilter(items)
  {
    var buffer := new uint32[|items|];
    var len := 0;
    for i := 0 to |items|
      invariant len <= i
      invariant buffer[..len] == AppsFilter(items[..i])
    {
      AppsFilterAppend(items[..i], [items[i]]);
      assert items[..i + 1] == items[..i] + [items[i]];
      assert [items[i]][1..] == [];
      var item := AppItem(items[i]);
      if item.Some? {
        buffer[len] := item.value;
        assert buffer[..len + 1] == buffer[..len] + [item.value];
        len := len + 1;
      }
    }
    assert items[..|items|] == items;
    apps := buffer[..len];
  }

  /** `pack_apps`: an absent list packs no ids; a present value must be a list. */
  method PackApps(msg: map<string, PyValue>) returns (r: Result<seq<uint32>, PackError>)
    ensures r == PackedApps(msg)
  {
    var v := Get(msg, "apps");
    if v.None? {
      r := Ok([]);
    } else if !v.value.PyList? {
      r := Err(SerializationError);
    } else {
      var apps := PackAppsList(v.value.items);
      r := Ok(apps);
    }
  }

  function PackedApps(msg: map<string, PyValue>): (r: Result<seq<uint32>, PackError>)
    ensures "apps" !in msg ==> r == Ok([])
    ensures r.Err? <==> "apps" in msg && !msg["apps"].PyList?
    ensures "apps" in msg && msg["apps"].PyList? ==> r == Ok(AppsFilter(msg["apps"].items))
  {
    match Get(msg, "apps")
    case None => Ok([])
    case Some(PyList(items)) => Ok(AppsFilter(items))
    case Some(_) => Err(SerializationError)
  }

  /** The message `write_message` packs: device, then lat, lon and apps, stopping at the first error. */
  function PackMessage(msg: map<string, PyValue>): (r: Result<DeviceApps, PackError>)
    ensures r.Ok? <==>
      PackDevice(msg).Ok? && PackCoordinate(Get(msg, "lat")).Ok? &&
      PackCoordinate(Get(msg, "lon")).Ok? && PackedApps(msg).Ok?
    ensures r.Ok? ==> r.value.apps == PackedApps(msg).value && r.value.device == PackDevice(msg).value
  {
    var device := PackDevice(msg);
    var lat := PackCoordinate(Get(msg, "lat"));
    var lon := PackCoordinate(Get(msg, "lon"));
    var apps := PackedApps(msg);
    if device.Err? || lat.Err? || lon.Err? || apps.Err? then Err(SerializationError)
    else Ok(DeviceApps(device.value, lat.value, lon.value, apps.value))
  }

  // ---------------------------------------------------------------------
  // Framing

  /**
   * The header written in front of a body of `n` bytes, in the
   * little-endian layout of the struct: magic, type 1, and the length cut
   * to 16 bits.
   */
  function Header(n: nat): (h: seq<byte>)
    ensures |h| == HEADER_SIZE
  {
    var len := n % UINT16_LIMIT;
    [0xFF, 0xFF, 0xFF, 0xFF, DEVICE_APPS_TYPE, 0, len % 256, len / 256]
  }

  /** The magic field of a header holds `0xFFFFFFFF`. */
  predicate HasMagic(h: seq<byte>)
    requires |h| >= HEADER_SIZE
  {
    h[0] == 0xFF && h[1] == 0xFF && h[2] == 0xFF && h[3] == 0xFF
  }

  /** The `type` field of a header. */
  function HeaderType(h: seq<byte>): nat
    requires |h| >= HEADER_SIZE
  {
    var lo: int := h[4];
    var hi: int := h[5];
    lo + 256 * hi
  }

  /** The `length` field of a header. */
  function HeaderLength(h: seq<byte>): (n: nat)
    requires |h| >= HEADER_SIZE
    ensures n < UINT16_LIMIT
  {
    var lo: int := h[6];
    var hi: int := h[7];
    lo + 256 * hi
  }

  /** A written header has the magic and type 1, and its length field is the body length modulo 2^16. */
  lemma HeaderFields(n: nat)
    ensures HasMagic(Header(n)) && HeaderType(Header(n)) == DEVICE_APPS_TYPE
    ensures HeaderLength(Header(n)) == n % UINT16_LIMIT
    ensures n < UINT16_LIMIT ==> HeaderLength(Header(n)) == n
  {
  }

  /** A body of exactly 2^16 bytes is announced as empty: its length does not round-trip. */
  lemma OversizedBodyAnnouncedEmpty()
    ensures HeaderLength(Header(UINT16_LIMIT)) == 0
  {
    HeaderFields(UINT16_LIMIT);
  }

  /** `write_message`: the header and the encoded body, or the packing error. */
  function Record(msg: map<string, PyValue>, encode: DeviceApps -> seq<byte>): (r: Result<seq<byte>, PackError>)
    ensures r.Ok? <==> PackMessage(msg).Ok?
    ensures r.Ok? ==>
      var body := encode(PackMessage(msg).value);
      r.value == Header(|body|) + body && |r.value| == HEADER_SIZE + |body|
  {
    match PackMessage(msg)
    case Err(e) => Err(e)
    case Ok(m) => Ok(Header(|encode(m)|) + encode(m))
  }

  /** `write_message` as the C code runs it, with `pack_apps` filling its buffer in a loop. */
  method WriteMessage(msg: map<string, PyValue>, encode: DeviceApps -> seq<byte>) returns (r: Result<seq<byte>, PackError>)
    ensures r == Record(msg, encode)
  {
    var device := PackDevice(msg);
    if device.Err? { return Err(SerializationError); }
    var lat := PackCoordinate(Get(msg, "lat"));
    if lat.Err? { return Err(SerializationError); }
    var lon := PackCoordinate(Get(msg, "lon"));
    if lon.Err? { return Err(SerializationError); }
    var apps := PackApps(msg);
    if apps.Err? { return Err(SerializationError); }
    var body := encode(DeviceApps(device.value, lat.value, lon.value, apps.value));
    r := Ok(Header(|body|) + body);
  }

  /** The exception `deviceapps_xwrite_pb` raises: "Could not serialize the data." */
  datatype WriteError = CouldNotSerialize

  /** What writing leaves behind: the bytes in the file, and the count returned or the exception. */
  datatype WriteOutcome = WriteOutcome(file: seq<byte>, result: Result<int, WriteError>)

  /**
   * `deviceapps_xwrite_pb` on a sequence of items: non-dict items are
   * skipped, each dict adds one record, and the first dict that does not
   * pack raises, leaving the records before it in the file.
   */
  function WriteAll(items: seq<PyValue>, encode: DeviceApps -> seq<byte>): (o: WriteOutcome)
    ensures o.result.Ok? ==> o.result.value == |o.file|
  {
    if items == [] then WriteOutcome([], Ok(0))
    else
      var rest := WriteAll(items[1..], encode);
      match items[0]
      case PyDict(entries) =>
        (match Record(entries, encode)
         case Err(_) => WriteOutcome([], Err(CouldNotSerialize))
         case Ok(rec) =>
           WriteOutcome(rec + rest.file,
             match rest.result
             case Ok(total) => Ok(|rec| + total)
             case Err(e) => Err(e)))
      case _ => rest
  }

  /** The outcome of writing more items after `file` and `total` are already written. */
  function After(file: seq<byte>, total: int, o: WriteOutcome): WriteOutcome
  {
    WriteOutcome(file + o.file,
      match o.result
      case Ok(t) => Ok(total + t)
      case Err(e) => Err(e))
  }

  /** A record written before the rest joins the bytes and the count already written. */
  lemma AfterRecord(file: seq<byte>, total: int, rec: seq<byte>, o: WriteOutcome)
    ensures After(file, total, After(rec, |rec|, o)) == After(file + rec, total + |rec|, o)
  {
    assert file + (rec + o.file) == (file + rec) + o.file;
  }

  /** The writer loop of `deviceapps_xwrite_pb`, taking the items one by one and accumulating the bytes written. */
  method WriteDeviceApps(items: seq<PyValue>, encode: DeviceApps -> seq<byte>)
    returns (file: seq<byte>, result: Result<int, WriteError>)
    ensures WriteOutcome(file, result) == WriteAll(items, encode)
  {
    file := [];
    var total := 0;
    var pending := items;
    while pending != []
      invariant total == |file|
      invariant WriteAll(items, encode) == After(file, total, WriteAll(pending, encode))
      decreases |pending|
    {
      if pending[0].PyDict? {
        var written := WriteMessage(pending[0].entries, encode);
        if written.Err? {
          return file, Err(CouldNotSerialize);
        }
        AfterRecord(file, total, written.value, WriteAll(pending[1..], encode));
        file := file + written.value;
        total := total + |written.value|;
      }
      pending := pending[1..];
    }
    result := Ok(total);
  }

  /** Items that are no dicts write nothing: an empty list, or one of numbers, returns 0. */
  lemma {:induction false} NonDictsWriteNothing(items: seq<PyValue>, encode: DeviceApps -> seq<byte>)
    requires forall i :: 0 <= i < |items| ==> !items[i].PyDict?
    ensures WriteAll(items, encode) == WriteOutcome([], Ok(0))
  {
    if items != [] {
      NonDictsWriteNothing(items[1..], encode);
    }
  }

  // ---------------------------------------------------------------------
  // Unpacking and reading

  /** The errors of `deviceapps_xread_pb`. */
  datatype ReadError =
    | InvalidFormat    // ValueError "Invalid format of the file."
    | CouldNotUnpack   // MemoryError "Could not unpack message."
    | UnicodeError     // PyErr_SetString(PyExc_UnicodeDecodeError, "Unicode error."): that exception
                       // cannot be built from one string, so Python receives a TypeError

  /** One optional text field of the device dict, decoded as strict UTF-8. */
  function UnpackText(key: string, v: Option<seq<byte>>): (r: Result<map<string, PyValue>, ReadError>)
    ensures v.None? ==> r == Ok(map[])
    ensures v.Some? && Utf8Decode(v.value).Some? ==> r == Ok(map[key := PyStr(Utf8Decode(v.value).value)])
    ensures v.Some? && Utf8Decode(v.value).None? ==> r == Err(UnicodeError)
  {
    match v
    case None => Ok(map[])
    case Some(bs) =>
      match Utf8Decode(bs)
      case None => Err(UnicodeError)
      case Some(s) => Ok(map[key := PyStr(s)])
  }

  /** `unpack_device`: a dict with `id` and `type` where the message sets them. */
  function UnpackDevice(d: Device): (r: Result<map<string, PyValue>, ReadError>)
    ensures r.Ok? ==> ("id" in r.value <==> d.id.Some?) && ("type" in r.value <==> d.devType.Some?)
    ensures r.Ok? ==> r.value.Keys <= {"id", "type"}
  {
    match UnpackText("id", d.id)
    case Err(e) => Err(e)
    case Ok(id) =>
      match UnpackText("type", d.devType)
      case Err(e) => Err(e)
      case Ok(t) => Ok(id + t)
  }

  /** `unpack_apps`: the ids as Python ints, in message order. */
  function UnpackApps(apps: seq<uint32>): (r: seq<PyValue>)
    ensures |r| == |apps| && forall i :: 0 <= i < |apps| ==> r[i] == PyInt(apps[i])
  {
    seq(|apps|, i requires 0 <= i < |apps| => PyInt(apps[i]))
  }

  /** An optional coordinate as a one-entry dict, or an empty one when it is not set. */
  function CoordinateEntry(key: string, v: Option<real>): (r: map<string, PyValue>)
    ensures key in r <==> v.Some?
    ensures r.Keys <= {key}
  {
    match v
    case None => map[]
    case Some(f) => map[key := PyFloat(f)]
  }

  /** `unpack_message`: `device` and `apps` are always there, `lat` and `lon` only when set. */
  function UnpackMessage(m: DeviceApps): (r: Result<PyValue, ReadError>)
    ensures r.Ok? ==> r.value.PyDict? && "device" in r.value.entries && "apps" in r.value.entries
    ensures r.Ok? ==> ("lat" in r.value.entries <==> m.lat.Some?) && ("lon" in r.value.entries <==> m.lon.Some?)
    ensures r.Ok? ==> r.value.entries["apps"] == PyList(UnpackApps(m.apps))
    ensures r.Ok? <==> UnpackDevice(m.device).Ok?
  {
    match UnpackDevice(m.device)
    case Err(e) => Err(e)
    case Ok(device) =>
      Ok(PyDict(
        map["device" := PyDict(device)]
        + CoordinateEntry("lat", m.lat)
        + CoordinateEntry("lon", m.lon)
        + map["apps" := PyList(UnpackApps(m.apps))]))
  }

  /**
   * `deviceapps_xread_pb` on the file's bytes: records are read in order
   * until fewer than a header's bytes remain (end of file). The magic is
   * checked, the type is not.
   */
  function ReadAll(bs: seq<byte>, decode: seq<byte> -> Option<DeviceApps>): (r: Result<seq<PyValue>, ReadError>)
    ensures r.Ok? ==> |r.value| * HEADER_SIZE <= |bs|
    ensures r.Ok? ==> forall i :: 0 <= i < |r.value| ==>
      r.value[i].PyDict? && "device" in r.value[i].entries && "apps" in r.value[i].entries
    ensures |bs| >= HEADER_SIZE && !HasMagic(bs) ==> r == Err(InvalidFormat)
    decreases |bs|
  {
    if |bs| < HEADER_SIZE then Ok([])
    else if !HasMagic(bs) then Err(InvalidFormat)
    else
      var len := HeaderLength(bs);
      if |bs| - HEADER_SIZE < len then Err(InvalidFormat)
      else
        match decode(bs[HEADER_SIZE..HEADER_SIZE + len])
        case None => Err(CouldNotUnpack)
        case Some(m) =>
          match UnpackMessage(m)
          case Err(e) => Err(e)
          case Ok(v) =>
            match ReadAll(bs[HEADER_SIZE + len..], decode)
            case Err(e) => Err(e)
            case Ok(rest) => Ok([v] + rest)
  }

  /** The result of reading more records after `msgs` are already read. */
  function Then(msgs: seq<PyValue>, r: Result<seq<PyValue>, ReadError>): Result<seq<PyValue>, ReadError>
  {
    match r
    case Ok(rest) => Ok(msgs + rest)
    case Err(e) => Err(e)
  }

  lemma ThenNothing(r: Result<seq<PyValue>, ReadError>)
    ensures Then([], r) == r
  {
    if r.Ok? { assert [] + r.value == r.value; }
  }

  lemma ThenThen(a: seq<PyValue>, b: seq<PyValue>, r: Result<seq<PyValue>, ReadError>)
    ensures Then(a, Then(b, r)) == Then(a + b, r)
  {
    if r.Ok? { assert a + (b + r.value) == (a + b) + r.value; }
  }

  /** How reading one record ends: at the end of the file, with an error, or with a dict and the bytes it took. */
  datatype ReadStep = AtEnd | Failed(error: ReadError) | RecordRead(dict: PyValue, size: nat)

  /**
   * One pass of the reader loop of `deviceapps_xread_pb`: the header, its
   * magic, the body, the decoded message and its unpacked dict.
   */
  method ReadRecordAt(rest: seq<byte>, decode: seq<byte> -> Option<DeviceApps>) returns (step: ReadStep)
    ensures step.AtEnd? <==> |rest| < HEADER_SIZE
    ensures step.AtEnd? ==> ReadAll(rest, decode) == Ok([])
    ensures step.Failed? ==> ReadAll(rest, decode) == Err(step.error)
    ensures step.Failed? && !HasMagic(rest) ==> step.error == InvalidFormat
    ensures step.RecordRead? ==>
      && HEADER_SIZE <= step.size <= |rest|
      && step.size == HEADER_SIZE + HeaderLength(rest)
      && ReadAll(rest, decode) == Then([step.dict], ReadAll(rest[step.size..], decode))
  {
    if |rest| < HEADER_SIZE {
      return AtEnd;
    }
    if !HasMagic(rest) {
      return Failed(InvalidFormat);
    }
    var len := HeaderLength(rest);
    if |rest| - HEADER_SIZE < len {
      return Failed(InvalidFormat);
    }
    var message := decode(rest[HEADER_SIZE..HEADER_SIZE + len]);
    if message.None? {
      return Failed(CouldNotUnpack);
    }
    var unpacked := UnpackMessage(message.value);
    if unpacked.Err? {
      return Failed(unpacked.error);
    }
    step := RecordRead(unpacked.value, HEADER_SIZE + len);
  }

  /** The reader loop of `deviceapps_xread_pb`, appending each unpacked dict to the list until the end of the file. */
  method ReadDeviceApps(bs: seq<byte>, decode: seq<byte> -> Option<DeviceApps>)
    returns (r: Result<seq<PyValue>, ReadError>)
    ensures r == ReadAll(bs, decode)
  {
    var msgs: seq<PyValue> := [];
    var unread := bs;
    ThenNothing(ReadAll(bs, decode));
    while true
      invariant ReadAll(bs, decode) == Then(msgs, ReadAll(unread, decode))
      decreases |unread|
    {
      var step := ReadRecordAt(unread, decode);
      match step
      case AtEnd =>
        assert msgs + [] == msgs;
        return Ok(msgs);
      case Failed(e) =>
        return Err(e);
      case RecordRead(v, n) =>
        ThenThen(msgs, [v], ReadAll(unread[n..], decode));
        msgs := msgs + [v];
        unread := unread[n..];
    }
  }

  // ---------------------------------------------------------------------
  // Round trip

  /** Every dict among the items packs, and its encoded body fits the 16-bit length field. */
  predicate Writable(items: seq<PyValue>, encode: DeviceApps -> seq<byte>) {
    forall i :: 0 <= i < |items| && items[i].PyDict? ==>
      PackMessage(items[i].entries).Ok? && |encode(PackMessage(items[i].entries).value)| < UINT16_LIMIT
  }

  /** The dicts the reader gives back for the written items, in order. */
  function Unpacked(items: seq<PyValue>): seq<PyValue>
    requires forall i :: 0 <= i < |items| && items[i].PyDict? ==> PackMessage(items[i].entries).Ok?
  {
    if items == [] then []
    else if items[0].PyDict? then
      PackedTextDecodes(items[0].entries);
      [UnpackMessage(PackMessage(items[0].entries).value).value] + Unpacked(items[1..])
    else Unpacked(items[1..])
  }

  /** The text fields a packed device holds always decode, as what was given up to its first NUL. */
  lemma PackedTextDecodes(msg: map<string, PyValue>)
    requires PackMessage(msg).Ok?
    ensures UnpackDevice(PackMessage(msg).value.device).Ok?
  {
    var d := PackMessage(msg).value.device;
    if "device" in msg {
      var e := msg["device"].entries;
      if "id" in e { Utf8RoundTrip(BeforeNul(e["id"].s)); }
      if "type" in e { Utf8RoundTrip(BeforeNul(e["type"].s)); }
    }
  }

  /** One record, read back, gives its message and leaves the reader at the next record. */
  lemma ReadRecord(m: DeviceApps, rest: seq<byte>, encode: DeviceApps -> seq<byte>, decode: seq<byte> -> Option<DeviceApps>)
    requires decode(encode(m)) == Some(m)
    requires |encode(m)| < UINT16_LIMIT
    requires UnpackMessage(m).Ok?
    ensures ReadAll(Header(|encode(m)|) + encode(m) + rest, decode) == Then([UnpackMessage(m).value], ReadAll(rest, decode))
  {
    var body := encode(m);
    var bs := Header(|body|) + body + rest;
    HeaderFields(|body|);
    assert bs[..HEADER_SIZE] == Header(|body|);
    assert bs[HEADER_SIZE..HEADER_SIZE + |body|] == body;
    assert bs[HEADER_SIZE + |body|..] == rest;
  }

  /**
   * Reading a written file gives back, in order, one dict per dict item,
   * when the encoder is undone by the decoder and every body fits the
   * 16-bit length.
   */
  lemma {:induction false} ReadWritten(items: seq<PyValue>, encode: DeviceApps -> seq<byte>, decode: seq<byte> -> Option<DeviceApps>)
    requires forall m :: decode(encode(m)) == Some(m)
    requires Writable(items, encode)
    ensures WriteAll(items, encode).result.Ok?
    ensures ReadAll(WriteAll(items, encode).file, decode) == Ok(Unpacked(items))
  {
    if items != [] {
      var tail := items[1..];
      assert Writable(tail, encode) by {
        forall i | 0 <= i < |tail| && tail[i].PyDict?
          ensures PackMessage(tail[i].entries).Ok? && |encode(PackMessage(tail[i].entries).value)| < UINT16_LIMIT
        {
          assert tail[i] == items[i + 1];
        }
      }
      ReadWritten(tail, encode, decode);
      if items[0].PyDict? {
        var m := PackMessage(items[0].entries).value;
        PackedTextDecodes(items[0].entries);
        ReadRecord(m, WriteAll(tail, encode).file, encode, decode);
        assert WriteAll(items, encode).file == Header(|encode(m)|) + encode(m) + WriteAll(tail, encode).file;
      }
    }
  }

  /** A device text field, packed and unpacked, is what was given up to its first NUL. */
  lemma UnpackedText(key: string, v: Option<PyValue>)
    requires PackText(v).Ok?
    ensures v.None? ==> UnpackText(key, PackText(v).value) == Ok(map[])
    ensures v.Some? ==> UnpackText(key, PackText(v).value) == Ok(map[key := PyStr(BeforeNul(v.value.s))])
  {
    if v.Some? {
      Utf8RoundTrip(BeforeNul(v.value.s));
    }
  }

  /**
   * The device dict read back has `id` exactly when the written device
   * had one, holding the text up to its first NUL; likewise `type`.
   */
  lemma UnpackedDevice(msg: map<string, PyValue>, key: string)
    requires PackDevice(msg).Ok?
    requires key == "id" || key == "type"
    ensures var dev := UnpackDevice(PackDevice(msg).value);
      && dev.Ok?
      && (key in dev.value <==> "device" in msg && key in msg["device"].entries)
      && (key in dev.value ==> dev.value[key] == PyStr(BeforeNul(msg["device"].entries[key].s)))
  {
    if "device" in msg {
      var e := msg["device"].entries;
      UnpackedText("id", Get(e, "id"));
      UnpackedText("type", Get(e, "type"));
    }
  }

  /**
   * The rest of the message read back: `lat` and `lon` are there exactly
   * when they were given, and `apps` holds the filtered ids.
   */
  lemma UnpackedMessage(msg: map<string, PyValue>)
    requires PackMessage(msg).Ok?
    ensures var v := UnpackMessage(PackMessage(msg).value);
      && v.Ok?
      && ("lat" in v.value.entries <==> "lat" in msg)
      && ("lon" in v.value.entries <==> "lon" in msg)
      && v.value.entries["apps"] == PyList(UnpackApps(PackedApps(msg).value))
      && v.value.entries["device"] == PyDict(UnpackDevice(PackDevice(msg).value).value)
  {
    PackedTextDecodes(msg);
  }
}
