# A verified model of the otus course projects

This project models, in Dafny, the sequential core of several course projects of the `otus`
repository:

- **Scooter rental saga** (`microservices_final_project`): the rent table of the scooter
  service with its partial unique indexes, the billing account with its optimistic
  `version` check and flat rent price, and the notification ledger. It also covers the
  older synchronous billing service (`api_events`) and the user/session service
  (`api_gateway/auth_service`). Each table is a field of a class. Each handler is one atomic
  method. Each broker publish is an append to a ghost `outbox`. Money is in integer cents.
- **Protobuf record framing** (`protobuf_serializer/pb.c`): the 8-byte header
  `{0xFFFFFFFF, 1, uint16 length}`, the `apps` filter, the `pack_device` and `unpack_message`
  field rules, and the writer and reader loops. The writer and reader are methods over a
  byte sequence, proved against framing functions, with a write-then-read round trip.
- **memcload line parser** (`memcload/types.py`): `AppsInstalled.from_raw`,
  `DeviceType.__str__` and `ProcessingStatus`.
- **Scoring service** (`scoring/`):
  - the field validators and their descriptor and metaclass behaviour;
  - the request metaclass and the handler pipeline (validate, authenticate, record context,
    process);
  - the `do_POST` envelope;
  - the score key and the cached additive score, kept in half-points;
  - the `retry` loop of the store.
- **HTTP server** (`httpserver/`): the request-line parser, the request handler, and the
  text layout of responses and errors. The request line is a simplified form of section
  3.1.1 of RFC 7230.
- **ycrawler**: the `--refresh-time` argument converter.

The scoring service is Python 2 code, and the model follows Python 2 semantics. `str` and
`unicode` are different types. `isinstance(v, int)` accepts booleans but not `long`. The
variable bound by `except` stays bound after the loop. The module `PyText` models the Python
built-ins the core relies on: `strip`, `split`, decimal text, UTF-8, and `int()`, `isdigit`
and case mapping for ASCII letters and digits only (see "Left out"). Its members are helpers, cited through the members that use them.

Where the code and its documentation disagree, the model follows the code:

- `create_payment` reads `payload["version"]`, but the `rent.pending` message published by
  `start_rent` carries no version, so the handler fails with `KeyError` on every such message
  (`FinalBilling.PendingMessageFails`).
- The billing table DDL of `microservices_final_project` has no `version` column, while the
  handlers read and bump one. The model gives accounts a version that starts at 1, as the
  `api_events` DDL does. The billing `app.py` also imports a `cancel_payment` that
  `handlers.py` does not define. Likewise the notification `app.py` imports
  `create_notification_on_funds_transferred`, `create_notification_on_payment_succeeded`
  and `create_notification_on_rent_finished`, none of which its `handlers.py` defines, so
  neither service can start as written; the model follows the handlers that exist.
- The notification DDL columns disagree with the `INSERT`. Ledger rows follow the `INSERT`.
- The session-token schema matches with `re.match`, which checks only a prefix. A token of
  128 hex digits therefore passes the 64-hex pattern.
- `--refresh-time` is documented as "a positive integer", but 0 is accepted.
- `CharField.validate` has no `return`, so every character field is stored as `None` (a
  finding below). JSON strings decode to `unicode`, which a `CharField` (type `str`) refuses
  in any case.
- The scoring service's own integration tests disagree with the code. `test_empty_request`
  expects 422 for the body `{}`, but an empty body is answered 200 before any routing
  (`ScoringApi.DoPostEarlyAnswers`). `test_bad_auth` expects 403, but its JSON strings are
  `unicode`, which the `CharField`s refuse with 422 even once the validator is corrected.
- `MainHTTPHandler.store` is `None` and nothing sets it, so even with the store arguments
  added, `get_score` and `get_interests` would fail on `None`. The corrected members run
  on a real store.

## Model

| member | source | states |
|---|---|---|
| RefreshTime.PrepareRefreshTime | ycrawler/__main__.py:28-43 | accepted exactly when `int` reads the text and the number is not negative, `int` skipping only the ASCII spaces `\t` to `\r` and the non-ASCII whitespace around the digits; the accepted value is the number read; every rejection carries the one message |
| RefreshTime.AcceptsEveryNatural | ycrawler/__main__.py:31-43 | every non-negative number written in decimal is accepted and read back unchanged (zero included) |
| RefreshTime.RejectsEveryNegative | ycrawler/__main__.py:38-41 | every negative number written in decimal is rejected with the one message |
| RefreshTime.ZeroAccepted | ycrawler/__main__.py:38-43 | `"0"` is accepted as 0, although the message asks for a positive integer |
| RefreshTime.SeparatorRejected | ycrawler/__main__.py:31-36 | a U+001C before `60`, which `strip` would remove, is not skipped by `int`, so the text is rejected |
| RefreshTime.DefaultAccepted | ycrawler/__main__.py:11 | the default `"60"` passes the check as 60 seconds |
| Memcload.DeviceName | memcload/types.py:7-11 | every member name is four capital letters |
| Memcload.LookupDeviceType | memcload/types.py:41-43 | `DeviceType[name]` finds a member exactly for the four names, and the member found has that name |
| Memcload.DeviceTypeText | memcload/types.py:13-14 | `str(d)` is the member name lower-cased, letter by letter |
| Memcload.DeviceTypeTextRoundTrip | memcload/types.py:13-14 | the text `str(d)` gives is read back as `d` by the strip-and-upper-case lookup (also memcload/types.py:40-41) |
| Memcload.UpperOfLower | memcload/types.py:14 | upper-casing undoes the lower-casing of a member name (also memcload/types.py:40) |
| Memcload.StatusValue | memcload/types.py:17-20 | the values 1, -1 and 0 belong to OK, ERROR and SKIP and to no other status |
| Memcload.Fields | memcload/types.py:32 | the fields of a line, joined back with tabs, give the stripped line; there is at least one, and none holds a tab |
| Memcload.IntegerItems | memcload/types.py:49 | one app per item, each the integer `int` reads from the stripped item |
| Memcload.DigitItems | memcload/types.py:51-55 | the fallback list is never longer than the items and holds no negative number |
| Memcload.FromRaw | memcload/types.py:31-64 | fewer than five fields is "Invalid format."; more than five fails the unpacking; a result keeps the id (never empty), the device named by the upper-cased stripped type, the app list, and coordinates exactly when both parse, as the pair of the parsed latitude and longitude |
| Memcload.UnknownDeviceTypeRejected | memcload/types.py:39-43 | with five fields, the line is rejected for its device type exactly when the upper-cased name is no member |
| Memcload.EmptyIdRejected | memcload/types.py:45-46 | with five fields and a known type, an empty id is rejected, and a non-empty one gives a record |
| Memcload.DigitItemsAppend | memcload/types.py:51-55 | the digit filter goes item by item, so it keeps the order |
| Memcload.DigitItemsSingle | memcload/types.py:54 | one item survives the filter exactly when it is all digits once stripped |
| Memcload.DigitItemParses | memcload/types.py:52-54 | an item the filter keeps is an integer to `int`, with the value of its digits |
| Memcload.DigitItemsAgree | memcload/types.py:48-55 | where every item is all digits, the first reading succeeds and the fallback would give the same list |
| Memcload.DigitItemsShorter | memcload/types.py:50-55 | the fallback is taken only when some item is no integer, and then it drops at least one item |
| Memcload.ParseApps | memcload/types.py:48-55 | when every comma-separated item is an integer, there is one app per item and each is that item parsed after stripping; otherwise the digit-only fallback keeps fewer apps than items, none negative |
| HttpTypes.MethodText | httpserver/types.py:6-11 | `str(method)` is a non-empty word without spaces |
| HttpTypes.LookupMethod | httpserver/types.py:6-8 | lookup by name finds a method exactly for "GET" and "HEAD", case-sensitively |
| HttpTypes.MethodRoundTrip | httpserver/types.py:6-11 | looking up `str(m)` gives back `m` |
| HttpTypes.Code | httpserver/types.py:14-25 | every status code lies between 200 and 505 |
| HttpTypes.Reason | httpserver/types.py:14-25 | every status has a non-empty reason phrase |
| HttpTypes.CodesDistinct | httpserver/types.py:14-25 | no two statuses share a code |
| HttpTypes.StatusText | httpserver/types.py:27-29 | `str(status)` is the three-digit code, one space, then the reason phrase |
| HttpTypes.StatusCodeReadBack | httpserver/types.py:27-29 | the first three characters of `str(status)` read back as its code |
| HttpTypes.ErrorResponse | httpserver/types.py:42-48 | the error response keeps the status, is `text/plain`, and its body is `str(status)` in UTF-8 |
| Httpd.Receive | httpserver/httpd.py:34 | one `recv` gives the first `n` bytes the client sent, where `n` is the network's choice: at least one byte when anything was sent, never more than was sent or than the 8 KiB buffer (also httpserver/httpd.py:14) |
| Httpd.FindCrlf | httpserver/httpd.py:38 | the position found is the first CR LF at or after the start, or the end when there is none |
| Httpd.RequestLineBytes | httpserver/httpd.py:38 | the request line is the prefix before the first CR LF, holds no CR LF, and is all the data when there is none |
| Httpd.ParseRequest | httpserver/httpd.py:28-54 | parses what one `recv` of `n` bytes returned: a timeout gives 408; other than three words gives 400; a version other than HTTP/1.1 gives 505; an unknown method name gives 405; otherwise the request holds the first word's method and the second word as target; and a request is returned exactly when there are three words, the last `HTTP/1.1`, and the first a known method |
| Httpd.RequestWords | httpserver/httpd.py:38-42 | the words of the received request line are non-empty and free of whitespace |
| Httpd.WordHasNoCr | httpserver/httpd.py:42 | a whitespace-free word holds no carriage return |
| Httpd.RequestLineText | httpserver/httpd.py:42-46 | the request line a client writes is the method, a space, the target, a space, `HTTP/1.1` |
| Httpd.RequestLineBytesOf | httpserver/httpd.py:39 | the ISO-8859-1 request line has one byte per character |
| Httpd.ParseFormattedRequest | httpserver/httpd.py:28-54 | a well-formed request line followed by CR LF parses back to its method and target, whatever follows it, whenever the one `recv` returns the whole line with its CR LF |
| Httpd.WholeLineRead | httpserver/httpd.py:28-54 | a request line that arrives whole with its CR LF, and nothing after it, parses back to its method and target |
| Httpd.PartialLineWords | httpserver/httpd.py:33-38 | when the one `recv` stops inside the request line, the words parsed are those of the line's first `n` characters |
| Httpd.SplitRequestLine | httpserver/httpd.py:33-47 | `GET / HTTP/1.1` with CR LF parses as a GET of `/` when all 16 bytes arrive, and gives 505 when only the first 8 (`GET / HT`) do |
| Httpd.MakeResponse | httpserver/types.py:37-40 | a response is built exactly when status, body and content type are all given, and holds those three |
| Httpd.HandleRequestAsWritten | httpserver/httpd.py:57-65 | the response is built without a content type, so `handle_request` always raises |
| Httpd.HandleRequest | httpserver/httpd.py:57-65 | with the content type given: status 200, and the body split at new lines is the method line, the target line and two empty lines |
| Httpd.HexDigit | httpserver/httpd.py:80 | a hexadecimal digit of a `bytes` repr is a digit or a lower-case letter a-f |
| Httpd.EscapeByte | httpserver/httpd.py:80 | one byte of a `bytes` repr takes one to four characters |
| Httpd.EscapeBytes | httpserver/httpd.py:80 | the escaped bytes are never shorter than the bytes |
| Httpd.BytesRepr | httpserver/httpd.py:80 | `f"{body}"` of a `bytes` body is `b`, a quote, the escaped bytes and the same quote |
| Httpd.PlainEscape | httpserver/httpd.py:80 | printable bytes other than quote and backslash stand for themselves in the repr |
| Httpd.PlainBytesRepr | httpserver/httpd.py:80 | `f"{body}"` of a `bytes` body of printable bytes without quote or backslash is those characters between `b'` and `'` |
| Httpd.StatusTextPlain | httpserver/types.py:27-29 | `str(status)` is printable ASCII without a quote or a backslash, for every status |
| Httpd.ErrorResponseSent | httpserver/types.py:42-48 | were the response `HTTPResponse.error` builds sent, its `bytes` body would reach the client as `b'<code> <reason>'`, the repr, not as the status text (also httpserver/httpd.py:68-83) |
| Httpd.SingleQuotedRepr | httpserver/httpd.py:80 | bytes without a single quote are shown between single quotes |
| Httpd.JoinCrlfSnoc | httpserver/httpd.py:83 | joining one more line with CR LF adds CR LF and that line at the end |
| Httpd.HeadLines | httpserver/httpd.py:73-79 | six head lines, the last one empty |
| Httpd.ResponseHead | httpserver/httpd.py:73-79 | the head is the status line and the four header lines, each followed by CR LF, and then an empty line |
| Httpd.ResponseText | httpserver/httpd.py:73-83 | the joined response text is the head lines each ended by CR LF, then the body with nothing after it |
| Httpd.SendResponse | httpserver/httpd.py:68-83 | the bytes sent are the UTF-8 head followed by the UTF-8 body text |
| Httpd.SendErrorAsWritten | httpserver/httpd.py:86-93 | the error response is built without a content type, so `send_error` always raises |
| Httpd.SendError | httpserver/httpd.py:86-93 | with the content type given: only the head is sent, ending with the blank line |
| Httpd.Exchange | httpserver/httpd.py:101-117 | with the corrected `handle_request` and `send_error` (as written both raise, see Findings): a request that fails to parse gets the head of its error status; a parsed one gets the 200 head and the method/target body |
| PbFraming.Get | protobuf_serializer/pb.c:43 | the lookup finds a value exactly under a key of the dict |
| PbFraming.BeforeZero | protobuf_serializer/pb.c:56 | `strlen` gives the longest zero-free prefix, stopped by a zero byte or the end (also protobuf_serializer/pb.c:65) |
| PbFraming.BeforeNul | protobuf_serializer/pb.c:50-56 | the text before the first U+0000 is a NUL-free prefix, stopped by a NUL or the end |
| PbFraming.CStringOfText | protobuf_serializer/pb.c:50-56 | `strlen` of the UTF-8 of a text cuts it at its first U+0000 and nowhere else |
| PbFraming.BeforeZeroSkips | protobuf_serializer/pb.c:56 | `strlen` passes over zero-free leading bytes |
| PbFraming.PackText | protobuf_serializer/pb.c:49-65 | an absent id or type is left unset; a `str` is stored as its UTF-8 up to the first NUL; anything else is a serialization error |
| PbFraming.PackDevice | protobuf_serializer/pb.c:36-73 | an absent device packs as an empty one; a non-dict device fails; a dict packs exactly when its id and type pack |
| PbFraming.PackCoordinate | protobuf_serializer/pb.c:85-135 | an absent coordinate is left unset; a float is kept; a bool, an int below 2^1024 - 2^970 in magnitude, an object whose `__float__` returns, and an object without `__float__` whose `__index__` returns an int below that bound (CPython 3.8 and later) are converted; a larger int (`OverflowError`), a raising `__float__` or `__index__` and any other object are a serialization error |
| PbFraming.AsLong | protobuf_serializer/pb.c:177-179 | a value is read exactly when it fits a C `long`, and then unchanged |
| PbFraming.AppItem | protobuf_serializer/pb.c:172-183 | an item is kept exactly when it is a bool or an int in `[0, 2^32-1]`, with its value |
| PbFraming.AppsFilter | protobuf_serializer/pb.c:172-188 | the kept ids are never more than the list items |
| PbFraming.AppsFilterAppend | protobuf_serializer/pb.c:172-184 | the filter goes item by item and keeps the list order |
| PbFraming.AppsFilterBounds | protobuf_serializer/pb.c:177-180 | negative ids, ids above `2^32-1` and ints beyond a C `long` are dropped; 1 and `2^32-1` are kept |
| PbFraming.AppsFilterMembers | protobuf_serializer/pb.c:172-184 | an id is kept exactly when some item of the list is that acceptable id |
| PbFraming.PackAppsList | protobuf_serializer/pb.c:166-188 | the buffer filled by the loop holds exactly the filtered ids, in order |
| PbFraming.PackApps | protobuf_serializer/pb.c:147-190 | the method computes the packed app list of the message |
| PbFraming.PackedApps | protobuf_serializer/pb.c:157-162 | absent apps pack as no ids; a non-list fails; a list packs as its filtered ids |
| PbFraming.PackMessage | protobuf_serializer/pb.c:198-225 | a message packs exactly when device, lat, lon and apps all pack, keeping the packed device and apps |
| PbFraming.Header | protobuf_serializer/pb.c:19-24 | the header is eight bytes (also protobuf_serializer/pb.c:236-239) |
| PbFraming.HeaderLength | protobuf_serializer/pb.c:22-23 | the length field is below 2^16 |
| PbFraming.HeaderFields | protobuf_serializer/pb.c:11-13 | a written header has the magic and type 1, and its length is the body length modulo 2^16 (exact below 2^16) (also protobuf_serializer/pb.c:236-238) |
| PbFraming.OversizedBodyAnnouncedEmpty | protobuf_serializer/pb.c:238 | a body of exactly 2^16 bytes is announced with length 0 |
| PbFraming.Record | protobuf_serializer/pb.c:198-252 | a record is written exactly when the message packs, and is the header of the body length followed by the body |
| PbFraming.WriteMessage | protobuf_serializer/pb.c:198-252 | the step-by-step packer gives the record of the message, stopping at the first failing field |
| PbFraming.WriteAll | protobuf_serializer/pb.c:286-316 | the count returned is the number of bytes in the file |
| PbFraming.WriteDeviceApps | protobuf_serializer/pb.c:286-316 | the writer loop skips non-dicts, appends one record per dict, stops at the first dict that fails, and returns the total written |
| PbFraming.NonDictsWriteNothing | protobuf_serializer/pb.c:288-291 | items that are no dicts write nothing and the count is 0 |
| PbFraming.UnpackText | protobuf_serializer/pb.c:343-383 | an unset field adds no key; a set one adds its strict UTF-8 decoding, or fails; the `UnicodeDecodeError` set from one string cannot be built, so Python receives a `TypeError` |
| PbFraming.UnpackDevice | protobuf_serializer/pb.c:325-386 | the device dict has `id` and `type` exactly where the message sets them, and no other key |
| PbFraming.UnpackApps | protobuf_serializer/pb.c:425-459 | one int per app id, in message order |
| PbFraming.CoordinateEntry | protobuf_serializer/pb.c:393-416 | a coordinate key is present exactly when the message sets it |
| PbFraming.UnpackMessage | protobuf_serializer/pb.c:466-541 | the dict always has `device` and `apps`, has `lat`/`lon` exactly when set, and fails exactly when the device fails |
| PbFraming.ThenNothing | protobuf_serializer/pb.c:636 | appending after no messages leaves the read result unchanged |
| PbFraming.ThenThen | protobuf_serializer/pb.c:636 | appending messages in two steps is appending them at once |
| PbFraming.ReadDeviceApps | protobuf_serializer/pb.c:576-652 | the reader loop stops at end of file, rejects a bad magic or a short body, fails where decoding or unpacking fails, and otherwise lists the dicts in order |
| PbFraming.ReadAll | protobuf_serializer/pb.c:576-652 | a file that is read gives dicts that all have `device` and `apps`, never more dicts than whole headers fit in the file, and a file that begins with a header without the magic is "Invalid format" |
| PbFraming.ReadRecordAt | protobuf_serializer/pb.c:577-645 | one pass of the reader loop: fewer bytes than a header ends the list; a bad magic, a short body or a failed decoding ends it with that error; a record read moves on by its header and body and puts its dict in front of what the rest of the file gives |
| PbFraming.PackedTextDecodes | protobuf_serializer/pb.c:50-65 | the device text a packed message holds always decodes back (also protobuf_serializer/pb.c:343-370) |
| PbFraming.ReadRecord | protobuf_serializer/pb.c:236-245 | one record read back gives its message and leaves the reader at the next record (also protobuf_serializer/pb.c:577-631) |
| PbFraming.ReadWritten | protobuf_serializer/pb.c:260-317 | when decoding undoes encoding and every body fits the 16-bit length, writing succeeds and reading the file gives one dict per dict item, in order (also protobuf_serializer/pb.c:550-653) |
| PbFraming.UnpackedText | protobuf_serializer/pb.c:49-65 | a device text packed and unpacked is what was given up to its first NUL (also protobuf_serializer/pb.c:343-383) |
| PbFraming.UnpackedDevice | protobuf_serializer/pb.c:36-73 | the device read back has `id` (and `type`) exactly when the written dict did, holding its text up to the first NUL (also protobuf_serializer/pb.c:325-386) |
| PbFraming.UnpackedMessage | protobuf_serializer/pb.c:198-225 | the message read back has `lat`/`lon` exactly when given, and its `apps` are the filtered ids (also protobuf_serializer/pb.c:466-541) |
| ScooterRent.InsertKeepsExclusive | microservices_final_project/scooter_management_service/app.py:39-43 | a new pending rent for a user and a scooter without an open rent keeps both partial unique indexes (also microservices_final_project/scooter_management_service/handlers.py:48-56) |
| ScooterRent.UpdateStatus | microservices_final_project/scooter_management_service/handlers.py:81-88 | a status update keeps the number of rows (also microservices_final_project/scooter_management_service/handlers.py:123-130, microservices_final_project/scooter_management_service/handlers.py:140-147) |
| ScooterRent.UpdateStatusRows | microservices_final_project/scooter_management_service/handlers.py:83-84 | exactly the rows matching the WHERE clause change, and only in their status (also microservices_final_project/scooter_management_service/handlers.py:125-126, microservices_final_project/scooter_management_service/handlers.py:142-143) |
| ScooterRent.UpdateStatusIdempotent | microservices_final_project/scooter_management_service/handlers.py:116-147 | applying the same update twice is applying it once, so a redelivered message is harmless |
| ScooterRent.UpdateStatusKeepsExclusive | microservices_final_project/scooter_management_service/app.py:39-43 | an update whose target is open only when its source is open keeps both indexes (also microservices_final_project/scooter_management_service/handlers.py:83-84, microservices_final_project/scooter_management_service/handlers.py:125-126, microservices_final_project/scooter_management_service/handlers.py:142-143) |
| ScooterRent.UpdateStatusEvolves | microservices_final_project/scooter_management_service/handlers.py:83-84 | every row keeps its id, scooter and user, and its status moves only along the lifecycle PENDING to ACTIVE or CANCELED, ACTIVE to FINISHED (also microservices_final_project/scooter_management_service/handlers.py:125-126, microservices_final_project/scooter_management_service/handlers.py:142-143) |
| ScooterRent.AfterStop | microservices_final_project/scooter_management_service/handlers.py:76-93 | afterwards the user has no active rent; each rent keeps its user, scooter and id and only moves forward in status; and both partial unique indexes still hold |
| ScooterRent.AfterActivate | microservices_final_project/scooter_management_service/handlers.py:116-130 | afterwards the user has no pending rent of that scooter; each rent only moves forward in status; and both partial unique indexes still hold |
| ScooterRent.AfterCancel | microservices_final_project/scooter_management_service/handlers.py:133-147 | afterwards the user has no pending rent of that scooter; each rent only moves forward in status; and both partial unique indexes still hold |
| ScooterRent.InsertArgument | microservices_final_project/scooter_management_service/handlers.py:48-56 | the insert runs exactly when the body had a scooter text, the user id fits `INTEGER` and the text is a UUID, and then with the canonical form of that UUID |
| ScooterRent.ClosedRentsStay | microservices_final_project/scooter_management_service/handlers.py:83-84 | a canceled or finished rent never changes again (also microservices_final_project/scooter_management_service/handlers.py:125-126, microservices_final_project/scooter_management_service/handlers.py:142-143) |
| ScooterRent.FreeScooters | microservices_final_project/scooter_management_service/handlers.py:22-25 | a scooter is listed exactly when it has no pending or active rent; nothing is added |
| ScooterRent.InsertByCharge | microservices_final_project/scooter_management_service/handlers.py:26 | inserting into a list ordered by charge keeps it ordered and adds exactly that scooter |
| ScooterRent.SortByCharge | microservices_final_project/scooter_management_service/handlers.py:26 | the result is ordered by charge, highest first, and is a permutation of the input |
| ScooterRent.AvailableScooters | microservices_final_project/scooter_management_service/handlers.py:16-30 | the listed scooters are ordered by charge and are a permutation of the free ones |
| ScooterRent.AvailableScootersMembers | microservices_final_project/scooter_management_service/handlers.py:20-28 | a scooter is listed exactly when it is in the table and has no pending or active rent |
| ScooterRent.LatestRent | microservices_final_project/scooter_management_service/handlers.py:102-113 | a rent is found exactly when the user has one, and it is the user's rent with the largest id |
| ScooterRent.RentService.constructor | microservices_final_project/scooter_management_service/app.py:25-43 | the tables start empty and the id sequence at 1 |
| ScooterRent.RentService.StartRent | microservices_final_project/scooter_management_service/handlers.py:33-73 | a body the schema refuses (no `scooter_id`, or one that is no string) gives 400, and nothing else does; a `scooter_id` the database driver reads as no UUID, or a user id outside `INTEGER`, makes the insert fail uncaught: 500, with no id drawn and no change; otherwise an open rent of the user or the scooter gives 409 (checked before the foreign key), an unknown scooter 404, and success adds a pending rent with the next id and the canonical scooter id and publishes `rent.pending` with the text as given; every insert attempt draws an id (also microservices_final_project/scooter_management_service/app.py:32-37) |
| ScooterRent.RentService.StopRent | microservices_final_project/scooter_management_service/handlers.py:76-93 | a user id outside `INTEGER` is refused by the driver: 500 and no change; otherwise the user's active rent is finished and returned, with 404 and no change when there is none; no id is drawn and nothing is published (also microservices_final_project/scooter_management_service/app.py:35) |
| ScooterRent.RentService.GetRentInfo | microservices_final_project/scooter_management_service/handlers.py:96-113 | 500 for a user id outside `INTEGER`; otherwise the user's latest rent, or 404 (also microservices_final_project/scooter_management_service/app.py:35) |
| ScooterRent.RentService.GetScooters | microservices_final_project/scooter_management_service/handlers.py:16-30 | the free scooters ordered by charge |
| ScooterRent.RentService.ActivateRent | microservices_final_project/scooter_management_service/handlers.py:116-130 | the user's pending rent of that scooter becomes active, and a user id outside `INTEGER` changes nothing; the indexes hold and rows evolve along the lifecycle |
| ScooterRent.RentService.CancelRent | microservices_final_project/scooter_management_service/handlers.py:133-147 | the user's pending rent of that scooter is canceled, and a user id outside `INTEGER` changes nothing; the indexes hold and rows evolve along the lifecycle |
| ScooterRent.StartedThenActivated | microservices_final_project/scooter_management_service/handlers.py:48-56 | a rent just started and then activated is the user's active rent (also microservices_final_project/scooter_management_service/handlers.py:123-130) |
| FinalBilling.Debit | microservices_final_project/billing_service/handlers.py:61-67 | a debit keeps the set of accounts |
| FinalBilling.Payment | microservices_final_project/billing_service/handlers.py:35-68 | a missing `user_id`, `scooter_id` or `version` key fails, read in that order; then a user id outside `INTEGER` fails in the driver; the payment is taken exactly when the account exists at that version with at least the rent price; otherwise it is declined; both name the payload's user and scooter |
| FinalBilling.CanPay | microservices_final_project/billing_service/handlers.py:44-59 | the guard lets a payment through only for an existing account whose balance stays non-negative after the rent price is taken |
| FinalBilling.DebitExact | microservices_final_project/billing_service/handlers.py:13 | the payer loses exactly the rent price, its version moves on by one, and no other account changes (also microservices_final_project/billing_service/handlers.py:61-67) |
| FinalBilling.PaymentKeepsSound | microservices_final_project/billing_service/handlers.py:53-67 | a payment never makes a balance negative, since the debit only follows the balance check |
| FinalBilling.ReplayDeclined | microservices_final_project/billing_service/handlers.py:44-59 | redelivering a message that was paid is declined, because its version has moved on |
| FinalBilling.PendingMessageFails | microservices_final_project/scooter_management_service/handlers.py:63-71 | every `rent.pending` message the scooter service publishes lacks `version` and fails on it (also microservices_final_project/billing_service/handlers.py:40) |
| FinalBilling.TopUpStatus | microservices_final_project/billing_service/handlers.py:90-132 | a top-up answers 200, 400, 404, 412 or 500, and 200 exactly when it is done |
| FinalBilling.TopUpAsWritten | microservices_final_project/billing_service/handlers.py:90-115 | a body with a `version` is refused by the schema; otherwise a user id outside `INTEGER` fails in the driver, a missing account is 404, and an existing account fails on the missing `version` key (also microservices_final_project/billing_service/schema.py:8-10) |
| FinalBilling.TopUpAsWrittenNeverCredits | microservices_final_project/billing_service/handlers.py:94-115 | as written, no top-up ever succeeds (also microservices_final_project/billing_service/schema.py:8-10) |
| FinalBilling.TopUp | microservices_final_project/billing_service/handlers.py:90-132 | with `version` in the schema: 400 for an invalid body, then 500 for a user id outside `INTEGER`, 404 without an account, 412 on a version mismatch, otherwise the amount is added and the version bumped (also microservices_final_project/billing_service/app.py:16) |
| FinalBilling.TopUpCredits | microservices_final_project/billing_service/handlers.py:114-127 | a valid top-up of an account at its current version succeeds unless the balance would overflow, and does not lower the balance |
| FinalBilling.TopUpKeepsSound | microservices_final_project/billing_service/handlers.py:117-127 | a top-up never lowers a balance and keeps every balance within `NUMERIC(13,2)` (also microservices_final_project/billing_service/app.py:15-18) |
| FinalBilling.Balance | microservices_final_project/billing_service/handlers.py:72-87 | a balance is found exactly for an existing account, and it is that account's balance |
| FinalBilling.BillingService.constructor | microservices_final_project/billing_service/app.py:15-18 | no accounts and nothing published |
| FinalBilling.BillingService.CreateAccount | microservices_final_project/billing_service/handlers.py:21-32 | a missing key, a user id outside `INTEGER` or an existing account fails and changes nothing; otherwise a zero-balance account at the first version is added (also microservices_final_project/billing_service/app.py:16) |
| FinalBilling.BillingService.CreatePayment | microservices_final_project/billing_service/handlers.py:35-68 | the outcome is the payment's; a taken payment debits and publishes `rent.activated`, a declined one publishes `rent.canceled`, a failed one changes nothing (also microservices_final_project/billing_service/handlers.py:156-169) |
| FinalBilling.BillingService.AddFundsAsWritten | microservices_final_project/billing_service/handlers.py:90-115 | as written, the answer is never 200 |
| FinalBilling.BillingService.AddFunds | microservices_final_project/billing_service/handlers.py:90-132 | the outcome is the corrected top-up's; only a done top-up changes exactly the user's account |
| FinalBilling.BillingService.GetBalance | microservices_final_project/billing_service/handlers.py:72-87 | 500 for a user id outside `INTEGER`; otherwise the user's balance, or 404 |
| EventsBilling.PaymentStatus | api_events/billing_service/handlers.py:80-115 | a payment answers 201 exactly when it is done, and 400 exactly for an invalid body or insufficient funds |
| EventsBilling.Payment | api_events/billing_service/handlers.py:80-115 | an invalid body is refused; then a user id outside `INTEGER` fails in the driver; a missing account crashes; a balance below the amount is refused; otherwise the new balance is the old one less the amount (also api_events/billing_service/app.py:16) |
| EventsBilling.PaymentKeepsNonNegative | api_events/billing_service/handlers.py:101-112 | a payment the balance covers always succeeds and leaves the balance between zero and what it was |
| EventsBilling.TopUp | api_events/billing_service/handlers.py:51-77 | an invalid body is refused; then a user id outside `INTEGER` fails in the driver; no account gives 404; a top-up that fits the column adds exactly the amount (also api_events/billing_service/app.py:16) |
| EventsBilling.BillingService.constructor | api_events/billing_service/app.py:15-19 | no accounts and nothing published |
| EventsBilling.BillingService.CreateAccount | api_events/billing_service/handlers.py:19-30 | an account with a zero balance is created exactly for a given, new user whose id fits `INTEGER`; otherwise nothing changes (also api_events/billing_service/app.py:16) |
| EventsBilling.BillingService.AddFunds | api_events/billing_service/handlers.py:51-77 | the outcome is the top-up's; only a done top-up changes exactly the user's balance |
| EventsBilling.BillingService.CreatePayment | api_events/billing_service/handlers.py:80-115 | a done payment debits and publishes `payment.succeeded`; a refused one publishes `payment.canceled` and changes nothing; any other changes nothing (also api_events/billing_service/handlers.py:122-135) |
| EventsBilling.BillingService.GetBalance | api_events/billing_service/handlers.py:33-48 | 500 exactly for a user id outside `INTEGER`; otherwise the balance of an existing account with 200, or 404 (also api_events/billing_service/app.py:16) |
| Notifications.JoinEndsWithLast | microservices_final_project/notification_service/handlers.py:31 | a joined text ends with its last piece, after a separator when there are several pieces |
| Notifications.RoutingStatus | microservices_final_project/notification_service/handlers.py:31 | the status is the dot-free tail of the routing key after its last dot, or the whole key when it has no dot |
| Notifications.RoutingStatusOfPair | microservices_final_project/notification_service/handlers.py:31 | the status of `<event>.<status>` is its second part |
| Notifications.UserNotifications | microservices_final_project/notification_service/handlers.py:16-21 | a row is listed exactly when it is in the ledger and belongs to the user |
| Notifications.NewestFirst | microservices_final_project/notification_service/handlers.py:18 | with ids increasing in insertion order, the listed ids strictly decrease |
| Notifications.NotificationService.constructor | microservices_final_project/notification_service/handlers.py:36-37 | an empty ledger, ids starting at 1 |
| Notifications.NotificationService.CreateNotification | microservices_final_project/notification_service/handlers.py:26-43 | a missing `user_id` or `amount` key fails, named, and a user id outside `INTEGER` fails in the driver; a failure changes nothing; otherwise one row with the next id, the clock reading, the amount and the routing key's status is appended (also microservices_final_project/notification_service/app.py:23) |
| Notifications.NotificationService.GetNotifications | microservices_final_project/notification_service/handlers.py:11-23 | 500 for a user id outside `INTEGER`; otherwise 200 and the user's rows, newest first (also microservices_final_project/notification_service/app.py:23) |
| AuthService.HeaderToken | api_gateway/auth_service/schema.py:4-14 | a token is read exactly when the header starts with `Bearer ` and 64 lower-case hex digits, and it is everything after `Bearer ` (also api_gateway/auth_service/handlers.py:90-93) |
| AuthService.IssuedTokenAccepted | api_gateway/auth_service/handlers.py:83 | a `token_hex(64)` token, 128 hex digits, passes the 64-digit pattern (which only has to match at the start) and is read back whole (also api_gateway/auth_service/schema.py:6, api_gateway/auth_service/schema.py:14) |
| AuthService.FindUser | api_gateway/auth_service/handlers.py:64-71 | a user is found exactly when some row has that name and password hash, and it is such a row |
| AuthService.SessionUser | api_gateway/auth_service/handlers.py:97-105 | a user is found exactly when some session holds the token, and that session belongs to the user found |
| AuthService.NewSessionFound | api_gateway/auth_service/handlers.py:76-84 | a fresh token finds the session just created for it (also api_gateway/auth_service/handlers.py:97-105) |
| AuthService.AuthStore.constructor | api_gateway/auth_service/handlers.py:27-36 | no users, no sessions, ids starting at 1 (also api_gateway/auth_service/handlers.py:76-84) |
| AuthService.AuthStore.SignUp | api_gateway/auth_service/handlers.py:13-47 | an invalid body gives 400 and changes nothing; a taken name gives 400 with no new user and no message, but the sequence has moved on by one; otherwise a user with the next id and the password's hash is added and `user.created` is published; names stay unique (also api_gateway/auth_service/schema.py:22-24) |
| AuthService.AuthStore.SignIn | api_gateway/auth_service/handlers.py:50-86 | an invalid body gives 400; no user with that name and password hash gives 401; otherwise a new session with the new token is added and the token returned (also api_gateway/auth_service/schema.py:17-19) |
| AuthService.AuthStore.Auth | api_gateway/auth_service/handlers.py:89-114 | a bad header or an unknown token gives 401; otherwise 200 with the session's user id as `X-User-Id` |
| AuthService.UserIdHeaderReadBack | api_gateway/auth_service/handlers.py:112 | the `X-User-Id` text reads back as the user id |
| ScoringStore.Run | scoring/store.py:22-31 | the number of sleeps is at most the number of attempts left |
| ScoringStore.RunFirstSuccess | scoring/store.py:23-25 | the first attempt that returns decides the outcome, after one sleep per earlier retried failure |
| ScoringStore.RunExhausted | scoring/store.py:23-31 | after `times` retried failures the error of the last attempt is raised, after `times` sleeps |
| ScoringStore.RunOtherError | scoring/store.py:24-26 | an exception outside the retried class escapes at once, after the sleeps of the earlier failures |
| ScoringStore.NoAttempts | scoring/store.py:23 | with `times <= 0` the loop never runs and `raise error` fails with an unbound name (also scoring/store.py:31) |
| ScoringStore.Retry | scoring/store.py:19-35 | the wrapper loop's outcome and total sleep time are those of the attempt sequence, and it calls the function at most `times` times |
| ScoringStore.CacheCall | scoring/store.py:38-53 | with the default policy: at most five calls, at most five seconds of sleep, and never the unbound-name failure |
| ScoringStore.CacheCallBound | scoring/store.py:19 | once one attempt has been made there is always an error to raise (also scoring/store.py:23-31) |
| Scoring.PyStr | scoring/scoring.py:17 | `str` of an integer is its decimal text; `str` of a byte string is itself (also scoring/scoring.py:58) |
| Scoring.KeyPart | scoring/scoring.py:13-16 | a falsy value contributes the empty text; a byte string contributes itself; any other truthy value that is not text makes `join` raise (also scoring/scoring.py:20) |
| Scoring.ZeroPad | scoring/scoring.py:18 | a field padded to a width is all digits, at least that wide, and exactly that wide when the number fits |
| Scoring.DigitsConcat | scoring/scoring.py:18 | digits written one after another stand for the first number shifted left plus the second |
| Scoring.ZeroPadValue | scoring/scoring.py:18 | zero padding does not change the number the digits stand for |
| Scoring.DateText | scoring/scoring.py:18 | `strftime("%Y%m%d")` succeeds exactly for a date from 1900 on, and gives eight digits |
| Scoring.DateTextReadBack | scoring/scoring.py:18 | the eight digits read back as the year, the month and the day |
| Scoring.KeyParts | scoring/scoring.py:12-19 | the key parts are built exactly when every name, e-mail and phone part is usable and the birthday is absent or formattable; a date before 1900 raises `ValueError` and a birthday that is no date `AttributeError`, before any part is joined; the parts are the six in order, with `str(gender)` unless gender is `None` |
| Scoring.Concat | scoring/scoring.py:20 | joining parts with the empty separator appends the last part to the join of the others |
| Scoring.BuildScoreKey | scoring/scoring.py:4-21 | the key is `uid:` and the MD5 of the joined parts, and a part that cannot be built raises the same error |
| Scoring.GenderZeroInKey | scoring/scoring.py:13-17 | a gender of 0 still contributes `"0"` to the key, while absent data contribute nothing |
| Scoring.Halves | scoring/scoring.py:43-50 | the score is at most 5 points; it is 0 exactly when no datum earns points, and 5 exactly when all do |
| Scoring.ScoreValue | scoring/scoring.py:40-50 | with no points earned the score is the integer 0, otherwise a float of that many half points; it is truthy exactly when points were earned |
| Scoring.HalvesMonotone | scoring/scoring.py:43-50 | supplying one more datum never lowers the score |
| Scoring.GenderZeroEarnsNothing | scoring/scoring.py:47-48 | a gender of 0 earns no birthday points, while gender 1 with a birthday earns 1.5 |
| Scoring.Store.constructor | scoring/store.py:10-16 | the cache starts with its given contents and no expiries |
| Scoring.Store.Get | scoring/store.py:45-49 | a missing key reads as `None`, a present one as its value |
| Scoring.Store.Set | scoring/store.py:38-42 | the key now holds the value with that expiry, and no other key changes |
| Scoring.CachedScoreReturned | scoring/scoring.py:40-42 | a truthy cached value is returned as it is and the cache is left alone |
| Scoring.ComputedScoreCached | scoring/scoring.py:40-54 | on a miss, or a falsy cached value such as 0, the score is computed, between 0 and 5 points, and cached for an hour under the key |
| Scoring.ScoreKeyFailure | scoring/scoring.py:12-20 | a key that cannot be built raises before the cache is read, and the cache is unchanged (also scoring/scoring.py:33-35) |
| Scoring.GetScore | scoring/scoring.py:24-54 | the result and the cache afterwards are those the score specification gives |
| Scoring.ScoreSpec | scoring/scoring.py:24-54 | a key that cannot be built leaves the cache alone; otherwise no entry disappears, and the only entry added or changed is the score returned, with an hour to live |
| Scoring.InterestsKey | scoring/scoring.py:58 | the interests key is `i:` followed by `str(cid)` |
| Scoring.GetInterests | scoring/scoring.py:57-59 | what the store holds under the client's key, `None` when there is nothing |
| Scoring.InterestsKeysDistinct | scoring/scoring.py:58 | integer client ids with different values read different keys |
| ScoringFields.Lookup | scoring/fields.py:175 | `kwargs.get(key)` is `None` for a missing key and the value otherwise |
| ScoringFields.PlainField | scoring/fields.py:22-25 | a new field has no label and checks no type |
| ScoringFields.CharField | scoring/fields.py:109-113 | a new `CharField` has no label and checks `str` and its maximum length |
| ScoringFields.FieldDefaults | scoring/fields.py:22 | fields default to not required and nullable, and `CharField` to 128 characters (also scoring/fields.py:111) |
| ScoringFields.BaseValidate | scoring/fields.py:62-76 | `None` in a required field is refused first, then a `CharField` value that is not a `str`, then a falsy value in a non-nullable field; a value that passes comes back unchanged, and it passes exactly when none of the three applies |
| ScoringFields.Validate | scoring/fields.py:115-120 | with the value returned: a value passes exactly when the base checks pass and a `CharField` value is within its length, and it comes back unchanged |
| ScoringFields.CharFieldStoresNone | scoring/fields.py:115-120 | as written, every value a `CharField` accepts is stored as `None`, where the corrected validator returns the value |
| ScoringFields.ValidateAgreesOnErrors | scoring/fields.py:115-120 | the as-written and corrected validators refuse the same values with the same messages, and agree entirely on plain fields |
| ScoringFields.CharFieldRejectsNone | scoring/fields.py:66-70 | a `CharField` refuses `None` even when it is not required, since `None` is not a `str` (also scoring/fields.py:109) |
| ScoringFields.NotNullableRejectsFalsy | scoring/fields.py:42 | without `nullable`, a plain field refuses exactly the falsy values (also scoring/fields.py:72-74) |
| ScoringFields.IsNullable | scoring/fields.py:27-42 | `is_nullable` is `bool(value)`: `None`, empty strings, 0, `False` and empty lists and dicts are false, while a date is true |
| ScoringFields.SetField | scoring/fields.py:88-95 | with the corrected validator: a field without a label raises `ValueError`; a value that fails validation raises `ValidationError` with its message; otherwise the value is stored under the label |
| ScoringFields.SetFieldAsWritten | scoring/fields.py:88-95 | as written: fails exactly when `SetField` does, with the same error, and is `SetField` for a plain field; a `CharField` that passes stores `None` (also scoring/fields.py:115-120) |
| ScoringFields.CharFieldReadsNone | scoring/fields.py:78-95 | as written, a `CharField` set to a string it accepts reads back as `None`, where the corrected version reads back the string |
| ScoringFields.GetField | scoring/fields.py:78-86 | a field without a label raises `ValueError`; a label missing from the dict raises `KeyError`; otherwise the stored value is read |
| ScoringFields.GetAfterSet | scoring/fields.py:78-95 | after a successful set, reading the field gives the value back |
| ScoringFields.Instance.constructor | scoring/fields.py:171 | a new instance has an empty `__dict__` |
| ScoringFields.Instance.Set | scoring/fields.py:88-95 | a successful `__set__` leaves the dict the set gives; a failing one raises and changes nothing |
| ScoringFields.Instance.Get | scoring/fields.py:78-86 | reading an attribute is `__get__` on the instance dict |
| ScoringFields.Labelled | scoring/fields.py:157-163 | every field ends up labelled: one without a label takes its attribute's name, one with a label keeps it, and nothing else changes |
| ScoringFields.ProgressOfSuccess | scoring/fields.py:173-175 | when no field fails, the dict the loop leaves is the one the successful validation gives |
| ScoringFields.SetAllSameValues | scoring/fields.py:173-175 | only the values under the fields' names matter: two argument dicts that agree on them validate alike |
| ScoringFields.SetAllStores | scoring/fields.py:173-175 | with the corrected validator: when every field passes and labels are distinct, each field holds the value given for its name |
| ScoringFields.SetAllKeeps | scoring/fields.py:173-175 | an entry no remaining field is labelled with is left alone |
| ScoringFields.Construct | scoring/fields.py:165-177 | positional arguments are refused; otherwise each field is set on a new instance from the keyword arguments, a missing one as `None`, stopping at the first error |
| ScoringApi.FieldsOf | scoring/api.py:45-49 | at most one entry per class attribute is collected |
| ScoringApi.FieldsOfMembers | scoring/api.py:45-49 | every field attribute of the class is collected, and nothing that is not a field attribute |
| ScoringApi.DeclaredFields | scoring/api.py:42-53 | every declared field carries a label after the metaclass runs |
| ScoringApi.DeclaredFieldsMembers | scoring/api.py:45-49 | each declared field is a field attribute of the class under the same name, labelled with that name unless it had a label already |
| ScoringApi.FieldsOfAppend | scoring/api.py:45-49 | collecting from two runs of attributes collects from each in turn |
| ScoringApi.FieldsOfFields | scoring/api.py:45-49 | a run of attributes that are all fields is collected whole and in order |
| ScoringApi.DeclaredByMeta | scoring/api.py:42-53 | the declared fields of the three request classes are exactly what the metaclass collects from their class bodies (also scoring/api.py:79-81, scoring/api.py:84-90, scoring/api.py:105-110) |
| ScoringApi.SufficientGender | scoring/api.py:95-102 | a birthday with gender 0 is enough data, while a birthday with the text "1" as gender is not |
| ScoringApi.UserKey | scoring/api.py:252 | `account + login + SALT` succeeds exactly when both are text (`str` or `unicode`), giving account, login and `"Otus"` in turn; otherwise `TypeError` |
| ScoringApi.CheckAuth | scoring/api.py:245-255 | an administrator's token is compared with the SHA-512 of the hour and `"42"`; anyone else's with the SHA-512 of `UserKey`, and the check raises `TypeError` exactly when `UserKey` does; the check only passes for a textual token (also scoring/api.py:112-114) |
| ScoringApi.AuthRaisesAsWritten | scoring/api.py:252 | as written, `account` and `login` are stored as `None`, so the request is not an admin's and `check_auth` raises `TypeError` before `process` runs (also scoring/fields.py:115-120) |
| ScoringApi.Authorized | scoring/api.py:135-143 | the score and interests handlers let every request through (also scoring/api.py:245-255) |
| ScoringApi.Dispatch | scoring/api.py:240-243 | `online_score` and `clients_interests` select their handlers, every other method name selects none, and the method handler never selects itself (also scoring/api.py:264) |
| ScoringApi.NoDispatchAsWritten | scoring/api.py:110 | because the method name is stored as `None`, no validated request is ever dispatched, while the corrected validator keeps the name (also scoring/api.py:264-268) |
| ScoringApi.Has | scoring/api.py:213-218 | at most one name per declared field |
| ScoringApi.HasExactly | scoring/api.py:213-218 | a name is listed exactly when a declared field of that name holds a value that is not `None` and is falsy (`""`, `0`, an empty list or dict), since `is_nullable` is `bool(value)` (also scoring/fields.py:27-42) |
| ScoringApi.NamesValue | scoring/api.py:214-218 | the context's `has` list holds the names in order, one item each |
| ScoringApi.Len | scoring/api.py:201 | `len` of a list is its number of items, and `None`, numbers, booleans and dates have no length |
| ScoringApi.Elements | scoring/api.py:205 | iteration is possible exactly where `len` is, and visits a list's items |
| ScoringApi.Interests | scoring/api.py:204-206 | every client id has an entry under `str(cid)` holding the stored `i:<cid>` value, and every entry comes from some client id (also scoring/scoring.py:57-59) |
| ScoringApi.InterestsPerClient | scoring/api.py:204-206 | a list of integer ids yields one entry per distinct id |
| ScoringApi.TextsCount | scoring/api.py:205 | writing integers as decimal text maps distinct ids to distinct keys |
| ScoringApi.Rejected | scoring/api.py:185-188 | a `ValidationError` becomes its message with status 422; any other exception escapes |
| ScoringApi.RespondInvalid | scoring/api.py:182-188 | a payload that fails validation is answered 422 with the error's text, and neither the context nor the cache changes |
| ScoringApi.RespondInsufficient | scoring/api.py:95-102 | a valid online-score request without a complete pair of data is answered 422 "Insufficient data." and nothing changes (also scoring/api.py:185-188) |
| ScoringApi.RespondForbidden | scoring/api.py:190-191 | with the corrected validator: a method request whose token does not match is answered `(None, 403)` and nothing changes (also scoring/api.py:245-255) |
| ScoringApi.RespondUnknownMethod | scoring/api.py:260-268 | with the corrected validator: an authenticated request for an unknown method is answered 422 "Method is not allowed." after `is_admin` is recorded in the context |
| ScoringApi.RespondDispatch | scoring/api.py:260-271 | an authenticated request for a known method is answered by that method's handler, on `arguments`, in the context with `is_admin` recorded |
| ScoringApi.RespondAdminScore | scoring/api.py:220-222 | with the corrected validator: an administrator's score is 42, and the cache is left as it was |
| ScoringApi.RespondComputedScore | scoring/api.py:213-234 | anyone else gets `get_score`'s result on the validated fields and the cache `get_score` leaves, an exception escapes with the cache unchanged, and `has` is recorded either way |
| ScoringApi.RespondInterests | scoring/api.py:200-207 | for a list of ids, `nclients` is its length, the status is 200, and each id's `str` maps to its stored interests |
| ScoringApi.Context.constructor | scoring/api.py:283 | the context starts with the given entries |
| ScoringApi.Context.Put | scoring/api.py:201 | one key is set and every other entry is kept (also scoring/api.py:214, scoring/api.py:261) |
| ScoringApi.Request.constructor | scoring/api.py:62-65 | `raw` has exactly the declared field names as keys, each holding the keyword argument of that name or `None` |
| ScoringApi.Request.Validate | scoring/api.py:67-76 | the fields are set one by one as the validation specification says, and the first `ValidationError` is the result |
| ScoringApi.UpdateHas | scoring/api.py:213-218 | the context's `has` becomes the list of fields holding a value that is not `None` and is falsy, since `is_nullable` is `bool(value)`, and nothing else in the context changes (also scoring/fields.py:27-42) |
| ScoringApi.GetResponse | scoring/api.py:175-194 | with the corrected validator and `get_score`/`get_interests` given the store: the answer, the new context and the new cache are those of the handler specification |
| ScoringApi.Process | scoring/api.py:200-207 | with `get_score`/`get_interests` given the store: each handler's `update_context` and `process` change the context and the cache as the handler specification says (also scoring/api.py:213-234, scoring/api.py:260-271) |
| ScoringApi.OnlineScoreProcessAsWritten | scoring/api.py:220-234 | as written, an administrator gets 42 and everyone else a `TypeError`, because `get_score` is called without its store |
| ScoringApi.InterestsProcessAsWritten | scoring/api.py:203-207 | as written, only an empty id list is answered, because `get_interests` is called without its store |
| ScoringApi.TrimLeft | scoring/api.py:293 | the result is a suffix of the path that does not start with a slash |
| ScoringApi.TrimRight | scoring/api.py:293 | the result is a prefix of the path that does not end with a slash |
| ScoringApi.StripSlashes | scoring/api.py:293 | the result is no longer than the path and neither starts nor ends with a slash |
| ScoringApi.StripSlashesAround | scoring/api.py:293 | any number of slashes on either side of a clean path are removed and nothing else is, so `/method/` is routed (also scoring/api.py:297) |
| ScoringApi.Envelope | scoring/api.py:314-320 | a code outside `ERRORS` gets `response` and `code`; a code in `ERRORS` gets `error` (the response, or the code's default text when the response is empty) and `code` |
| ScoringApi.DoPostEarlyAnswers | scoring/api.py:282-290 | an unreadable body is answered 400 "Bad Request", an empty one 200 with an empty response, and an unknown path 404 "Not Found", with the cache untouched (also scoring/api.py:292-308) |
| ScoringApi.DoPostAsWrittenFails | scoring/api.py:297-306 | as written, every routed request with a body is answered 500 "Internal Server Error" |
| ScoringApi.DoPostForwards | scoring/api.py:297-306 | when the handler's `get_response()` is called, its status and response reach the envelope, the status is 500 only for an exception or a handler's own 500, and the cache is the handler's (also scoring/api.py:175-194) |
| ScoringApi.DoPostAgreesOffRoute | scoring/api.py:282-308 | off the routed path the corrected and the as-written `do_POST` give the same envelope and status |
| ScoringApi.DoPost | scoring/api.py:281-324 | with the corrected call of the handler's `get_response()`, and the corrected validator and store arguments beneath it: the envelope, the status and the cache afterwards are those of the `do_POST` specification |

## Left out

- Async I/O and wiring are not modelled: aiohttp routing and middleware, broker connections and queues, database pools, schema bootstrapping and seeding. Each handler is one atomic step over in-memory tables, and broker redelivery is a second call.
- Transactions, row locks and concurrent interleavings are not modelled. Each handler runs alone.
- The `idempotency_key` ledgers declared in the billing and notification DDL are not modelled, because no handler reads or writes them.
- Hashes, random tokens, UUIDs and clocks are parameters of the model, not computed. This covers sha256, sha512, md5, `token_hex`, `uuid4`, the admin-token hour, the Date header and `created_at`.
- Floating point is not modelled. Scooter charge is an exact real number, compared exactly, where the column is `DOUBLE PRECISION`. In memcload, `lat`/`lon` are an optional pair, where `None` stands for the NaN pair, and float parsing is a parameter. In `pb.c`, the coordinates are optional exact reals.
- PbFraming.PackCoordinate: an accepted int is kept exactly, not rounded to the nearest double.
- PbFraming.PackCoordinate: follows `PyFloat_AsDouble` of CPython 3.8 and later. Before 3.8, an object with `__index__` but no `__float__` is a serialization error, where the model converts it.
- The protobuf wire encoding and gzip are parameters (`encode` and `decode`), and the body is opaque bytes.
- Memory-allocation failures in `pb.c` are not modelled (`STATUS_ERROR_MEMORY`, a failing list append, reference counting).
- PbFraming.WriteDeviceApps: the running total is a C `int`, whose overflow past 2^31-1 bytes is not modelled; the total is an unbounded integer.
- Socket I/O and the accept loop of the HTTP server are not modelled. A receive timeout is the input `None`, and how many bytes the one `recv` returns is the parameter `n`. The bind address and the `logging.exception` call are not modelled either.
- Logging everywhere, and the `time.sleep` of the store's `retry` loop, are not modelled. Only the total sleep time is.
- Marshmallow message texts other than the ones the handlers build themselves are not modelled; the schemas appear only as the value constraints they impose.
- Python 2 dictionary iteration order is not modelled. `RequestMeta` and `Request.validate` walk `attrs.items()` and `raw.items()`, and the model walks the fields in declaration order. The first `ValidationError` reported may therefore differ when several fields are invalid.
- `Field.__get__` with instance `None` (access through the class) is not modelled.
- `str()` of integers, booleans, `None`, byte strings and `unicode` strings is written out; of any other value (a date, a list, a dictionary, a float) it is a parameter (`show`). Encoding errors from joining non-ASCII `unicode` parts are not modelled.
- ScoringApi.UserKey: a non-ASCII `str` joined with a `unicode` (`UnicodeDecodeError`), and a non-ASCII `unicode` key given to `sha512` (`UnicodeEncodeError`), are not modelled; the key is the characters joined.
- Redis stores values as text. The cache model keeps the value itself.
- ScoringApi.RespondInterests: `clients_interests` reads the cache map directly. The connection retries of `store.get` are modelled only in `ScoringStore`.
- `do_POST` takes the decoded JSON body as the parameter `parsed`, where `None` means reading or decoding raised, and the request id as a parameter. Reading `rfile` and writing `wfile` are not modelled.
- RefreshTime.PrepareRefreshTime: `int()` is modelled for ASCII digits only; Python 3 also reads other Unicode decimal digits (`"١٢"` is 12), which the model rejects.
- Memcload.FromRaw: `upper()` is modelled for ASCII letters only; Python 3 also maps other letters (`"ıdfa".upper()` is `"IDFA"`), so such a type name is unknown in the model.
- Memcload.IntegerItems: `int()` is modelled for ASCII digits only, as for `PrepareRefreshTime`.
- Memcload.DigitItems: `isdigit()` is modelled for ASCII digits only; Python 3 also accepts other digit characters (`"²"`), for which the fallback's `int()` then raises `ValueError` out of `from_raw`, while the model drops the item.
- ScoringFields.SetField: built on the corrected validator; as written a `CharField` stores `None` (`ScoringFields.SetFieldAsWritten`). `Instance.Set`, `Construct` and `ScoringApi.Request.Validate` are built on `SetField` and inherit this.
- ScoringFields.SetAllStores: states the corrected behaviour; as written every `CharField` ends up holding `None`, not its given value.
- Httpd.Exchange: composes the corrected `HandleRequest` and `SendError`; as written every exchange raises `TypeError` (`Httpd.HandleRequestAsWritten`, `Httpd.SendErrorAsWritten`).
- Scoring.Store.Get: never fails. The retries of `cache_get`, which re-raises the last `ConnectionError` after five attempts, are modelled by `ScoringStore.CacheCall`, not here.
- Scoring.Store.Set: never fails. The retries of `cache_set`, which re-raises the last `ConnectionError` after five attempts, are modelled by `ScoringStore.CacheCall`, not here.
- ScoringApi.RespondForbidden: states the behaviour with the corrected validator. As written `account` and `login` hold `None`, and `check_auth` raises `TypeError` before any 403 (`ScoringApi.AuthRaisesAsWritten`).
- ScoringApi.RespondUnknownMethod: states the behaviour with the corrected validator. As written `check_auth` raises `TypeError` before `process` is reached (`ScoringApi.AuthRaisesAsWritten`).
- ScoringApi.RespondAdminScore: states the behaviour with the corrected validator. As written the name, e-mail and phone fields hold `None`, so a request with only a name pair or e-mail and phone is insufficient (422) rather than 42.
- ScoringApi.GetResponse: built on `Respond`, which uses the corrected validator and passes the store to `get_score` and `get_interests`. As written `check_auth` raises `TypeError` first (`ScoringApi.AuthRaisesAsWritten`).
- ScoringApi.Process: passes the store to `get_score` and `get_interests`. As written both calls raise `TypeError` (`ScoringApi.OnlineScoreProcessAsWritten`, `ScoringApi.InterestsProcessAsWritten`).
- ScoringApi.DoPost: follows the `do_POST` specification, which calls the handler's `get_response()` on the corrected pipeline. As written every routed request with a body is answered 500 (`ScoringApi.DoPostAsWrittenFails`).
- ScoringApi.RespondComputedScore, ScoringApi.RespondInterests, ScoringApi.GetResponse and ScoringApi.DoPost run on a real store, while `MainHTTPHandler.store` is `None` and nothing sets it.
- ScooterRent.RentService.ActivateRent and ScooterRent.RentService.CancelRent compare the scooter id of a message as text, while PostgreSQL compares the `UUID` it denotes, and refuses a text that is no UUID.
- `HTTPResponse.error` is never called by the server, whose error path sends an empty `str` body. `Httpd.ErrorResponseSent` states what sending its `bytes` response would give, and the `bytes` repr members (`Httpd.BytesRepr` and those beneath it) serve that statement.
- The options parsing and server start-up under `if __name__ == "__main__"` are not modelled. Nor are `prepare_output_dir` in ycrawler or `memcload/__main__.py`.

## Findings

| source | as written | input that shows it | evidently intended | confidence | as-written member | corrected member |
|---|---|---|---|---|---|---|
| httpserver/httpd.py:57-65 | `HTTPResponse` is built without its required `content_type`, so `handle_request` raises `TypeError` | any request that `parse_request` accepts, e.g. `GET / HTTP/1.1` | a 200 response whose body is `Method: <m>\nTarget: <t>\n\n` | not executed | Httpd.HandleRequestAsWritten | Httpd.HandleRequest |
| httpserver/httpd.py:86-93 | `send_error` builds `HTTPResponse` without `content_type`, so every error path raises too | any request that `parse_request` refuses, e.g. `GET /` | an error response with the status line and a text body | not executed | Httpd.SendErrorAsWritten | Httpd.SendError |
| microservices_final_project/billing_service/handlers.py:114 | `add_funds` reads `request_body["version"]`, but `AddFundsSchema` has no `version` field | a body with a `version` is refused as an unknown field (400); a valid body without one, for an existing account, raises `KeyError` (500) | a top-up checked against the account's version | not executed | FinalBilling.TopUpAsWrittenNeverCredits | FinalBilling.TopUpCredits |
| scoring/fields.py:115-120 | `CharField.validate` does not return the value, so `__set__` stores `None` | a `CharField` given `"abc"` | the validated value is stored | not executed | ScoringFields.CharFieldStoresNone | ScoringFields.Validate |
| scoring/api.py:264 | because the stored method name is `None`, `allowed_methods.get` never finds a handler; the defect is latent, because as written `account` and `login` are `None` too and `check_auth` raises `TypeError` at line 252 first (`ScoringApi.AuthRaisesAsWritten`) | a method request for `online_score` whose fields pass validation: as written it gets `TypeError` from `check_auth`; once that is fixed, it is not dispatched | dispatch on the method name | not executed | ScoringApi.NoDispatchAsWritten | ScoringApi.RespondDispatch |
| scoring/api.py:224-231 | `get_score` is called without its `store` argument, so it raises `TypeError` | any non-administrator `online_score` request with enough data | the score from the store's cache or from the fields; this also needs `MainHTTPHandler.store` (api.py:276) to be a store, which nothing sets | not executed | ScoringApi.OnlineScoreProcessAsWritten | ScoringApi.RespondComputedScore |
| scoring/api.py:205 | `get_interests(cid)` is called without `store`, so it raises `TypeError` | `clients_interests` with `client_ids` `[1]` | each id mapped to its stored interests; this also needs `MainHTTPHandler.store` (api.py:276) to be a store, which nothing sets | not executed | ScoringApi.InterestsProcessAsWritten | ScoringApi.RespondInterests |
| scoring/api.py:299-303 | `self.router[path](...)` builds a `MethodHandler` and unpacks the object itself into `(response, code)`, so it raises `TypeError` | any request with a non-empty body posted to `/method` | the answer of the handler's `get_response()` | not executed | ScoringApi.DoPostAsWrittenFails | ScoringApi.DoPostForwards |
