# FixParser core in Dafny

A model of the parsing core of FixParser, a small order-management front end
that reads FIX-style messages. A raw message is a run of `tag=value` segments,
each ended by `|` (for example `35=D|11=12345|54=1|…|`). Parsing it takes three
stages.

1. **Raw split.** The text is split on `|`. Each segment is split at its first
   `=` into a tag and a value, and the pair goes into a field store. A later
   duplicate tag overwrites an earlier one. A segment without `=` is dropped.
   The value may itself contain `=`, because only the first one splits.
   The repository does this in two places:
   - `FixMessageParser::parse_message`, which also remembers the latest value of tag 35;
   - the older `FixMessage::parse`, which comes with `get` and `into_iter`.
2. **Coercion.** `parse_field` and `parse_field_optional` read one tag from the
   store and coerce it to its target type:
   - `String` never fails;
   - `char` needs exactly one character;
   - `f64` needs a number.

   The errors are exact strings, `"Missing Tag <t>"` and `"Invalid Tag <t>"`.
   An absent optional tag is `None`, not an error.
3. **Factories and routing.** There is one factory per message kind:
   - NewOrder `D`;
   - ExecutionReport `8`;
   - OrderCancelRequest `F`;
   - OrderStatusRequest `H`.

   Each factory first rejects a store whose tag 35 is not its own code, with
   `"Invalid message type"`. It then reads its attributes in declaration order,
   and the first failure decides the error (`?`). The router dispatches on the
   remembered tag-35 value. Any factory failure, and any other code, gives
   `Unknown`.

How the Dafny models each stage:

- **Raw split.** The meaning of the split is defined once:
  `Wire.FieldsOf(message) = MapOf(Pairs(Split(message, '|')))`. Both Rust
  loops are Dafny methods with loops, proved to compute exactly that store.
- **Factories.** Each factory has a reference definition: its *layout*, the list
  of `(tag, required or optional, kind)` slots in declaration order, together
  with `Layout.FirstError`. Each factory is proved to fail exactly when the
  first failing slot of its layout fails, with that slot's error string.
- **Router.** The router is proved against a table stated in terms of those
  layouts.
- **Floating point.** `f64::from_str` is the one foreign operation. It is a
  parameter `parseFloat: string -> Option<real>` that the f64 factories and
  the router take.

Modules:

- `Wrappers`: Option and Result.
- `Text`: `split` and `split_once`.
- `Wire`: the field store a message denotes, and an encoder for round trips.
- `LegacyFixMessage`: models src/fix_message.rs.
- `Coercion`: the two helpers.
- `Layout`: the reference definition.
- `NewOrders`, `ExecutionReports`, `OrderCancelRequests`, `OrderStatusRequests`: the factories.
- `Parser`: the router and the typed union.
- `Samples`: the repository's unit tests, restated as lemmas.

## Model

| member | source | states |
|---|---|---|
| Text.Split | src/fix/fix_message_parser.rs:19 | `split` on the delimiter always yields at least one piece, and no piece contains the delimiter |
| Text.JoinSplit | src/fix/fix_message_parser.rs:19 | splitting loses nothing: joining the pieces with the delimiter gives back the message |
| Text.SplitJoin | src/fix/fix_message_parser.rs:19 | `split` recovers any delimiter-free pieces that were joined with the delimiter |
| Text.SplitAfterPiece | src/fix/fix_message_parser.rs:19 | text up to the first delimiter is the first piece; the rest splits independently |
| Text.SplitWithoutDelimiter | src/fix/fix_message_parser.rs:19 | text without the delimiter is a single piece |
| Text.SplitOnce | src/fix/fix_message_parser.rs:20 | `split_once` is None exactly when `=` is absent; otherwise it returns a key without `=`, then `=`, then the value, which together make the segment |
| Text.SplitOnceFirst | src/fix/fix_message_parser.rs:20 | a segment `k=v` with no `=` in `k` splits into exactly `(k, v)`, even when `v` contains `=` |
| Wire.PairOf | src/fix/fix_message_parser.rs:20 | a segment contributes at most one pair, and none exactly when it has no `=` |
| Wire.FieldsStepPair | src/fix/fix_message_parser.rs:20-21 | a segment that carries a pair inserts it into the store and overwrites any earlier value |
| Wire.FieldsStepSkip | src/fix/fix_message_parser.rs:20 | a segment without `=` leaves the store unchanged |
| Wire.MapOfSnoc | src/fix/fix_message_parser.rs:21 | inserting one more pair is a map update |
| Wire.PairsSnoc | src/fix/fix_message_parser.rs:19-20 | one more segment appends that segment's pair, if any |
| Wire.EmptyMessageHasNoFields | src/fix/fix_message_parser.rs:16-26 | the empty message gives the empty store |
| Wire.MapOfLastWins | src/fix/fix_message_parser.rs:21 | a tag's stored value is the value of its last pair |
| Wire.MapOfKeys | src/fix/fix_message_parser.rs:21 | the stored tags are exactly the tags of the pairs |
| Wire.LastSegmentWins | src/fix/fix_message_parser.rs:19-26 | a tag's stored value comes from the last segment that carries that tag |
| Wire.KeysFromSegments | src/fix/fix_message_parser.rs:19-26 | a tag is stored if and only if some segment carries it |
| Wire.KeyProvenance | src/fix/fix_message_parser.rs:19-21 | every stored tag comes from a segment and contains neither `=` nor the delimiter |
| Wire.SegmentWithoutAssignmentIgnored | src/fix/fix_message_parser.rs:20 | inserting or removing a segment without `=` anywhere does not change the pairs (for example the empty segments between doubled delimiters) |
| Wire.SplitEncode | src/fix/fix_message_parser.rs:19 | a message written as well-formed `tag=value` segments, each followed by the delimiter, splits into those segments plus a trailing empty piece |
| Wire.PairsOfSegments | src/fix/fix_message_parser.rs:20 | the segments of well-formed pairs give back exactly those pairs |
| Wire.EncodeParses | src/fix/fix_message_parser.rs:16-26 | round trip: parsing the encoding of well-formed pairs gives the store obtained by inserting those pairs in order |
| Wire.EncodedLastOccurrenceWins | src/fix/fix_message_parser.rs:16-26 | after encoding and parsing, looking up a tag gives the value from its last occurrence |
| LegacyFixMessage.Parse | src/fix_message.rs:13-21 | the loop builds exactly the store `FieldsOf(message)` |
| LegacyFixMessage.FixMessage.Get | src/fix_message.rs:23-25 | `get` is Some exactly when the tag is stored, and then gives the stored value |
| LegacyFixMessage.FixMessage.IntoIter | src/fix_message.rs:32-34 | `into_iter` yields exactly the stored (tag, value) entries, one per tag |
| LegacyFixMessage.GetNoneIffNeverKey | src/fix_message.rs:13-25 | after parsing, `get` is None exactly when no segment carried the tag |
| LegacyFixMessage.GetLastOccurrence | src/fix_message.rs:13-25 | after parsing, `get` returns the value of the last segment carrying the tag |
| Coercion.Lookup | src/fix/fix_message.rs:16 | `HashMap::get`: Some exactly for a stored tag, with its value |
| Coercion.ParseChar | src/fix/fix_message.rs:22 | `char` coercion succeeds exactly on one-character text and gives that character |
| Coercion.ParseField | src/fix/fix_message.rs:15-27 | missing tag gives `Missing Tag t`; a present value that does not coerce gives `Invalid Tag t`; otherwise the coerced value |
| Coercion.ParseFieldOptional | src/fix/fix_message.rs:29-41 | absent tag gives `Ok(None)`; a present value that does not coerce gives `Invalid Tag t`; otherwise `Ok(Some(value))` |
| Coercion.HelpersReadOnlyTheirTag | src/fix/fix_message.rs:15-41 | both helpers depend only on the entry of their own tag |
| Coercion.StringTargetNeverInvalid | src/fix/fix_message.rs:15-41 | with a `String` target a present tag never fails, and the result is the raw value |
| Coercion.CharTargetOneCharacter | src/fix/fix_message.rs:15-41 | with a `char` target a present tag succeeds exactly when its value has one character |
| Coercion.ErrorStringsDistinct | src/fix/fix_message.rs:18-23 | a Missing error never equals an Invalid error, and each error string determines its tag |
| Layout.TagErrorsAreNotTypeError | src/new_order.rs:21-22 | no tag error can be mistaken for `Invalid message type` |
| Layout.FirstErrorNamesTag | src/new_order.rs:25-37 | a failing layout names one of its own slots, as Missing or Invalid, and never gives the type error |
| Layout.RequiredSlotAgrees | src/fix/fix_message.rs:15-27 | `parse_field` fails exactly when its required slot fails, and with the same string |
| Layout.OptionalSlotAgrees | src/fix/fix_message.rs:29-41 | `parse_field_optional` fails exactly when its optional slot fails, and with the same string |
| Layout.TargetsCoerce | src/fix/fix_message.rs:22 | the `String`, `char` and `f64` parsers succeed exactly where the slot kinds Text, Code and Number do |
| NewOrders.New | src/new_order.rs:20-38 | a tag 35 other than `D` gives `Invalid message type`; a built order carries, attribute by attribute, the coerced value of its tag |
| NewOrders.NewFollowsLayout | src/new_order.rs:25-37 | with `35=D`, the factory's error is exactly the first failing attribute in declaration order, and it fails only if some attribute fails |
| NewOrders.NewReadsOnlyLayout | src/new_order.rs:20-38 | stores that agree on tag 35 and the order's tags give the same result |
| ExecutionReports.New | src/execution_report.rs:22-42 | a tag 35 other than `8` gives `Invalid message type`; a built report carries the coerced value of each tag |
| ExecutionReports.NewFollowsLayout | src/execution_report.rs:27-41 | with `35=8`, the error is exactly the first failing attribute in declaration order |
| ExecutionReports.NewReadsOnlyLayout | src/execution_report.rs:22-42 | the result depends only on tag 35 and the report's tags |
| OrderCancelRequests.New | src/fix/messages/order_cancel_request.rs:15-28 | a tag 35 other than `F` gives `Invalid message type`; a built request carries the coerced value of each tag |
| OrderCancelRequests.NewFollowsLayout | src/fix/messages/order_cancel_request.rs:20-27 | with `35=F`, the error is exactly the first failing attribute in declaration order |
| OrderCancelRequests.NewReadsOnlyLayout | src/fix/messages/order_cancel_request.rs:15-28 | the result depends only on tag 35 and the request's tags |
| OrderStatusRequests.New | src/fix/messages/order_status_request.rs:13-24 | a tag 35 other than `H` gives `Invalid message type`; a built request carries the coerced value of each tag |
| OrderStatusRequests.NewFollowsLayout | src/fix/messages/order_status_request.rs:18-23 | with `35=H`, the error is exactly the first failing attribute in declaration order |
| OrderStatusRequests.NewReadsOnlyLayout | src/fix/messages/order_status_request.rs:13-24 | the result depends only on tag 35 and the request's tags |
| Parser.ParseMessage | src/fix/fix_message_parser.rs:14-38 | the loop and the final `match` compute exactly `Route(message)`: dispatch of the store `FieldsOf(message)` on its tag-35 value |
| Parser.MsgTypeIsLastTypeSegment | src/fix/fix_message_parser.rs:19-26 | the dispatched type is the value of the last segment that carries tag 35 |
| Parser.NoTypeSegmentRoutesUnknown | src/fix/fix_message_parser.rs:17-35 | without a tag-35 segment the type stays empty and the message routes to Unknown |
| Parser.DispatchTable | src/fix/fix_message_parser.rs:28-32 | each known kind comes out exactly when its code is dispatched and its layout has no failing slot, and it then decodes its tags |
| Parser.UnknownExactly | src/fix/fix_message_parser.rs:28-36 | Unknown comes out exactly when the code is not `D`, `8`, `F` or `H`, or the selected factory fails |
| Parser.RoutedFactoryPassesTypeCheck | src/fix/fix_message_parser.rs:28-32 | a factory reached through the table never fails with `Invalid message type` |
| Samples.ParseFieldSamples | src/fix/fix_message.rs:49-102 | the six helper tests: present text, `Missing Tag 11`, `Invalid Tag 11` for an integer target, and the optional counterparts |
| Samples.NewOrderSample | src/fix/fix_message_parser.rs:46-65 | the NewOrder test's fields route to a NewOrder holding exactly the test's values |
| Samples.NewOrderMissingQuantity | src/new_order.rs:29 | a NewOrder store without tag 38 fails with `Missing Tag 38` and routes to Unknown |
| Samples.ExecutionReportSample | src/fix/fix_message_parser.rs:69-86 | the ExecutionReport test's fields route to a report holding exactly the test's values, with `avgPx` None |
| Samples.OrderCancelRequestSample | src/fix/fix_message_parser.rs:89-102 | the OrderCancelRequest test's fields route to a request holding exactly the test's values |
| Samples.OrderStatusRequestSample | src/fix/fix_message_parser.rs:105-117 | the OrderStatusRequest test's fields route to a request holding exactly the test's values |
| Samples.UnknownSample | src/fix/fix_message_parser.rs:120-128 | a store with `35=Z` routes to Unknown |

## Left out

- The order-management channel and its consumption loop (src/oms/order_management_system.rs) are not part of this model. Neither are the TCP client (src/client.rs), the file reader (src/fix_file_reader.rs) and `main` (src/main.rs). They are I/O and concurrency around the core.
- Logging (`println!` of the message, `eprintln!` of each error and of an unknown type) is left out. It does not affect any result.
- `f64::from_str` is the parameter `parseFloat` and yields `real`. NaN, infinities, rounding and the exact decimal grammar of f64 are not modelled. The samples assume only the values they need, such as `parseFloat("100") == Some(100.0)`.
- LegacyFixMessage.FixMessage.IntoIter: gives the entries as a set. `HashMap`'s iteration order is unspecified and is not modelled.
- Samples.NewOrderSample: starts from the field store the test message denotes (one lookup per segment), not from the message text. The text-to-store step is covered by the general Wire and Parser lemmas. The verifier cannot evaluate Split on long string literals at a reasonable cost.
- Samples.ExecutionReportSample: starts from the field store, as NewOrderSample does.
- Samples.OrderCancelRequestSample: starts from the field store, as NewOrderSample does.
- Samples.OrderStatusRequestSample: starts from the field store, as NewOrderSample does.
- Samples.UnknownSample: starts from the field store, as NewOrderSample does.
- src/new_order.rs and src/execution_report.rs import the helpers from `crate::fix_message`, which defines no such functions. All four factories are modelled with the helpers of src/fix/fix_message.rs.
- Rust ownership, borrowing and `to_string` copies are left out. Strings are values here.
