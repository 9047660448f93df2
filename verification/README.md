# A verified model of the Aerospike PHP client

The Aerospike PHP client is two programs: a PHP extension written in Rust, and a connection manager
written in Go that holds the connections to the database. They exchange protocol-buffer messages. This
project models the parts of both sides whose correctness spans functions, calls or the language
boundary, and proves what they promise with Dafny 4.11. `dafny verify dfyconfig.toml` checks all of it.

## What is modelled

- **The value codec** (`Wire`, `PhpCodec`, `PhpArray`, `PhpReturn`, `GoCodec`, `WriteRead`). `PHPValue` and
  its conversion to and from the wire on the Rust side, `toValue` and `fromValue` on the Go side, and the
  conversions of PHP values to and from `PHPValue`. Hash maps are iterated in an arbitrary order: an encoding is a relation, and the encoding
  methods pick any remaining key. A Rust `unwrap` or a Go run-time failure is the outcome `Panic`.
- **The resumable scan** (`Keys`, `Recordsets`, `Cursors`, `ScanServer`, `ScanContract`, `ExactlyOnce`,
  `ScanStreams`). `SharedFilter` and `Recordset` are classes, and several recordsets may hold one filter.
  Their methods are specified by `NextStep` and `Initialised`; `Cursors` runs these steps in any
  interleaving of scans, `next` and `close` over one filter. `ScanServer` is the Go half. `ScanContract`
  states what is assumed of the database server (`Stored`, `Serves`) and of the stream of a scan, which may
  be cut anywhere (`Answered`). Records are those of the Go client; what is sent for one depends on the
  iteration order of its maps, so `RecordCarried` relates a record to the messages that carry it. `ExactlyOnce` says what the client is handed over whole runs, and
  `ScanStreams` follows the results from the Go loop to PHP.
- **Filter expressions** (`Expressions`, `Translation`). One expression language with an evaluator,
  instantiated with PHP literals for the Rust builders and with Go literals for what `toExpression`
  makes of their messages. The evaluator is parametric in scalar arithmetic, the ordering of values
  other than integers, and regular expressions, so the theorems hold for each meaning of those.
- **The client registry** (`Registry`). `connect` is a sequential method on the registry object and a
  sequence of atomic steps that interleave with those of other calls.
- **Smaller pieces.** Record keys and partition ids (`Keys`), the version scanner and comparison
  (`Versions`), timeouts (`Policies`), write flags (`WriteFlags`), record operations (`Operations`) and batch commands
  (`Batches`), decimal numbers (`Decimals`).

Strings are sequences of UTF-8 bytes and floats are bit patterns compared for equality. `& 4095` on a
non-negative number is written `% 4096`.

## What the proofs found

- Integer keys of a PHP array travel as `u64` and are decoded as the same signed integer (`ArrayRoundTrip`),
  but handed to PHP as text: `[5 => null]` comes back as `["5" => null]` (`IntegerKeyExample`). A PHP value
  comes back as it was written, up to the order of slots, exactly if every array in it is sequential or has
  string keys only (`PhpWriteThenRead`).
- A converted array never holds two keys that merge on the way, so the condition of `EntriesSurvive`, which
  is about `PHPValue` maps as such, is always met by the client.
- `fromValue` pads maps and JSON values with empty entries. The Rust decoder skips them in maps but not
  in JSON values, so a response decodes exactly if it holds no non-empty JSON value (`ResponseDecodes`).
- `toValue` panics on messages whose map keys are blobs, lists or maps (`ToValueTotal`). No PHP value is
  converted to such a message (`ConvertedKeys`), so every one that can be converted is accepted
  (`PhpWriteThenRead`).
- The partition table is built with ids from 0 but indexed from `begin`, so consuming a record moves the
  cursor the server will see only if `begin` is 0 (`ResumeNeedsBeginZero`).
- Two recordsets of one filter that are read in turn can deliver a record twice (`TwoReadersExample`). No
  record is ever skipped (`NothingSkipped`), and none is repeated precisely if no recordset is read after
  another one delivered from the same partition in the meantime (`ExactlyOnce`).
- A pair of overlapping `connect` calls can replace a registered client (`OverlapReplaces`).
  `PermanentIffSettled` says exactly when a registration is final, as long as PHP objects can be built; a
  lookup that cannot build one replaces even a settled registration (`UnbuiltReplaces`).
- `def` loses its operand on the Go side (`DefinitionDropped`), a `let` with a definition has no value
  after translation (`LetLosesDefinitions`, `LetExample`), and the boolean `xor` becomes the integer one
  (`XorMeaning`, `XorExample`). `num_floor` and `hll_bin` make `toExpression` panic (`BuiltTranslates`).
- The operation that creates a map is built without arguments while Go reads its first one, so a batch with
  it fails (`MapCreateFails`).
- `serverIsNewerThan` is true of equal versions, contrary to its name.
- Admin and info timeouts above 4294 ms wrap (`AdminTimeoutExact`).

## Model

| member | source | states |
|---|---|---|
| PhpCodec.Encode | src/lib.rs:11449-11518 | the message produced encodes the value: every element and every key/value pair once, maps in some iteration order, unsigned integers reinterpreted as signed |
| PhpCodec.DecodeStepwise | src/lib.rs:11520-11559 | the decoder's push and insert loops compute the decoding function, including where `unwrap` panics |
| PhpCodec.RoundTrip | src/lib.rs:11449-11559 | decoding any encoding gives the value with `UInt(u)` replaced by `Int(u as i64)` at all depths, whatever the iteration order, if keys stay distinct |
| PhpCodec.EntriesSurvive | src/lib.rs:11479-11491 | a decoded map keeps all its entries exactly when no two keys become equal by the replacement |
| PhpCodec.DecodeTotal | src/lib.rs:11520-11559 | the decoder succeeds exactly on messages with a oneof at every depth, a value in each keyed map entry and in each JSON entry |
| PhpCodec.EncodingsDecode | src/lib.rs:11449-11518 | whatever the Rust encoder produces is such a message, even when keys merge |
| PhpArray.FromZvalStepwise | src/lib.rs:11360-11424 | the conversion loops compute the conversion function, including thrown exceptions and failing unwraps |
| PhpArray.FromZvalFails | src/lib.rs:11360-11424 | an exception is thrown exactly for a string that is no text and an object of another class; it panics exactly on a value of a type it cannot handle and on an array that keeps a value that cannot be converted |
| PhpArray.ConvertibleMeans | src/lib.rs:11388-11420 | the PHP values that can be converted are those that have a meaning |
| PhpArray.FromZvalMeans | src/lib.rs:11388-11420 | the keys of a converted array never merge, and its normal form is what the array means |
| PhpArray.MeaningfulConverts | src/lib.rs:11360-11424 | the conversion yields a value whenever the PHP value means something, so with the row above it fails exactly on values without a meaning |
| PhpArray.ArrayRoundTrip | src/lib.rs:11388-11420 | the encoding of a sequential array is decoded as a list, of an integer-keyed one as a map under the same signed integers, of any other as a map of exactly its string-keyed entries |
| PhpReturn.IntoZval | src/lib.rs:11298-11358 | what PHP is handed: lists by index, and every map entry once under the text of its key, in some order |
| PhpReturn.SlotShown | src/lib.rs:11319-11329 | each slot that the conversion keeps comes back under the decimal text or the name that was its key, with its own value |
| PhpReturn.ReturnedAsWritten | src/lib.rs:11298-11420 | what PHP gets is what it wrote, up to the order of slots, exactly if every array in it is sequential or has string keys only |
| PhpReturn.IntegerKeyExample | src/lib.rs:11319-11329 | `[5 => null]` comes back as `["5" => null]` |
| GoCodec.FromValue | aerospike-connection-manager/kvs.go:1674-1746 | succeeds exactly on values all of whose parts have a supported type, and then returns an encoding with n padding entries before the n real ones of each map |
| GoCodec.FromMap | aerospike-connection-manager/kvs.go:1697-1702 | the map loop emits the padding and then every entry once, in the order iterated |
| GoCodec.FromPairs | aerospike-connection-manager/kvs.go:1703-1708 | the pair-list loop emits the padding and then the pairs in order |
| GoCodec.PaddingSkipped | aerospike-connection-manager/kvs.go:1697-1708 | any number of padding entries in front of a map leaves its decoding unchanged |
| GoCodec.ResponseDecodes | aerospike-connection-manager/kvs.go:1723-1728 | a response decodes on the Rust side exactly if every JSON value inside it is empty |
| GoCodec.ResponseMeans | aerospike-connection-manager/kvs.go:1674-1746 | the Rust decoder recovers from a response exactly the lists and the key/value pairs of the Go value, at all depths and for each iteration order |
| GoCodec.ToValueStepwise | aerospike-connection-manager/kvs.go:1500-1573 | the slice and map loops compute the conversion function, including where Go panics |
| GoCodec.DecodersAgree | aerospike-connection-manager/kvs.go:1500-1573 | on a message without padding that Go accepts, the Rust decoder yields exactly the meaning of Go's value |
| GoCodec.RequestAccepted | aerospike-connection-manager/kvs.go:1555-1562 | Go accepts the encoding of a PHP value exactly if all map keys in it are scalars other than blobs and HLL values |
| WriteRead.ConvertedKeys | src/lib.rs:11388-11420 | the map keys of a converted value are all unsigned integers or all strings, at all depths, so Go can use them |
| WriteRead.PhpWriteThenRead | aerospike-connection-manager/kvs.go:1500-1746 | every PHP value that can be converted is accepted by Go; written and read back, the Rust client decodes what it means, provided the Go client hands out a value of the same meaning; and PHP is handed what it wrote exactly if all its arrays are sequential or string-keyed |
| Keys.PreImageInjective | src/lib.rs:10841-10859 | within a set two integer, string or blob keys have one pre-image exactly if they are the same value up to the reinterpretation of unsigned integers |
| Keys.PreImageDefined | src/lib.rs:11249-11289 | a key has a pre-image exactly if it is an integer, string or blob; computing it panics exactly on infinity and wildcard |
| Keys.PreImageLayout | src/lib.rs:10845-10850 | what is hashed is the set, the type byte 1, 3 or 4, and the string, the blob or the eight bytes of the integer, most significant first |
| Keys.DigestIs | src/lib.rs:10862-10883 | a stored digest is used as it is, otherwise the hash of those bytes, and the partition is computed from it |
| Keys.NoDigest | src/lib.rs:10841-10859 | a key of another type has an empty digest and no partition |
| Keys.UnsignedKey | src/lib.rs:10811-10819 | a key made from `UInt(u)` has the pre-image and the partition of the one made from `Int(u as i64)` |
| Keys.BigEndianInverse | src/lib.rs:11273-11277 | the eight key bytes of an integer determine it |
| Keys.PartitionOfDigestBytes | src/lib.rs:10878-10882 | the masked little-endian number is the first byte plus 256 times the low half of the second, and below 4096 |
| Recordsets.SharedFilter.All | src/lib.rs:4026-4037 | a filter over all partitions with an empty table |
| Recordsets.SharedFilter.Partition | src/lib.rs:4041-4052 | a filter over one partition with an empty table |
| Recordsets.SharedFilter.Range | src/lib.rs:4057-4068 | a filter over a range with an empty table |
| Recordsets.SharedFilter.InitPartitionStatus | src/lib.rs:4070-4079 | fills an empty table with 4096 fresh entries and leaves any other table alone |
| Recordsets.Recordset.Close | src/lib.rs:4113-4115 | drops the stream |
| Recordsets.Recordset.Next | src/lib.rs:4124-4183 | one call consumes at most one event and changes the shared filter and the stream as the step function says; it throws exactly on a fault or an error without a record, leaving the filter alone and the recordset open |
| Recordsets.NextMeans | src/lib.rs:4124-4183 | told by the event: which calls throw, which panic, which hand out the event's record and book its bval and digest in the entry of its partition and no other, and that the end of the stream closes the recordset |
| Recordsets.Scan | src/lib.rs:10124-10156 | the request carries the filter as it stands; only a successful call initialises the table and opens a recordset over that same filter |
| Cursors.SharedCursor | src/lib.rs:4070-4183 | in every interleaving the table has 4096 entries with their ids, entry i holds the last digest and bval consumed from partition begin + i, and each recordset has delivered exactly the keyed records of the events it consumed, in order |
| Cursors.ThrownOnce | src/lib.rs:4138-4165 | in every run a recordset has thrown exactly once per error or fault among the events it consumed |
| Cursors.CloseCloses | src/lib.rs:4113-4115 | closing closes that recordset and changes nothing else |
| Cursors.ReadBoth | src/lib.rs:4124-4183 | two recordsets over one filter object go through the states of the run that interleaves them |
| Cursors.ActKeepsInv | src/lib.rs:4113-4183 | every single open, fetch or close keeps those facts |
| Cursors.NextPanics | src/lib.rs:4171-4177 | with a filled table `next` panics exactly on a record whose partition cannot be computed or lies before the filter's range |
| Cursors.ClosedForGood | src/lib.rs:4113-4121 | a closed recordset stays closed and delivers nothing more, whatever else runs |
| ScanServer.ToPartitionStatusesLoop | aerospike-connection-manager/kvs.go:495-518 | the statuses arrive in Go one for one, with id, digest and retry kept and a missing bval as 0 |
| ScanServer.FilterArrives | aerospike-connection-manager/kvs.go:481-518 | every field of the filter and of each status arrives as sent, a missing bval as 0 |
| ScanServer.FromBins | aerospike-connection-manager/kvs.go:1663-1673 | an encoding of each bin under its name, or a panic exactly on a bin with a part of an unsupported type |
| ScanServer.FromRecord | aerospike-connection-manager/kvs.go:1651-1661 | the message carries the record's key, counters and bins; panics exactly if the key value or a bin cannot be encoded |
| ScanServer.BinsArrive | aerospike-connection-manager/kvs.go:1651-1673 | a message that carries a record has exactly its bin names; a bin decodes exactly if its JSON values are empty, and then to what it means |
| ScanServer.Serve | aerospike-connection-manager/kvs.go:368-428 | one response per result, in order, carrying the error or the record and bval of it, until the first failing send, which alone closes the recordset, or a value that cannot be encoded, which panics; a failing open sends at most its one error |
| ScanContract.ServerCanAnswer | aerospike-connection-manager/kvs.go:368-397 | the contract assumed of the server can be met for every filter and every stored data, so the runs spoken of exist |
| ExactlyOnce.ExactlyOnce | src/lib.rs:10124-10156 | for a filter starting at 0 and any interleaving of scans, reads and closes, with streams cut anywhere: what was delivered of a partition is a beginning of what is stored, or equivalently holds no record twice, exactly if, whenever a recordset delivered from it, no other had since that one was opened; once a recordset with a whole answer is drained, every record was delivered exactly once under that same condition |
| ExactlyOnce.NothingSkipped | src/lib.rs:4124-4183 | in any such run a record is delivered only after all before it in its partition, and a drained whole answer means that all have been delivered |
| ExactlyOnce.RowInOrderIff | src/lib.rs:4170-4177 | while a partition was delivered in order, the next row read keeps it so exactly if no other recordset has delivered from the partition since this one was opened |
| ExactlyOnce.AbandonAndResume | src/lib.rs:10124-10156 | a client that reads only the recordset it opened last gets every record exactly once, however often scans are abandoned or cut short and started again |
| ExactlyOnce.TwoReaders | src/lib.rs:4170-4177 | two recordsets opened before either is read both deliver the first row of the answer |
| ExactlyOnce.TwoReadersExample | src/lib.rs:4170-4177 | one stored record and a run of two scans that delivers it twice |
| ExactlyOnce.CursorIsLastDigest | aerospike-connection-manager/kvs.go:481-518 | under a partition's id Go reads the digest and the bval last delivered from that partition, a missing bval as 0 |
| ExactlyOnce.ResumesBehind | aerospike-connection-manager/kvs.go:481-518 | as long as a partition was delivered in order, what the server sends next and what was delivered make up the partition |
| ExactlyOnce.ResumeNeedsBeginZero | src/lib.rs:4172-4174 | consuming a record moves the cursor seen for its partition exactly if the filter begins at 0 |
| ScanStreams.ForwardedIsAnswered | aerospike-connection-manager/kvs.go:368-428 | what the forwarding loop sends, with a fault if the call failed, is an answer cut where the first send or encoding failed, or before its first result if the open failed |
| ScanStreams.StreamConserved | src/lib.rs:4124-4183 | in every interleaving the records a recordset has handed out carry exactly the keyed rows, in order, of the results Go sent and the recordset consumed |
| ScanStreams.HandedFields | aerospike-connection-manager/kvs.go:1637-1673 | such a record has the digest, namespace, set, generation, expiration, bval and bin names of its row, and every bin decodes to the meaning of the Go value in it |
| Expressions.LogicMeans | src/lib.rs:660-693 | in the evaluator `and`, `or`, `not` and the exclusive `or` of truth values mean what their builders say |
| Expressions.ComparisonMeans | src/lib.rs:719-765 | the four comparisons of integers have their usual meaning |
| Expressions.EqualityMeans | src/lib.rs:695-717 | `eq` and `ne` compare the two values |
| Expressions.ChooseMeans | src/lib.rs:1070-1085 | `cond` takes the action of the first true condition, or the default |
| Translation.ToExpressionsLoop | aerospike-connection-manager/kvs.go:1748-1753 | the appending loop translates every message in order |
| Translation.TranslationTotal | aerospike-connection-manager/kvs.go:1755-1926 | on arbitrary messages translation terminates and succeeds exactly if every visited node has its operator's operands and payload |
| Translation.ToValueTotal | aerospike-connection-manager/kvs.go:1500-1573 | the value conversion succeeds exactly on messages whose oneofs are set and whose map keys are hashable |
| Translation.BuiltTranslates | src/lib.rs:209-1136 | a tree made by the builders translates without a panic exactly if it has no floor, no HLL bin, no empty list literal and no literal with a non-scalar map key |
| Translation.CodesAgree | aerospike-connection-manager/kvs.go:1793-1923 | the switch undoes the builders' codes and takes all operands, except that the boolean `xor` arrives as the integer one |
| Translation.MeaningPreserved | src/lib.rs:209-1136 | what Go builds from a supported tree has the same value as the tree on every record, in every scope and for each meaning of the scalar operations |
| Translation.DefinitionDropped | src/lib.rs:1099-1108 | a definition arrives as the string literal of its name, whatever its operand |
| Translation.LetLosesDefinitions | src/lib.rs:1091-1093 | a `let` with a definition has no value once translated, so it is preserved exactly where it had none |
| Translation.LetExample | src/lib.rs:1087-1093 | a concrete `let` whose value is lost |
| Translation.XorMeaning | src/lib.rs:684-693 | `xor` is preserved exactly if some operand has no value, or they are not all booleans and the integer `xor` has no value on them either (or there are none and it is false of none) |
| Translation.XorExample | src/lib.rs:684-693 | `true xor false` is true and has no value once translated |
| Registry.Clients.Persist | src/lib.rs:12141-12146 | adds or replaces the client of a socket and nothing else |
| Registry.Clients.GetPersisted | src/lib.rs:12148-12160 | returns the client registered for a socket, if any |
| Registry.Clients.Connect | src/lib.rs:9726-9763 | an undisturbed call returns the registered client or registers a new one if its version matches, and otherwise leaves the registry alone |
| Registry.AloneIsRun | src/lib.rs:9726-9763 | the five atomic steps of a call, uninterrupted, are the sequential call |
| Registry.RegistrySafe | src/lib.rs:9741-9755 | in every interleaving each registered and each returned client passed the version check, and clients waiting to be inserted are distinct from registered ones |
| Registry.RelookFinds | src/lib.rs:9757-9762 | a client just persisted is registered when `connect` looks it up again, so the final error occurs exactly if the PHP object cannot be built |
| Registry.NothingForgotten | src/lib.rs:12141-12146 | registered sockets stay registered and results never change |
| Registry.ResultWasRegistered | src/lib.rs:9727-9762 | a returned client was the registered one at the moment it was read |
| Registry.SettledForever | src/lib.rs:9726-9763 | once a socket is registered and no call that missed it is in flight, it keeps its client as long as PHP objects can be built, and every later return is that client |
| Registry.PermanentIffSettled | src/lib.rs:9726-9763 | a reachable registration is final in all continuations that can build their PHP objects exactly under that condition |
| Registry.UnbuiltReplaces | src/lib.rs:12148-12160 | a lookup that cannot build the PHP object makes its call replace any registration |
| Registry.OverlapReplaces | src/lib.rs:9726-9763 | a run of two overlapping calls in which the client that the first returned is replaced by the second |
| Versions.FindNamedMatches | aerospike-connection-manager/version.go:43-57 | the loop with its running index returns the four components, or nothing without a digit |
| Versions.CmpServerVersion | aerospike-connection-manager/version.go:20-33 | compares the components lexicographically, and panics exactly if a string has no digit |
| Versions.ServerIsOlderThan | aerospike-connection-manager/version.go:35-37 | true exactly of a server version below the required one |
| Versions.ServerIsNewerThan | aerospike-connection-manager/version.go:39-41 | true exactly of a server version not below the required one |
| Versions.CompareSwap | aerospike-connection-manager/version.go:20-33 | swapping the arguments swaps newer and older; equal exactly if the components agree |
| Versions.CompareFirst | aerospike-connection-manager/version.go:20-33 | the first component that differs decides, and the server is newer if its own is greater |
| Versions.CompareTransitive | aerospike-connection-manager/version.go:20-33 | the comparison is transitive, also strictly |
| Versions.ParsePrint | aerospike-connection-manager/version.go:16-57 | one to four printed components, between other text, are read back exactly below 2^63 and as 2^63 - 1 above, with the missing ones 0 |
| Versions.ParseDefined | aerospike-connection-manager/version.go:43-57 | the parse has four components exactly if the string has a digit |
| Policies.AdminTimeoutExact | aerospike-connection-manager/kvs.go:759-771 | an admin or info timeout is the product modulo 2^32, exact exactly up to 4294 ms |
| Policies.ReadTimeoutExact | aerospike-connection-manager/kvs.go:694-695 | a read timeout is the product modulo 2^64 as a signed number, exact exactly up to 9223372036854 ms |
| WriteFlags.FoldMeets | src/lib.rs:5994-6010 | a mask meets the folded flags exactly if it meets one of the listed flags |
| WriteFlags.FoldSameFlags | src/lib.rs:7275-7295 | the folded flags depend only on which flags are listed |
| WriteFlags.FoldConcat | src/lib.rs:5994-6010 | the fold of two lists in a row is the bitwise or of their folds |
| Batches.Request | src/lib.rs:10038-10065 | the i-th entry of the request is that of the i-th valid command of the list, counted by increasing places that are exactly those of the valid commands, and each other command throws once |
| Operations.ToOpsLoop | aerospike-connection-manager/kvs.go:870-876 | the appending loop converts every operation in order |
| Operations.OpArrives | aerospike-connection-manager/kvs.go:1441-1455 | a standard operation converts exactly if its type is known and a bin written has a name and a convertible value, creating a map exactly if it has an order code and convertible contexts; it arrives as the same operation with a value of the same meaning |
| Operations.KeyArrives | aerospike-connection-manager/kvs.go:1481-1490 | a key converts exactly if its value does and `NewKey` accepts it, and arrives with the same namespace, set and meaning, without its digest |
| Batches.ToBatchRecords | aerospike-connection-manager/kvs.go:842-868 | one Go command per entry, in order; panics exactly on an entry with nothing set, or whose filter, key, operations or arguments cannot be converted |
| Batches.EndToEnd | src/lib.rs:5242-5303 | the i-th Go command is the kind that the i-th valid command of the list intends, with a key, operations, arguments and filter of the same meaning; it succeeds exactly if Go can convert all of them |
| Batches.MapCreateFails | src/lib.rs:7392-7410 | a batch write with the map-create operation that the extension builds never converts |
| Batches.PhpKeyConverts | src/lib.rs:10811-10819 | the key made from a PHP value converts exactly if `NewKey` accepts the value |

## Left out

- Transport, sockets, generated stubs, process start-up: a stream is a sequence of events, and the number of sends that succeed is a parameter.
- The PHP engine: a thrown exception is an outcome, an array is its ordered list of keys and values, and string checks are part of `StringZ`.
- The Aerospike server and its Go client: `Serves`, `Stored` and `HandsOut` state what is assumed of them, and which values `NewKey` accepts is a parameter.
- RIPEMD-160 is a parameter; the version and regular-expression libraries appear only by what is used of them.
- Floats as map keys: Rust identifies zeros of both signs and Go separates NaN keys, while the model compares bit patterns.
- The array library of the PHP extension: inserting under a text is taken to store a string key, even if the text is a number.
- PhpCodec.DecodeStepwise: does not model that hashing a map, JSON, infinity or wildcard value as a map key throws a PHP exception; the decoder goes on and returns the same value. The keys of a converted PHP array are integers and strings.
- Translation.MeaningPreserved: `and`, `or`, `cond`, comparisons, variables and bins have a fixed meaning taken from the builders' comments; arithmetic, bit operations, `min` and `max` are parameters of the theorem.
- Batches.EndToEnd: the fields of a policy other than its filter are copied, an empty operation list becomes a header read as in the source, and the conversion of list, HLL, bitwise and other map operations is a parameter.
- `fromBatchRecords`, which converts element by element, and the list, map, HLL and bitwise operation tables.
- Getters, setters, enumerations, result-code texts, user administration, and configuration.
