# Verification model of mssql-tiberius-bridge

The bridge puts a Tiberius-style client over the native driver `mssql-tds`. This project models
its four connected parts in Dafny and proves what they promise, for every input and every run:

1. **Connection protocol** (`Guard`, `Native`, `Operation`, `Client`, `Streams`, `Pool`). Every
   native call begins, may be abandoned by a caller that drops the future, and otherwise finishes.
   Guards mark an abandoned connection dead. Classes follow the source's own methods step by step;
   each connection records its history, and a labelled transition system (`Guard`) is what that
   history is proved to be a run of. A second transition system (`Pool`) runs many clients, pooled
   connections and prepared statements whose `Arc` addresses are reused by the allocator; its steps
   are the effects that the methods of `Client`, `CompatGenerator`, `BulkInsert` and `TdsManager`
   are proved to have (`Served`, `Delivered`, `Used`, `Reset`, `Recycled`), one lemma for each kind.
2. **Result delivery** (`Replies`, `Streams`, `Compat`, `Delivery`, `Query`). A server's answer is
   a list of row sets, counts and failures. Collecting, streaming with look-ahead, flattening and
   counting are proved against functions of the answer, and these agree with each other.
3. **Rows and values** (`Values`, `Text`, `Conversion`, `Meaning`, `Params`, `Row`,
   `Reading`, `Temporal`). What every reader reads, by what a cell denotes and what the encoders write. The row
   writer's two vectors, the lazy compatibility cache, column lookup, the triangle of `SqlType`,
   `ColumnValues` and `ColumnData`, and the refinement of native by compatibility decoding.
4. **Printers and arithmetic** (`Declaration`, `Decimal`, `Arrow`, `Bulk`). A parser written from
   the grammar alone reads back every declaration list and every decimal text.

Dropping a future while a native call is in flight is the outcome `Dropped`, chosen freely at each
suspension point. The server's answer is an argument of the method that sends the request, and the
allocator's choice of address one of the method that allocates a session token, so every theorem
holds for all of them. `Conn.failures` counts the native calls that failed on their own account;
results are exact when it did not change, for error answers as well.

## What the driver is assumed to do

`Native.TdsClient` states it once. A native call ends at a clean boundary or marks the connection
dead, and success implies a live connection. `close_query` that succeeds leaves nothing
outstanding. `advance` reads off one statement and skips the unread rows of the current one;
`advance_to_rows` repeats it up to the next row set; `next_row_into` writes one value for each cell
of a row. A request whose send succeeds is answered after whatever was still outstanding. A batch
sent with the reset flag restores the session defaults except the isolation level (RESETCONNECTION,
section 2.2.3.1.2 of MS-TDS), and a batch that is one SET TRANSACTION ISOLATION LEVEL sets that level. `SqlDate::create` accepts day numbers up to 3,652,058. SQL type names
are words of letters, digits and `_`, and a typed NULL has the type name of its value. A bulk load writes its
rows one after the other and hands on the error of a row as it is. Reading fails where the answer holds a failure: a network
failure while reading is an answer with a fatal failure there.

## Findings

- A leap second (`chrono` nanoseconds of 1,000,000,000 or more) is not read back as itself floored
  to 100 ns: its time falls into the next second, and in the last second of a day the encoded time is
  not readable at all (`Temporal.LastLeapSecondIsLost`). `Temporal.TimeRoundTrip`
  proves that the floored round trip holds exactly outside leap seconds.
- A time whose tick count lies beyond one day is not always refused: the reader cuts its seconds to
  32 bits first, so a count of 2^32 seconds reads as midnight (`Temporal.CutTicksReadAsMidnight`). Such a
  count does not fit the 40 bits of a TIME on the wire; only a cell built by hand can hold it, and
  `Temporal.TicksRoundTrip` proves that no count on the wire is read wrongly.
- A negative Arrow decimal scale is refused before the text is made, so the branch of
  `format_decimal128` for it is not reached from there (`Decimal.Decimal128Text`).
- Re-encoding a compatibility value that carries a native parameter gives that value back exactly
  when the payload is a vector, variant, table or UDT (`Conversion.CompatRoundTrip`); a native integer
  is not (`Conversion.NativeIntegerIsReshaped`).
- A typed NULL keeps lengths and dimensions but falls back to default precision and time scale;
  `Declaration.TypedNullDeclaration` says exactly when its declaration equals the value's, and
  `Declaration.NullTimeLosesScale` shows one that does not.
- The other date crates hold offsets of a day and more, up to 25:59:59. Such a value is encoded and cannot
  be read again; `Temporal.LocalRoundTrip` proves that this happens exactly from 24 hours on.

## Model

| member | source | states |
|---|---|---|
| `Guard.RunIsSafe` | src/operation.rs:22-72 | in every state of every run a torn wire has an armed guard or the connection is dead, and consecutive states are protocol steps |
| `Guard.DeadIsFinal` | src/operation.rs:46-72 | once dead, a connection is dead in all later states; completing an operation never revives it |
| `Guard.StartsClean` | src/operation.rs:22-43 | an operation that passes the dead check, and every native call, starts on a wire that is neither torn nor dead |
| `Operations.NewOperation` | src/operation.rs:37-44 | a dead connection is refused untouched; otherwise a fresh guard is armed on it |
| `Operations.Operation.Complete` | src/operation.rs:46-49 | disarms the guard, allowed only once no live wire is torn, and leaves the dead flag as the driver set it |
| `Operations.Operation.Drop` | src/operation.rs:66-72 | a guard dropped armed kills the connection and changes nothing else of it; dropped after completion it does nothing |
| `Operations.SessionReset.Drop` | src/client.rs:78-89 | anything but a finished reset kills the connection, errors included |
| `Clients.Client.SimpleQuery` | src/client.rs:211-221 | sends the batch at most once; a completed call returns exactly the result sets of its own answer, whatever was outstanding, and leaves nothing outstanding; a dropped one leaves the connection dead |
| `Clients.Client.Query` | src/client.rs:246-270 | the same for text with parameters, sent as a plain batch when there are none |
| `Clients.Client.Execute` | src/client.rs:280-305 | a completed call returns exactly the row counts of its own answer in statement order and reaches the end of the answer |
| `Clients.Client.Prepare` | src/client.rs:516-536 | a statement holds exactly the one integer the server returned for this request, with its text and the present session token; unless the driver fails it is made exactly for a sound answer with that one output; a parameter that cannot be declared sends nothing |
| `Clients.Client.PrepareStatement` | src/prepared.rs:125-165 | the answer is drained, the first failure in it is reported, and the handle is the single integer output, anything else being refused |
| `Clients.Client.QueryPrepared` | src/client.rs:543-574 | a statement of another client or session is refused with nothing sent; otherwise as a query, by that statement's handle |
| `Clients.Client.ExecutePreparedStatement` | src/client.rs:581-612 | the same for row counts |
| `Clients.Client.UnprepareStatement` | src/client.rs:623-642 | a foreign statement is refused with nothing sent; otherwise its handle is released and the answer drained, failing only if the answer starts with a failure |
| `Clients.Client.ResetSession` | src/client.rs:144-161 | success leaves the default session, at READ COMMITTED because that is what the text of the batch sets, nothing outstanding, the flag carried by that batch alone; every other end is dead; the token is renewed either way |
| `Clients.Client.Ping` | src/client.rs:176-182 | success means the next operation is not refused and starts on a clean wire with no reset pending; a dead connection is reported closed; nothing is sent, consumed or changed |
| `Clients.Client.CollectResults` | src/client.rs:651-673 | returns exactly the outstanding result sets, empty ones kept, or the first failure among them |
| `Clients.Client.CollectExecuteResults` | src/client.rs:675-699 | reads to the end and returns exactly the outstanding counts in order, or the first failure |
| `Clients.NextCounts` | src/client.rs:675-699 | moving on by one statement loses no count still to come and ends exactly when nothing is left |
| `Native.AdvanceSkips` | src/client.rs:651-668 | skipping statements without rows changes neither what is collected nor what is streamed |
| `Native.AdvanceFails` | src/prepared.rs:141-151 | skipping ahead, over unread rows too, fails exactly on the first failing statement |
| `Streams.CompatGenerator.PollNext` | src/client.rs:376-408 | each poll delivers the next item of this request's own answer; pending loses nothing; the stream ends after its last item or one error; errors are the answer's own unless the driver failed by itself |
| `Streams.CompatGenerator.Drop` | src/client.rs:376-408 | dropping at a yield point leaves the connection as it is, dropping inside native I/O leaves it dead |
| `Streams.CompatGenerator.FinishSkip` | src/client.rs:644-649 | the skip to the next row set ends with its own guard released and a clean or dead connection; no item is lost, and the end or failure reported is the one the answer has there |
| `Delivery.QueryCompatResults` | src/compat.rs:205-221 | `query_compat` driven through look-ahead stream and collector returns exactly what collecting the same answer returns, failures included |
| `Delivery.QueryCompatFirst` | src/compat.rs:224-231 | the first result set alone, with every later failure still reported |
| `Replies.StreamAgreesWithCollect` | src/compat.rs:205-221 | for every script the collected item stream equals the collected result sets |
| `Replies.CollectItems` | src/compat.rs:205-221 | the same from any point of a collection on |
| `Replies.FlattenedStream` | src/client.rs:343-358 | for every answer the streamed rows are the concatenation of the result sets before the first failing statement, then that statement's rows and one error, and nothing after it |
| `Delivery.QueryStreamed` | src/client.rs:343-358 | a row stream driven to its end yields exactly the rows of this request's own answer up to its first failure; a driver failure or an early drop cuts it to a beginning of them, with at most one error; a dead connection gives one error |
| `Delivery.PollToEnd` | src/client.rs:376-408 | polled items are always a beginning of the answer's items, all of them when the driver does not fail, or cut by one final error |
| `Replies.ItemsAreNumbered` | src/client.rs:388-407 | whatever the answer, streamed metadata carry the places 0, 1, ... in turn and every row the place of the metadata before it, up to any failure |
| `Replies.CollectedCells` | src/client.rs:651-673 | collecting gives one set for each row set of the answer, empty ones kept, holding the columns and cells the server sent, in order, and its place on every row |
| `Replies.StreamedCells` | src/client.rs:388-407 | the streamed items are the columns and cells the server sent, in order, each set opened by its metadata, up to the first failure |
| `Replies.FailureIsFirst` | src/client.rs:651-699 | the failure reported is the code of the first failing statement |
| `Replies.FailureEndsAll` | src/client.rs:651-699 | collecting and counting both end in the first failure of the answer and succeed exactly when there is none |
| `Replies.FailureCutsStream` | src/client.rs:388-407 | a failure at any point cuts the stream to the items before it, then one error |
| `Compat.QueryStream.PollNext` | src/compat.rs:242-255 | delivers the next item in order, the look-ahead item first, and takes it off what is to come |
| `Compat.QueryStream.Columns` | src/compat.rs:167-188 | withholds at most one item, delivers an error once and keeps none, loses nothing when dropped, and returns the schema of the last metadata with no later error |
| `Compat.Interleave` | src/compat.rs:167-255 | for every interleaving of look-aheads and polls, items and errors come out in inner order, each once |
| `Compat.QueryStream.IntoResults` | src/compat.rs:205-221 | returns the collection of all items still to come |
| `Compat.QueryStream.IntoFirstResult` | src/compat.rs:224-231 | returns the first of those sets, or none, after draining the rest |
| `Compat.QueryStream.IntoRow` | src/compat.rs:234-236 | returns the first row of the first result set, none if that set is empty even when a later one is not |
| `Compat.CompatRowStream.PollNext` | src/compat.rs:191-202 | yields exactly the rows among the items, ends after the first error, and skips all metadata |
| `Compat.ColumnsAreCurrent` | src/compat.rs:167-255 | there are columns exactly when some metadata has neither metadata nor an error after it, and they are that metadata's |
| `Queries.RowStream.constructor` | src/query.rs:122-131 | starts with all rows of all sets ahead and counted |
| `Queries.RowStream.PollNext` | src/query.rs:161-177 | yields the concatenation in order, skips empty sets, never underflows its counter, and its end is final |
| `Queries.RowStream.SizeHint` | src/query.rs:179-182 | exact in every reachable state |
| `Queries.CollectRowStream` | src/query.rs:122-182 | draining a stream gives the concatenation of the result sets |
| `Queries.ReadExecuteResult` | src/query.rs:21-49 | an execution result has one count for each reporting statement in statement order, both iterators yield the same list, and the total is the sum over the statements |
| `Queries.CountsInPlace` | src/client.rs:675-699 | the count of statement i stands at the number of reporting statements before it; there are no others |
| `Queries.CountsOfConcat` | src/client.rs:675-699 | counts and totals of consecutive parts of an answer add up |
| `Pools.TdsManager.Recycle` | src/pool.rs:109-117 | a dead client is never kept; under reset recycling only a client whose reset succeeded is, under ping recycling it is kept unchanged |
| `Pools.ServedIsOperate` | src/client.rs:211-305 | what every call without a handle promises is a step of the run, streams left early and failed calls included |
| `Pools.PreparedIsStep` | src/client.rs:516-536 | what a successful prepare promises is the step that issues the handle |
| `Pools.UsedIsStep` | src/client.rs:543-642 | what the calls by statement promise is a step of the run, refusals included |
| `Pools.ResetIsStep` | src/client.rs:144-161 | what a reset promises is a step of the run, failed and cancelled ones included |
| `Pools.RecycledIsStep` | src/pool.rs:109-117 | what recycling promises is a checkout step of the run |
| `Pools.RunKeepsInv` | src/pool.rs:104-117 | the invariant over all clients, tokens and statements holds in every state of every run |
| `Pools.PtrEqMeansSameSession` | src/prepared.rs:117-123 | at any moment of any run, equal token addresses mean the same client and session epoch although addresses are reused; on a live client the comparison refuses no statement of the present session |
| `Pools.IssuedByPrepare` | src/client.rs:516-536 | every handle on record is the one integer output of a successful prepare on that client in that epoch |
| `Pools.HandlesStayHome` | src/client.rs:543-642 | every handle ever sent is one the server returned earlier on the same client in the same session epoch |
| `Pools.CheckoutStartsAfresh` | src/pool.rs:32-48 | from every later moment of the run: the reset checkout handed out a pristine client, every statement the client accepts is younger than the checkout, and every handle sent since was issued on it since |
| `Pools.OldStatementsStayOut` | src/pool.rs:32-48 | statements of earlier checkouts are refused for good, however token addresses are reused |
| `Pools.HandlesAfterCheckout` | src/prepared.rs:117-123 | every handle a client sends after a reset checkout is one the server returned to a prepare on it after that checkout |
| `Pools.BorrowersCannotTell` | src/pool.rs:109-117 | any two reset checkouts, in whatever worlds, hand out alike: alive, drained, the same session, and no statement accepted |
| `Pools.FlagOnBaselineOnly` | src/client.rs:144-161 | in every run the reset flag has left only on the batch that sets READ COMMITTED |
| `Pools.DeadStaysDead` | src/pool.rs:109-117 | a dead client stays dead for as long as it exists |
| `Pools.FailedResetRetires` | src/client.rs:78-89 | after a failed or cancelled reset a client is never handed out again, under either method |
| `Rows.FromMetadata` | src/row.rs:39-46 | the name index holds exactly the column names, each with its first position |
| `Rows.LookupFindsBestMatch` | src/row.rs:222-231 | lookup returns the first exact match, else the first match up to ASCII case, and fails exactly when no column matches |
| `Rows.AsciiCase` | src/row.rs:222-231 | characters match up to case exactly when they are equal or the two cases of one ASCII letter |
| `Rows.NamesByLetters` | src/row.rs:222-231 | names match up to case exactly when they do letter by letter, to the last one |
| `Reading.ByPosition` | src/row.rs:359-368 | access by position reaches that cell and fails exactly past the last one |
| `Reading.ByName` | src/row.rs:371-380 | access by name is access to the first column of exactly that name, natively and compatibly |
| `Reading.ByUnknownName` | src/row.rs:371-380 | a name that no column has exactly is an error |
| `Reading.ByNameIgnoringCase` | src/row.rs:206-231 | access up to case is access to the best match, and an error when nothing matches |
| `Rows.BridgeRowWriter.Write` | src/row.rs:834-959 | appends one cell and keeps both vectors in lockstep, each text beside its own cell |
| `Rows.BridgeRowWriter.TakeRow` | src/row.rs:819-831 | the taken row has exactly the written cells in order, each text beside its cell, the schema and the place; it equals the row built from the same cells directly, and the writer starts over empty |
| `Rows.RowHolds` | src/row.rs:108-119 | a row built from cells holds those cells in order under those columns, each text beside its cell |
| `Rows.CachedRow.CompatValues` | src/row.rs:99-105 | the lazily built values equal a fresh computation in every state |
| `Rows.CachedRow.Cells` | src/row.rs:136-138 | pairs column i with value i, as many as both sides have |
| `Rows.CachedRow.IntoIter` | src/row.rs:335-347 | consuming a row yields the same values whether or not the cache was built |
| `Rows.CachedRow.TryGetCompat` | src/row.rs:183-196 | access through the cache equals access to freshly built values |
| `Rows.CompatRefinesNative` | src/row.rs:162-219 | for every row, column and target type of both decoders, those of chrono, `time` and `jiff` included, compatibility access gives the native result or a conversion error, and fails alike on a missing column |
| `Reading.CompatReads` | src/compat/conversion.rs:607-731 | compatibility access to a cell that is not NULL succeeds exactly for the type's own kind of cell that native access reads, with the same value |
| `Reading.CompatValuesKeep` | src/row.rs:79-97 | the compatibility values of a row denote its cells one by one, owned, and empty for NULLs |
| `Reading.ReadsIntegers` | src/row.rs:422-461 | an integer type reads the number of every integer cell no wider than itself, and nothing else |
| `Reading.ReadsPayloads` | src/row.rs:413-542 | flags, floats, identifiers and bytes are read as the cell has them, a single also as a double, and from nothing else |
| `Reading.ReadsText` | src/row.rs:483-513 | owned and borrowed text are read from text, XML and JSON cells alike, and from nothing else |
| `Reading.ReadsParsed` | src/row.rs:494-502 | JSON and decimals are what the parsers make of the cell's own text or parts; money is its count |
| `Reading.MoneyIsTwoHalves` | src/row.rs:772-788 | a MONEY count has the two parts as its high and low 32 bits |
| `Reading.ReadsNoOtherCell` | src/row.rs:550-765 | date and time types read nothing from other cells |
| `Reading.ReadsEncodedDate` | src/row.rs:550-567 | a date reads back as encoded, for chrono, `time` and `jiff` |
| `Reading.ReadsEncodedTime` | src/row.rs:569-582 | a time reads back floored, leap seconds as stated, with the same clock fields by every library |
| `Reading.ReadsEncodedDateTime` | src/row.rs:584-618 | date and time read back together, and the date alone |
| `Reading.ReadsEncodedCivil` | src/row.rs:663-748 | the fields of the other crates read back floored to 100 ns |
| `Reading.ReadsEncodedOffset` | src/row.rs:620-636 | a moment with an offset reads back in UTC with its offset in whole minutes |
| `Reading.ReadsEncodedLocal` | src/row.rs:685-767 | so it does by the other crates, as UTC fields or as an instant in range |
| `Reading.ReadsLegacy` | src/row.rs:559-604 | DATETIME reads as days from 1900-01-01, before it too, and its time of day |
| `Reading.ReadsSmall` | src/row.rs:606-612 | SMALLDATETIME reads as days from 1900-01-01 and minutes of the day |
| `Rows.NullDecoding` | src/compat/conversion.rs:607-731 | by index or name, NULL reads as none natively, and compatibly exactly for the listed column types, else it is a conversion error |
| `Rows.DecodedCell` | src/compat/conversion.rs:709-731 | for every cell and target the compatibility reader refines the native one, borrowed text and bytes included |
| `Rows.CanonicalDecodesAlike` | src/row.rs:386-544 | decimal turned numeric and re-encoded text decode to the same value for every target |
| `Conversion.CompatRoundTrip` | src/compat/conversion.rs:51-95 | decoding an encoded compatibility value gives the owned value exactly when a native payload is vector, variant, table or UDT |
| `Conversion.NativeIntegerIsReshaped` | src/compat/conversion.rs:51-95 | a native integer 5 comes back as the compatibility integer 5 |
| `Conversion.NormalizeKeepsMeaning` | src/compat/conversion.rs:326-366 | normalising a parameter keeps payload and nullness, lands in the normal forms, and fixes exactly those |
| `Conversion.NormalizeIsIdempotent` | src/compat/conversion.rs:326-366 | normalising twice is normalising once |
| `Conversion.TextParameterType` | src/compat/conversion.rs:326-366 | text goes out as `NVarchar(4000)` exactly up to 4000 UTF-16 code units, and denotes the same characters |
| `Conversion.CellRoundTrip` | src/compat/conversion.rs:97-226 | a cell viewed as compatibility value and turned back is itself in canonical form, owned or borrowed; a vector is rejected |
| `Conversion.CanonicalCells` | src/compat/conversion.rs:181-226 | canonical form changes exactly decimals and text with unpaired surrogates or another encoding, and is idempotent |
| `Meanings.FromNativeKeeps` | src/compat/conversion.rs:51-95 | a parameter viewed as a compatibility value denotes the same |
| `Meanings.ToSqlKeeps` | src/compat/conversion.rs:326-366 | a compatibility value sent as a parameter denotes the same |
| `Meanings.CellViewKeeps` | src/compat/conversion.rs:181-287 | a cell viewed as a compatibility value denotes the same; a NULL becomes an empty value |
| `Meanings.NullKinds` | src/compat/conversion.rs:249-287 | the empty value a NULL becomes is of the kind of its column, bytes for opaque columns |
| `Meanings.IntoCellKeeps` | src/compat/conversion.rs:97-150 | a compatibility value turned into a cell denotes the same; exactly native parameters have no cell |
| `Text.DecodeEncoded` | src/compat/conversion.rs:326-366 | UTF-16 decoding undoes encoding for every text (section 2.1 of RFC 2781) |
| `Text.UnitsOfChar` | src/compat/conversion.rs:326-366 | a character is one unit or the surrogate pair of its code (section 2.1 of RFC 2781) |
| `Text.LoneSurrogate` | src/row.rs:875-880 | a surrogate alone decodes to the replacement character |
| `Text.EncodedLength` | src/compat/conversion.rs:326-366 | the number of code units is one or two for each character |
| `Text.EncodeDecoded` | src/compat/conversion.rs:181-226 | encoding undoes decoding exactly for units without unpaired surrogates |
| `Declaration.DeclarationRoundTrip` | src/prepared.rs:180-198 | parsing a declaration list recovers for every parameter the number that its name has when it is sent, 1, 2, ... in order, and its type; the list fails exactly when one of those types has no name |
| `Declaration.NamesAreNumbered` | src/query.rs:719-734 | sent parameter i is named `@P` and a number that reads back as i + 1 |
| `Declaration.DeclaredLengths` | src/prepared.rs:200-265 | declared lengths hold the given ones and are unlimited exactly past the server's limit |
| `Declaration.DeclaredScales` | src/prepared.rs:200-265 | decimals and times are declared with their own precision and scale, or the defaults |
| `Declaration.PrintedLengths` | src/prepared.rs:200-265 | the printed text at the limits of `nvarchar` |
| `Declaration.PrintedScales` | src/prepared.rs:200-265 | the printed text of precisions and scales, given and by default |
| `Declaration.PrintedNames` | src/prepared.rs:200-265 | the printed text of table and user types: doubled brackets, gaps, empty parts, the default schema |
| `Declaration.EntriesRoundTrip` | src/prepared.rs:180-198 | the same from every parameter on |
| `Declaration.EntryRoundTrip` | src/prepared.rs:200-265 | one declaration parses back to its type whatever follows it in the list |
| `Declaration.QuotedRoundTrip` | src/prepared.rs:298-300 | any identifier, brackets and separators included, is read back from its quoted form |
| `Declaration.EncodersAgree` | src/query.rs:701-734 | the declared and the sent parameter use the same string encoding |
| `Meanings.EncodingKeeps` | src/query.rs:701-713 | string encoding keeps what a parameter denotes, changes exactly variable Unicode text when it is switched off, and then leaves none |
| `Meanings.SentParametersKeep` | src/query.rs:719-734 | each sent parameter denotes the parameter given at its place |
| `Meanings.TypedNullIsNull` | src/query.rs:371-411 | a typed NULL is NULL, and exactly the NULLs are their own typed NULL |
| `Declaration.TypedNullDeclaration` | src/query.rs:371-411 | a typed NULL is declared like its value except for lost precisions and time scales |
| `Declaration.NullTimeLosesScale` | src/query.rs:371-411 | the typed NULL of a time of scale 3 is declared with scale 7 |
| `Decimal.FormatDecimal128` | src/bulk_arrow.rs:324-351 | for every 128-bit coefficient and 8-bit scale the text denotes raw * 10^-scale; a positive scale and the coefficient can be read off it |
| `Decimal.Decimal128Text` | src/bulk_arrow.rs:266-276 | a cell is refused exactly for a negative scale; otherwise the text that is parsed carries coefficient and scale |
| `Decimal.PointedText` | src/bulk_arrow.rs:336-350 | placing the point keeps the number, gives exactly `scale` fraction digits and a nonempty integer part |
| `Decimal.ScaledInteger` | src/bulk_arrow.rs:324-335 | appending zeros multiplies by the power of ten, the minimum coefficient included |
| `Temporal.TimeRoundTrip` | src/query.rs:496-505 | what every time chrono can hold reads back as; it is the time floored to 100 ns exactly outside leap seconds |
| `Temporal.LastLeapSecondIsLost` | src/query.rs:496-505 | 23:59:59 with a fraction of 1.5 s is encoded and cannot be read again |
| `Temporal.TicksRoundTrip` | src/row.rs:569-582 | a tick count is readable exactly when its seconds cut to 32 bits are a time of day, and encodes back to itself exactly within one day; within 40 bits only the ticks of a day are readable |
| `Temporal.CutTicksReadAsMidnight` | src/row.rs:569-582 | ticks of 2^32 seconds read as midnight |
| `Temporal.DateRoundTrip` | src/query.rs:488-494 | exactly the dates 0001-01-01 to 9999-12-31 are encoded, and read back as themselves |
| `Temporal.DatesCountUp` | src/query.rs:488-494 | 0001-01-01 is day 0 on the wire and each next date the next day |
| `Temporal.EpochsAreDays` | src/row.rs:559-604 | the day numbers in the code are those of 1900-01-01, 1970-01-01, 9999-12-31 and of chrono's range by the Gregorian rule |
| `Temporal.TicksOfTime` | src/query.rs:496-505 | the ticks of a time are its 100 ns units since midnight |
| `Temporal.DateTimeRoundTrip` | src/query.rs:507-512 | date and time read back together or not at all, floored exactly outside leap seconds |
| `Temporal.OffsetRoundTrip` | src/query.rs:532-549 | for every offset and time, leap seconds included, the UTC instant reads back as it does without an offset; the offset survives exactly when it is whole minutes, else it moves toward zero |
| `Temporal.OffsetIsUtcAndMinutes` | src/query.rs:532-549 | the wire holds the UTC date and time and the offset's whole minutes with its sign |
| `Temporal.LibrariesAgree` | src/query.rs:571-698 | equal date, clock and offset fields are encoded equally by the three libraries |
| `Temporal.CivilRoundTrip` | src/row.rs:663-748 | `time` and `jiff` both read every encoded date and time back, floored to 100 ns |
| `Temporal.LocalRoundTrip` | src/row.rs:685-767 | their types with an offset read back the same instant floored to 100 ns; the offset survives exactly when it is whole minutes; nothing reads back exactly when the offset is a day or more |
| `Temporal.DayOffsetIsLost` | src/query.rs:607-617 | an offset of 24 hours is encoded and cannot be read again |
| `Temporal.LegacyTicksInDay` | src/row.rs:603-636 | a legacy tick count is a time of day exactly below 25,920,000 |
| `Temporal.LegacyTicksAreThreeHundredths` | src/row.rs:591-604 | a legacy tick is 1/300 s, cut to whole milliseconds |
| `Temporal.LegacyTicksStrictlyIncrease` | src/row.rs:603-636 | later ticks are later times, so no two ticks read alike |
| `Arrow.TimestampConverts` | src/bulk_arrow.rs:222-265 | no error is reachable for any 64-bit timestamp; days and time of day are in range; the instant is exact iff the unit conversion does not saturate |
| `Arrow.UnitsAgree` | src/bulk_arrow.rs:222-265 | two timestamps of any units convert equally exactly when they are the same instant |
| `Arrow.UnitsAreDecimal` | src/bulk_arrow.rs:222-240 | a whole second converts alike in each unit, and to that many nanoseconds |
| `Arrow.TimestampsAreMonotone` | src/bulk_arrow.rs:222-265 | conversion keeps the order of timestamps, saturation included |
| `Arrow.Date32Converts` | src/bulk_arrow.rs:179-192 | exactly the dates 0001-01-01 to 9999-12-31 convert, to their own day; each error has its own range |
| `Arrow.Date32CountsFrom1970` | src/bulk_arrow.rs:179-192 | day 0 is 1970-01-01, and dates are encoded as the date libraries encode them |
| `Arrow.Time64Converts` | src/bulk_arrow.rs:193-221 | exactly the times within a day convert, in the two units there are, to that many nanoseconds; the negative, overflow and unit errors each have their own range |
| `Arrow.ExpandBatches` | src/bulk_arrow.rs:375-389 | the expansion has as many rows as the batches together, each row of each batch at its place |
| `Arrow.SendArrowBatches` | src/bulk_arrow.rs:375-391 | exactly the expanded rows, in order, go out in one guarded load, which loads them all or reports the first cell that does not convert unless the driver fails by itself |
| `Arrow.EveryPlaceIsOneRow` | src/bulk_arrow.rs:375-391 | every position holds exactly one row of one batch |
| `Bulk.AcceptedRows` | src/bulk.rs:253-283 | the accepted rows are those of the first row's width, in the order offered |
| `Bulk.BulkLoadRequest.Send` | src/bulk.rs:253-283 | the first row sets the width; a row is accepted exactly when it has it; a refused row changes nothing |
| `Bulk.BulkLoadRequest.Finalize` | src/bulk.rs:260-294 | passes exactly the accepted rows to one native load; unless the driver fails on its own account it returns their number, or an input error exactly when some accepted value is a native parameter; the driver's errors are remapped |
| `Bulk.BulkInsert.Send` | src/bulk.rs:433-460 | one guarded load of exactly the given rows, failing for the first cell without a wire form; dropping it kills the connection; a dead connection sends nothing |
| `Bulk.WriteToPacket` | src/bulk.rs:177-193 | writes the cells to consecutive columns up to the first that has no wire form, whose error is wrapped, or that the writer refuses, reported with the writer's own error |
| `Bulk.ConversionErrorsSurface` | src/bulk.rs:285-311 | the message a conversion error displays as is recognised by its prefix when the driver hands it back, and surfaces as an input error |
| `Bulk.OtherErrorsPass` | src/bulk.rs:285-311 | every error but a usage error whose message begins with one of the ten prefixes passes through unchanged |
| `Bulk.CellsOfRow` | src/bulk.rs:177-193 | a row is written as its own values in order, each cell denoting its value |
| `Bulk.NativeIsTheProblem` | src/bulk.rs:177-193 | token rows have a cell without a wire form exactly when some value is a native parameter, and the error is then a conversion error |
| `Bulk.WriteRows` | src/bulk.rs:177-193 | success writes all cells of all rows in order; failure is the writer's own refusal or wraps the first cell problem of the first row that has one |

## Left out

- Driver internals, TLS, login, sockets and executors: only the contract above.
- `Native.TdsClient`: a network failure while reading is part of the answer; only draining, sending and bulk loading can fail on their own account.
- `inner_mut` and `std::mem::forget` of a future: both bypass the guards, and no run contains them. A future dropped before its first poll does nothing and is not modelled.
- `Delivery.PollToEnd`: the generator's polls are recorded first and then replayed to the look-ahead stream, because `QueryStream` is verified over an arbitrary inner stream; a stream not ready within the given number of polls is dropped.
- `Pools.BorrowersCannotTell`: about reset recycling only; ping recycling is meant to keep the session. Deadpool capacity, waiting and timeouts are left out: checkout is "recycle, else discard".
- `Bulk.BulkInsert.Send`: whether earlier results are drained depends on the driver, since the bridge does not drain here; the driver's own result record is reduced to the number of rows. Options and column mappings are left out.
- `Rows.BridgeRowWriter.Write`: the typed callbacks are one method whose argument says which callback it is.
- `Rows.CachedRow.CompatValues`: the `OnceLock` is a field of an object around an immutable row; sharing between threads is not modelled.
- `Rows.CompatRefinesNative`: about the types that both decoders accept; JSON and decimal parsing, chrono's calendar and the range of `jiff` instants are given functions, floats are bit patterns. A `time` value with an offset is its UTC fields and the offset; moving the fields to that offset is left to the crate, which panics where the local date leaves its range.
- `Temporal.DateRoundTrip`: a calendar date is its day number; the calendar that turns it into year, month and day is a parameter, assumed to be a bijection.
- `Temporal.TicksRoundTrip`: the 64-bit overflow of the multiplication by 100, for tick counts above 1.8 * 10^17, is not modelled.
- `Queries.CountsOfConcat`: sums are unbounded, the 64-bit overflow of `total` is not modelled.
- `Declaration.DeclarationRoundTrip`: the driver's type names are a parameter, assumed to be plain words.
- `Conversion.CellRoundTrip`: text in an encoding other than UTF-16 is represented by the text it decodes to, and XML and JSON values by their text.
- Arrow time units against the row reader: the Arrow path stores nanoseconds where the other paths store 100 ns ticks, so the two are not inverse and nothing is claimed about them together.
- `Arrow.SendArrowBatches`: what each cell converts to is part of the batch, so that any column types are covered; of the conversions themselves the date, time and timestamp ones are modelled. The Boolean, integer, float, text and binary ones hand the value over unchanged or widened, and the parsing of decimal text is the driver's. The marker that stands for a NULL cell is an ordinary value, so no claim about NULL holds.
- `src/serde_de.rs` deserialises rows through `serde`, `src/column.rs` maps server type codes to `ColumnType`, `src/config.rs` builds connection settings, and `src/error.rs` converts and prints errors; `src/vector.rs` is not compiled into the crate. None of them takes part in the behaviour above. Message texts other than the prefixes of bulk input errors, `Debug` output and benchmarks are left out too.
