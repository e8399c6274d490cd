# A verified model of the Kraken data recorder

The recorder keeps the order books of a feed: it parses decimals in place, applies snapshots and updates
to two depth-limited sides per symbol, confirms a CRC-32 over the best ten levels after every message,
queues book messages behind a timer, and writes rows that a second program can replay. This project models
that path and proves what holds of it for every token, every message and every run.

| file | what it holds |
|---|---|
| `Digits`, `View` | digit strings and numerals; the text of a decimal and its value times 10^48 |
| `Parser`, `ParserLaws`, `ParserErrors`, `Wrap` | the four-state parser, what it keeps of a token's value, which tokens it throws on |
| `Order`, `Comparison` | the comparison of decimals and when it is numeric |
| `Printer` | printing at a precision, the digits of the checksum, reading back |
| `Buffer`, `BufferLaws` | the decimals that books hold, with what lies behind their views; what is printed from there, and for which tokens that is right |
| `Decimal` | the 48-character in-place decimal, with its loops |
| `Crc32`, `ChecksumExample` | CRC-32 (section 8 of RFC 1952), one known checksum, and two that differ |
| `OrderedMap`, `Truncation` | one side as an ordered map; a side that is cut compared with one that is not |
| `Sides`, `SidesLaws`, `Checksum` | both sides of a symbol and their checksum; what that is in numbers |
| `LevelBook`, `Refdata` | the books of all symbols; the second copy of their precisions |
| `Messages` | what a book message and a pair do to the books, level by level |
| `Spelling`, `Arrivals` | runs of messages, and of messages still in tokens, that differ in spelling only |
| `BookSink`, `TradeSink`, `Recorder` | the column builders and what one recorder does with a message |
| `Records` | what a recorder has recorded after a message and after a run, field by field |
| `Queueing`, `Engine`, `EngineLaws` | the queue drained in batches of 64, compared with handling on arrival |
| `Replay`, `ReplayLaws`, `ReplayFailure` | parsing recorded rows and replaying them into a new level book; a recording that does not replay |

Main results:

* **Parsing keeps a value exactly when the 64-bit zero test is not fooled** (`ParserLaws.ParseValue`,
  `WrapLaws.BookTextKeepsValueIff`). The zero test adds digits up in 64 bits, so 0.18446744073709551616
  parses as 0 (`WrapLaws.SomeFractionWraps`). This is a defect of the code; parts of at most 19 digits never meet it.
* **The in-place printer and the digit loop are right for exactly the same tokens.** They read what lies
  behind the view in the buffer. For a copied decimal they give the characters of the allocating printer and the
  numeral of floor(value * 10^p), at every precision at which the print fits 48 characters, if and only if its token does
  not wrap (`BufferLaws.InPlaceExactIff`). A copy of 0.18446744073709551616 has the value of 0.1 and is recorded
  as 0.10000000, but feeds the checksum 18446744 (`BufferLaws.WrappedFeedsOther`).
* **Cutting a side to the depth after each update does not change the checksum** while neither side was
  sent more than depth - 10 quotes of zero quantity; with one more on a side, the text that the checksum is taken of
  can lack the tenth level (`SidesLaws.BoundShowsInText`).
* **The deferred engine refines handling on arrival**, and records exactly the books it has delivered, each printed
  at the precisions in force at its delivery.
* **Each message does what it says**: `MessageLaws.UpdateMeans` and `SnapshotMeans` give every level of both sides after
  it, `ChecksumLaws.ChecksumOfBook` the numerals that its checksum is taken of, in order, and `RecordLaws` every field of
  every row, for single messages and for whole runs.
* **A recording replays to the live book**, if its decimals are padded, print within 48 characters and have no
  more fraction digits than their precisions; `ArrivalLaws.OrdinaryMessageIsRecordable` gives such tokens. Without padding this
  is false: `ReplayFailure.WrappedRecordingDoesNotReplay` is a run that is recorded without failure and whose
  replay rejects the row.

Where the code does something a reader may not expect, the model follows the code: a quote of zero
quantity for an absent price is inserted; snapshots are not cut to the depth; a failing checksum is reported
after the book has changed, and after the row has been recorded; a copy of a parsed zero reads the first
three characters of its own buffer, so a copy of `0` reads `000`; a price that is quoted again keeps the
spelling it was first inserted with.

Every property of runs is stated for runs of any length from the state the program starts in.
The stable-precision condition of the engine results, and the recordability condition of the replay
result, are conditions on the messages; `EngineLaws.PrecisionChangeShows`, `Printer.PrintThenParse` and
`ReplayFailure.WrappedRecordingDoesNotReplay` show what happens without them.

A print that would run past the 48 characters reads memory behind the buffer in the source, and nothing can be said of
what it reads. The model ends such a run with a rejection of its own, `Overrun`, so a run that is accepted has no
such read; `SpellingLaws.SoundMessageDoesNotOverrun` says when there is none.

## Model

| member | source | states |
|---|---|---|
| Parser.ScanShape | include/decimal.hpp:85-140 | whatever the token, the scanning loop leaves nothing or a plain numeral in the buffer |
| ParserErrors.ReadsFirstNumber | include/decimal.hpp:97-140 | and that is the first number of the token: integer digits from a non-zero one or from a zero before a point, the point, and the digits directly behind it; a zero at the very end counts |
| Parser.ScanNumeral | include/decimal.hpp:97-140 | on a plain numeral the loop never throws: it drops the leading zeros, keeps one digit and copies the rest |
| Parser.CanonicalValue | include/decimal.hpp:148-158 | the canonical spelling of a numeral has its value |
| Parser.CanonicalUnique | include/decimal.hpp:148-158 | numerals of equal value have the same canonical spelling |
| ParserErrors.ParseFailsIff | include/decimal.hpp:77-140 | a token is rejected exactly when it exceeds 48 characters or the integer digits of its first number run into something other than a point |
| ParserLaws.ParseShape | include/decimal.hpp:142-158 | every successful parse of any string, and every copy of one, has a plain numeral in view |
| ParserLaws.ParseValue | include/decimal.hpp:77-159 | parsing a plain numeral of at most 48 characters succeeds, keeps its value exactly when it does not wrap, spells it canonically, and leaves the padding in place |
| ParserLaws.CopyOfZero | include/decimal.hpp:24-37 | a copied zero reads three characters of its own buffer that denote 0, and is padded |
| ParserLaws.BookTextValue | include/decimal.hpp:24-31 | a copy of a parsed token keeps its value and its padding when the token does not wrap |
| ParserLaws.SpellingIndependent | include/decimal.hpp:77-159 | tokens of equal value give decimals of equal value, and the same view until copied |
| ParserLaws.FreshEquality | include/decimal.hpp:142-158 | freshly parsed decimals have equal values exactly when their views are equal strings |
| WrapLaws.BookTextKeepsValueIff | src/decimal.cpp:62-72 | a parsed and copied decimal keeps its token's value if and only if its parts are not both 0 modulo 2^64 while the value is not 0 |
| WrapLaws.FewDigitsNeverWrap | src/decimal.cpp:10-17 | a number below 2^19 other than 0, followed by up to 45 zeros, is never 0 in the 64-bit accumulator |
| WrapLaws.SomeFractionWraps | src/decimal.cpp:62-72 | the token whose fraction digits read 2^64 parses as zero |
| Decimals.Decimal.FromToken | include/decimal.hpp:77-159 | the constructor's loops leave exactly the buffer, view and sharing that the parsing function says, and throw when it fails |
| Decimals.Decimal.ScanToken | include/decimal.hpp:94-140 | the loop writes within the buffer, to its front, what the scanning function says, and leaves '0' behind it |
| Decimals.Decimal.Settle | include/decimal.hpp:142-158 | a text that looks zero gets the shared view of three characters, any other the length of its trimmed form |
| Decimals.Decimal.TrimmedLength | include/decimal.hpp:148-158 | the trimming loop ends without underflow at the numeral without trailing fraction zeros and bare point |
| Decimals.Decimal.Copy | include/decimal.hpp:24-31 | a copy has the same characters and length, viewed in its own buffer |
| Decimals.Decimal.Assign | include/decimal.hpp:33-37 | assignment does the same in place, also from itself |
| Decimals.Decimal.ToInt | src/decimal.cpp:10-17 | the accumulator is the number modulo 2^64, for a string of any length |
| Decimals.Decimal.IsZero | src/decimal.cpp:62-72 | true exactly when both parts are 0 modulo 2^64 |
| Decimals.Decimal.CompareTo | src/decimal.cpp:23-47 | less exactly when the key is less, greater exactly when it is greater; the key is the value with its integer part modulo 2^64 |
| Decimals.Decimal.CompareFractions | src/decimal.cpp:33-46 | the digit loop finds the first difference of the zero-padded fractions, or that there is none |
| Decimals.Decimal.StrView | src/decimal.cpp:97-117 | whatever the buffer holds, the in-place printer writes at most a point behind the view, stays in the buffer, and returns the characters up to the p-th behind the point; from a padded buffer these are those of the allocating printer, and it stays padded |
| Decimals.Decimal.Process | src/decimal.cpp:119-143 | feeds the digits that are printed in place, from the first non-zero one on; from a padded buffer this is the numeral of floor(value * 10^p) |
| Buffers.FitsIsLength | src/decimal.cpp:97-117 | a print stays in the buffer exactly when it has at most 48 characters |
| Buffers.PaddedReads | src/decimal.cpp:97-117 | a padded buffer prints in place what the allocating printer gives |
| Buffers.PaddedFeeds | src/decimal.cpp:119-143 | and feeds the numeral of floor(value * 10^p) |
| Buffers.DotNeverShows | src/decimal.cpp:103-107 | the point that is written behind a view changes no view, no print at any precision and no padding, padded or not |
| BufferLaws.PaddedUnlessWrapped | include/decimal.hpp:92-158 | every token that parses, plain numeral or not, leaves a padded buffer unless it wraps |
| BufferLaws.NumeralTokenWraps | src/decimal.cpp:62-72 | for plain numerals wrapping is that of the token's own parts |
| BufferLaws.InPlaceExactIff | src/decimal.cpp:97-143 | for every token that parses: the copy is padded, prints in place as it is allocated at all fitting precisions, and feeds the numeral at all of them, each if and only if the token does not wrap |
| BufferLaws.WrappedFeedsOther | src/decimal.cpp:97-143 | the copies of 0.18446744073709551616 and 0.1 have one text and one print at 8 digits, but are fed as 18446744 and 10000000 |
| BufferLaws.TokenIsSound | include/decimal.hpp:24-31 | the copy of a token that does not wrap keeps its value, is padded, and fits as far as its integer digits allow |
| Decimals.Decimal.FeedDigits | src/decimal.cpp:123-142 | the loop feeds all digits from the first non-zero one on; its early return never cuts a digit |
| Order.KeyIsValueIff | src/decimal.cpp:23-32 | a value is compared as it is if and only if its integer part is below 2^64 |
| Order.NumericOrder | src/decimal.cpp:23-47 | for such values the comparison gives less exactly when the value is less, and greater exactly when it is greater |
| Order.FractionDecides | src/decimal.cpp:36-46 | with equal integer parts, the first differing digit of the padded fractions decides |
| ComparisonLaws.ParsedCompareAsNumbers | src/decimal.cpp:23-60 | a parsed decimal is less, or greater, exactly when the number of its token is, and equal exactly when the views are |
| View.CutIsFloor | src/decimal.cpp:74-95 | integer digits and fraction cut or padded to p digits read floor(value * 10^p) |
| Printer.StrParts | src/decimal.cpp:74-95 | printing gives integer part, point and exactly p fraction digits |
| Printer.DigitStream | src/decimal.cpp:119-143 | the printed digits without leading zeros are the numeral of floor(value * 10^p) |
| Printer.PrintThenParse | src/decimal.cpp:74-95 | reading back a print gives the value rounded down to p digits, and the value itself if and only if no digit lies behind the p-th |
| Printer.ShortPartsDoNotWrap | src/decimal.cpp:10-17 | parts of at most 19 digits never wrap |
| ChecksumExample.ChecksumOfThousand | test/unit/decimal_test.cpp:88 | the checksum of the digits of 1000.00000000 is the expected one |
| ChecksumExample.WrappedDigitsDiffer | src/sides.cpp:45-50 | 18446744 and 10000000 lead to different checksums, whatever is fed behind them |
| Crc32.ProcessInjective | src/sides.cpp:45-50 | registers that differ still differ after the same text |
| Crc32.DigitByte | src/decimal.cpp:128-136 | the byte fed for a digit is its character code |
| ChecksumExample.CheckValue | src/sides.cpp:45-50 | the digits 1 to 9 make the check value of CRC-32, 0xCBF43926 |
| Crc32.ProcessConcat | src/sides.cpp:45-50 | feeding two texts in turn is feeding their concatenation |
| OrderedMap.UpsertLookup | include/sides.hpp:80-92 | a quote keeps the side sorted and changes the level of its own price only: removed, re-quantified, or inserted even with quantity zero |
| OrderedMap.ApplyAllLookup | include/sides.hpp:80-92 | after all quotes the side is sorted and each price ends as its own quotes, in order, say |
| OrderedMap.LatestQuantity | include/sides.hpp:80-92 | a surviving quoted price has its latest quantity; a zero level comes from a zero quote that found its price absent; a removed price from a zero quote that found it present |
| OrderedMap.OrderDoesNotMatter | include/sides.hpp:75-98 | quotes of pairwise different prices leave the same side in any order |
| OrderedMap.SameLookupsSameLevels | include/sides.hpp:18-19 | a sorted side is determined by what its prices look up |
| OrderedMap.InsertAllLookup | src/sides.cpp:17-22 | a snapshot's side holds, in order, the first quote of every price |
| Truncation.RunAgrees | include/sides.hpp:75-98 | over any run of updates, the cut side equals the uncut one on as many first levels as the margin, computed from the cut side alone, says |
| Truncation.TruncationIsSafe | include/sides.hpp:93-97 | after at most D quotes of zero quantity the first depth - D levels are those of the uncut side |
| Truncation.TruncationBoundIsTight | include/sides.hpp:93-97 | from any side of more than depth levels, depth - 9 zero quotes leave nine levels where the uncut side has ten |
| SidesModel.Sides.AcceptSnapshot | src/sides.cpp:17-22 | replaces both sides, uncut, then compares the checksum; the new sides stay when it fails |
| SidesModel.Sides.AcceptUpdate | src/sides.cpp:24-28 | applies and cuts bids and asks, then compares the checksum; the new sides stay when it fails |
| SidesModel.Sides.ApplyUpdate | include/sides.hpp:75-98 | the loop over the quotes and the final cut compute the fold of the quotes and its best depth levels |
| SidesModel.Sides.InsertQuotes | src/sides.cpp:19-20 | range insertion keeps the first quote of a price |
| SidesModel.Sides.Crc | src/sides.cpp:45-50 | the checksum is that of one text: what the ten best asks, then the ten best bids, print in place; none when one of these prints leaves its buffer |
| SidesModel.Sides.UpdateChecksum | include/sides.hpp:57-73 | the loop feeds what price and quantity of the first ten levels print in place at their precisions, unless a print leaves its buffer |
| SidesModel.Sides.FeedDecimal | src/decimal.cpp:119-143 | a decimal with the element's buffer and view processes itself |
| SidesLaws.MessagesKeepSidesValid | src/sides.cpp:17-28 | snapshots and updates leave both sides sorted with unique prices, updates at most depth levels |
| ChecksumLaws.ChecksumOfBook | src/sides.cpp:45-50 | between padded decimals whose prints fit, the checksum is the CRC-32 of the numerals of floor(value * 10^precision) of price and quantity of the ten best asks from the best on, then of the ten best bids |
| ChecksumLaws.AsksBeforeBids | src/sides.cpp:45-50 | whatever the buffers, the text is that of the asks alone, then that of the bids alone |
| ChecksumLaws.ChecksumOfTwoLevels | src/sides.cpp:45-50 | for one ask and one bid: ask price, ask quantity, bid price, bid quantity |
| SidesLaws.ChecksumOfBest | src/sides.cpp:45-50 | books of the same precisions that agree on the ten best levels, buffers included, have the same checksum |
| SidesLaws.ChecksumWithinMargin | include/sides.hpp:75-98 | the checksum is that of an unlimited book while both margins are ten levels |
| SidesLaws.TruncationKeepsChecksum | include/sides.hpp:75-98 | in particular while each side was sent at most depth - 10 zero quotes |
| SidesLaws.BoundShowsInText | include/sides.hpp:93-97 | with depth - 9 zero quotes for the best asks, the text of the checksum lacks the digits of the tenth ask |
| SidesLaws.SpellingKeepsNumbers | include/sides.hpp:57-98 | messages that differ in spelling leave books that differ in spelling |
| SidesLaws.ChecksumOfNumbers | include/sides.hpp:57-73 | between padded decimals whose prints fit, the checksum depends on the values only |
| SidesLaws.PaddingIsNeeded | include/sides.hpp:57-73 | a copy of 0.18446744073709551616 in the place of one of 0.1 leaves the values of a book and changes its checksum |
| SidesLaws.MessagesKeepSound | include/sides.hpp:75-98 | messages of padded decimals whose prints fit leave only such decimals in both sides |
| LevelBookModel.LevelBook.AcceptPair | src/level_book.cpp:17-38 | creates an empty book for a new symbol; replaces changed precisions, keeping the levels |
| LevelBookModel.LevelBook.AcceptBook | src/level_book.cpp:40-55 | changes the book of the message's symbol only; reports unknown symbol, bogus type or bad checksum, the last after the change |
| LevelBookModel.LevelBook.Crc | src/level_book.cpp:57-64 | the checksum of a known symbol's sides, none for an unknown one |
| MessageLaws.UpdateMeans | src/sides.cpp:24-28 | after an update, on each side, a price without quote keeps its level, a quoted one ends with its last quantity, a single quote removes, changes or inserts its level, and only depth better levels keep one out |
| MessageLaws.SnapshotMeans | src/sides.cpp:17-22 | after a snapshot each side holds, in order, the first quote of every price it names for that side, and nothing else |
| MessageLaws.OutcomeMeans | src/level_book.cpp:40-55 | accepted exactly for a known symbol, one of the two kinds, and the checksum of the book that is left; an unknown symbol or kind leaves all books alone |
| MessageLaws.PairMeans | src/level_book.cpp:17-38 | a pair gives a new symbol an empty book, and a known one its precisions with all levels kept |
| MessageLaws.RulesAreNumeric | include/sides.hpp:18-19 | for integer parts below 2^64 asks ascend and bids descend in value, and a quantity removes a level exactly when its value is 0 |
| MessageLaws.SidesAreOrdered | include/sides.hpp:18-19 | so asks are in ascending and bids in descending order of value |
| LevelBookModel.RunIsCurrent | src/level_book.cpp:17-55 | after any run without rejection, every symbol named by a pair has a sorted book of the latest precisions, whose checksum is the last confirmed one unless its precisions changed since |
| LevelBookModel.MessagesAreLocal | src/level_book.cpp:17-55 | a message leaves other symbols alone and drops none |
| RefdataModel.Refdata.Accept | src/refdata.cpp:6-13 | the loops store the latest asset and pair of each key |
| RefdataModel.LookupIsLatest | src/refdata.cpp:6-26 | after an instrument message a symbol is looked up with the precisions of its last pair in that message, or as before when the message does not name it |
| RefdataModel.LatestAssetIsKept | src/refdata.cpp:7-9 | likewise the last asset of an id is kept, and no other changes |
| RefdataModel.PairsKeepAgreement | kdr_record/kdr_record.cpp:102-113 | instrument messages keep reference data and level book on the same symbols and precisions |
| RefdataModel.BooksKeepAgreement | kdr_record/kdr_record.cpp:117-121 | so do book messages; the sink accepts a book row only for a symbol the level book knows |
| BookSinkModel.BookSink.Accept | parquet/src/book_sink.cpp:49-98 | appends exactly the message's printed row, or throws unchanged for an unknown symbol; the columns stay aligned; batches it triggers have 4096 rows |
| BookSinkModel.PrintBookMeans | parquet/src/book_sink.cpp:59-93 | that row has every field of the message, and each price and quantity as integer digits, point and as many fraction digits as its precision, reading floor(value * 10^precision) |
| BookSinkModel.BookSink.AppendRow | parquet/src/book_sink.cpp:59-95 | each column gets its own field of the message, the list columns of bids and asks their lengths, prices and quantities |
| BookSinkModel.BookSink.AppendQuotes | parquet/src/book_sink.cpp:69-76 | the list builder gets the length, the value builders the printed prices and quantities |
| BookSinkModel.BookSink.Flush | parquet/src/book_sink.cpp:100-126 | moves all buffered rows into one more batch |
| BookSinkModel.BookSink.Close | parquet/src/book_sink.cpp:41-47 | afterwards the file holds every accepted row in order |
| BookSinkModel.WithRowAdds | parquet/src/book_sink.cpp:59-93 | appending to every column adds one row and leaves the others, with their nested lists, unchanged |
| TradeSinkModel.TradeSink.Accept | parquet/src/trade_sink.cpp:22-54 | records the trades before the first unknown symbol, each with every field of its own and with price and quantity cut to its pair's price and quantity precision; on a throw they stay buffered, aligned and unflushed; the threshold is 4096 rows |
| TradeSinkModel.TradeSink.AppendRow | parquet/src/trade_sink.cpp:34-47 | each column gets its own field of the row |
| TradeSinkModel.TradeSink.Flush | parquet/src/trade_sink.cpp:56-85 | moves all buffered rows into one more batch |
| RecorderModel.Recorder.AcceptInstrument | kdr_record/kdr_record.cpp:102-113 | the new state of files, reference data and books after an instrument message |
| RecorderModel.Recorder.AcceptBook | kdr_record/kdr_record.cpp:117-121 | records first, then applies; a message the level book rejects has been recorded |
| RecorderModel.Recorder.AcceptTrades | kdr_record/kdr_record.cpp:124-127 | touches the trade file only |
| EngineModel.Engine.HandleBook | src/engine.cpp:171-174 | queues the message at the back |
| EngineModel.Engine.OnProcessTimer | src/engine.cpp:223-249 | delivers the first min(64, n) queued messages in order; a rejected one ends the tick and stays at the front |
| EngineModel.Engine.HandleEvent | src/engine.cpp:63-110 | one arrival or tick is one step of the queueing machine, failing where that does |
| EngineModel.Engine.HandleEvents | kdr_record/kdr_record.cpp:239-257 | any sequence of arrivals and ticks is a run of the queueing machine |
| Queueing.QueueRefinesSync | src/engine.cpp:131-249 | a queueing machine whose immediate messages commute with deliveries refines handling on arrival, for every interleaving |
| Queueing.DrainedAfter | src/engine.cpp:223-249 | without arrivals the queue is empty after exactly ceil(n / 64) ticks and no sooner |
| Queueing.DeliveredThenQueued | src/engine.cpp:171-249 | delivered then queued is what arrived, in order |
| EngineLaws.InstrumentPassesBook | kdr_record/kdr_record.cpp:102-121 | an instrument message that changes no known precision and an accepted book message commute |
| EngineLaws.DeferredRefinesSynchronous | src/engine.cpp:131-249 | if handling on arrival never fails and known precisions stay, every interleaving succeeds and, once the queue is empty, ends with the same books, reference data and rows |
| EngineLaws.PrecisionChangeShows | src/engine.cpp:165-174 | a message with quotes delivered behind a change of its precisions is recorded differently |
| EngineLaws.RunKeepsAgreement | kdr_record/kdr_record.cpp:102-121 | after any run that fails nowhere, also when precisions change, reference data and level book know the same symbols at the same precisions |
| EngineLaws.HandledBooksAreRecorded | parquet/src/book_sink.cpp:49-98 | the rows are the books, in order, each printed at the precisions of the last pair of its symbol before it |
| EngineLaws.PrefixIsRecorded | src/engine.cpp:171-249 | whenever the engine stops, the rows are the prints of a prefix of the arrived books at the precisions in force when each was delivered, and the rest is queued |
| EngineLaws.StablePrefixIsRecorded | src/engine.cpp:171-249 | with stable precisions each of these rows is its book printed at the precisions known at the end |
| RecordLaws.InstrumentMeans | kdr_record/kdr_record.cpp:102-113 | an instrument message adds its assets and pairs to their files in order, and the last of each is what is known then |
| RecordLaws.BookMeans | kdr_record/kdr_record.cpp:117-121 | a book message of a known symbol adds its row, also when the level book then rejects it; one of an unknown symbol changes nothing |
| RecordLaws.TradesMean | kdr_record/kdr_record.cpp:124-127 | a trade message adds the rows of its trades before the first unknown symbol, and changes nothing else |
| RecordLaws.ArrivedTradesAreRecorded | parquet/src/trade_sink.cpp:22-54 | after any run that fails nowhere the trade rows are the trades that arrived, in order, with all their fields, at the precisions their symbols had on arrival, whatever the queue of books did |
| RecordLaws.DeliveredRowsMean | parquet/src/book_sink.cpp:49-98 | after such a run each book row has all fields of its delivered message, at the precisions in force then |
| ReplayModel.Extract | test/check_book.cpp:19-39 | reads the quotes of one recorded list, throwing when a text does not parse |
| ReplayModel.ReplayBatch | test/check_book.cpp:185-206 | applies the rows of a batch in order, stopping at the first failure |
| ReplayModel.CheckBook | test/check_book.cpp:63-208 | the whole replay: all pairs, then all rows |
| SpellingLaws.SpellingOfRunDoesNotMatter | src/level_book.cpp:17-55 | runs of padded decimals whose prints fit, differing in spelling only, are accepted alike and end with the same values and checksums |
| SpellingLaws.SoundRunStaysSound | src/level_book.cpp:17-55 | after any run of messages of padded decimals whose prints fit, every book holds only such decimals |
| SpellingLaws.SoundMessageDoesNotOverrun | src/sides.cpp:35-50 | checking the next such message reads behind no buffer |
| ArrivalLaws.SpellingOfTokensDoesNotMatter | src/book.cpp:8-13 | the same from the tokens on: runs whose tokens differ in leading and trailing zeros are accepted alike and end with the same values and checksums |
| ArrivalLaws.TokensOfEqualValue | src/book.cpp:8-13 | lists of tokens of equal values that do not wrap parse to padded quotes of equal values |
| ArrivalLaws.OrdinaryMessageIsRecordable | src/book.cpp:8-13 | a message of tokens with at most 19 integer digits and no more fraction digits than a precision of at most 19 parses to a recordable one |
| ReplayLaws.BookReadsBack | parquet/src/book_sink.cpp:49-98 | a recordable message reads back from its row up to spelling, in padded decimals that fit |
| ReplayLaws.OrdinaryIsRecordable | src/decimal.cpp:74-95 | so does the copy of any token of at most 19 integer digits and no more fraction digits than a precision of at most 19 |
| ReplayLaws.RecordingReplays | test/check_book.cpp:160-208 | the recording of any successful run with stable precisions and recordable decimals replays: every checksum is confirmed and the sides end numerically equal |
| ReplayLaws.EngineRecordingReplays | test/check_book.cpp:160-208 | the same for the engine stopped at any moment, whatever is still queued |
| ReplayLaws.CloseAndCheck | test/check_book.cpp:63-208 | closing the file and running the replay succeeds with the live book's numbers |
| ReplayLaws.RecordAndCheck | kdr_record/kdr_record.cpp:239-262 | the whole way: the engine handles any arrivals and ticks, the file is closed, and the replay ends with the live book's numbers |
| ReplayFailure.WrappedRecordingDoesNotReplay | test/check_book.cpp:160-208 | a snapshot with 0.18446744073709551616, and the checksum the recorder computes for it, is accepted and recorded, and its replay is rejected |

## Left out

- Websocket, TLS, timers' re-arming, signals, logging, request ids and metrics: plumbing; only arrivals and ticks remain.
- JSON and configuration parsing: messages start from tokens that are already split; `capture_book` and `capture_trades` are taken to be on.
- Arrow and Parquet encoding, null bits, struct validity and file writing: a builder is a sequence, a flush moves it into a batch.
- Timestamps: opaque integers.
- `double_value` and the JSON rendering of books, trades and sides: formatting only.
- The map elements of a side are values with the buffer they hold: the point that printing writes behind a view is not kept in the side; `Buffers.DotNeverShows` proves that it changes no view, print or comparison.
- SidesModel.Sides.Crc: ends with none where a print would leave its buffer; what the source then reads is undefined and not modelled.
- SidesModel.Sides.FeedDecimal: works on a decimal made from the element's buffer and view, not on the map node itself.
- Decimals.Decimal.StrView: requires that the print stays inside the 48 characters, or inside the shared constant for a zero that was not copied; beyond that the source reads undefined memory.
- SidesLaws.BoundShowsInText: says that the text lacks the tenth level; two texts of different length may still have one checksum. It is stated for asks only.
- Decimals.Decimal.FromToken: a Dafny constructor cannot fail, so the throwing constructor is a static method that returns a result.
- SidesModel.Sides.ApplyUpdate: the ordered map is a sorted sequence, so iterators and their invalidation are not modelled; the depth is a natural number (the source's invalid depth -1 would mean no cut).
- Precisions are natural numbers; the source only asserts that they are not negative.
- Crc32.ProcessByte: gives the byte codes of digits only, since nothing else is ever fed.
- RecorderModel.Recorder.AcceptInstrument: the asset and pair files are the sequences of recorded entries, without their remaining columns, which one field stands for.
- A process that ends by an uncaught exception may lose buffered rows; the model says what is buffered, not whether it is written then.
