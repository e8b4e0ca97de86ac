# Verification of switcher-c

switcher-c is an I/O server for the Raspberry Pi. It reads an INI file into a table of busses and
devices, initialises the expander chips behind them, and then answers URIs such as `/0/1.3/1` by
register traffic on I2C and SPI. This project models the parser, the configuration builder, the URI
tokeniser, the request engine with its drivers, and the life of every heap block, and proves what each of
them is for. `dafny verify dfyconfig.toml` checks the whole project.

## How the model is laid out

Code that changes things step by step is a Dafny method over arrays and objects. Each such method is proved
equal to a pure function, and the theorems are about these functions: over every input, every run and every
schedule of bus faults. `Server.RunProgram` at the end is the program as code, with the theorems as its
contract.

| files | what they model |
|---|---|
| `CString`, `Bits`, `Numbers`, `Numerals`, `Options` | C strings in buffers, bitwise operators on binary expansions, `strtol`, `strtoul`, `%d`, `%x`, and which texts are numbers |
| `IniGrammar`, `IniParser`, `IniReport`, `IniDocument`, `IniLayout`, `IniErrors` | the INI dialect, the in-place parser, its return code, printed documents, layout and malformed lines in any file |
| `Config`, `ConfigInvariants`, `ConfigRoundTrip`, `ConfigText`, `IoExt` | the builder of the table, its counters, both round trips, and the file config/io_ext.ini to the letter |
| `Uri`, `Json`, `Replies` | the nested `strtok_r` cursors over one buffer, requests, replies |
| `Chips`, `I2cLinux`, `IoTable` | chips with arbitrary faults, the slave selection of a bus, the table |
| `Drivers`, `DriverCode`, `IoRequests`, `PerformIo` | drivers and `perform_io`, as functions and as code |
| `Transfers`, `Rejections` | what a request is answered, from the outcomes of its transfers and from the characters of its URI |
| `Mcp23017`, `Runs`, `Caches`, `Piface`, `Pcf8574`, `Http`, `SubDevices` | the direction cache, isolation, the caches of a whole table, the PiFace as a memory, the port of a PCF8574, SET then GET, replies to sub-device reads |
| `Lifecycle`, `LifecycleCode`, `Program`, `Server` | ownership of blocks, order of driver calls, the whole program |

A C byte is a `char`. A chip carries its own schedule of transfer outcomes (done, failed and lost, failed
but landed) and of pin levels; a statement for every chip is a statement for every behaviour of the bus.
`long` is 32 or 64 bits wide, and every result holds for both.

Some functions also give a result where the C code has undefined behaviour, so that runs are total: the builder
rejects an entry outside the table, and opening an I2C bus that has no data does nothing. Every method and
every theorem about parsing into the table, ownership or whole programs requires that this does not happen
(`Config.AllLegal`, `Lifecycle.Openable`); `ConfigInvariants.LegalIffWithin` says in terms of section names
when it does not.

## Where the code and its documentation differ

- `include/ini.h` promises the line number of the first error. The code returns the index of an `fgets`
  chunk, so a line that does not fit the buffer of 200 bytes counts several times. `IniReport.ErrorIsLineNumber` says
  exactly when the two agree, `IniReport.LongLineShiftsLineNumber` gives a file on which they do not.
- `perform_io` reports an invalid sub-device index of a read, and then overwrites that reply with the
  success reply (src/io.c:190-193). `SubDevices.BadSubNeverReported` shows that no request is ever answered
  with the report, `SubDevices.ReadReply` what it is answered with, `SubDevices.InvalidSubDeviceUri` one URI.
- `parse_config` fails only if the file cannot be opened; rejected entries do not fail it (src/parse_config.c:134).
- A second parameter for a bus or a device drops the block of the first, which is never freed
  (`Program.SecondFileLeaks` gives a file). `ConfigInvariants.OneParameterLosesNothing` and
  `Program.OwnershipOfFile` say that this happens exactly when a bus or a device has more than one parameter
  behind its bus type.
- `conf_init` does not clear the drivers of busses, so it makes an empty table only from one without them
  (`LifecycleCode.ConfInitCode`).

## Model

| member | source | states |
|---|---|---|
| `CString.RTrimSpec` | src/ini.c:24-30 | a trimmed text does not end in whitespace, and only whitespace was removed |
| `CString.RTrimUnique` | src/ini.c:23-30 | the text that ends in a non-blank and is followed by blanks only is the trimmed one |
| `CString.LTrimSpec` | src/ini.c:33-38 | a skipped text does not start with whitespace, and only whitespace was skipped |
| `CString.LTrimUnique` | src/ini.c:32-38 | the text that starts with a non-blank behind blanks only is the skipped one |
| `CString.Strncpy` | src/ini.c:56 | copies through the NUL, pads with NULs, writes nothing beyond the size |
| `IniGrammar.FindSpec` | src/ini.c:43-51 | the scan ends at the first sought character or `;` behind whitespace, or at the end |
| `IniGrammar.FindUnique` | src/ini.c:40-51 | that position is the only one with these properties |
| `IniParser.File.Fgets` | src/ini.c:91 | delivers the next chunk of the file, NUL-terminated, and nothing else of it; fails only at the end |
| `IniParser.Rstrip` | src/ini.c:24-30 | the buffer holds the trimmed text, and no byte outside the text has changed |
| `IniParser.Lskip` | src/ini.c:33-38 | the pointer is at the skipped text inside the buffer |
| `IniParser.FindCharOrComment` | src/ini.c:43-51 | the pointer is where the grammar's scan ends |
| `IniParser.Strncpy0` | src/ini.c:54-59 | the destination holds at most its length minus one characters, always terminated |
| `IniParser.SkipBom` | src/ini.c:94-101 | three bytes are skipped exactly on chunk 1 that starts with a byte order mark |
| `IniParser.SectionLine` | src/ini.c:115-127 | a closed heading sets the section, cut to 49 characters, and forgets the name; an open one changes nothing |
| `IniParser.FindSeparator` | src/ini.c:129-133 | finds `=`, and `:` only if there is no `=` before a comment |
| `IniParser.PairLine` | src/ini.c:128-144 | after the in-place cuts the two pointers hold the grammar's name and value |
| `IniParser.CutPair` | src/ini.c:135-141 | the four NUL writes leave name and value side by side, neither disturbing the other |
| `IniParser.ParseItem` | src/ini.c:104-152 | a line in the buffers does to section, name, error and handler what its item does |
| `IniParser.ParseChunk` | src/ini.c:92-152 | one turn of the loop is one step of the fold |
| `IniParser.ParseFile` | src/ini.c:62-160 | refinement: for every file, NULs included, every handler and every user data, the result is that of the pure fold over the chunks |
| `IniReport.ChunksCoverFile` | src/ini.c:91 | the chunks concatenate to the file, each fits the buffer, and one that ends no line fills it or is the last |
| `IniReport.ChunksJoin` | src/ini.c:91 | the chunks of whole lines and of what follows them do not influence each other |
| `IniReport.FirstError` | src/ini.c:111-151 | the result is 0 iff no chunk fails, and k+1 iff chunk k is the first that fails |
| `IniReport.ErrorDoesNotStop` | include/ini.h:29-31 | an earlier error changes nothing but the number: all later chunks are processed alike |
| `IniReport.ErrorIsLineNumber` | include/ini.h:29-31 | for the first failing chunk: the number is at least the line number, and equals it iff every chunk before ends its line |
| `IniReport.ChunksAreLines` | include/ini.h:63-66 | the chunks are the lines iff every line fits the buffer |
| `IniReport.FittingFileReportsLine` | include/ini.h:29-31 | in a file whose lines fit, the number is the line number |
| `IniReport.LongLineShiftsLineNumber` | src/ini.c:91-92 | a file of one line whose error is reported on line 2 |
| `IniDocument.NotFound` | src/ini.c:43-51 | a bracket or separator is found iff one stands before a comment |
| `IniDocument.SeparatorFound` | src/ini.c:129-133 | the separator of a printed entry is the one that is found, for `=`, and for `:` with any `=` in the comment |
| `IniDocument.ValueOf` | src/ini.c:137-141 | padding, trailing blanks and a comment are removed from around a value, and nothing of the value |
| `IniDocument.LineItem` | src/ini.c:94-152 | every well-formed line, behind a byte order mark or not, is read as what it stands for |
| `IniDocument.DocumentRoundTrip` | src/ini.c:62-160 | the parser makes on a printed document exactly its calls, in order, continuations under the last name, sections and continued names cut to 49 characters; the result is 0 iff all are accepted |
| `IniDocument.LayoutIrrelevant` | src/ini.c:91-153 | well-formed documents with the same entries, whatever their layout, comments and blank lines, are the same to every handler |
| `IniLayout.InsertIgnored` | src/ini.c:102-106 | a blank or comment line may be put in front of any line of any file, the first included if no byte order mark precedes it: same calls, same data, and an error behind it moves down by one |
| `IniLayout.TrailingSpaceIgnored` | src/ini.c:102 | whitespace at the end of any line of any file, the last without a newline included, changes nothing while the line fits |
| `IniLayout.LineRestyled` | src/ini.c:94-152 | one line of any file may be replaced by any well-formed line that stands for the same, the rest of the file being anything |
| `IniLayout.EntryRestyled` | src/ini.c:128-147 | in particular a pair may be padded, separated and commented in any way |
| `IniLayout.WhitespaceTable` | src/ini.c:27 | the six characters that are trimmed |
| `IniLayout.CrlfIgnored` | src/ini.c:102 | a file with CR LF line ends makes the same calls and gives the same result as with LF |
| `IniErrors.HeadingMalformed` | src/ini.c:117-126 | a heading is malformed iff no `]` closes it before a comment |
| `IniErrors.PairMalformed` | src/ini.c:130-151 | any other line is malformed iff it has no `=` and no `:` before a comment |
| `IniErrors.BrokenLine` | src/ini.c:116-151 | in any file a malformed line makes no call, leaves section and name as they are, and is the reported line unless an earlier one is |
| `IniErrors.UnclosedHeading` | src/ini.c:116-126 | in particular a heading without `]`: the section stays and the line is reported |
| `IniDocument.RunFeeds` | src/ini.c:91-153 | what the handler's data becomes is determined by the sequence of calls |
| `IniDocument.CallsIgnoreHandler` | src/ini.c:91-153 | which calls are made does not depend on the handler |
| `Numbers.DigitsRoundTrip` | src/http.c:139-147 | printed digits are digits of the base, and their value is the number |
| `Numbers.DecimalRoundTrip` | src/http.c:209-219 | every 32-bit index printed with %d is read back by strtol, with nothing left over |
| `Numbers.HexRoundTrip` | src/http.c:249-259 | every 32-bit value printed with %x is read back by strtoul, with nothing left over |
| `Numerals.DigitTable` | src/http.c:139-147 | which characters are digits in which base, their values in either case, and which are printed |
| `Numerals.CompleteIsNumeral` | src/http.c:214-217 | strtol and strtoul leave nothing behind iff the text is blanks, a sign, for base 16 a prefix, and digits to the end |
| `Numerals.TailIsNoNumeral` | src/http.c:230-233 | a character behind the digits is left behind |
| `Numerals.StrtolValue` | src/http.c:212 | the number if a long holds it, else the nearest long |
| `Numerals.StrtoulValue` | src/http.c:252 | the magnitude, negated behind a minus, or the greatest unsigned long |
| `Numerals.NumeralValue` | src/http.c:209-259 | every 32-bit number in any spelling is stored as what it says |
| `Numerals.UpperCaseValue` | src/http.c:252 | upper-case hexadecimal digits have the same value |
| `Uri.TokensCons` | src/http.c:171-203 | delimiters, a token and a delimiter or the end: the token comes first, the others are those of the rest |
| `Uri.NoTokens` | src/http.c:171-203 | a text has no token iff it consists of delimiters |
| `Uri.StrtokR` | src/http.c:171-203 | returns the first token, terminated in place; the saved rest has the other tokens; no byte outside the text is written |
| `Uri.ParseBus` | src/http.c:209-219 | stores the number, and succeeds iff the whole token was one |
| `Uri.ParseDev` | src/http.c:221-247 | the inner cursor reads device and sub-device and writes inside its token only |
| `Uri.ParseValue` | src/http.c:249-259 | stores the low 32 bits of the hexadecimal number, and succeeds iff the whole token was one |
| `Uri.ParseStage` | src/http.c:174-201 | a stage keeps the text behind its token intact for the outer cursor |
| `Uri.ParseUri` | src/http.c:156-207 | the two cursors over one buffer do not interfere: the result is the meaning of the path components |
| `Uri.RequestKind` | src/http.c:156-207 | GET iff exactly two components and both parse, SET iff three or more and the first three parse, error otherwise; and with which numbers |
| `Numerals.RequestOfUri` | src/http.c:156-207 | the kind of a request, read off the characters of its URI |
| `Uri.DevTokenRoundTrip` | src/http.c:221-247 | a printed device token, with or without sub-device, is read back |
| `Uri.UriRoundTrip` | src/http.c:156-259 | for all 32-bit indices and values the printed URI is the same request again |
| `Rejections.NotUnderstood` | src/http.c:103-106 | a URI is a request iff its components are numbers to the last character; any other is answered "Invalid request type" and changes nothing |
| `Rejections.TailIsError` | src/http.c:214-217 | one character behind a bus index or a value is enough |
| `Rejections.DevTailIsError` | src/http.c:230-243 | and behind a device or sub-device index |
| `Rejections.LetterBehindDigit` | src/http.c:230-233 | `/0/1x` is answered "Invalid request type" |
| `Rejections.SpellingsOfValue` | src/http.c:252 | `ff`, `FF` and `0xFf` are 255, and 255 is printed `ff` |
| `Json.JsonFits` | src/http.c:139-147 | no reply to a request of 32-bit parts is truncated or contains a NUL |
| `Json.IoDataToJson` | src/http.c:139-147 | the buffer holds the whole reply |
| `Json.ErrorToJson` | src/http.c:149-154 | the buffer holds the whole message |
| `Replies.ReplyText` | src/http.c:141-146 | one reply to the letter |
| `Replies.ErrorText` | src/http.c:151-153 | one error to the letter |
| `Replies.ReplyTellsValue` | src/http.c:141-146 | replies to one request differ iff their values do |
| `Http.HttpRequestHandler` | src/http.c:81-121 | the reply is that of parsing the URI and performing the request, and the world changes as it says |
| `Http.HandlePrinted` | src/http.c:90-102 | a printed request is handled as that request |
| `Http.SetThenGet` | src/http.c:81-121 | after a SET to a PiFace and any requests to other devices, GET replies the value modulo 256, or 1 or 0 for one pin |
| `Pcf8574Properties.SetStores` | src/pcf8574.c:19-26 | the port holds the value modulo 256 if the transfer landed, and what it held if it was lost |
| `Pcf8574Properties.GetShows` | src/pcf8574.c:29-38 | a bit of the reply is high iff its latch and the level outside are; the port is unchanged |
| `Pcf8574Properties.SetBitReplaces` | src/io.c:145-172 | a bit write replaces one bit of what the port showed |
| `Pcf8574Properties.PcfSetThenGet` | src/io.c:116-198 | after a SET to a PCF8574 with floating pins and any requests to other devices, GET replies the value modulo 256, or 1 or 0 for one pin |
| `SubDevices.ReadReply` | src/io.c:174-194 | a read that the device answers is replied with the bit for index 0 to 31, and with the whole value for -1 and every other index; the exact condition for the whole value |
| `SubDevices.BadSubNeverReported` | src/io.c:188-193 | no request is ever answered that its sub-device index is invalid |
| `SubDevices.InvalidSubDeviceUri` | src/io.c:188-193 | `/0/0.32` to a PiFace is answered with success and the whole value |
| `I2cLinux.WriteByteDataTo` | src/io_i2c_linux.c:84-92 | the transfer reaches the chip of the addressed device, whatever slave was selected before |
| `I2cLinux.ReadByteDataFrom` | src/io_i2c_linux.c:94-109 | the same for a register read; a failure leaves the value alone |
| `I2cLinux.WriteByteTo` | src/io_i2c_linux.c:59-66 | the same for a single byte |
| `I2cLinux.ReadByteFrom` | src/io_i2c_linux.c:68-82 | the same for a single byte read |
| `DriverCode.ConfigureIo` | src/mcp23017.c:42-69 | state and chip end as configuring them does, after any fault; no other chip changes |
| `DriverCode.Mcp23017Write` | src/mcp23017.c:72-103 | chip, cached state, result and message are those of the driver's specification |
| `DriverCode.Mcp23017Read` | src/mcp23017.c:106-140 | the same for reading, with the value |
| `DriverCode.Pcf8574Write` | src/pcf8574.c:19-26 | writes the low byte, and succeeds iff the transfer did |
| `DriverCode.Pcf8574Read` | src/pcf8574.c:29-38 | returns the port, or 0 with a failure |
| `DriverCode.SpiWrite` | src/pfio.c:223-228 | the register named by the port holds the value |
| `DriverCode.SpiRead` | src/pfio.c:230-236 | returns the register and changes none |
| `DriverCode.PfioDigitalWrite` | src/pfio.c:138-158 | one output is set or cleared in what was read back |
| `DriverCode.DigitalWriteBits` | src/pfio.c:143-147 | the written pin has the level asked for, every other output the one it showed |
| `DriverCode.PfioInit` | src/pfio.c:57-119 | from any state: port A drives eight low pins, port B reads with pull-ups; nothing else changes |
| `PerformIo.DriverWrite` | src/io.c:166-169 | dispatch to the device's driver |
| `PerformIo.DriverRead` | src/io.c:176-179 | dispatch to the device's driver |
| `PerformIo.ServeWriteCode` | src/io.c:143-173 | a write, with its read-modify-write, does to the addressed device what the specification says |
| `PerformIo.ServeReadCode` | src/io.c:174-195 | the same for a read |
| `PerformIo.Perform` | src/io.c:116-198 | every request, valid or not, has the specified reply, result and effect |
| `Rejections.BadIndices` | src/io.c:124-141 | which message answers a bad bus, a bad device and a bad command; nothing else happens |
| `Rejections.BadIndicesOfUri` | src/io.c:124-135 | the same from URI to reply |
| `Transfers.WriteOutcome` | src/mcp23017.c:72-103 | a driver writes successfully iff each transfer it needs reaches a chip and is done; it makes none behind a failed one, and complains iff it cannot set the directions |
| `Transfers.ReadOutcome` | src/mcp23017.c:106-140 | the same for reading |
| `Transfers.RequestOutcome` | src/io.c:143-197 | reply, result and number of transfers of every request in range, from the outcomes of its transfers: success, the message for the step that failed, or nothing |
| `Transfers.SuccessIffDone` | src/io.c:166-194 | success is replied iff every transfer needed was done |
| `Bits.SetBit` | src/io.c:157-160 | `v` or `1 << k` has bit k and otherwise the bits of `v` |
| `Bits.ClearBit` | src/io.c:161-164 | `v` without `1 << k` lacks bit k and otherwise has the bits of `v` |
| `Bits.JoinValue` | src/mcp23017.c:127-129 | joining two bytes loses neither |
| `Mcp23017Properties.ConfigureTruthful` | src/mcp23017.c:42-69 | whatever fails, the state afterwards is unknown or that of both direction registers |
| `Mcp23017Properties.ServeTruthful` | src/io.c:143-195 | any request keeps the cached direction truthful, whatever fails |
| `Mcp23017Properties.OperateFaultFree` | src/mcp23017.c:72-140 | without faults an operation succeeds and costs two direction writes iff the cached state changes |
| `Mcp23017Properties.CacheIsTransparent` | src/mcp23017.c:72-140 | any run gives the same results, latches and directions as without the cache, for two direction writes per change instead of per operation |
| `Mcp23017Properties.ReadSamplesInputs` | src/mcp23017.c:106-140 | a successful read is the level of sixteen input pins; no read touches a latch |
| `Mcp23017Properties.WriteLatches` | src/mcp23017.c:72-103 | a successful write leaves its low sixteen bits in the latches of sixteen outputs |
| `Mcp23017Properties.SingleBitWrite` | src/io.c:143-173 | on success the latches are the sampled levels with the one bit replaced; if sampling fails no latch changes |
| `Runs.RunKeepsTable` | src/io.c:116-198 | no run of requests changes the table apart from cached directions |
| `Runs.Isolation` | src/io_i2c_linux.c:37-109 | a request changes neither registers nor state of an I2C device it does not address, if no other device has its address |
| `Caches.RequestTruthful` | src/mcp23017.c:72-140 | one request keeps every cache of the table truthful, unless two MCP23017 share a chip |
| `Caches.AlwaysTruthful` | src/mcp23017.c:42-140 | in every state of every run with arbitrary faults every cached direction is that of the chip |
| `Caches.SharedChipBreaksCache` | src/mcp23017.c:78-82 | two MCP23017 at one address of a working bus: after a write to the one and a read from the other a cache lies |
| `Caches.TruthfulIffNoSharedChip` | src/mcp23017.c:72-140 | the caches of a working table are truthful in all runs iff no two MCP23017 in service share a chip |
| `Runs.NonInterference` | src/io_i2c_linux.c:37-109 | in every interleaving, with arbitrary faults, the requests to a device that has its address for itself get the answers, and it ends in the state, as if they had been made alone |
| `PifaceMemory.WholeWrite` | src/dev_piface.c:35-42 | a whole write sets the cells to the low eight bits |
| `PifaceMemory.BitWrite` | src/io.c:157-168 | a bit write sets one cell and keeps the others; bits 8 to 30 change nothing |
| `PifaceMemory.BitRead` | src/io.c:183-187 | a bit read returns the cell; bits 8 to 31 read 0 |
| `PifaceMemory.ServeIsAccess` | src/io.c:143-195 | a request to a PiFace is an access to eight cells, and always succeeds |
| `PifaceMemory.RunIsMemory` | src/io.c:116-198 | every run, to whatever devices, refines the memory: the PiFace requests see it and no other request touches it |
| `Config.GetBusData` | src/io_i2c_linux.c:133-142 | a fresh block with the device path and no handle |
| `Config.GetBusDevData` | src/io_i2c_linux.c:144-152 | a fresh block with the address, as a byte |
| `Config.BusConfigs.UpdateUserData` | src/parse_config.c:37-54 | the indices move as the change of section says |
| `Config.BusConfigs.ProcessEntries` | src/parse_config.c:56-104 | one entry does to the table and the heap what the specification says |
| `Config.BusConfigs.ParserHandler` | src/parse_config.c:109-122 | the handler is the pure handler that the fold is fed with |
| `Config.AcceptedIsLegal` | src/parse_config.c:109-122 | entries that are all accepted stay within the table |
| `ConfigInvariants.HandleEffect` | src/parse_config.c:56-104 | an entry changes at most the current bus, and its device count iff it names a driver |
| `ConfigInvariants.Counters` | src/parse_config.c:37-54 | over every legal sequence: busses are changes into a bus section, devices changes into a device section since then, counts the driver entries filed |
| `ConfigInvariants.EarlierBussesFrozen` | src/parse_config.c:37-122 | a bus is never modified again once a later one has started |
| `ConfigInvariants.LegalIffWithin` | src/parse_config.c:116-117 | the entries stay within the table iff each is behind a change into one of at most 8 bus sections, and a device entry behind one into one of at most 128 device sections since |
| `ConfigInvariants.OneParameterLosesNothing` | src/parse_config.c:59-97 | no entry overwrites a block iff no bus and no device has more than one parameter behind its bus type |
| `ConfigRoundTrip.HexAddress` | src/io_i2c_linux.c:149 | a printed address is read back |
| `ConfigRoundTrip.BusEntries` | src/parse_config.c:59-74 | the entries of a bus section build that bus next to the finished ones |
| `ConfigRoundTrip.DevEntries` | src/parse_config.c:75-97 | the entries of a device section build that device next to the finished ones |
| `ConfigRoundTrip.ConfigurationRoundTrip` | src/parse_config.c:37-141 | for every configuration and every document with its entries, parsing reports no error and the table is exactly that configuration |
| `ConfigText.PrintedConfiguration` | config/io_ext.ini:1-22 | a configuration printed in the style of this file parses to itself |
| `IoExt.EntryMeaning` | src/parse_config.c:56-104 | the four keywords, the bus type and the driver names, and what each does; any other name is rejected, any other driver ignored |
| `IoExt.FileText` | config/io_ext.ini:1-22 | the lines of the file |
| `IoExt.FileParsed` | config/io_ext.ini:1-22 | parsing the file builds two PCF8574 at 0x20 and 0x38 on /dev/i2c-1, and a PiFace |
| `ConfigText.ParseConfig` | src/parse_config.c:129-141 | fails iff the file cannot be opened; otherwise the table is what the handler builds from a file that stays within it |
| `Lifecycle.AllocAccounted` | src/io_i2c_linux.c:133-152 | storing a new block keeps the books, and loses exactly the block it overwrites |
| `Lifecycle.FreeAccounted` | src/io_i2c_linux.c:154-162 | freeing the block of a place and clearing it keeps the books |
| `Lifecycle.ParseAccounted` | src/parse_config.c:56-122 | parsing entries that stay within the table keeps the books, apart from the lost blocks |
| `Lifecycle.InitBussesAccounted` | src/io.c:67-84 | io_init keeps the books and gives unconfigured data to exactly the MCP23017 devices in range |
| `Lifecycle.DeinitBussesAccounted` | src/io.c:94-111 | io_deinit keeps the books and takes that data back |
| `Lifecycle.DiscardBussesAccounted` | src/io.c:38-58 | conf_deinit keeps the books and releases every pointer of busses with a driver |
| `Lifecycle.SecondDeinit` | src/io.c:32-60 | a second conf_deinit releases nothing |
| `Lifecycle.Ownership` | src/io.c:32-114 | over parse, init, any requests and both deinits every block is freed exactly once, except those a repeated parameter dropped; there are none iff no bus and no device has two |
| `LifecycleCode.InitDevCode` | src/mcp23017.c:31-40 | allocates unconfigured data for an MCP23017, or leaves the PiFace set up with eight low outputs |
| `LifecycleCode.DeinitDevCode` | src/mcp23017.c:147-155 | frees the data of an MCP23017 once and clears the pointer |
| `LifecycleCode.OpenCode` | src/io_i2c_linux.c:111-121 | the bus keeps the handle that opening its device file gave |
| `Lifecycle.InitOpens` | src/io.c:67-74 | after io_init every I2C bus in range holds the handle of its device file, and nothing else of the data of busses has changed |
| `Lifecycle.HandlesKept` | src/io.c:97-110 | no request and no device deinit changes a handle before its bus is closed |
| `LifecycleCode.CloseCode` | src/io_i2c_linux.c:122-132 | the handle in the table is closed, and the table keeps its value |
| `LifecycleCode.InitBusCode` | src/io.c:67-84 | one bus: open, then its devices, with the calls in that order |
| `LifecycleCode.DeinitBusCode` | src/io.c:94-111 | one bus: its devices, then close |
| `LifecycleCode.IoInitCode` | src/io.c:62-87 | table and trace of io_init; a PiFace in range is set up, and otherwise the SPI chip is untouched |
| `LifecycleCode.IoDeinitCode` | src/io.c:89-114 | table and trace of io_deinit |
| `LifecycleCode.ConfInitCode` | src/io.c:10-30 | everything is cleared but the drivers of busses, so the table is empty iff there were none |
| `LifecycleCode.ConfDeinitCode` | src/io.c:32-60 | table and heap after releasing all 8 times 128 places |
| `LifecycleCode.TracesOnce` | src/io.c:62-114 | every call that is due is made exactly once, and no other |
| `LifecycleCode.InitOrdered` | src/io.c:67-84 | in io_init a bus is opened before its devices are initialised |
| `LifecycleCode.DeinitOrdered` | src/io.c:94-111 | in io_deinit a bus is closed after its devices are deinitialised |
| `LifecycleCode.Bracketed` | src/io.c:62-114 | over both: each call once, open before inits before deinits before close of the same handle, for every table |
| `Program.OwnershipOfFile` | src/main.c:91-147 | the same for the text of every file that stays within the table, malformed lines and repeated parameters included |
| `Program.SecondFileLeaks` | src/parse_config.c:61-66 | a file with two `bus_parameter` lines whose first block is still allocated at the end |
| `Program.TableServes` | src/io.c:116-141 | the table of an operational configuration can serve every request with acceptable numbers |
| `Program.WholeProgram` | src/main.c:91-147 | from the text of an operational configuration to shutdown: no parse error, all requests served, caches truthful, every block freed once |
| `Server.FirstRequest` | src/http.c:81-121 | handling one URI and then the others is running all their requests |
| `Server.ServeAll` | src/main.c:122-128 | the replies are those of the requests run one after the other |
| `Server.FirstReply` | src/pfio.c:104-116 | the first GET of a PiFace after the start is answered 0, whatever its latches held before |
| `Server.DeinitCalls` | src/io.c:89-114 | what io_deinit closes is what io_init opened |
| `Server.RunProgram` | src/main.c:91-147 | the program as code, from `conf_init` to `conf_deinit`: table, call order and handles, a set-up PiFace, replies, truthful caches, freed blocks and an empty table |

## Left out

- The mongoose server, HTTP header text, the websocket stub, `print_request` and syslog: a URI goes in, the body of a reply comes out.
- `main` beyond its call order: daemon, signals, PID file and options; `validate_config` and `trace.c` do nothing.
- `open`, `ioctl` and `close`: what opening a device file returns is a parameter, the same for the same path, and transfers do not consult it; a bus that is not open is one on which every transfer fails.
- Failing slave selection: selecting a configured address succeeds, as the code assumes by ignoring its result (src/io_i2c_linux.c:64).
- Two busses of the table on one device file: each bus has its own chips here.
- MCP23017 registers other than directions, ports and latches, and PCF8574 pins beyond a wired-and of latch and level.
- `DriverCode.PfioInit`: assumes that the SPI device opens and that every transfer works; the SPI settings it queries are not used anywhere.
- `LifecycleCode.InitDevCode`: leaves out a failing `malloc`, and the block and file handle that `pfio_init` keeps in one global for all PiFace devices.
- `LifecycleCode.DeinitDevCode`: leaves out the release of that global by `pfio_deinit`.
- `IniParser.ParseFile`: counts lines without the wrap-around of a C `int`; the handler is a pure function of its data, so its in-place update of the table is shown separately in `Config.BusConfigs.ParserHandler`.
- `ConfigText.ParseConfig`: stores the table when parsing ends rather than entry by entry, because the handler is a function value.
- `Config.GetBusData`: leaves out a failing `malloc`; a path of 32 bytes or more has no terminator in C, here it is the first 32 bytes.
- `Config.GetBusDevData`: leaves out a failing `malloc`.
- Files whose entries lie outside the table (a device entry without a device, more than 8 busses or 128 devices), where the C code writes outside it, and I2C busses without `bus_parameter`, where it follows a null pointer.
- `pfio_digital_read`, `pfio_read_input` and `pfio_get_pin_number`: never called by the server.
