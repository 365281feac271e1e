# Serial configuration compiler and telemetry routing

This project models two parts of a cFS-based flight software tree and proves what they are for.

**The serial configuration tool** (`tools/serial-configtool`) is a small compiler. It reads a list of serial
interfaces and writes three C files in independent passes: a header with index enumerations and array sizes, a
header with error codes, and the body of `CFE_SRL_EarlyInit`. The model has

- the configuration and what it means directly: `Interfaces`, `Booting`;
- the script itself, as loops that write to files (`Generator`), against a specification of the three texts,
  character for character (`Emission`, `Lexing`), which in turn is shown to be the strings that the script's write
  statements give for the entries (`Wording`, `Transcript`);
- a lexer and a parser for the emitted subset of C (`Lexing`, `Grammar`), with the round trips in `Reading`,
  `HeaderReading`, `SourceReading` and `ProgramReading`, and of the index comment in `IndexComment`;
- a semantics for the three parsed files together (`Linking`): enumerators, macros, array bounds, declared names,
  and runs against devices that answer each call with any status, which may depend on all calls before;
- when the files define a name twice (`Naming`, `Ambiguity`) and what each name is worth (`Lookup`);
- the main results: `Preservation`, `Diagnosis`, `HandleTable`, `Guarantees`, `Numbering`.

**The telemetry routing of the ground system** (`tools/cFS-GroundSystem`): a service thread that names hosts on
first sight and publishes their datagrams, and a window that keeps a copy of that registry, fed through queued
signals. `Topics` holds the topics and subscriptions, `Routing` the two stateful objects and their step
functions, `Interleaving` all interleavings of the two threads, and `Forwarding` what is published over a whole run
and who hears it.

## What the model takes as given

- Names of ready interfaces are made of C word characters, and upper-casing is ASCII. Where the source is read, their device
  paths can stand between the quotes of a C string literal, escapes included. Keys that only some types need may be absent.
  Numbers are naturals, read as such from their literals; C has no integer type for a literal of 2^64 or more.
- `CFE_SRL_PriorInit`, `CFE_SRL_HandleInit` and `CFE_SRL_GpioInit` are arbitrary: any status, after any history. A successful
  `CFE_SRL_HandleInit` leaves a handle in its slot. Where a result says so, every such call takes an entry of a table of
  fixed size, and fails with none left. C narrows the arguments to the parameter types.
- A host's address is a dotted address, so no host is called "All". The results state what would happen: a datagram from
  such a host would stop the service (`Forwarding.ForwardingConserves`).
- Queued signals arrive in order. A subscriber receives a message if its subscription is a prefix of the topic. The file
  manager itself, Subsystems/fdlGui/FdlSystem.py, is not part of this model; it is taken to subscribe to the text it is passed.
- The packet identifier is the first word of the packet primary header of CCSDS 133.0-B-2, section 4.1.3, and six bytes
  is that header's length.

## Where the code falls short

Each of these is the exact condition under which the code does what it is for; the code is modelled as it is.

- A device path may hold an escape that C does not have (`Preservation.CompilesIff`, `Guarantees.BadEscapeDoesNotCompile`).
- `rs232` and `rs485` are accepted, but the serial module declares no such device type, so the source does not compile
  (`Preservation.ClosedIff`, `Guarantees.Rs232DoesNotBuild`). An unknown type has no index constant (`Lookup.UnknownHasNoSlot`).
- An interface called PRIOR, HANDLE, CSP_CAN, CSP_I2C, CSP, CSP_ROUTE, MUTEX_ATTR or MUTEX (in any case) redefines a
  hand-written error code (`Ambiguity.UnambiguousIff`, `Guarantees.TakenNameDoesNotBuild`).
- A missing key stops the script after both headers are complete and leaves a source that does not parse
  (`ProgramReading.CutSourceDoesNotParse`).
- With more than 20 ready entries the error codes leave the documented band (`Numbering.ReservedBandIff`). With more ready
  general entries than the table of handles has entries, 20 as configured
  (`cfe/modules/srl/config/default_cfe_srl_interface_cfg.h:19`), no boot succeeds: if nothing else fails, the first one too
  many is reported (`Guarantees.TableDecides`, `Guarantees.FullTableReported`). For the same reason handles never share a
  mutex, although a mutex is a slot modulo 256 (`Guarantees.NoMutexShared`).
- Without a ready general entry the type `CFE_SRL_Handle_Indexer_t`, which a header that the source includes uses,
  is missing and nothing compiles (`Preservation.CompilesIff`). Without a GPIO entry the GPIO array has length zero (`Numbering.TableSizes`),
  which ISO C does not allow although common compilers do.
- The window holds names in bytes and formats them without decoding. The topic isolation that the two files aim at
  holds for names as text (`Topics.TopicIsolation`), but what is launched receives nothing
  (`Topics.LaunchedReachesIff`, `Topics.LaunchedFileManagerHearsNothing`). Decoding the names would isolate the telemetry
  system, but not the file manager: spacecraft 1's text would also match 12's topics, since no mark follows the name
  (`Topics.FileSubscriptionReaches`).
- Telemetry pages always name spacecraft 1, and match the identifier by prefix
  (`Topics.PageOfAllReaches`, `Topics.PageOfOneReachesNothing`, `Topics.PageOfLaunchedReachesNothing`).

## Model

| member | source | states |
|---|---|---|
| `Generator.Generate` | tools/serial-configtool/generator.py:5-131 | The three files hold, string by string, what the script writes; it finishes if and only if every ready entry has the keys that its own call prints, which no other key influences; and, for printable configurations, the texts fit together if and only if the configuration is buildable, and also compile with the hand-written headers if and only if, besides, some general entry is ready and the device paths have valid escapes only |
| `Transcript.MissionTextIs` | tools/serial-configtool/generator.py:11-48 | The mission header is the concatenation of the strings that the first pass writes, straight from the entries |
| `Transcript.ErrorTextIs` | tools/serial-configtool/generator.py:52-66 | The error header is the concatenation of the strings that the second pass writes, one code per ready entry from 90 |
| `Transcript.SourceTextIs` | tools/serial-configtool/generator.py:69-129 | The source is the concatenation of the strings that the third pass writes: every call prints its own entry's values, up to the first entry that misses a printed key |
| `Transcript.AllKeysSuffice` | tools/serial-configtool/genfunction.py:21-52 | With every key of every ready entry there, every entry is written in full and the script finishes |
| `Transcript.OtherKeysDoNotMatter` | tools/serial-configtool/genfunction.py:21-52 | No text, nor whether the script finishes, depends on a key that the entry's call does not print: on none for i2c, can, socat and unknown types |
| `Transcript.DeviceTypeIs` | tools/serial-configtool/genfunction.py:23-43 | The device type in a call is the entry's own type in upper case, and that of uart for socat |
| `Text.UpperCharIs` | tools/serial-configtool/genfunction.py:11 | Upper-casing turns a lower-case letter into the one at the same place of the upper-case alphabet, leaves every other character alone, and leaves no lower-case letter |
| `Text.UpperIff` | tools/serial-configtool/genfunction.py:11 | Two texts have the same upper-case form if and only if they have the same length and agree up to the case of letters |
| `Generator.GetGeneralSrlNameArr` | tools/serial-configtool/genfunction.py:6-12 | The loop collects the upper-cased names of the ready entries of the eight general types, in order |
| `Generator.GetGpioNum` | tools/serial-configtool/genfunction.py:14-19 | The loop counts the ready GPIO entries |
| `Generator.WriteMissionHeader` | tools/serial-configtool/generator.py:11-48 | Writing line by line, with the handle and the GPIO loop, ends with the mission header as specified, including its two empty cases |
| `Generator.WriteErrorHeader` | tools/serial-configtool/generator.py:52-66 | Writing with the running offset ends with the error header as specified |
| `Generator.WriteErrorLines` | tools/serial-configtool/generator.py:53-64 | The loop with its own counter gives the k-th ready entry the offset 90 + k |
| `Generator.IndexTableText` | tools/serial-configtool/generator.py:75-80 | The enumerating loop writes the index comment, with a padding row if there is no handle |
| `Generator.WriteCall` | tools/serial-configtool/genfunction.py:21-52 | One entry's remark and call, by type; a missing key stops after the remark |
| `Generator.WriteEntries` | tools/serial-configtool/generator.py:99-126 | The loop over the entries skips what is not ready and stops at the first missing key |
| `Generator.WriteInitSource` | tools/serial-configtool/generator.py:69-129 | Writing ends with the initialisation source as specified, cut short exactly if a key is missing |
| `Lexing.LexSpell` | tools/serial-configtool/generator.py:11-129 | Reading a generated text character by character gives back the tokens it was written from |
| `HeaderReading.MissionHeaderRoundTrip` | tools/serial-configtool/generator.py:11-48 | Whatever else the entries hold, if the ready names are made of C word characters: parsing the mission header text recovers the ordered handle names, the ordered GPIO names and both array sizes |
| `HeaderReading.ErrorHeaderRoundTrip` | tools/serial-configtool/generator.py:52-66 | Under the same condition, parsing the error header text recovers the ordered list of names with offsets from 90 on |
| `ProgramReading.InitSourceRoundTrip` | tools/serial-configtool/generator.py:69-129 | Parsing the source text recovers both arrays and the whole function, statement by statement |
| `ProgramReading.CutSourceDoesNotParse` | tools/serial-configtool/genfunction.py:33-52 | If some ready entry misses a key, the source text left behind does not parse |
| `Emission.UnreadyEntriesAreInvisible` | tools/serial-configtool/generator.py:38-40 | All three texts are, character for character, those of the configuration without its not-ready entries |
| `Naming.IndexersDiffer` | tools/serial-configtool/generator.py:21-63 | The three manglings are injective and their images are disjoint |
| `Ambiguity.HeaderNamesDistinct` | tools/serial-configtool/generator.py:19-63 | The two headers, which are complete even if a key is missing, define no name twice if and only if the ready entries have distinct upper-cased names |
| `Ambiguity.GeneratedNamesDistinct` | tools/serial-configtool/generator.py:19-126 | The same of all three files, if no key is missing: otherwise the source is cut short and defines no function |
| `Ambiguity.UnambiguousIff` | cfe/modules/core_api/fsw/inc/cfe_error.h:1391-1434 | Together with the hand-written error names, nothing is defined twice if and only if the ready names are distinct and none of them is one of the eight taken ones |
| `Preservation.ClosedIff` | tools/serial-configtool/generator.py:99-126 | With distinct names, every name the function uses is declared if and only if every ready type has a device type: one of i2c, spi, can, uart, rs422, socat, gpio |
| `Linking.DeviceTypesAre` | cfe/modules/srl/fsw/src/cfe_srl_basic.h:29-35 | The declared device types are numbered from 1 in the order of the enumeration, and there are no others |
| `Ambiguity.TakenIff` | cfe/modules/core_api/fsw/inc/cfe_error.h:1391-1434 | A generated error name is taken if and only if it is one of the eight such names of the core error header |
| `Linking.OutOfBoundsIsStuck` | tools/serial-configtool/generator.py:74-82 | In the model of a run, a call with an index outside its table does not go on: that programs never get stuck means that no index is out of bounds |
| `Linking.DeadSlotIsStuck` | tools/serial-configtool/generator.py:126 | Nor does a log line that reads a slot without a handle |
| `Linking.UnsetArgumentIsStuck` | tools/serial-configtool/generator.py:116 | Nor does a log line that is passed the status before it has a value |
| `Linking.NoStatusIsStuck` | tools/serial-configtool/generator.py:91-94 | Nor does a test or a return of the status before it has a value, and a function that runs off its end returns nothing |
| `Linking.LiveIff` | cfe/modules/srl/fsw/src/cfe_srl_handle.c:149-150 | A slot becomes readable only by a handle initialisation of that slot that returns 0 |
| `Linking.NothingElseResolves` | tools/serial-configtool/generator.py:90-128 | A name in the function counts as declared only if it is its one variable, one of the three initialisers, the log, the two known members, or resolves to a constant or an array |
| `Linking.OtherMacrosHaveNoValue` | cfe/modules/core_api/fsw/inc/cfe_usr_error_macro.h:43 | A macro applied to a number has a value only if it is the error status macro |
| `Linking.RejectedFiles` | tools/serial-configtool/generator.py:12-57 | Headers without a guard, or files that define something twice, do not count as a program |
| `Preservation.BuildsIff` | tools/serial-configtool/generator.py:5-129 | The three texts parse and, by themselves, make one closed and unambiguous program if and only if the configuration is buildable |
| `Preservation.CompilesIff` | cfe/modules/srl/fsw/src/cfe_srl_priv.h:10-11 | They also compile among the hand-written headers that the source includes if and only if the configuration is buildable, some general entry is ready, and every escape in a ready device path is one that C has |
| `Preservation.MeaningPreserved` | tools/serial-configtool/generator.py:90-129 | For every buildable configuration and all behaviours of the devices, running the program read back from the texts makes the same calls with the same arguments, logs the same lines and returns the same status as the direct boot; it never gets stuck |
| `Lookup.HandleValue` | tools/serial-configtool/generator.py:19-24 | The index constant of a ready general entry is the number of ready general entries before it |
| `Lookup.PinValue` | tools/serial-configtool/generator.py:37-41 | The index constant of a ready GPIO entry is the number of ready GPIO entries before it |
| `Lookup.ErrorValue` | tools/serial-configtool/generator.py:53-64 | The error constant of a ready entry has offset 90 plus the number of ready entries before it |
| `Lookup.UnknownHasNoSlot` | tools/serial-configtool/generator.py:119-126 | An entry of unknown type refers to an index constant that no file declares |
| `Numbering.IndexOfEntry` | tools/serial-configtool/generator.py:19-41 | In the texts of the two headers, for all ready names that are C words and distinct, the index of a ready entry is its place in its own table; an entry of unknown type has none |
| `Numbering.CodeOfEntry` | tools/serial-configtool/generator.py:61-64 | Under the same condition, its error code is 90 plus its place among all ready entries, of whatever type |
| `Numbering.ThreeCounters` | tools/serial-configtool/generator.py:19-64 | Under the same condition, an entry's index counts the earlier ready entries of its own table and its error offset is 90 plus the earlier ready entries of both, although three passes count; keys, device types and taken names do not matter |
| `Numbering.TableSizes` | tools/serial-configtool/generator.py:27-36 | The handle table has one slot per ready general entry but at least one, the GPIO table one per ready GPIO entry, possibly none |
| `Numbering.HandleTypeDeclaredIff` | cfe/modules/srl/config/default_cfe_srl_msgdefs.h:19-42 | The handle index type that other serial headers use is declared if and only if some general entry is ready |
| `Numbering.ReservedBandIff` | cfe/modules/core_api/fsw/inc/cfe_error.h:1381 | Every code that the error header's text defines lies in the band set aside for early initialisation if and only if at most 20 entries are ready |
| `Numbering.KeepsBuildable` | tools/serial-configtool/generator.py:99-126 | A prefix of a buildable configuration is buildable |
| `Numbering.AppendingKeepsNumbers` | tools/serial-configtool/generator.py:19-64 | Appending entries of any type changes no existing index and no existing error code |
| `Numbering.RetiringMendsIff` | tools/serial-configtool/generator.py:99-101 | A configuration in which an entry is not ready is buildable if and only if it is so without that entry |
| `Numbering.RetiringKeepsEarlier` | tools/serial-configtool/generator.py:37-64 | Making a ready entry of any type not ready keeps every number before that entry |
| `Numbering.RetiringShiftsLater` | tools/serial-configtool/generator.py:37-64 | It lowers by one the error offset of every later ready entry and the index of those in the same table; the other table keeps its indices |
| `IndexComment.IndexCommentReads` | tools/serial-configtool/generator.py:74-80 | Read back from the source's text, the first comment with the index's title holds exactly the handles in order, numbered from 0, or the padding row |
| `IndexComment.CommentAgreesWithEnum` | tools/serial-configtool/generator.py:75-80 | Its rows are one per ready general entry, and each gives its name the number of the enumerator in the mission header's text |
| `Diagnosis.FirstFailure` | tools/serial-configtool/generator.py:91-128 | The calls made are exactly those up to the first failure; the result is prior initialisation's own status, or the code of the failing entry's position among the ready entries, or success |
| `Diagnosis.SerialErrorFields` | cfe/modules/core_api/fsw/inc/cfe_usr_error_macro.h:12-43 | As 32 bits an error status has severity 3, no reserve and service bits, mission 1 and the code cut to 16 bits; as a signed number it is negative |
| `Diagnosis.ErrorCodesIdentify` | cfe/modules/core_api/fsw/inc/cfe_usr_error_macro.h:12-43 | Error codes are negative, never success, and two offsets have the same code if and only if they agree modulo 65536 |
| `Diagnosis.SlotsExactlyOnce` | tools/serial-configtool/generator.py:17-47 | A boot without failures initialises the slots 0, 1, ... of each table in this order, once each and none besides |
| `Diagnosis.PriorErrorConfusedIff` | cfe/modules/srl/fsw/src/cfe_srl_handle.c:12-21 | Prior initialisation's own error status is also the code of some ready entry if and only if there are more than 65454 of them |
| `Diagnosis.LogsReadLiveSlots` | tools/serial-configtool/generator.py:126 | On every run a log line reads a slot only after the initialisation of that slot succeeded |
| `Diagnosis.PaddingSlotUntouched` | tools/serial-configtool/generator.py:29-31 | Without a ready general entry no run initialises or reads the padding slot |
| `Guarantees.SuccessIff` | tools/serial-configtool/generator.py:113-128 | A boot returns success if and only if every call succeeds, after making them all |
| `Guarantees.EveryRunIsSafe` | tools/serial-configtool/generator.py:90-129 | The program read back from the texts ends on all behaviours of the devices, returns success if and only if every call succeeds, has then initialised every slot once, and reads no slot that is not initialised |
| `Guarantees.ResultTellsFirstFailure` | tools/serial-configtool/generator.py:113-128 | The first-failure diagnosis, for the program read back from the texts: 0, or prior initialisation's status, or a status of severity 3 and mission 1 whose code is 90 plus the failing entry's position |
| `Guarantees.ResultIdentifiesFailure` | tools/serial-configtool/generator.py:91-128 | With at most 65536 ready entries, two runs of the built program in which prior initialisation succeeds return the same if and only if they fail first at the same entry or both succeed; a failing prior initialisation is confused with such a run if and only if its status is the code of the entry that fails there |
| `Guarantees.NoMutexShared` | cfe/modules/srl/fsw/src/cfe_srl_handle.c:40-75 | With a table of at most 256 handles, which every handle initialisation takes an entry of, no run of the built program leaves two live handles with the same mutex, although a mutex is a slot modulo 256 |
| `Guarantees.TableDecides` | cfe/modules/srl/fsw/src/cfe_srl_handle.c:40-75 | The built program succeeds only if the table has an entry for every ready general entry; and if nothing but a full table fails, it does succeed then |
| `Guarantees.FullTableReported` | cfe/modules/srl/fsw/src/cfe_srl_handle.c:73-74 | If nothing but a full table fails, and there are more ready general entries, the result is the code of the first one too many |
| `HandleTable.MutexesNeverShared` | cfe/modules/srl/fsw/src/cfe_srl_handle.c:110-165 | The direct boot leaves no two live handles with the same mutex |
| `HandleTable.SuccessFitsTable` | cfe/modules/srl/fsw/src/cfe_srl_handle.c:40-75 | Whatever else may fail, a boot that succeeds has as many table entries as ready general entries, at the least |
| `HandleTable.TableSufficesIff` | cfe/modules/srl/fsw/src/cfe_srl_handle.c:40-75 | If nothing but a full table fails, a boot succeeds if and only if the table holds all ready general entries |
| `Guarantees.Rs232DoesNotBuild` | tools/serial-configtool/genfunction.py:31-34 | The texts of a single rs232 port make no program |
| `Guarantees.TakenNameDoesNotBuild` | cfe/modules/core_api/fsw/inc/cfe_error.h:1392 | Those of an interface called handle make none |
| `Guarantees.BadEscapeDoesNotCompile` | tools/serial-configtool/genfunction.py:23 | The texts of a bus whose device path is a backslash and an x do not compile |
| `Guarantees.EmptyBuilds` | tools/serial-configtool/generator.py:29-47 | The three texts of a configuration with nothing ready fit together by themselves |
| `Guarantees.EmptyDoesNotCompile` | cfe/modules/srl/fsw/src/cfe_srl_priv.h:10 | Those of a configuration with nothing ready do not compile |
| `Text.NumeralRoundTrip` | tools/serial-configtool/genfunction.py:33 | Reading a printed number gives it back, in base ten and sixteen |
| `Text.NumeralIs` | tools/serial-configtool/genfunction.py:33 | The numeral of n has at least one digit of its base and nothing else, no leading zero unless it is alone, and digits whose places in "0123456789abcdef", weighted by powers of the base, sum to n |
| `Text.NumeralPrefix` | tools/cFS-GroundSystem/RoutingService.py:86 | One numeral is a prefix of another if and only if the number is zero and equal, or the leading digits of the other |
| `Topics.PacketId` | tools/cFS-GroundSystem/RoutingService.py:115-120 | The packet identifier is the big-endian word whose two bytes are the first two of the datagram |
| `Topics.TopicNamesPacket` | tools/cFS-GroundSystem/RoutingService.py:106-120 | The topic of a datagram is the fixed words around its sender's number in decimal and, after 0x, the number of its first two bytes in lower-case hexadecimal |
| `Topics.SubscriptionTexts` | tools/cFS-GroundSystem/GroundSystem.py:105-116 | The subscription texts for the initial entry and for a spacecraft, its name as text and as launched |
| `Topics.TopicIsolation` | tools/cFS-GroundSystem/GroundSystem.py:108-111 | The subscription for spacecraft n, its name as text, is a prefix of a topic of spacecraft m if and only if n = m |
| `Topics.AllReceivesEverything` | tools/cFS-GroundSystem/GroundSystem.py:108-110 | The subscription for all spacecraft is a prefix of every topic |
| `Topics.TopicDecodable` | tools/cFS-GroundSystem/RoutingService.py:106-112 | A topic determines the spacecraft number and the packet identifier |
| `Topics.SameTopicSameHeader` | tools/cFS-GroundSystem/RoutingService.py:106-120 | Datagrams published under one topic start with the same two bytes |
| `Topics.FileSubscriptionReaches` | tools/cFS-GroundSystem/GroundSystem.py:125-135 | If names were decoded: the text passed to the file manager for spacecraft n, which ends with the name, would be a prefix of a topic of spacecraft m if and only if m is n or starts with the digits of n |
| `Topics.FileSubscriptionLeaks` | tools/cFS-GroundSystem/GroundSystem.py:131 | If names were decoded: spacecraft 1's text would also be a prefix of spacecraft 12's topics |
| `Topics.PageOfAllReaches` | tools/cFS-GroundSystem/Subsystems/tlmGUI/GenericTelemetry.py:135-137 | A telemetry page opened for all spacecraft receives spacecraft 1 only, and the packet identifiers whose hexadecimal digits start with the page's |
| `Topics.FullWidthPageIsExact` | tools/cFS-GroundSystem/Subsystems/tlmGUI/GenericTelemetry.py:135-137 | A page with a four-digit identifier receives exactly its own packets |
| `Topics.PageOfOneReachesNothing` | tools/cFS-GroundSystem/Subsystems/tlmGUI/TelemetrySystem.py:71-80 | With the name taken as text, a telemetry page opened for one spacecraft receives nothing; what is really launched is the next row |
| `Topics.PageOfLaunchedReachesNothing` | tools/cFS-GroundSystem/Subsystems/tlmGUI/TelemetrySystem.py:71-80 | A page opened from the subscription that is really launched for one spacecraft, its name in bytes, receives nothing |
| `Topics.LaunchedReachesIff` | tools/cFS-GroundSystem/GroundSystem.py:105-116 | What the window launches with a name in bytes receives no message of any spacecraft; with the initial text name it receives all |
| `Topics.LaunchedFileSubscriptionText` | tools/cFS-GroundSystem/GroundSystem.py:131 | For a spacecraft the file manager is passed the quoted rendering of its name in bytes |
| `Topics.LaunchedFileManagerHearsNothing` | tools/cFS-GroundSystem/GroundSystem.py:125-135 | The file manager opens exactly for names in bytes, and then receives no message of any spacecraft |
| `Routing.RoutingService.constructor` | tools/cFS-GroundSystem/RoutingService.py:40-45 | Both lists start with the one text "All"; nothing is published or counted |
| `Routing.RoutingService.Receive` | tools/cFS-GroundSystem/RoutingService.py:68-103 | One round of the loop: the whole new state and exactly the signals emitted, for short datagrams, new and known hosts, and socket errors |
| `Routing.RoutingService.ForwardMessage` | tools/cFS-GroundSystem/RoutingService.py:106-113 | Publishes the unchanged datagram under its topic; a name that is text instead of bytes stops the service |
| `Routing.GroundSystem.UpdateIpList` | tools/cFS-GroundSystem/GroundSystem.py:170-173 | Appends to both lists and to the address box |
| `Routing.GroundSystem.Deliver` | tools/cFS-GroundSystem/GroundSystem.py:176-179 | The event loop handles the oldest pending signal |
| `Routing.GroundSystem.GetSelectedSpacecraftName` | tools/cFS-GroundSystem/GroundSystem.py:91-93 | The name at the first position of the address, or a failed lookup |
| `Routing.GroundSystem.StartTlmSystem` | tools/cFS-GroundSystem/GroundSystem.py:105-116 | The subscription that reaches the launched telemetry system |
| `Routing.GroundSystem.StartFdlSystem` | tools/cFS-GroundSystem/GroundSystem.py:125-135 | The subscription that reaches the launched file manager, or none with nothing selected |
| `Interleaving.RouterKeepsInv` | tools/cFS-GroundSystem/RoutingService.py:83-97 | Every round keeps the registry: lists of equal length, no address twice, entry k above 0 named after k; and only appends, exactly what it signals |
| `Interleaving.NamesPairwiseDistinct` | tools/cFS-GroundSystem/RoutingService.py:86-90 | No two entries of the registry have the same name |
| `Interleaving.StepKeepsInv` | tools/cFS-GroundSystem/RoutingService.py:83-92 | In every interleaving, each step of either thread keeps the window's lists, followed by the pending signals, equal to the service's |
| `Interleaving.CopiesAgree` | tools/cFS-GroundSystem/GroundSystem.py:170-179 | After every run the window's lists followed by the pending signals are the service's lists; with nothing pending they are equal |
| `Interleaving.CopiesConverge` | tools/cFS-GroundSystem/GroundSystem.py:170-173 | From any reachable state, delivering the pending signals makes the lists equal |
| `Interleaving.SelectionsResolveAlike` | tools/cFS-GroundSystem/GroundSystem.py:91-93 | An address the window offers resolves to the name under which the service forwards it, even with signals pending |
| `Interleaving.NamesAreStable` | tools/cFS-GroundSystem/RoutingService.py:83-97 | A host's name never changes once assigned |
| `Interleaving.Drive` | tools/cFS-GroundSystem/GroundSystem.py:176-179 | The service, the queue and the window as objects, connected first and then driven by any interleaving, are always in the state of the run that the other results speak of |
| `Forwarding.ForwardingConserves` | tools/cFS-GroundSystem/RoutingService.py:70-113 | Over every run, what is published is every received datagram of at least the packet primary header's length, three words of two bytes, once, in order and unchanged, under its own identifier and its sender's number, up to the first from a host called "All"; the service lives on if and only if there is none; its registry is the hosts heard |
| `Forwarding.PublishedNamesPacket` | tools/cFS-GroundSystem/RoutingService.py:70-113 | The i-th published message holds the i-th such datagram unchanged, and its topic names that datagram's sender number and first two bytes |
| `Forwarding.SixBytesSuffice` | tools/cFS-GroundSystem/RoutingService.py:74-97 | A datagram of six bytes or more of an ordinary host is published, as the next message, and its host is known from then on |
| `Forwarding.FiveBytesDoNot` | tools/cFS-GroundSystem/RoutingService.py:73-75 | One of five bytes or fewer leaves service, queue and window as they are |
| `Forwarding.ErrorsCounted` | tools/cFS-GroundSystem/RoutingService.py:99-103 | The error count is the number of socket errors before the first packet from a host called "All" |
| `Forwarding.NumbersDistinct` | tools/cFS-GroundSystem/RoutingService.py:86 | Two hosts heard have the same number if and only if they are the same host |
| `Forwarding.SubscriberHearsItsHost` | tools/cFS-GroundSystem/GroundSystem.py:91-111 | For a name taken from the window at any moment of a run, as text, the subscription receives, of all that is published in that run, exactly the packets from that address |
| `Forwarding.LaunchedHearsAllOrNothing` | tools/cFS-GroundSystem/GroundSystem.py:105-116 | With names as the window really holds them, a launched subscription receives everything if the selection is "All" and otherwise nothing |

## Left out

- Opening files and loading JSON; a configuration whose entries lack `name`, `type`, `ready` or `DevName`, and the rendering of values that are not natural numbers (booleans, signs, fractions).
- The C preprocessor beyond object-like macros: include guards are parsed and checked, included files stand for the constants listed in `Linking`.
- The inside of `CFE_SRL_HandleInit` and `CFE_SRL_GpioInit`; their statuses are arbitrary instead.
- Device paths with a bare quote or a line end, or ending in an open escape. A path is passed on as it is written in the literal; which character an escape stands for, and whether its number is in range, is not modelled.
- Decimal literals too large for every C integer type, which the model reads as the numbers they spell.
- Generator.WriteCall: does not split the calls into one method per type; the replaced first definition of the SPI writer has no counterpart.
- Topics.FileSubscriptionReaches: takes the name as text; what is launched with a name in bytes is `Topics.LaunchedFileManagerHearsNothing`.
- Topics.LaunchedReachesIff: models single quotes of shell-style splitting only; names contain no other special character.
- The limit of five socket errors: the inner loop never ends, so the outer test has no effect; errors are only counted.
- Stripping blanks around the selected address and name: neither has any.
- Sockets, ZeroMQ and Qt beyond received datagrams, published messages and queued signals; subprocesses; the offset file.
- The command system, the other ground tools, the flight applications and all configuration headers: constants, layout and plumbing.
