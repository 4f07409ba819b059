# Verified model of the PLC toolchain and its links

This project models, in Dafny, the parts of the BigSister NodeNet repository in which independently
written programs have to agree: a two-pass assembler, object builder and disassembler (C#), the
firmware that parses, validates, links and places the object in a slot (C++), the boot loader that
copies and checks the firmware image, the client that keeps a cache of the remote point table, and
two stream decoders. It proves that they do agree, or under exactly which condition.

The modules follow the program:

- **Toolchain.** `Isa` (with `IsaWords`), `Lexer`, `Literals`, `Assembler`; `Acceptance` says which
  sources assemble, `SourceText` how text is read, `Meaning` and `Placement` what assembled code means
  and where labels lie, `SymbolUses` what is recorded of symbols; `Code` decodes. `ObjectFile` builds,
  `ObjectParser` parses on both sides, `Fnv` is the checksum. `Linker` and `Catalog` link in memory,
  `LinkedProgram` states what linking preserves. `FlashPages` and `FlashLinker` do the same from paged
  flash. `PointAccess` says which points a program that links may use and write. `Validator` and
  `Resync` are the loader's sweep over the code. `Disassembler`, `Relisting`, `Reassembly`,
  `Redeclaring`, `RoundTrip`, `ObjectRoundTrip` and `AnyCode` go back to source text and forward again.
  `Failures` and `ValidatorFailures` show inputs that miss the exact conditions.
- **Slots.** `SlotVariables` says what a load makes of the point catalog before it links,
  `VariablePoints` when it can, `PublishedPoints` what is then published, `Preparation` does it in
  place. `SlotMemory` gives the layout of SDRAM and every operation as a list of writes, `SlotLoader`
  the operations in place on an array, `SlotIsolation` what they leave alone and what a loaded slot
  means, `FlashLoads` the same for a load straight from flash, `SlotRecords` and `SlotParameters` what
  the records in SDRAM say, word by word, `LoadsAgree` when the two ways to load agree. `PointStates` follows the states of the points. `Staleness` and `StaleSlots`
  say when a loaded program loses its meaning, `Refresh` how the firmware notices. `LoadFailures`, with
  the smallest program from `OneVariable`, shows inputs that miss the exact conditions.
- **Boot.** `BootImage` says how stage0 ends, `Stage0` does it in place with the cached reader, the
  accumulator and the tail merge, `Crc32` is the checksum and `CrcPolynomial` its meaning,
  `BootVariants` the packed image and its faulty variants.
- **Point link.** `PlcLink` is the header codec and the fragment planner. `LinkState` and `LinkPoll`
  are the client as a state machine, `SpiLink` its tables and its ring of pending updates in place,
  `LinkRuns`, `LinkUpdates` and `LinkWrites` properties of its runs, `LinkServer` and `LinkConvergence`
  its run against a server, `LinkRequests` its requests on the wire, `LinkLimits` its numbers.
- **Streams.** `NodeNet` is the RS485 frame codec and receiver, `JsonFramer` the reader that cuts JSON
  objects out of a stream.
- **Shared.** `Bytes` (with `Bits`) holds machine integers and exclusive or, `Memory` writes into arrays.

Code that changes things step by step is a method or a class here, proved against a function of its
inputs or old state; the laws are proved about those functions. Bytes are integers from 0 to 255.
Wrapping arithmetic is written out where the source wraps: in stage0, in flash addresses and in the
16-bit fields of the link.

Some claims that look natural are false of the code, and the exact condition is proved instead:

- Disassembling and assembling again is the identity only without colons in names and constants'
  paths, and without blank parts in constants' paths (`ObjectRoundTrip.DisassembleThenAssemble`). The lexer
  takes the text before a colon for a label; the disassembler drops a path with a blank part. Both
  occur (`Failures.ColonSourceFails`, `Failures.BlankSourceFails`).
- The flash linker and the linker in memory agree only for slot variables whose names are not built in
  and whose access is known (`FlashLinker.FlashLinkRefines`), and whose points have exactly their type
  (`FlashLinker.FlashLinkRefined`), because they resolve them by different rules. Both can be missed
  (`LoadFailures.BuiltInNameRefused`, `LoadFailures.EnumerationTaken`), the first only by the linkers
  taken by themselves (`LoadFailures.BuiltInNameNotLoaded`), the second only by files the assembler does
  not build (`LoadsAgree.LoadsAgree`).
- A loaded program does not keep its meaning while other slots are loaded, although its bytes stay: the
  catalog is put together anew for each load, and the operands are indexes into it. It does if and only
  if its symbols still resolve to the same operands (`SlotIsolation.LoadedProgramMeans`), that is, if as
  many variables have been put in before each of its points as were taken out
  (`StaleSlots.StaleExactly`). `LoadFailures.LoadingMovesPoints` loads two slots one after the other so
  that the first reads the second's variable. The firmware compares epochs and reloads such slots;
  `Refresh.StaleIsNoticed` shows that none goes unnoticed while another catalog has another hash.
- A program that links in memory stores only to points that may be written, but for variables with
  built-in names (`PointAccess.LinkedUses`); no load leaves such a program in a slot
  (`PointAccess.LoadedUses`).
- The validator accepts assembled code only if every branch lands on one of the starts its sweep
  finds (`Resync.ValidatorResynchronises`): a label at the very end of the code
  (`ValidatorFailures.EndLabelRejected`) and a wrong numeric distance are rejected there, not by the
  assembler.
- A NodeNet frame decodes only with fewer than 256 payload bytes (`NodeNet.FrameRoundTrip`), since the
  encoder leaves the high length byte out of the check byte and the decoder does not.
- A more-fragments flag has to agree with the fragment's index for a header to survive its codec
  (`PlcLink.FragmentHeaderSurvives`).
- The link client starts a resync if and only if a frame with records lies further above the cached
  sequence than it has records, and the cached one is not zero (`LinkRuns.ResyncsExactly`). It does not
  notice missing updates behind a sequence of zero (`LinkRuns.ZeroHidesGap`) and where the server's count
  has stepped back, as it does when it wraps (`LinkRuns.StepBackIsTaken`, `LinkRuns.WrapHidesLoss`).
- A snapshot that fails half way does not leave the old one (`SlotIsolation.StaleSnapshot`).

## Model

| member | source | states |
|---|---|---|
| LinkedProgram.LinkingPreservesProgram | src/firmware/include/plc_linker_v1.h:198-291 | For every source without `DB` that assembles and builds: the firmware parses its object, and whenever linking succeeds the linked code decodes, with the assembler's sizes, to the source instructions with only symbol operands replaced, each by the index or value offset its symbol resolves to; every branch to a label targets the instruction the label stands before |
| LinkedProgram.RelocateAll | src/firmware/include/plc_linker_v1.h:229-289 | The relocation loop rewrites exactly the point operands of the program: each is replaced by what its symbol resolves to, and nothing else changes |
| LinkedProgram.RelocatePoint | src/firmware/include/plc_linker_v1.h:248-289 | One relocation turns the zero placeholder of one instruction into its resolved operand and leaves the bytes around the instruction alone |
| LinkedProgram.RelinkedMeans | tools/BigSisterNodeNet.Plc/PlcMachineCodeAssembler.cs:1108-1140 | Code in which all point operands are relinked means the source: the connection of encoding, labels and symbols used by the theorem on linking |
| Linker.LinkObjectImage | src/firmware/include/plc_linker_v1.h:198-291 | The in-place linker: what it reports and what it leaves in the output buffer, including the partly linked code of a failed run; bytes outside the code stay as they were |
| Linker.RelocateInPlace | src/firmware/include/plc_linker_v1.h:229-289 | One turn of the relocation loop on the output buffer, with each error status |
| PointAccess.RequestExactly | src/firmware/include/plc_runtime_abi.h:206-239 | What a link request is answered, in the terms of the point: it resolves exactly if the point is published, has the type, an enumeration counting as a 16-bit integer, and is only read or is an output, both ways or a variable of a program; otherwise the status says which of these fails first |
| PointAccess.LinkedUses | src/firmware/include/plc_linker_v1.h:198-291 | What linking admits. Whenever a source links in memory, each symbol it uses resolves to the last point of its identity, the offset being that of its state; the point has the type of all uses; and if the program stores to it, it is an output, both ways or a variable, or the symbol is a variable of the program with a built-in name |
| PointAccess.InputsAreNotStored | src/firmware/include/plc_runtime_abi.h:417-431 | Conversely: a program that stores to a point that is only an input does not link, neither in memory nor from flash, and the status of its relocation is that access is denied |
| Assembler.Run | tools/BigSisterNodeNet.Plc/PlcMachineCodeAssembler.cs:125-766 | The three loops of the assembler (reading, label pass, encoding pass) compute the assembly or the first error with its line |
| Meaning.PassesAgree | tools/BigSisterNodeNet.Plc/PlcMachineCodeAssembler.cs:824-899 | For every line the second pass accepts, the size the first pass gave it is the size of what was written, so labels lie where the code is |
| Meaning.WriteLineMeaning | tools/BigSisterNodeNet.Plc/PlcMachineCodeAssembler.cs:179-761 | A line of the second pass appends the encoding of its instruction and one relocation for each point operand, or declares one symbol, or does nothing |
| Meaning.WriteInstructionMeaning | tools/BigSisterNodeNet.Plc/PlcMachineCodeAssembler.cs:1108-1140 | An instruction line that assembles has exactly its operands, all within range, and is written as opcode and operands with zero placeholders for points |
| Meaning.WriteBranchMeaning | tools/BigSisterNodeNet.Plc/PlcMachineCodeAssembler.cs:901-924 | A branch operand is a literal if it reads as one, otherwise the distance from the following instruction to the label, within 16 bits |
| Meaning.WriteLinesMeaning | tools/BigSisterNodeNet.Plc/PlcMachineCodeAssembler.cs:179-761 | The whole second pass: code, relocations and symbol uses are those of the program, instruction by instruction |
| Placement.AssembledProgram | tools/BigSisterNodeNet.Plc/PlcMachineCodeAssembler.cs:158-177 | The assembled code is the lowered program, and each label is the offset at which the second pass wrote the next instruction |
| Placement.LabelLinesPlaced | tools/BigSisterNodeNet.Plc/PlcMachineCodeAssembler.cs:158-177 | The label pass gives each label the sum of the sizes before it, each name once |
| Placement.FinalIndexed | tools/BigSisterNodeNet.Plc/PlcMachineCodeAssembler.cs:1072-1106 | At the end of every assembly the name dictionary and the symbol list agree: each declared name leads to its own symbol |
| Acceptance.AssemblesExactly | tools/BigSisterNodeNet.Plc/PlcMachineCodeAssembler.cs:125-766 | Which sources assemble, said of their lines alone: exactly those in which every label is new and lies in the first 65536 bytes; every declaration is of a new, not blank name, behind fewer than 65535 others; every instruction has its operands, literals in range, labels on some line and near enough, symbols declared before and used at one type only, that of their declaration if it has one; and data are bytes |
| Acceptance.LabelsExactly | tools/BigSisterNodeNet.Plc/PlcMachineCodeAssembler.cs:158-177 | The first pass alone: what it accepts, and the labels it finds, each at the position of its line |
| Acceptance.DeclarationExactly | tools/BigSisterNodeNet.Plc/PlcMachineCodeAssembler.cs:981-1070 | What a declaration line declares, literally: kind, type, access and flags of the symbol for each spelling, and nothing for any other words |
| SymbolUses.FinalUses | tools/BigSisterNodeNet.Plc/PlcMachineCodeAssembler.cs:1142-1176 | The symbol table at the end says what the program does: a symbol that is used has the type of all its uses, and it is to be written exactly if it is a variable or some instruction stores to it or counts it up or down; the instructions that do are listed by their opcodes |
| SourceText.ReadWords | tools/BigSisterNodeNet.Plc/PlcMachineCodeAssembler.cs:777-811 | A line reads as its words, whatever blanks, tabs and commas keep them apart, blanks surround them and comment follows, with a semicolon or a number sign |
| SourceText.ReadLabelled | tools/BigSisterNodeNet.Plc/PlcMachineCodeAssembler.cs:777-811 | The same behind a label, or with a label alone |
| Code.DecodeEncoded | tools/BigSisterNodeNet.Plc/PlcMachineCodeAssembler.cs:859-899 | Decoding with the assembler's sizes inverts encoding, wherever the program starts |
| Code.EncodedLength | tools/BigSisterNodeNet.Plc/PlcMachineCodeAssembler.cs:824-899 | Encoded programs are as long as the sizes of their instructions add up to |
| IsaWords.KeywordOfMnemonic | tools/BigSisterNodeNet.Plc/PlcMachineCodeDisassembler.cs:683-840 | The mnemonic the disassembler prints for an opcode is the one the assembler reads as that opcode, for all opcodes |
| IsaWords.MnemonicOfKeyword | tools/BigSisterNodeNet.Plc/PlcMachineCodeAssembler.cs:184-761 | The other way round: a word read as an opcode is, in capitals, the one the disassembler prints for it or one of six others, given by their spelling |
| IsaWords.AliasesRead | tools/BigSisterNodeNet.Plc/PlcMachineCodeAssembler.cs:341-745 | The six other words and the opcodes they stand for, in their spelling |
| IsaWords.StackSet | tools/BigSisterNodeNet.Plc/PlcMachineCodeAssembler.cs:202-266 | The instructions on the stack, literally: each word, the opcode it is read as, and its operands |
| IsaWords.PointSet | tools/BigSisterNodeNet.Plc/PlcMachineCodeAssembler.cs:317-474 | The same for literals, loads and stores of points |
| IsaWords.ArithmeticSet | tools/BigSisterNodeNet.Plc/PlcMachineCodeAssembler.cs:475-745 | The same for arithmetic, `ADD` as 0x22 and `SUB` as 0x23 among them, and for increment and decrement |
| IsaWords.FlowSet | tools/BigSisterNodeNet.Plc/PlcMachineCodeAssembler.cs:555-598 | The same for branches and edges |
| IsaWords.TimerSet | tools/BigSisterNodeNet.Plc/PlcMachineCodeAssembler.cs:599-667 | The same for timers |
| IsaWords.CounterSet | tools/BigSisterNodeNet.Plc/PlcMachineCodeAssembler.cs:668-717 | The same for counters |
| IsaWords.CompareSet | tools/BigSisterNodeNet.Plc/PlcMachineCodeAssembler.cs:267-296 | The same for comparisons of floats |
| IsaWords.ConvertSet | tools/BigSisterNodeNet.Plc/PlcMachineCodeAssembler.cs:297-554 | The same for conversions and arithmetic of floats |
| Literals.LiteralsReadBack | tools/BigSisterNodeNet.Plc/PlcMachineCodeAssembler.cs:1269-1374 | Every decimal literal the disassembler prints reads back as the same 16 or 32 bits |
| SourceText.HexNumbersRead | tools/BigSisterNodeNet.Plc/PlcMachineCodeAssembler.cs:1238-1374 | Every hexadecimal number, in capital or small letters, reads as itself where it is in range, as a byte, 16 or 32 bits, and as nothing where it is not |
| SourceText.NumbersRead | tools/BigSisterNodeNet.Plc/PlcMachineCodeAssembler.cs:1238-1374 | The same for decimal numbers, signed or not |
| Resync.ValidatorResynchronises | src/firmware/include/plc_loader_v1.h:776-852 | For every assembled program without `DB`: although the loader's sweep takes point loads and stores for 3 bytes instead of 5, it covers the unlinked code exactly, its starts are exactly the assembler's starts and the last two zero placeholder bytes of each point offset, and it accepts the code exactly if every branch lands on one of those |
| ValidatorFailures.EndLabelRejected | src/firmware/include/plc_loader_v1.h:835-849 | Lines that assemble and are rejected: `JMP e` before a label `e` at the end of the code |
| Resync.SweepProgram | src/firmware/include/plc_loader_v1.h:638-672 | From any instruction of an unlinked program the sweep comes back into step with the assembler's next instruction |
| Resync.TablesAgree | src/firmware/include/plc_loader_v1.h:638-791 | The loader's size table differs from the assembler's exactly on the point loads and stores, 3 against 5 bytes |
| Validator.ValidateSupportedBytecode | src/firmware/include/plc_loader_v1.h:809-852 | The loop over the code decides the specification of an acceptable program |
| Validator.IsInstructionStart | src/firmware/include/plc_loader_v1.h:793-807 | The search decides whether an offset is a start of the sweep |
| Validator.AcceptsExactly | src/firmware/include/plc_loader_v1.h:809-852 | Code is accepted if and only if the sweep covers it and every branch at a start of the sweep targets a start |
| Validator.AcceptedRunsStayOnStarts | src/firmware/include/plc_loader_v1.h:776-852 | In accepted code every position reached from offset 0, by any number of fall-through and branch steps, is a start of the sweep or the end of the code |
| ObjectFile.Build | tools/BigSisterNodeNet.Plc/PlcObjectFileBuilder.cs:99-181 | The builder's records, written with a zero checksum that is patched in afterwards, are the specified file, or the first error in symbol order |
| ObjectParser.BuildThenParse | src/firmware/include/plc_linker_v1.h:121-196 | The firmware accepts every file the builder writes and recovers code, entry offset, symbol records and relocations from it |
| ObjectParser.BuildThenList | tools/BigSisterNodeNet.Plc/PlcMachineCodeDisassembler.cs:40-116 | The disassembler recovers from every file the builder writes exactly the assembly, but for paths with a blank part, which it shows as empty: it recovers the assembly itself if and only if there is none |
| ObjectParser.BuiltFieldByField | tools/BigSisterNodeNet.Plc/PlcObjectFileBuilder.cs:99-181 | A built file, each field of its header read at its literal offset, with the sections at theirs |
| ObjectParser.ParsesExactly | src/firmware/include/plc_linker_v1.h:121-196 | The files the firmware accepts, by the fields of their header, read at literal offsets |
| ObjectParser.PathRejoins | tools/BigSisterNodeNet.Plc/PlcObjectFileBuilder.cs:261-281 | A path splits at its first and last dot and rejoins unchanged |
| ObjectParser.TamperedPayloadRejected | src/firmware/include/plc_linker_v1.h:177-182 | After a change of any one byte behind the header of an accepted file, the firmware rejects it, at the checksum |
| Fnv.Checksum32 | tools/BigSisterNodeNet.Plc/PlcObjectFileBuilder.cs:183-213 | The checksum loop computes FNV-1a |
| Fnv.StepInjective | src/firmware/include/plc_linker_v1.h:404-416 | A step can be undone: the multiplier is odd |
| Fnv.HashInjective | src/firmware/include/plc_linker_v1.h:404-416 | Different states stay different over any further bytes |
| Fnv.OneByteChangesChecksum | src/firmware/include/plc_linker_v1.h:404-416 | A change of any one byte changes the checksum |
| Fnv.KnownHashes | src/firmware/include/plc_linker_v1.h:404-416 | The known values: of nothing 0x811C9DC5, of the letter a 0xE40C292C |
| ObjectRoundTrip.DisassembleThenAssemble | tools/BigSisterNodeNet.Plc/PlcMachineCodeDisassembler.cs:118-159 | For every source without `DB` that assembles and builds: disassembling the object file and assembling the listing with the same options gives the same code, symbols and relocations, if and only if no name and no constant's path holds a colon and no constant's path has a blank part |
| Failures.ColonSourceFails | tools/BigSisterNodeNet.Plc/PlcMachineCodeAssembler.cs:777-811 | A source that misses the condition: `l: VAR BOOL a:b` assembles and is built, and its listing does not assemble to what it was made from |
| Failures.BlankSourceFails | tools/BigSisterNodeNet.Plc/PlcMachineCodeDisassembler.cs:936-944 | Another: a constant whose path has a vertical tab between its dots |
| ObjectRoundTrip.BlankPartFails | tools/BigSisterNodeNet.Plc/PlcMachineCodeDisassembler.cs:936-944 | A constant with a blank part in its path is listed without a path, and that listing does not assemble |
| RoundTrip.ListingAssembles | tools/BigSisterNodeNet.Plc/PlcMachineCodeDisassembler.cs:118-159 | Without colons the listing assembles to what it was made from |
| RoundTrip.ColonListingFails | tools/BigSisterNodeNet.Plc/PlcMachineCodeAssembler.cs:777-811 | With a colon in a symbol's name or a constant's path the listing does not assemble: the line reads as a bad label |
| Redeclaring.ListedLinesAssemble | tools/BigSisterNodeNet.Plc/PlcMachineCodeAssembler.cs:981-1106 | Declarations from the final symbol table followed by the printed instructions assemble to the same code, symbols and relocations as the source, although types and accesses had been merged by use |
| Redeclaring.FinalDeclarations | tools/BigSisterNodeNet.Plc/PlcMachineCodeAssembler.cs:1142-1176 | The final symbol table is the declarations with types and accesses widened by use |
| Reassembly.WriteProgramWords | tools/BigSisterNodeNet.Plc/PlcMachineCodeAssembler.cs:179-761 | The printed instructions, written after all declarations, end in the state the source lines end in |
| Relisting.AssembledIsListed | tools/BigSisterNodeNet.Plc/PlcMachineCodeDisassembler.cs:161-590 | The listing of assembled code is its program, one line per instruction, with symbol names at the relocations and branch distances for labels |
| Disassembler.BuildInstructionListing | tools/BigSisterNodeNet.Plc/PlcMachineCodeDisassembler.cs:161-590 | The listing loop, with its relocation dictionary, its data lines and its failure on a cut instruction |
| RoundTrip.VariableShown | tools/BigSisterNodeNet.Plc/PlcMachineCodeDisassembler.cs:123-130 | A variable is shown as `VAR`, `PRIVATE` if it is private, the word for its type and its name |
| RoundTrip.PointShown | tools/BigSisterNodeNet.Plc/PlcMachineCodeDisassembler.cs:132-147 | A parameter is shown as `PARAM POINT_ID` and its name, a constant as `CONST POINT_ID`, its name, a comma and its path |
| RoundTrip.TypeShown | tools/BigSisterNodeNet.Plc/PlcMachineCodeDisassembler.cs:874-902 | The words for the types, in their spelling |
| AnyCode.AnyBytesComeBack | tools/BigSisterNodeNet.Plc/PlcMachineCodeDisassembler.cs:161-590 | Any bytes at all, `DB` data and data taken for instructions included: if the listing finds only whole instructions without points between data, and their floats print, listing the code and assembling the listing gives the same bytes |
| AnyCode.DataReadsBack | tools/BigSisterNodeNet.Plc/PlcMachineCodeDisassembler.cs:563-590 | Every data byte the disassembler prints reads back as itself |
| Lexer.ReadPrintedLine | tools/BigSisterNodeNet.Plc/PlcMachineCodeAssembler.cs:777-811 | A line printed as mnemonic, space and operands joined by comma and space reads back as its words |
| FlashLinker.FlashLinkRefines | src/firmware/include/plc_loader_v1.h:1395-1486 | Whenever the linker in memory accepts an object file held in flash, the loader links it from flash to byte-identical code with the same report, if and only if every slot variable a relocation uses has no built-in name and a known access |
| FlashLinker.FlashLinkRefined | src/firmware/include/plc_loader_v1.h:1395-1486 | The other way round: whenever the loader links a file from flash, the linker in memory links it to the same code with the same report, if and only if the points of the slot variables the relocations use have exactly their types |
| FlashLinker.SlotVariableBack | src/firmware/include/plc_linker_v1.h:293-329 | A slot variable that resolves by the loader's rules resolves by the linker's to the same link exactly if its point has its type |
| LoadFailures.BuiltInNameRefused | src/firmware/include/plc_loader_v1.h:1275-1306 | Sources that miss the condition, `VAR BOOL loadEpoch`, `LB loadEpoch` among them: they assemble, build and link in memory, and do not link from flash, because the assembler does not reserve the name |
| LoadFailures.BuiltInNameNotLoaded | src/firmware/include/plc_loader_v1.h:1275-1306 | The loader does not get that far: no load of a file with a slot variable of a built-in name, from memory or from flash, whatever the catalog, succeeds |
| LoadFailures.NamesDiffer | src/firmware/include/plc_loader_v1.h:1275-1306 | The assembler's list of reserved names and the firmware's of built-in ones differ in exactly these names: two are not reserved, five are reserved for nothing |
| LoadFailures.EnumerationTaken | src/firmware/include/plc_loader_v1.h:1039-1106 | A whole file that misses the converse condition: it declares one name as a 16-bit integer and as an enumeration, loads from flash and does not load from memory. The assembler does not build such a file |
| FlashLinker.FlashHeaderAlike | src/firmware/include/plc_loader_v1.h:1325-1367 | The loader accepts a file in flash exactly when the parser accepts it and its tables lie behind the header, up to a code size that wraps around |
| FlashLinker.SlotVariableAlike | src/firmware/include/plc_linker_v1.h:293-329 | A slot variable that resolves by the linker's rules resolves by the loader's to the same link exactly if it is admissible |
| FlashLinker.RelocateAlike | src/firmware/include/plc_loader_v1.h:1421-1483 | One relocation read from flash has the effect of the parsed one |
| FlashLinker.OtherAlike | src/firmware/include/plc_runtime_abi.h:206-239 | Both linkers resolve every symbol that is not a slot variable by the same rule |
| PointAccess.FlashLinkedUses | src/firmware/include/plc_loader_v1.h:1395-1486 | What linking from flash admits: the same as in memory, without exception |
| FlashLinker.LinkObjectFileFromFlash | src/firmware/include/plc_loader_v1.h:1395-1486 | The loop over relocations and symbols in flash: its report and what it leaves in the output, also when it fails |
| FlashPages.FlashReadBytes | src/firmware/include/plc_loader_v1.h:1522-1548 | The page loop succeeds exactly if every page of the span can be read, copies the span up to the first page that cannot, and writes nothing else |
| FlashPages.Checksum32FromFlash | src/firmware/include/plc_loader_v1.h:1369-1393 | The checksum taken page by page is the checksum of the span in one go, or zero if a page cannot be read |
| SlotIsolation.SlotsAreIsolated | src/firmware/include/plc_loader_v1.h:187-240 | Over any run of loads, parameter writes and snapshot writes for other slots, successful or failed, no byte of a slot's bytecode region, manifest, control block or object snapshot changes |
| SlotIsolation.LoadParsedContained | src/firmware/include/plc_loader_v1.h:277-350 | A load writes code only between the slot's code start and its stack, its preparation only what is published of the points (runtime header, descriptors, states), and everything else outside the code area, within the places that belong to the slot or the shared directory header; a load that fails writes nothing but its preparation and code |
| SlotIsolation.LoadObjectContained | src/firmware/include/plc_loader_v1.h:448-482 | The same for a load from a file in memory: code only in the code area, metadata and snapshot never in it; a load that fails before its snapshot writes nothing but its preparation and code |
| SlotIsolation.LoadFlashContained | src/firmware/include/plc_loader_v1.h:484-595 | The same for a load from flash, whose code area is written twice, before the preparation and after linking |
| SlotIsolation.PrepareIsSound | src/firmware/lib/plc/PointCatalog.cpp:620-714 | Every preparation, of any slot for any symbol records, writes only within the runtime header and descriptors and the store of point states, and leaves a catalog within its size |
| SlotIsolation.LoadedCode | src/firmware/include/plc_loader_v1.h:448-482 | After a successful load the slot's code area holds exactly the code linked against the catalog as it is then |
| SlotIsolation.LoadedProgramMeans | src/firmware/include/plc_loader_v1.h:448-482 | From source to slot: a source that assembles, builds and loads means, as the code bytes in SDRAM, what its lines say. Over any run of operations on other slots its bytes stay, and they still mean that, against the catalog as it is then, if and only if every symbol they use still resolves to the operand that was linked |
| PointAccess.LoadedUses | src/firmware/include/plc_loader_v1.h:448-482 | After a successful load every point the program stores to may be written, with no exception, and every operand is the index of its point or the offset at which its state is kept in SDRAM |
| SlotRecords.LoadedSlotIsReady | src/firmware/include/plc_loader_v1.h:1550-1638 | After a successful load of a file the slot is ready to run, by the words of SDRAM at their literal places: the control block has the address and size of the linked code, the entry as program counter, the limits of the object's header, and stack, timers and parameters at zeroed areas that do not overlap the code or each other; manifest, linked header, directory and snapshot agree with it |
| SlotRecords.FlashLoadedSlotIsReady | src/firmware/include/plc_loader_v1.h:484-595 | The same after a load from flash |
| SlotRecords.SnapshotKeptExactly | src/firmware/include/plc_loader_v1.h:863-886 | Of which files a snapshot is kept: those from 52 to 131308 bytes, for slots below 16 |
| SlotParameters.ParamsAccepted | src/firmware/include/plc_loader_v1.h:352-390 | When parameters are accepted: up to 256 bytes, for slots below 16, and none only with size zero |
| SlotParameters.ParamsRecorded | src/firmware/include/plc_loader_v1.h:352-390 | Afterwards the parameter area has the bytes and then zeros, and control block and manifest have its address, their size and the epoch they carry if they carry one |
| SlotParameters.ParamsKeepRest | src/firmware/include/plc_loader_v1.h:352-390 | Every byte of SDRAM outside the parameter area and these fields is as it was |
| Staleness.MeansExactly | src/firmware/include/plc_linker_v1.h:198-291 | For every source that builds, every catalog it links against and every other catalog: the linked code means the source against the other if and only if each relocation's symbol resolves there to the same operand |
| StaleSlots.StaleExactly | src/firmware/lib/plc/PointCatalog.cpp:654-703 | When a loaded program goes stale: after one more operation on another slot it still means its source if and only if the catalog has not changed, or before every point it uses as many variables have been put in as were taken out, for programs that do not use the other slot's variables, in a slot with a named device |
| StaleSlots.OperandStaysExactly | src/firmware/include/plc_runtime_abi.h:170-191 | The same for one symbol: it still resolves, and to the same index and offset exactly under that condition |
| StaleSlots.VariablesStay | src/firmware/lib/plc/PointCatalog.cpp:620-714 | Over any run of operations on other slots the catalog keeps a slot's variables, all of them and in the same order |
| LoadFailures.LoadingMovesPoints | src/firmware/lib/plc/PointCatalog.cpp:669-677 | Programs that go stale: after `VAR BOOL v`, `LB v` in a slot, loading `VAR BOOL w`, `LB w` into any slot before it succeeds, keeps the bytes of the first program, and puts `w` where they point |
| Refresh.StaleIsNoticed | src/firmware/lib/nodenetCore/nodenetCore.cpp:1056-1081 | Over any run of fewer than 2^32 operations on other slots in which another catalog has another hash, the manifest of a slot has the epoch of the publisher only if its program still means its source |
| Refresh.LoadedMapOk | src/firmware/include/plc_loader_v1.h:333-346 | After a successful load the manifest has the epoch of the publisher |
| Refresh.FlashLoadedMapOk | src/firmware/include/plc_loader_v1.h:333-346 | The same after a load from flash |
| Refresh.ReloadSettles | src/firmware/lib/nodenetCore/nodenetCore.cpp:2315-2350 | Reloading a slot whose variables are those of its file leaves the catalog as it is, and its epoch too if the same catalog has the same hash, so it makes no other slot stale |
| Refresh.PreparedSettles | src/firmware/include/plc_loader_v1.h:1039-1106 | After a successful preparation the slot's variables are those of the file, and preparing again would ask for the same, if the slot's points are local and on one device |
| Refresh.SettledStays | src/firmware/lib/plc/PointCatalog.cpp:620-714 | That stays so over any run of operations on other slots |
| Refresh.EpochOver | src/firmware/include/plc_runtime_abi.h:255-272 | Over such runs the epoch has gone on by some number of steps, at most one for each operation, and by none only if the catalog is as it was |
| SlotVariables.ReplacedIs | src/firmware/lib/plc/PointCatalog.cpp:620-714 | After a replacement the slot has exactly the new variables; every other point is still there, in the same order, and so are the variables of every other slot |
| SlotVariables.ReplaceAgain | src/firmware/lib/plc/PointCatalog.cpp:630-652 | Replacing again with the same variables changes nothing |
| SlotVariables.MovedAt | src/firmware/lib/plc/PointCatalog.cpp:654-696 | Whatever is kept in the order of the points is, after a replacement, at the new index of its point |
| SlotVariables.FoundAgain | src/firmware/lib/plc/PointCatalog.cpp:1081-1119 | A point that stays is found by its identity at its new index, and is the same point |
| SlotVariables.StaysExactly | src/firmware/lib/plc/PointCatalog.cpp:654-703 | That index is the old one if and only if as many variables are put in before it as are taken out |
| SlotVariables.PreparedIsTyped | src/firmware/include/plc_loader_v1.h:937-960 | After a preparation the slot variable found for each symbol record has the record's type, if no two slot variables of the file have the same name and the slot's points are local and on one device |
| Preparation.PointCatalog.ReplaceSlotVariableDefinitions | src/firmware/lib/plc/PointCatalog.cpp:620-714 | The replacement in place: comparing, compacting, finding the place, moving up and writing, with the states moved along; the catalog and states afterwards, or none changed if there is no room |
| Preparation.ReconcileSlotVariablePoints | src/firmware/include/plc_loader_v1.h:1039-1106 | The preparation in place: which points are expected, whether the catalog or its publication lags, and what is in the catalog and published afterwards |
| VariablePoints.PreparesExactly | src/firmware/include/plc_loader_v1.h:1039-1130 | When a preparation succeeds: exactly if the records are read, the name of each variable among them may be one's, there is a point to take the device from, the catalog has room, and there is a region to publish into or nothing to publish, neither before nor now |
| VariablePoints.ExpectedIs | src/firmware/include/plc_loader_v1.h:937-960 | Which points a file asks for: one for each variable, in their order, with its name, the slot's feature and device, its type, and a direction by whether it is private |
| VariablePoints.IdentifiedExactly | src/firmware/include/plc_linker_v1.h:293-329 | Which records get an identity to be resolved by: in memory variables do not without a slot, and from flash not with a built-in name |
| VariablePoints.SlotDeviceIs | src/firmware/include/plc_loader_v1.h:1232-1273 | The device of a slot: that of its first local point, if it has one, or of the first point of all |
| VariablePoints.InsertedBefore | src/firmware/lib/plc/PointCatalog.cpp:654-696 | The new variables go before the first point, other than a command, of a slot behind this one, and all other points stay in their order |
| PublishedPoints.PreparationPublishes | src/firmware/include/plc_runtime_abi.h:513-550 | What is published, as words of SDRAM: in the header the number of points, the epoch, the places of descriptors and states; in each descriptor the index, the type, the flags, of which one says whether the point may be written, and the offsets of its state and quality |
| PointStates.StatesFollowPoints | src/firmware/lib/plc/PointCatalog.cpp:654-701 | No operation on a slot loses or mixes up the state of a point that is no variable of the slot: the point is still in the catalog, and the state kept for it in SDRAM is byte by byte what it was |
| PointStates.StatesFollowRuns | src/firmware/lib/plc/PointCatalog.cpp:654-701 | The same over any run of operations |
| FlashLoads.FlashLoadedCode | src/firmware/include/plc_loader_v1.h:484-595 | After a successful load of any file from flash the slot's code area holds exactly the code as the linker in memory links it, if the points of the file's slot variables have their types |
| FlashLoads.BuiltIsTyped | src/firmware/include/plc_loader_v1.h:1039-1106 | For files of the assembler they have, after a successful load, if the slot's points are local and on one device: the condition of the two linkers' agreement is met |
| FlashLoads.FlashLoadedProgramMeans | src/firmware/include/plc_loader_v1.h:484-595 | From source to slot by way of flash: what the assembler builds means, as the code bytes in SDRAM, what its lines say, if the slot's points are local and on one device; over any run of operations on other slots its bytes stay, and mean that if and only if every symbol still resolves to the operand that was linked |
| LoadsAgree.LoadsAgree | src/firmware/include/plc_loader_v1.h:448-595 | Whatever the assembler builds loads from a flash that holds it exactly when it loads from memory, to the same code, the same catalog and the same publication, if the slot's points are local and on one device |
| LoadsAgree.ObjectFollows | src/firmware/include/plc_loader_v1.h:1395-1486 | For any file with its tables behind the header: if it loads from flash, it loads from memory exactly when its slot variables have their types |
| LoadsAgree.FlashFollows | src/firmware/include/plc_loader_v1.h:1395-1486 | The other way round: if it loads from memory, it loads from flash exactly when its slot variables are admissible |
| SlotMemory.Layout | src/firmware/include/plc_loader_v1.h:222-240 | Code, stack, timer, parameter and scratch areas of a slot follow each other without a gap up to the end of its region, with these capacities; control block and snapshot lie in their regions |
| SlotMemory.RegionAvailable | src/firmware/include/plc_loader_v1.h:242-254 | The region check of the loader holds for its constants |
| SlotLoader.LoadParsedObjectIntoSlot | src/firmware/include/plc_loader_v1.h:277-350 | The in-place load: status and every byte of SDRAM afterwards, the writes of the preparation included |
| SlotLoader.LoadObjectFileIntoSlot | src/firmware/include/plc_loader_v1.h:448-482 | The in-place load of a file: status and every byte of SDRAM afterwards, the writes of the preparation included |
| SlotLoader.LoadObjectFileFromFlash | src/firmware/include/plc_loader_v1.h:484-595 | The in-place load from flash (read, validate, prepare, link in place, record, stage the snapshot): status and every byte of SDRAM afterwards, also after a failure half way |
| SlotLoader.WriteSlotParams | src/firmware/include/plc_loader_v1.h:352-390 | Parameter writes: when they are refused and every byte of SDRAM afterwards |
| SlotLoader.WriteLoadedSlotMetadata | src/firmware/include/plc_loader_v1.h:1550-1638 | Header, manifest, control block and directory of a loaded slot, write by write |
| SlotLoader.WriteObjectFileSnapshot | src/firmware/include/plc_loader_v1.h:863-886 | The snapshot of a file: its bytes and then the header; nothing is written, and the result is false, if the slot is out of range or the file does not fit |
| SlotLoader.WriteSnapshotFromFlash | src/firmware/include/plc_loader_v1.h:888-916 | The snapshot taken from flash: the bytes up to the first page that cannot be read, and the header only if there is no such page; nothing if it does not fit |
| SlotIsolation.StaleSnapshot | src/firmware/include/plc_loader_v1.h:888-916 | So a snapshot that cannot be read to its end fails with its data partly new under the old header, which stays valid if it was |
| BootImage.JumpMeans | src/bootloader/boot_stage0.cpp:2001-2059 | If stage0 reaches the jump, SDRAM over the load range equals the payload in flash, every other byte of SDRAM is as it was, all ranges lie in flash and SDRAM, the checksum fits and the entry is an aligned word of the payload |
| BootImage.AcceptedRanges | src/bootloader/boot_stage0.cpp:887-973 | A header without fault describes ranges that do not wrap, including the padded copy |
| Stage0.Run | src/bootloader/boot_stage0.cpp:1974-2059 | Stage0 on SDRAM in place ends as the specification says, or at a flash read that failed four times: then SDRAM holds only whole words of the payload where it was to be loaded |
| Stage0.CopyPayload | src/bootloader/boot_stage0.cpp:2001-2041 | The copy loop with the word accumulator and the tail merge writes exactly the payload, keeping the bytes behind its end |
| Stage0.MergeTail | src/bootloader/boot_stage0.cpp:2033-2041 | The tail merge replaces exactly the last bytes of the payload in its word |
| Stage0.PackByte | src/bootloader/boot_stage0.cpp:2017-2027 | The accumulator invariant: words before it are written, its bytes are the last ones read |
| Stage0.FlashReader.ReadBytes | src/bootloader/boot_stage0.cpp:822-856 | The cached reader returns the bytes of flash at the offset, or fails beyond the end or after four failed page reads, and keeps its cache coherent while it succeeds |
| Stage0.FlashReader.LoadPage | src/bootloader/boot_stage0.cpp:859-878 | A page is loaded within four attempts or the flash failed four times in a row |
| BootImage.FaultExactly | src/bootloader/boot_stage0.cpp:887-973 | The wrapping checks mean what they mean in unbounded arithmetic: a header is accepted if and only if it is well made with the right checksum, its image lies in flash behind it and in SDRAM once loaded, padded to words, and is entered in its own bytes; the image size and the copy range are faulted exactly if the first does not fit, or only the padding |
| Stage0.VerifyPayload | src/bootloader/boot_stage0.cpp:2043-2051 | The checksum is taken over the bytes in SDRAM and is that of the payload |
| BootVariants.PackedImageBoots | src/firmware/tools/pack_firmware.py:22-60 | A packed image boots to its entry if and only if it is not empty, its load range, padded to words, lies word-aligned in SDRAM, and its entry is an aligned address in it |
| BootVariants.PackedFieldByField | src/firmware/tools/pack_firmware.py:22-60 | A packed image, each field of its header read at its literal offset |
| BootVariants.BadCrcStops | src/firmware/tools/make_boot_test_images.py:47-53 | For every bootable packed image the first variant stops stage0 at exactly the payload checksum |
| BootVariants.BadSizeStops | src/firmware/tools/make_boot_test_images.py:55-61 | The second variant of every packed image stops stage0 at exactly the image size |
| BootVariants.MissingStops | src/firmware/tools/make_boot_test_images.py:63-65 | The third variant stops stage0 at exactly the absent image |
| BootVariants.MakeVariants | src/firmware/tools/make_boot_test_images.py:33-65 | The three variants made from copies of the image |
| BootVariants.TamperedPayloadStops | src/bootloader/boot_stage0.cpp:2043-2052 | For any flash that boots, every change confined to four consecutive payload bytes stops stage0 at the payload checksum |
| Crc32.FourBytesDetected | src/bootloader/boot_stage0.cpp:799-816 | CRC-32 (section 8 of RFC 1952) detects every change confined to four consecutive bytes of data of equal length |
| Crc32.BitStepInjective | src/bootloader/boot_stage0.cpp:799-807 | A bit step can be undone: its top bit tells which branch it took |
| Crc32.FeedInjective | src/bootloader/boot_stage0.cpp:809-816 | Different states stay different over any further bytes |
| Crc32.FeedIsSteps | src/bootloader/boot_stage0.cpp:799-816 | Up to four bytes fed one by one act like their little-endian word fed at once |
| Crc32.UpdateByte | src/bootloader/boot_stage0.cpp:799-807 | The bit loop of one byte |
| Crc32.CrcOfBuffer | src/bootloader/boot_stage0.cpp:809-816 | The byte loop over a buffer |
| CrcPolynomial.CrcIsRemainder | src/bootloader/boot_stage0.cpp:799-816 | The checksum is CRC-32 of section 8 of RFC 1952: complemented and reflected it is the remainder, of degree below 32, of the message with its first 32 bits complemented, times x^32, modulo the generator, which is given by its exponents |
| CrcPolynomial.RemainderIsUnique | src/bootloader/boot_stage0.cpp:799-816 | There is only one such remainder |
| CrcPolynomial.BitStepMultiplies | src/bootloader/boot_stage0.cpp:799-807 | A step of the register multiplies its polynomial by x, modulo the generator |
| LinkConvergence.ClientConverges | src/firmwareEsp32/src/spi_link.cpp:1076-1609 | Against any server that answers each request from fixed tables with a non-empty, record-aligned chunk at the requested position, however many polls find nothing before an answer comes, a fresh client has definitions and states equal to the tables, inline strings included, after at most one exchange for the capabilities and one for each record |
| LinkConvergence.DefsConverge | src/firmwareEsp32/src/spi_link.cpp:272-298 | From any point of the definitions phase the client converges within the exchanges left |
| LinkConvergence.StatesConverge | src/firmwareEsp32/src/spi_link.cpp:353-395 | From any point of the states phase the client converges within the exchanges left |
| LinkServer.RecordsRead | src/firmwareEsp32/src/spi_link.cpp:397-428 | Records of varying size, written one after the other, are read back as they were |
| LinkRuns.ShownSnapshotIsLastFinished | src/firmwareEsp32/src/spi_link.cpp:1648-1663 | Over every run of polls with any incoming frames, refreshes and writes: whenever the snapshot is shown as complete, its sequence, counts and payload size are those recorded when the last snapshot was finished, also during a resync that keeps the runtime view |
| LinkRuns.ResyncShows | src/firmwareEsp32/src/spi_link.cpp:176-219 | After a resync a snapshot is shown as complete if and only if its definitions are of the same generation and kept and the states were complete, and then it is the snapshot shown before |
| LinkRuns.RunResyncsExactly | src/firmwareEsp32/src/spi_link.cpp:475-588 | Over any run of update frames of a complete client: a resync starts if and only if some frame with records has a sequence that lies more than its number of records above the one before it, which is not zero; otherwise the client ends with the sequence of the last frame with records |
| LinkRuns.ResyncsExactly | src/firmwareEsp32/src/spi_link.cpp:475-588 | The same for one frame, whatever its generation |
| LinkRuns.LossIsNoticed | src/firmwareEsp32/src/spi_link.cpp:560-585 | For a server that counts its records modulo 2^32: while neither count has wrapped beyond the other and the client's is not zero, a resync starts if and only if records between the two are missing |
| LinkRuns.StepBackIsTaken | src/firmwareEsp32/src/spi_link.cpp:560-585 | A frame whose sequence is not above the cached one starts no resync, whatever is missing |
| LinkRuns.WrapHidesLoss | src/firmwareEsp32/src/spi_link.cpp:560-585 | One such loss: three records missing as the count wraps |
| LinkRuns.AdvanceIsBounded | src/firmwareEsp32/src/spi_link.cpp:475-588 | Over any run of update frames whose records do not come with sequence zero, unless a resync starts, the sequence advances by no more than the number of records received |
| LinkRuns.ProcessEffect | src/firmwareEsp32/src/spi_link.cpp:475-588 | One update frame that starts no resync: with records, the sequence becomes the frame's, and advances by at most their number; without, nothing changes |
| LinkRuns.ZeroHidesGap | src/firmwareEsp32/src/spi_link.cpp:560-585 | Behind a frame with records and sequence zero, a gap of any size starts no resync |
| LinkRuns.CacheFollows | src/firmwareEsp32/src/spi_link.cpp:430-473 | While no resync starts, every point holds the last record received for it |
| LinkRuns.IdlePollFollows | src/firmwareEsp32/src/spi_link.cpp:590-644 | A poll of the idle client that finds an update frame of the current generation processes exactly that frame |
| LinkUpdates.PollsFollowExactly | src/firmwareEsp32/src/spi_link.cpp:1076-1298 | Over every run of polls of a client that has everything, with any responses or none, writes requested and updates handed out in between: a step starts a resync if and only if a response disturbs the client; otherwise every point holds the last record heard for it, the client stands at the sequence of the last records heard, and still follows |
| LinkWrites.WritesInOrder | src/firmwareEsp32/src/spi_link.cpp:228-254 | Over every run of polls, refreshes, writes and updates handed out: each write request that is accepted is sent at most once, exactly as it was accepted, before its answer or a resync; nothing else is ever sent as a write, and no other is accepted in between |
| LinkWrites.ClientWritesInOrder | src/firmwareEsp32/src/spi_link.cpp:1257-1261 | So every run of the client from its start |
| LinkWrites.AcceptedExactly | src/firmwareEsp32/src/spi_link.cpp:1877-1899 | A write is accepted exactly by a client that knows the states and has none to send or being answered |
| LinkWrites.OverExactly | src/firmwareEsp32/src/spi_link.cpp:228-254 | A write is over exactly if a response to it is read or a resync starts |
| LinkWrites.WaitingIsSent | src/firmwareEsp32/src/spi_link.cpp:1257-1261 | A write that waits is sent by the next poll of the idle client with a free mailbox |
| LinkRequests.RequestArrives | src/firmware/lib/spi_mailbox/plclink_mailbox_service.cpp:158-440 | Every request arrives: the mailbox service reads from the bytes on the wire, whose header is given literally, exactly the request that was made, whatever its number |
| LinkLimits.GivenUpExactly | src/firmwareEsp32/src/spi_link.cpp:1416-1440 | A client that waits for capabilities and hears nothing starts over exactly after 250 ticks of a millisecond, unless it cannot reset a mailbox that is not free |
| LinkLimits.RecoversExactly | src/firmwareEsp32/src/spi_link.cpp:734-782 | A mailbox that is not free when the client starts is drained, or else reset, and the client starts over; if that fails, nothing changes |
| LinkLimits.CapsKeepExactly | src/firmwareEsp32/src/spi_link.cpp:1320-1412 | Capabilities keep the definitions exactly if they were to be kept, are complete and of the same generation; points, payload size and generation are those on the wire |
| LinkLimits.RefreshAsks | src/firmwareEsp32/src/spi_link.cpp:1250-1255 | A refresh asked for is served, once the mailbox is free, by a request for the states from the first one on |
| LinkLimits.RoomsAreFull | src/firmwareEsp32/src/spi_link.cpp:263-655 | The client asks for as much as the server's payload holds: all bytes behind the prefix, and as many records of 16 bytes as fit |
| LinkLimits.FinishedCounts | src/firmwareEsp32/src/spi_link.cpp:1540-1609 | A chunk that finishes a snapshot records its sequence, and no more points than the client knows of and than there are states: the smaller of the two |
| LinkLimits.LastAreKept | src/firmwareEsp32/src/spi_link.cpp:144-155 | Of all updates not yet handed out the last 512 are kept |
| LinkLimits.UpdateFieldByField | src/firmwareEsp32/src/spi_link.cpp:475-533 | An update on the wire: its type, its sequence and its number of records at their literal offsets |
| LinkLimits.ChunksFieldByField | src/firmwareEsp32/src/spi_link.cpp:1462-1581 | Which responses are taken for chunks of definitions and of states, by their type and sizes at literal offsets |
| LinkLimits.RecordSizes | src/firmwareEsp32/src/spi_link.cpp:300-303 | A record takes 16 bytes on the wire, and 64 more exactly if it is of a string |
| LinkUpdates.PollResyncsExactly | src/firmwareEsp32/src/spi_link.cpp:1076-1298 | The same for one poll |
| LinkUpdates.FirstRequestIsCaps | src/firmwareEsp32/src/spi_link.cpp:734-782 | Whatever the mailbox holds at startup, and however often the recovery starts over, the first request of every run of polls asks for the capabilities |
| LinkUpdates.UnaskedPoll | src/firmwareEsp32/src/spi_link.cpp:734-782 | That request is sent only after a restart or with a mailbox that holds nothing |
| SpiLink.StoredDefinitions | src/firmwareEsp32/src/spi_link.cpp:272-298 | After a chunk every definition is what the chunk says of it, if it is made of whole records that fit; otherwise, and where it says nothing, what it was before in a table of the same size, and blank in one of another |
| SpiLink.CopyDefinitions | src/firmwareEsp32/src/spi_link.cpp:282-289 | The copy into the definitions in place lays the chunk's records over the table at their offset |
| SpiLink.Cache.StoreSnapshotChunk | src/firmwareEsp32/src/spi_link.cpp:353-395 | The records of a chunk written into the state table in place, grown to the announced size: the table is as with the records placed one after the other |
| SpiLink.Cache.StoreUpdateChunk | src/firmwareEsp32/src/spi_link.cpp:430-473 | The same for updates: the table grows as points need it, and each record is queued in the ring |
| SpiLink.Cache.TakeUpdateFrame | src/firmwareEsp32/src/spi_link.cpp:475-533 | An update frame is taken exactly if all announced records are in what was received of it, measured first; then they are in the table and in the ring |
| SpiLink.Cache.TakeSnapshotFrame | src/firmwareEsp32/src/spi_link.cpp:1540-1581 | The same for a frame with a chunk of the snapshot |
| SpiLink.Cache.PopPointUpdate | src/firmwareEsp32/src/spi_link.cpp:1763-1801 | Nothing from an empty ring; the oldest entry is taken out and handed out with the state and definition of its point, and dropped if the point is not in the table |
| LinkUpdates.QueuedUpdatesAreHandedOut | src/firmwareEsp32/src/spi_link.cpp:1763-1801 | Over every run, none is dropped so: whenever an update is pending, the oldest is handed out with the current state of its point |
| SpiLink.MeasureStateRecords | src/firmwareEsp32/src/spi_link.cpp:397-428 | The measuring loop succeeds exactly if the chunk holds that many records, returns the number of bytes they take up, and the records are already in these first bytes |
| SpiLink.PendingUpdates.Push | src/firmwareEsp32/src/spi_link.cpp:144-155 | The ring drops its oldest entry when it is full and keeps the order of the others |
| SpiLink.PendingUpdates.Pop | src/firmwareEsp32/src/spi_link.cpp:1773-1777 | A ring that is not empty gives back its oldest entry and keeps the order of the others |
| SpiLink.PendingUpdates.Clear | src/firmwareEsp32/src/spi_link.cpp:138-142 | The ring is emptied |
| PlcLink.HeaderRoundTrip | src/plcLink/protocol_codec.cpp:36-137 | An encoded header decodes to itself if it is valid, and is refused otherwise |
| PlcLink.EncodeHeader | src/plcLink/protocol_codec.cpp:36-53 | Encoding writes the header bytes, or nothing if the buffer is short or the header invalid |
| PlcLink.PlansTile | src/plcLink/protocol_fragmentation.cpp:5-51 | The fragments of every payload that can be fragmented concatenate to it, from any fragment on |
| PlcLink.FragmentedExactly | src/plcLink/protocol_fragmentation.cpp:5-20 | A payload can be fragmented exactly if it is not empty and 255 fragments are enough, and then into as few as hold it |
| PlcLink.PlanIs | src/plcLink/protocol_fragmentation.cpp:22-51 | Every fragment of such a payload is planned, contiguous, full but for the last |
| PlcLink.FragmentHeaderSurvives | src/plcLink/protocol_codec.cpp:106-137 | An otherwise valid header with a fragment's index and count survives encoding and decoding if and only if the more-fragments flag is set exactly on fragments that are not the last |
| NodeNet.FrameRoundTrip | tools/BigSisterNodeNet.Sniffer/Encoder.cs:9-147 | Every frame decodes to its message if its payload has fewer than 256 bytes, and to nothing if it has more: the check byte drops the high length byte in encoding only, and the length field is too short from 65536 bytes on |
| NodeNet.EncodeFrame | tools/BigSisterNodeNet.Sniffer/Encoder.cs:9-64 | The list the encoder builds byte by byte |
| NodeNet.FrameOnTheWire | tools/BigSisterNodeNet.Sniffer/Encoder.cs:9-64 | A frame byte by byte, literally, but for its check byte |
| NodeNet.NibblesOnTheWire | tools/BigSisterNodeNet.Sniffer/Encoder.cs:43-58 | Each payload byte is sent as two: its high half and the complement of that, and its low half the other way round |
| NodeNet.StreamDecodes | tools/BigSisterNodeNet.Sniffer/Program.cs:87-187 | For any stream of frames with payloads of 1 to 65535 bytes, heartbeats and bytes other than SOH between them, fed byte by byte: exactly the messages sent are emitted, in order, and nothing stays in the buffer; only frames of 256 payload bytes or more are lost, and nothing with them |
| NodeNet.ScanSplits | tools/BigSisterNodeNet.Sniffer/Program.cs:90-187 | For any bytes at all, scanning early and going on with what stayed is scanning everything at once |
| NodeNet.FeedIsScan | tools/BigSisterNodeNet.Sniffer/Program.cs:90-187 | So the messages heard do not depend on how the bytes arrive |
| NodeNet.Receiver.ProcessByte | tools/BigSisterNodeNet.Sniffer/Program.cs:90-187 | The loop on the receive buffer ends, emits the messages found and keeps what may still become one |
| JsonFramer.ObjectsAreFramed | tools/BigSisterNodeNet.Core/NodeNetCore.cs:621-702 | For any stream of brace-balanced objects (any nesting, strings with escapes and braces) separated by text without an opening brace, each object is returned exactly once, at its last byte, with its exact text |
| JsonFramer.OnlyObjectsAreFramed | tools/BigSisterNodeNet.Core/NodeNetCore.cs:621-702 | Conversely, on any bytes at all the reader returns exactly the whole brace-balanced objects of the stream, and its fields describe the one left unfinished |
| JsonFramer.JsonObjectFrameReader.TryAppend | tools/BigSisterNodeNet.Core/NodeNetCore.cs:629-690 | The fields and the result after one byte |
| JsonFramer.JsonObjectFrameReader.Reset | tools/BigSisterNodeNet.Core/NodeNetCore.cs:692-699 | The fields after a reset |

## Left out

- Case folding and characters beyond ASCII: keywords are folded for ASCII letters only, names and paths of an object file are ASCII, and characters outside the basic plane are not modelled.
- Splitting source text into lines: sources and listings are sequences of lines.
- Float text: `float.Parse` and the round-trip format are functions of the host; the laws about listings ask that the floats of the program print as one word that parses back to the same bits, which a NaN with a payload does not.
- `DB` lines: the assembler and the disassembler model them, `Acceptance.AssemblesExactly` and `AnyCode.AnyBytesComeBack` cover them, and the other laws about programs exclude them, because data is not told from code again.
- Acceptance.AssemblesExactly: about lines that have been read; a line fails to be read exactly if the text before its first colon is empty or has a character that is neither a letter, a digit nor an underscore.
- Exception texts: errors carry their kind and line only; absent arguments do not occur.
- Fixed text fields that fill their whole width: the loader reads them up to the next zero byte in its own buffers, here they end at their width.
- LinkResult's type and flags of the resolved descriptor, and descriptor memory in the publisher: only the status, the index and the value offset reach the code.
- Fields of a point definition that no law is about (polling, unit, scale and the like) are one number; command states, the browse index, the generation counter and the queue of changed states move or change with the catalog and are not modelled. The hash index is a search for the last point with an identity.
- The hash of the catalog is an input of each load: any value, or, where a law needs it, another value for another catalog. FNV-1a is modelled, but not over these fields, and two catalogs can share a hash.
- Room for the definitions a preparation collects is always found.
- SlotLoader.LoadObjectFileIntoSlot: the catalog is given as it is after the preparation, with the writes to make; `Preparation` has the preparation in place on a catalog of its own, whose states are records instead of bytes in SDRAM. The same holds of the other loads in place; what the preparation is, is fixed in `SlotIsolation.Perform`.
- StaleSlots.StaleExactly: programs that use variables of the slot being loaded are covered by `SlotIsolation.LoadedProgramMeans`, without counting.
- FlashLoads.FlashLoadedProgramMeans: asks that the slot's points are local and on one device with a name, as the firmware makes them; for any other catalog `FlashLoads.FlashLoadedCode` has the condition on the types, and `LoadsAgree.ObjectFollows` shows that it is exact. The same holds of `LoadsAgree.LoadsAgree`.
- PointAccess.LoadedUses: about files of the assembler without `DB` lines, as the laws on meaning are.
- Changes to the catalog that are no loads: `Staleness.MeansExactly` holds for any later catalog, the laws about runs speak of the loader's operations.
- The firmware's rounds over the slots (who reloads when, restoring paused and running): `Refresh` has the comparison and the effect of one reload.
- LinkedProgram.LinkingPreservesProgram: `Builds` also asks that the object can represent the assembly: ABI version 1, fewer than 65536 symbols and relocations, whose counts the builder would cut to 16 bits, and names and paths in ASCII without zero characters. The same holds of the other laws about sources that assemble and build.
- clearVolatileState and the readers of parameters and snapshots: they write nothing a law is about, or clear everything.
- An object file passed to a load that lies in the snapshot area it is copied to: files are values here.
- Agreement of the manifest checksum with the code after a failed reload, and of the page cache with flash after a failed page read: neither holds. `Stage0.FlashReader` keeps its cache coherent only while reads succeed.
- Self tests of SDRAM, the entry probe, LEDs, the display and the diagnostic hold: stage0 starts at the image header. The driver's status that refines a header read fault is one fault here.
- Stage0.Run: a flash page read may fail at any attempt, but a page that is read is read right.
- BootVariants.MakeVariants: the files written to disk are values.
- Mutexes, tick rates and timeouts of the link client: the time since the request for capabilities is an input of the poll, taking a lock succeeds, and log counters and request numbers are not kept.
- The flags and counters of the link client in place: they are a record, and the branches of its poll functions of it (`LinkPoll`); only what the client's mutex guards, tables and ring, is kept in place (`SpiLink.Cache`).
- SpiLink.Cache.PopPointUpdate: the counts handed out along with an update are not modelled.
- LinkRuns.AdvanceIsBounded: about runs without records at sequence zero; `LinkRuns.RunResyncsExactly` has none of these bounds.
- LinkWrites.OverExactly: any valid response read while a write is being answered ends it, as in the client; that it belongs to the write is not checked there either.
- At most one outstanding request of the link client: a resync that keeps the definitions can request states while capabilities are outstanding.
- LinkConvergence.ClientConverges: the server's tables stay fixed while it answers, and the capabilities come before the client's patience runs out; what changes later is the subject of `LinkRuns` and `LinkUpdates`.
- Transport of responses: a poll is given the bytes it would read, or that reading fails.
- JsonFramer.JsonObjectFrameReader.TryAppend: the depth is unbounded, where the source counts in 32 bits.
- NodeNet: console output of the receiver; a frame that does not decode is dropped where the source also prints a message. Frames without payload other than heartbeats are received but not part of the stream law.
- The PLC machine itself: the meaning of a program stops at decoded instructions, operands and branch targets.
- Wi-Fi, web sockets, user interfaces, node discovery and asset generation.
