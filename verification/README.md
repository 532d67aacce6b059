# NimbleFIX: a verified model

NimbleFIX is a FIX tag=value engine. This project models its codec, its message index, its replay path, its
dictionary pipeline, its contract text format, its session schedule and its lock-free queue in Dafny, and proves that
the fast forms agree with the simple ones, that readers undo writers, and where exactly they do not.

`dafny verify dfyconfig.toml` checks everything.

## How the model is laid out

| part | modules | main results |
|---|---|---|
| wire format | Bytes, FixTags, Scanner, TokenStream | scanning undoes printing |
| decoding over trees | Dictionary, Validation, ParsedTree, GroupParser, Decoder | reference for everything below |
| encoders | OwnedMessage, Encoder, TemplateEncoder, EncoderSplit, TemplateExact, EncodeBuffer, Framing, PlainContent, RulesReorder | template and generic encoder differ on exactly one family of messages; rules only reorder |
| round trip | RoundTrip, FrameRoundTrip, RoundTripReads, TemplateRoundTrip, PlainRoundTrip | decode undoes encode, nested groups included |
| any frame | Reading, ReadingStored, DecodeOutcome, IssueTruth, ReadingShape | which frames decode, what is stored of them, and what a recorded issue means, for all bytes |
| soundness | Soundness, RootSoundness, SoundnessLimits | no recorded issue means a well-formed message; for groups exactly when delimiters are rules |
| linked arrays | FlatTree, FlatUpdates, FlatMessage, FlatParser, FlatRoot, FlatDecoder, FlatReaders, RootIndex, RootHistory, ParserProgress | the array decoder refines the tree decoder |
| compiled decoder | CompiledDecoder, CompiledSimulation, CompiledFrames, CompiledPlaces, CompiledIssues, CompiledVerdicts | decodes every frame like the generic one exactly when all usable group rules are indexed; its verdicts against the generic ones |
| replay | RawPassThrough, RawSoundness, Replay, ReplayInto, ReplayRoundTrip, ReplayTexts | accepted bytes characterised; one-pass equals simple; bodies survive |
| fixed layout | FixedLayout, FixedLayoutFacts, FixedGeneric | last write wins; bound header equals slow header; equals the generic frame exactly for SOH and full names |
| dictionary pipeline | OverlayMerge, OverlayPlaces, OverlayApply, OverlayDetails, OverlayLoad, PackedRows, ArtifactFile, ArtifactCheck, ArtifactRoundTrip, ArtifactWriter, StringTable, ProfileRecords, ProfileFile, ProfileBuilder, KeyIndex, ProfileView, ProfileLookups, ProfileRoundTrip, RequiredFields, ProfileRequired, GroupOrder | a built profile loads and answers like its dictionary |
| contract text | EscapedText, TextLines, TextNumbers, CanonicalOrder, Contract, ContractForm, ContractLoads, ContractLists, ContractRoundTrip, ContractTamper, ContractText | load undoes serialize exactly within the format; a wrong id is refused |
| schedule, queue | Schedule, ScheduleMeaning, SpscRing | first logon instant; safety in every interleaving |

Code that works by changing things is a method or a class whose contract ties the new state to a function of the old
one; the properties are then proved of that function. Inputs the code refuses are modelled as refusals. Framing follows
the FIX 4.2 specification, Appendix B "CheckSum Calculation", and its rules for repeating groups.

Where the code does not keep what its callers may expect, the project says exactly when it does:

- A group rule without a slot in the compiled decoder makes it differ from the generic decoder. The header file says
  that an exceeded decoder is to be avoided, but rules beyond the 128th are dropped without marking it
  (src/codec/compiled_decoder.cpp:44-46); the model follows the code.
- A scalar under a group count tag is printed by the generic encoder only, and one under a framing tag of the rules by
  the template only (`TemplateExact.AgreesExactly`).
- A root field behind a group is not at its position when the root is read by position
  (`FlatReaders.RootOrderExactly`).
- A group whose delimiter is none of its rules reads empty entries without an issue. That is exact for groups
  (`Soundness.SoundExactly`). For whole frames it shows where the message lists the delimiter
  (`SoundnessLimits.MisplacedDelimiterShows`) and never where nothing lists it (`RootSoundness.DecodeSound`);
  `ReadingShape.CleanFrame` says for any dictionary what a clean frame holds.
- The compiled decoder looks at no header value, at no second MsgType and at no definition of a body rule, and it
  refuses body rules behind the 128th (`CompiledVerdicts.VerdictsCompared`).
- The fixed layout ends MsgType in SOH and prints empty names (`FixedGeneric.FixedAgreesExactly`).
- A raw frame of header fields only, without a delimiter before its CheckSum, has no body range
  (`RawPassThrough.OverrunExactly`).
- Root fields whose tags agree in 16 bits hide one another; values of 64 KiB and more are shown cut.
- A replayed body that starts with a header field is not recovered without its stored offset.
- A contract survives its text exactly when `ContractForm.Survives` holds of it.
- The direct field table misses places from 65535 on.
- In the last week of the 64-bit clock a next logon start may not be representable.

## Model

| member | source | states |
|---|---|---|
| `Bytes.DigitsWidth` | include/internal/nimblefix/codec/fast_int_format.h:27-108 | A number prints in at most k digits exactly when it is below ten to the k |
| `Bytes.FormatUint32` | include/internal/nimblefix/codec/fast_int_format.h:27-108 | The width-dispatched pair-table formatter writes the decimal text of every 32-bit number |
| `Bytes.FormatSequential` | include/internal/nimblefix/codec/fast_int_format.h:96-108 | Writing digits backwards and reversing them gives the same decimal text |
| `Bytes.ParseUnsignedOfDigits` | src/codec/fix_codec.cpp:275-286 | Every 32-bit number survives printing and parsing |
| `Bytes.ParseSignedOfDigits` | src/codec/fix_codec.cpp:410-421 | Every 64-bit signed number survives printing and parsing, the lowest one included |
| `Bytes.ThreeDigitsParse` | src/codec/fix_codec.cpp:1724-1730 | A three-digit checksum text parses back to the checksum |
| `Scanner.FindDelimiter` | src/codec/fix_codec.cpp:353-408 | The bounded short search followed by the full search finds the first delimiter |
| `Scanner.ParseTagInline` | src/codec/fix_codec.cpp:297-333 | The unrolled tag parser gives the number written by one to five digits, and zero for any other text |
| `Scanner.ScanNextField` | src/codec/fix_codec.cpp:353-408 | The scanning loop finds tag, value range and next position, or the reason it cannot, as the field grammar defines them |
| `Scanner.ScanOfFieldText` | src/codec/fix_codec.cpp:353-408 | A printed field is scanned back with its tag and value wherever it stands in a buffer |
| `Scanner.ScanSound` | src/codec/fix_codec.cpp:353-408 | Whatever is scanned is digits, an equals sign, a delimiter-free value and a delimiter |
| `Scanner.ScanRefusesExactly` | src/codec/fix_codec.cpp:353-408 | Each reason for refusing a field is given exactly when it is true of the bytes |
| `TokenStream.TokenizeWire` | src/codec/fix_codec.cpp:353-408 | Scanning a printed list of fields gives that list back |
| `TokenStream.TokenizeWidth` | src/codec/fix_codec.cpp:353-408 | The fields of a buffer scanned to its end cover every byte of it |
| `EncodeBuffer.Buffer.AppendTracked` | src/codec/fix_codec.cpp:996-1010 | An append keeps the running checksum equal to the byte sum of the buffer modulo 2^32 |
| `EncodeBuffer.Buffer.AccumulateAppendedRange` | src/codec/fix_codec.cpp:987-994 | Catching up over an untracked tail makes the running checksum equal to the sum again |
| `EncodeBuffer.Buffer.ReplacePlaceholder` | src/codec/fix_codec.cpp:1683-1704 | The shrinking replacement of the BodyLength placeholder changes those bytes only and keeps the running checksum equal to the sum |
| `EncodeBuffer.EncodePlainBody` | src/codec/fix_codec.cpp:1368-1393 | The loops without a dictionary write the bytes of the encoder's lines |
| `PlainContent.PlainPrints` | src/codec/fix_codec.cpp:1368-1393 | Without rules a message prints, in insertion order, each unskipped field that counts no group, then each group's count and entries, at every depth |
| `PlainContent.PlainIsEmit` | src/codec/fix_codec.cpp:1368-1454 | The encoder without a dictionary is the dictionary encoder given an empty dictionary |
| `RulesReorder.RulesOnlyReorder` | src/codec/fix_codec.cpp:1395-1454 | With rules or without, a message without repeated tags prints every field the same number of times: rules change the order only |
| `PlainRoundTrip.DecodeOfUnlisted` | src/codec/fix_codec.cpp:1765-1827 | A printable message of a type the dictionary does not list decodes, and its reading is the header fields and then its lines in insertion order, groups flattened |
| `EncodeBuffer.EncodeMessageBody` | src/codec/fix_codec.cpp:1395-1454 | The generic encoder prints what the rules cover in rule order, then every remaining field and group once |
| `EncodeBuffer.CompileScopeTemplate` | src/codec/fix_codec.cpp:1590-1617 | Compilation yields the template of the rules, recursively, for every dictionary whose groups nest without a cycle |
| `EncodeBuffer.EncodeScopeTemplate` | src/codec/fix_codec.cpp:1619-1681 | The template encoder prints the fields its template stands for and keeps the running checksum right through nested groups |
| `TemplateEncoder.ScopeAgrees` | src/codec/fix_codec.cpp:1590-1681 | At every depth of nesting the compiled template and the generic encoder emit the same fields, when groups and scalars fit |
| `Framing.HeadersAgree` | src/codec/fix_codec.cpp:1124-1176 | Once a template accepts its options, the two headers agree exactly when template and options name the same parties |
| `TemplateExact.AgreesExactly` | src/codec/fix_codec.cpp:1590-1681 | Where groups are rules known to the dictionary or neither, both encoders emit the same fields exactly when, in every printed scope, the tag of a scalar that is a rule and has no group is neither a framing tag nor a count tag, or both |
| `TemplateRoundTrip.FramesAgreeExactly` | src/codec/fix_codec.cpp:2099-2207 | With values free of the delimiter, the bytes of the template frame are those of the generic frame exactly then |
| `Framing.TemplateIsUnobservable` | src/codec/fix_codec.cpp:2385-2402 | Then, whichever encoder the dispatch picks, the bytes of the frame are those of the generic encoder |
| `Framing.ScalarUnderCountTagIsLost` | src/codec/fix_codec.cpp:1619-1681 | A scalar stored under a group count tag is printed by the generic encoder and dropped by the template |
| `Framing.ScalarUnderFrameTagIsPrinted` | src/codec/fix_codec.cpp:1590-1617 | A scalar stored under a framing tag that is a rule is printed by the template and dropped by the generic encoder |
| `TemplateRoundTrip.TemplateHonoursOptions` | src/codec/fix_codec.cpp:2099-2130 | An accepted template prints every name that the options give, so a name that the template was not compiled with is refused |
| `Framing.OpenTracked` | src/codec/fix_codec.cpp:2099-2140 | A tracked frame starts with BeginString and the BodyLength placeholder, its checksum already right |
| `Framing.CloseTracked` | src/codec/fix_codec.cpp:2185-2207 | Closing from the running checksum gives the frame with the exact BodyLength and the byte sum modulo 256, or refuses a body too long |
| `Framing.CloseUntracked` | src/codec/fix_codec.cpp:1806-1827 | Backfilling the length and summing the finished buffer gives that same frame |
| `Framing.EncodeWithTemplate` | src/codec/fix_codec.cpp:2099-2207 | The one-pass template path writes the framed header and body of its template, or refuses |
| `Framing.EncodeGeneric` | src/codec/fix_codec.cpp:1765-1827 | The generic path writes the framed header and body of the dictionary encoder, or refuses |
| `RoundTrip.GroupOfEncoding` | src/codec/fix_codec.cpp:792-939 | A conforming group, nested to any depth, parses back to its own entries with no issue and nothing more consumed |
| `RoundTrip.TakeConforming` | src/codec/fix_codec.cpp:222-273 | A conforming field met in rule order passes validation and is stored unchanged |
| `RoundTrip.ViewKeepsText` | include/public/nimblefix/message/message_structs.h:122-145 | The 16-bit length of a slot shows the whole value exactly when it is shorter than 64 KiB |
| `FrameRoundTrip.DecodeOfEncode` | src/codec/fix_codec.cpp:2507-2775 | Encoding any conforming message and decoding the frame succeeds, with checksum verification or without, raises no issue, and gives back fields, groups and entries, the sequence number, both flags, and each header text exactly when its option is there |
| `TemplateRoundTrip.DecodeOfTemplate` | src/codec/fix_codec.cpp:2099-2207 | The same for a frame encoded from a template, and for what the dispatch sends |
| `FrameRoundTrip.ClosePrinted` | src/codec/fix_codec.cpp:2727-2775 | The framing checks accept the BodyLength and CheckSum the encoder printed |
| `RoundTripReads.SlotsRead` | src/codec/fix_codec.cpp:2507-2775 | Reading the decoded tree by tag gives what the message had under that tag, and nothing under any other |
| `RoundTripReads.GroupsRead` | src/codec/fix_codec.cpp:2507-2775 | Reading a group by count tag gives the message's own group, and no other group is there |
| `RoundTripReads.EntriesRead` | src/codec/fix_codec.cpp:792-939 | The entries of a read group are the entries of the message's group in order |
| `RoundTripReads.RootReads` | src/codec/fix_codec.cpp:2507-2775 | Body tags and groups of the decoded root read as the encoded message had them, whatever header fields stand before them |
| `RoundTripReads.RootHeaderReads` | src/codec/fix_codec.cpp:2507-2775 | Header tags of the decoded root read as the options said, and are absent where an option is empty |
| `RoundTripReads.ValuesReadBack` | src/codec/fix_codec.cpp:1178-1197 | Integers, flags and characters parse back from the text printed for them |
| `Soundness.GroupSound` | src/codec/fix_codec.cpp:792-939 | A group parsed without an issue has a reading with exactly its declared number of delimiter-first entries, fields in rule order, unrepeated, allowed and well typed, at every depth, that spells the bytes consumed; the stored entries are its entries, each cut to 128 fields |
| `Soundness.EntriesSound` | src/codec/fix_codec.cpp:823-939 | As many entries as announced were read, each sound, and together they spell the fields consumed |
| `Soundness.SoundExactly` | src/codec/fix_codec.cpp:823-939 | For a dictionary keyed by count tags, every group read without an issue has such a reading exactly when each delimiter is one of its group's rules |
| `Soundness.DelimiterIsNotRead` | src/codec/fix_codec.cpp:823-939 | A delimiter outside the rules stays unread and gives an empty entry without an issue, whatever follows it |
| `Soundness.GroupsUncut` | src/codec/fix_codec.cpp:857-902 | With at most 128 rules for each group nothing is cut |
| `Soundness.StoredInOrder` | src/codec/fix_codec.cpp:857-936 | Fields in rule order never overwrite one another when an entry is stored |
| `RootSoundness.LoopSound` | src/codec/fix_codec.cpp:2569-2726 | A run of the decode loop that records no issue took allowed, unrepeated, ordered fields and sound groups only |
| `RootSoundness.MessageSound` | src/codec/fix_codec.cpp:2569-2726 | The same from the first field on, for a known message type |
| `RootSoundness.LooseRecorded` | src/codec/fix_codec.cpp:2569-2726 | A delimiter that a group leaves unread and no rule lists is an issue for the message |
| `RootSoundness.DecodeSound` | src/codec/fix_codec.cpp:2507-2775 | A frame that decodes with no issue is sound throughout: framing, order, repetition, nesting, counts and types; its groups are the sound ones with entries cut to 128 fields. Each delimiter is a rule of its own group, or neither a header tag nor any rule |
| `SoundnessLimits.MisplacedDelimiterShows` | src/codec/fix_codec.cpp:823-939 | Where a delimiter is a rule of the message and not of its group, there is a frame that decodes with no issue, has an empty entry and has no sound reading |
| `SoundnessLimits.DelimiterOutsideItsGroup` | src/codec/fix_codec.cpp:823-939 | Such a frame for a dictionary of two fields |
| `Reading.RootWhole` | src/codec/fix_codec.cpp:2569-2726 | The reading of a frame by its dictionary holds every field once and in order, up to the CheckSum or the end |
| `Reading.EntriesWhole` | src/codec/fix_codec.cpp:823-939 | Entries read and entries missing make up the announced number, and no delimiter stands where one is missing |
| `ReadingStored.EntriesStored` | src/codec/fix_codec.cpp:823-939 | With an issue or without, entries hold the fields read for them, first 128 of each, the last text of a repeated tag |
| `ReadingStored.LoopStored` | src/codec/fix_codec.cpp:2569-2726 | With an issue or without, the decode loop stores the fields, groups and header values of its reading |
| `ReadingStored.LookupIsLast` | src/codec/fix_codec.cpp:625-656 | A root lookup gives the last text of its tag |
| `ReadingStored.DecodeStores` | src/codec/fix_codec.cpp:2507-2775 | Every frame that decodes has the right BodyLength and CheckSum, and its root, groups and header hold the last value read for each field |
| `DecodeOutcome.LoopOutcome` | src/codec/fix_codec.cpp:2569-2726 | The decode loop fails with the first refusal in reading order: a bad header value, count, entry number or depth, else where the bytes are malformed |
| `DecodeOutcome.DecodesExactly` | src/codec/fix_codec.cpp:2507-2775 | A frame decodes exactly when it opens with BeginString and BodyLength, nothing in it is refused, it ends in its CheckSum behind at least one field, and length and sum are right; every reason for a refusal is true |
| `IssueTruth.EntryFieldJudged` | src/codec/fix_codec.cpp:222-273 | The issue noted for a field of an entry is its most urgent fault: repeated, unknown, not allowed, out of order, without value or badly formed |
| `IssueTruth.RootFieldJudged` | src/codec/fix_codec.cpp:222-273 | The same for a field of the message |
| `IssueTruth.EntriesExplained` | src/codec/fix_codec.cpp:823-939 | The issue of a group is the first fault among its fields in reading order, or that of the entry that is missing |
| `IssueTruth.LoopExplained` | src/codec/fix_codec.cpp:2569-2726 | The issue that the decode loop ends with is the first fault in reading order |
| `IssueTruth.IssueExplained` | src/codec/fix_codec.cpp:2507-2775 | For every frame that decodes, the recorded issue names the first faulty field or group and is true of it, and no issue means no fault |
| `ReadingShape.CleanFrame` | src/codec/fix_codec.cpp:2507-2775 | For any dictionary, a frame that decodes with no issue has all announced entries at every depth, each started by its delimiter, or empty where the delimiter is none of the group's rules |
| `FlatMessage.ParsedMessage.FindParsedGroupIndex` | src/codec/fix_codec.cpp:729-741 | Following the links finds the group of a container that a search of its groups finds |
| `FlatMessage.ParsedMessage.EnsureParsedGroup` | src/codec/fix_codec.cpp:743-773 | The group of a count tag is found or appended; every other container still shows what it showed |
| `FlatMessage.ParsedMessage.AppendParsedEntry` | src/codec/fix_codec.cpp:775-790 | A new entry is linked behind the last one of its group |
| `FlatMessage.ParsedMessage.FindEntrySlot` | src/codec/fix_codec.cpp:576-609 | Scanning an entry's range finds the slot its list of fields has for the tag |
| `FlatMessage.ParsedMessage.AppendParsedFieldSlot` | src/codec/fix_codec.cpp:625-656 | A repeated tag overwrites its own slot and a new one extends the entry's range; nothing else changes |
| `FlatMessage.ParsedMessage.AppendDeferred` | src/codec/fix_codec.cpp:932-935 | Deferred slots go in one contiguous range, as if stored one after the other |
| `FlatParser.ConsumeField` | src/codec/fix_codec.cpp:857-888 | One field and the group it may open leave the arrays as one step of the parser leaves its tree |
| `FlatParser.ParseEntry` | src/codec/fix_codec.cpp:857-936 | One entry parsed into the arrays shows the entry of the parser's tree |
| `FlatParser.ParseGroupEntries` | src/codec/fix_codec.cpp:792-939 | The recursive parser over linked arrays ends like the parser over trees on all bytes: same error, or same entries, position and issue |
| `RootIndex.Index.ResetForNewDecode` | include/public/nimblefix/message/message_structs.h:186-204 | A reset forgets every key, also when the 16-bit generation wraps around |
| `RootIndex.Index.Find` | src/codec/fix_codec.cpp:576-609 | Generation-stamped table and overflow list answer like a map from keys to slots |
| `RootIndex.Index.Insert` | src/codec/fix_codec.cpp:611-623 | An insertion adds its own key to that map and nothing else |
| `RootIndex.Index.Lookup` | src/message/message.cpp:119-147 | The quick cache of session tags answers like the table, but for a slot number equal to its mark for none |
| `RootHistory.LookupIsLastWithKey` | src/codec/fix_codec.cpp:576-699 | After any history of appends a lookup gives the last field stored under the key of the tag |
| `RootHistory.LastWriteWins` | src/codec/fix_codec.cpp:576-699 | That is the last field with the tag exactly when no other tag with the same 16-bit key was stored last |
| `RootHistory.NarrowTagsNeverClash` | src/codec/fix_codec.cpp:611-623 | With tags below 65536 the last write always wins |
| `RootHistory.WideTagsClash` | src/codec/fix_codec.cpp:611-623 | Tags 1024 and 66560 share a key, so one hides the other |
| `RootHistory.FirstSlotStays` | src/codec/fix_codec.cpp:625-656 | A key keeps the slot of its first field for ever |
| `FlatDecoder.AppendRootSlot` | src/codec/fix_codec.cpp:625-656 | Storing a root field updates slot and index together |
| `FlatDecoder.AppendRootSlotFast` | src/codec/fix_codec.cpp:658-699 | The fast append leaves the same message and the same keys as the general one |
| `FlatDecoder.PrepareDecodeOutput` | src/codec/fix_codec.cpp:335-350 | A reused output starts empty, with no key left over |
| `FlatDecoder.StoreField` | src/codec/fix_codec.cpp:2615-2720 | One field stored through the index leaves the arrays as one step of the decoder leaves its tree |
| `FlatDecoder.DecodeFields` | src/codec/fix_codec.cpp:2569-2726 | The loop over the arrays ends like the loop over trees |
| `FlatDecoder.ByteSum` | src/codec/fix_codec.cpp:2743-2764 | The 32-bit byte sum has the checksum of the unbounded sum |
| `FlatDecoder.Closes` | src/codec/fix_codec.cpp:2727-2775 | The closing checks on byte positions refuse and accept as the decoder over trees does on field widths, with the same error and the same result |
| `FlatDecoder.DecodeFixMessageView` | src/codec/fix_codec.cpp:2507-2775 | The decoder over arrays and index gives the status, header and message of the decoder over trees for every frame within the widths of the index |
| `FlatReaders.AppendedIsStep` | src/codec/fix_codec.cpp:625-699 | Root appends are the steps of the index's history |
| `FlatReaders.FindRootField` | src/message/message.cpp:119-147 | A root lookup by tag finds the root's own field |
| `FlatReaders.FindEntryField` | src/message/message.cpp:149-168 | An entry lookup by tag finds that entry's own field and no other entry's |
| `FlatReaders.NthParsedField` | src/message/message.cpp:170-177 | Positional reading of an entry gives its fields in order and ends where they end; at the root it gives the root field of that position exactly when no entry's slot stands before it |
| `FlatReaders.RootOrderExactly` | src/message/message.cpp:170-177 | The root reads right at all positions exactly when its slots are unbroken by those of an entry |
| `FlatReaders.FieldBehindGroupArises` | src/codec/fix_codec.cpp:625-790 | A message with a root field behind a group is what storing its fields one after the other leaves |
| `FlatReaders.FieldBehindGroupIsMissed` | src/message/message.cpp:170-177 | With a root field behind a group, the position of that field reads the field inside the group |
| `FlatReaders.NthParsedGroup` | src/message/message.cpp:194-207 | Following group links gives the container's groups in order |
| `FlatReaders.NthParsedEntry` | src/message/message.cpp:210-224 | Following entry links gives the group's entries in order |
| `FlatReaders.RangesDisjoint` | src/codec/fix_codec.cpp:857-936 | No slot lies in the ranges of two entries |
| `FlatReaders.LinksLeadForward` | src/codec/fix_codec.cpp:743-790 | Links only lead to higher indexes, so no chain has a cycle, and each chain ends at its last element |
| `FlatReaders.CountsAreLengths` | src/codec/fix_codec.cpp:743-790 | Stored counts are the lengths of the chains in 16 bits |
| `CompiledDecoder.IndexFinds` | src/codec/compiled_decoder.cpp:36-80 | Adding a slot keeps every slot added before findable and makes the new one findable, unless the overflow list is full |
| `CompiledDecoder.IndexCounted` | src/codec/compiled_decoder.cpp:36-80 | The overflow list holds the tags that met a taken place, up to sixteen, and the decoder is marked exceeded exactly when there are more |
| `CompiledDecoder.Build` | src/codec/compiled_decoder.cpp:28-84 | The built decoder finds each of the first 128 body rules with its type and group flag, unless more than sixteen collide, and only then is it marked exceeded |
| `CompiledSimulation.GroupIgnoresIssue` | src/codec/fix_codec.cpp:792-939 | What a group parses to does not depend on the issue recorded before it |
| `CompiledSimulation.MatchExactlyWhenIndexed` | src/codec/fix_codec.cpp:2879-3051 | The compiled loop opens the groups the generic loop opens exactly when every group rule that a frame can use got a slot |
| `CompiledSimulation.CompiledAgrees` | src/codec/fix_codec.cpp:2791-3101 | Then both loops end alike on every stream of scanned fields: same error, header, fields and groups |
| `CompiledSimulation.CompiledDecodeAgrees` | src/codec/fix_codec.cpp:2791-3101 | Every frame decodes to the same status, header, fields and groups either way when every group rule that a frame can use got a slot |
| `CompiledFrames.FramesAlikeExactly` | src/codec/fix_codec.cpp:2791-3101 | All frames decode alike exactly then |
| `CompiledFrames.UnindexedGroupIsLost` | src/codec/fix_codec.cpp:3045-3051 | For a group rule without a slot both decoders accept a frame of two body fields, and only the generic one has the group |
| `CompiledFrames.UnindexedGroupShows` | src/codec/fix_codec.cpp:3045-3051 | For any group rule without a slot, also one under a flag tag or a message type of any length, the two end differently on some frame |
| `CompiledIssues.KeptOrder` | src/codec/compiled_decoder.cpp:36-80 | Slots of a decoder stand in the order of their rules |
| `CompiledIssues.DecoderFieldJudged` | src/codec/fix_codec.cpp:2957-3044 | The issue noted for a field by its decoder is its most urgent fault by the decoder's checks |
| `CompiledIssues.CompiledIssueExplained` | src/codec/fix_codec.cpp:2791-3101 | For a frame of a known type, MsgType first and only once, the recorded issue is the first fault by those checks, and no issue means no fault |
| `CompiledVerdicts.VerdictsCompared` | src/codec/fix_codec.cpp:2791-3101 | The compiled and the generic decoder find such a frame clean together, but for header values, rules the dictionary does not define, a second MsgType and body rules behind the first 128 |
| `CompiledVerdicts.CleanBody` | src/codec/fix_codec.cpp:2957-3044 | A frame the compiled decoder finds clean has only body fields with a slot, unrepeated, in rule order and well typed |
| `CompiledVerdicts.UnkeptIsNoted` | src/codec/fix_codec.cpp:2971-2991 | A body field without a slot is always an issue, that the field is not allowed exactly when the dictionary defines it |
| `CompiledVerdicts.CompiledSound` | src/codec/fix_codec.cpp:2791-3101 | A frame it finds clean, with proper header values and defined body fields, is sound like one the generic decoder finds clean |
| `CompiledVerdicts.CompiledTypes` | src/codec/fix_codec.cpp:2879-3051 | Each field is stored with the type of its slot, a header field with its standard type, any other as a string |
| `CompiledVerdicts.UncheckedWithoutDecoder` | src/codec/fix_codec.cpp:3045-3051 | Without a decoder in use fields are stored as strings and nothing is noted |
| `CompiledPlaces.PlacesAgree` | src/codec/fix_codec.cpp:2791-3101 | For a frame that decodes, both decoders store the same offset and length under each root tag, and those bytes are its text |
| `RawPassThrough.ScanHeader` | src/codec/raw_passthrough.cpp:220-292 | The header loop stops at the first body field and keeps the header texts it passed |
| `RawPassThrough.DecodeRawPassThrough` | src/codec/raw_passthrough.cpp:164-293 | The raw decoder splits a frame into header texts and body, or refuses it, as the grammar of frames defines it |
| `RawPassThrough.OverrunExactly` | src/codec/raw_passthrough.cpp:213-291 | The body range would end before it starts exactly when no offset is known, every field behind BodyLength is a header field, the byte before the CheckSum field is no delimiter, and the next delimiter lies within 32 bits |
| `RawPassThrough.HeaderRunsIntoCheckSum` | src/codec/raw_passthrough.cpp:213-291 | A frame of nineteen bytes on which that happens |
| `RawSoundness.RawSound` | src/codec/raw_passthrough.cpp:164-293 | Whatever bytes are accepted are BeginString, BodyLength, header fields and a final CheckSum field, with a right length and, if asked for, a right sum; the view gives the last text of each header field and the bytes from the offset on |
| `RawSoundness.RawComplete` | src/codec/raw_passthrough.cpp:164-293 | Conversely every such frame is accepted with that view |
| `RawSoundness.WrongSumRefused` | src/codec/raw_passthrough.cpp:195-207 | A frame with a wrong CheckSum is refused when the sum is verified |
| `RawSoundness.RawWhole` | src/codec/raw_passthrough.cpp:164-293 | Below 4 GiB, or with a known offset at the end of a field, an accepted frame is its parts put together |
| `RawPassThrough.RawScanOfField` | src/codec/raw_passthrough.cpp:57-88 | The raw scanner reads a printed field back |
| `RawPassThrough.PassesHeader` | src/codec/raw_passthrough.cpp:220-292 | The header loop passes over a printed header and gathers exactly its texts |
| `Replay.EncodeReplay` | src/codec/raw_passthrough.cpp:403-501 | The simple replay encoder writes the frame of the replay header and the stored body |
| `ReplayInto.HeaderCounts` | src/codec/raw_passthrough.cpp:145-162 | The precomputed byte count is the length of the header as printed, whatever fields are present |
| `ReplayInto.WriteFront` | src/codec/raw_passthrough.cpp:557-649 | Everything before the body is written in place with its checksum accumulated |
| `ReplayInto.WriteBack` | src/codec/raw_passthrough.cpp:651-679 | The CheckSum printed from the accumulated sum is that of the whole frame, whether the body was copied or left in place |
| `ReplayInto.ChooseStorage` | src/codec/raw_passthrough.cpp:546-555 | A frame within the inline capacity uses the inline storage, a larger one storage of its exact size |
| `ReplayInto.FillBuffer` | src/codec/raw_passthrough.cpp:546-697 | The writer fills exactly the precomputed size |
| `ReplayInto.GathersTo` | include/public/nimblefix/session/encoded_frame.h:22-80 | Splicing an external body back in gives front, body and CheckSum in order |
| `ReplayInto.EncodeReplayInto` | src/codec/raw_passthrough.cpp:505-697 | In every storage mode the one-pass encoder gathers to the bytes of the simple encoder |
| `ReplayRoundTrip.FramingIsRight` | src/codec/raw_passthrough.cpp:164-293 | A replayed frame passes the raw decoder's length and checksum tests |
| `ReplayRoundTrip.ReplayRecoversBody` | src/codec/raw_passthrough.cpp:164-293 | Decoding a replayed frame gives the body back exactly when the body is empty or starts with a field outside the header, and its offset fits in 32 bits |
| `ReplayRoundTrip.KnownOffsetRecovers` | src/codec/raw_passthrough.cpp:297-311 | With the stored offset at hand the body always comes back, with the header texts that were written |
| `ReplayTexts.ReplayedHeaderSays` | src/codec/raw_passthrough.cpp:403-470 | Every header field of a replayed frame says what options and stored frame call for: type, sub ids, versions and routing stored unless overridden, PossDupFlag always set |
| `ReplayRoundTrip.ReplaysKeepBody` | src/codec/raw_passthrough.cpp:403-501 | However often a frame below 4 GiB is stored and replayed, its body stays unchanged |
| `ReplayRoundTrip.HeaderFieldInBodyIsLost` | src/codec/raw_passthrough.cpp:220-292 | A body that starts with a header field is not recovered |
| `FixedLayout.IndexSlots` | src/message/fixed_layout_writer.cpp:126-133 | The slot table maps each layout tag to its slot and no other tag |
| `FixedLayout.PlanSteps` | src/message/fixed_layout_writer.cpp:84-112 | The steps follow the body rules in order and know groups from fields |
| `FixedLayout.Build` | src/message/fixed_layout_writer.cpp:53-136 | A layout exists exactly for a known message type and follows its rules |
| `FixedLayout.Writer.Set` | src/message/fixed_layout_writer.cpp:310-377 | Setting a field makes its latest text readable through slot and buffer; tags outside the layout are ignored |
| `FixedLayout.Writer.Clear` | src/message/fixed_layout_writer.cpp:241-256 | Clearing forgets every field; groups that were used stay, without entries |
| `FixedLayout.Writer.AddGroupEntry` | src/message/fixed_layout_writer.cpp:379-398 | An entry is added to its own group and to no other |
| `FixedLayout.Writer.BindSession` | src/message/fixed_layout_writer.cpp:258-308 | Binding prepares header fragments for exactly the given session |
| `FixedLayout.StartFromOptions` | src/message/fixed_layout_writer.cpp:464-514 | The slow path writes the header field by field |
| `FixedLayout.StartFromFragments` | src/message/fixed_layout_writer.cpp:430-463 | The prepared fragments print the header of the bound session |
| `FixedLayout.AppendSteps` | src/message/fixed_layout_writer.cpp:568-606 | The body is the latest non-empty text of each layout tag in rule order, with groups between them |
| `FixedLayout.CloseFixed` | src/message/fixed_layout_writer.cpp:608-631 | The length backfilled at its place and the sum of the buffer close the frame correctly |
| `FixedLayout.EncodeToBuffer` | src/message/fixed_layout_writer.cpp:413-631 | After any use of setters and clears, the frame is that of the latest values |
| `FixedLayoutFacts.BodyIsGeneric` | src/message/fixed_layout_writer.cpp:568-576 | The body equals what the generic encoder prints for a message with the same values and groups |
| `FixedGeneric.FixedAgreesExactly` | src/message/fixed_layout_writer.cpp:413-631 | The frame is that of the generic encoder for the same message and names exactly when the delimiter is SOH and BeginString, sender and target are not empty |
| `FixedLayoutFacts.BoundAgreesExactly` | src/message/fixed_layout_writer.cpp:430-566 | A bound session prints the frame of the options exactly when it was bound to the same names |
| `SpscRing.PoppedIsPrefix` | examples/hello-fix/initiator.cpp:62-108 | In every interleaving of loads and stores, stale loads included, popped values are a prefix of pushed values and at most the capacity is in flight |
| `SpscRing.NoRace` | examples/hello-fix/initiator.cpp:62-108 | The producer never touches the slot the consumer reads, and each access comes after the release of the other thread that it depends on |
| `SpscRing.RefusedExactlyWhenFullOrEmpty` | examples/hello-fix/initiator.cpp:62-108 | A push is refused exactly when the ring looks full by the loaded tail, a pop exactly when it looks empty |
| `SpscRing.NeitherThreadBlocks` | examples/hello-fix/initiator.cpp:62-108 | Whatever a thread is doing, its next step is possible |
| `Schedule.BuildWindowSpecs` | src/runtime/config.cpp:134-167 | Segments, legacy fields and fallback give the windows the configuration describes |
| `ScheduleMeaning.WindowsMean` | src/runtime/config.cpp:103-167 | The windows are open at an instant exactly when the schedule is, by weekday and time of day: a segment's logon times if asked for and given, else its session times |
| `ScheduleMeaning.FirstLogonMeans` | src/runtime/config.cpp:343-370 | The first logon instant of the windows is the first instant that the schedule allows |
| `Schedule.NextStartIsFirst` | src/runtime/config.cpp:199-257 | The next start of a daily or weekly window, wrapping or not, lies inside it and no instant before it does, and is at most a week away |
| `Schedule.NextWindowStart` | src/runtime/config.cpp:218-257 | Adjusting the candidate date day by day arrives at that start, as long as the clock can represent it |
| `Schedule.NextLogonWindowStart` | src/runtime/config.cpp:354-370 | The earliest start over all windows is the first instant of the logon schedule exactly when the 64-bit clock reaches it |
| `Schedule.ClockReachesUntilLastWeek` | src/runtime/config.cpp:186-197 | The clock reaches every next start until its last week |
| `Schedule.ClockRunsOut` | src/runtime/config.cpp:186-197 | At its last instant it does not |
| `OverlayMerge.MergeFieldRules` | src/profile/overlay.cpp:29-67 | The loop merges as the anchor rules define |
| `OverlayMerge.MergeIsUnion` | src/profile/overlay.cpp:29-67 | The result keeps the base order, holds both lists' tags and no others, without repetition, the overlay's flags winning |
| `OverlayMerge.OverlayOrderKept` | src/profile/overlay.cpp:29-67 | The overlay's order is kept too exactly when common tags stand in the same order in both lists |
| `OverlayMerge.MergeIsIdempotent` | src/profile/overlay.cpp:29-67 | Merging the same rules again changes nothing, whatever the lists |
| `OverlayMerge.ConflictingOrders` | src/profile/overlay.cpp:29-67 | Two lists that disagree on an order: the base order stays |
| `OverlayPlaces.NewRuleStands` | src/profile/overlay.cpp:40-62 | A rule the base does not have stands directly before the overlay's next rule if the base has a later one, else directly behind the overlay's previous rule |
| `OverlayPlaces.UnrelatedJoin` | src/profile/overlay.cpp:64-66 | Lists with no tag in common are joined end to end |
| `OverlayApply.ApplyFields` | src/profile/overlay.cpp:77-93 | Fields are merged tag by tag, in order of the overlay |
| `OverlayApply.ApplyMessages` | src/profile/overlay.cpp:95-114 | Messages are merged type by type |
| `OverlayApply.ApplyGroups` | src/profile/overlay.cpp:116-144 | Groups are merged count tag by count tag, and a delimiter changes only by explicit leave |
| `OverlayApply.ApplyOverlay` | src/profile/overlay.cpp:71-174 | The whole overlay is applied and sorted, or refused for a delimiter or a core session tag |
| `OverlayApply.OverlayKeepsDistinct` | src/profile/overlay.cpp:71-174 | An overlay never brings duplicates into a dictionary without them, whatever it holds itself |
| `OverlayApply.OverlayMergesByKey` | src/profile/overlay.cpp:71-174 | The result defines each field, message and group as the baseline, the overlay, or both merged |
| `OverlayDetails.OverlayResult` | src/profile/overlay.cpp:71-174 | Under every key, attribute by attribute: the overlay's name if it has one, its type only with the baseline's leave, both flags, its delimiter, both rule lists merged |
| `OverlayDetails.RefusedExactly` | src/profile/overlay.cpp:127-163 | An overlay without duplicates is refused exactly when it changes a delimiter without leave or puts a session tag into header or trailer |
| `OverlayDetails.ResultIsSorted` | src/profile/overlay.cpp:165-171 | Fields come out by tag, messages by type, groups by count tag |
| `OverlayApply.FoldOverlays` | src/profile/profile_loader.cpp:231-261 | Folding overlays over a baseline gives the overlays applied one after the other, fails exactly when one is refused, and keeps a duplicate-free baseline duplicate-free |
| `OverlayLoad.AppliedTyped` | src/profile/overlay.cpp:71-174 | Numbers of a merged dictionary stay within 32 bits |
| `OverlayLoad.LoadProfileFromDictionaryFiles` | src/profile/profile_loader.cpp:231-261 | A baseline with a profile id and overlays that are not refused load as the merged dictionary when the baseline is duplicate-free; without a dictionary, without a profile id or with a refused overlay nothing loads |
| `GroupOrder.Visitor.VisitGroup` | src/profile/builder_codegen.cpp:863-883 | A depth-first visit settles its group and all it contains, on cyclic nesting too |
| `GroupOrder.OrderedGroupsByNesting` | src/profile/builder_codegen.cpp:846-889 | Each group is listed exactly once, and before every group that contains it when nesting is acyclic |
| `GroupOrder.SettledMeansFirst` | src/profile/builder_codegen.cpp:846-889 | A list in which nested groups come before, or on a cycle, is nested-first when there is no cycle |
| `RequiredFields.ComputeRequiredFieldBitmap` | src/profile/artifact_builder.cpp:98-115 | A bit of the 64-bit word is set exactly for a required rule among the first 64, the overflow flag exactly when one lies beyond |
| `RequiredFields.MaskBits` | src/profile/artifact_builder.cpp:98-115 | The word built by adding powers of two has exactly those bits |
| `ProfileRequired.LoadedNeedsBuilt` | src/message/typed_message.cpp:34-83 | Each group record of a loaded profile carries the dictionary's rules and the word of those rules |
| `ProfileRequired.ValidateLoaded` | src/message/typed_message.cpp:86-115 | Checking a message against a loaded profile passes exactly when every field the dictionary requires is there |
| `RequiredFields.ValidateEntry` | src/message/typed_message.cpp:34-83 | The bitmap check of an entry passes exactly when every required field, nested groups included, is there |
| `RequiredFields.ValidateRequiredGroup` | src/message/typed_message.cpp:34-83 | The same for all entries of a group, and a failure names a field that is missing |
| `RequiredFields.ValidateRequiredRules` | src/message/typed_message.cpp:86-115 | The same for a whole message |
| `EscapedText.EscapeToken` | src/profile/contract_sidecar.cpp:53-73 | Escaping character by character gives the escaped token |
| `EscapedText.UnescapeToken` | src/profile/contract_sidecar.cpp:75-101 | Unescaping undoes it, or refuses a cut or unknown escape |
| `EscapedText.UnescapeOfEscape` | src/profile/contract_sidecar.cpp:53-101 | Every token survives escaping and unescaping |
| `EscapedText.SplitEscaped` | src/profile/contract_sidecar.cpp:103-140 | The loop cuts at bare delimiters and unescapes each part |
| `EscapedText.SplitOfJoin` | src/profile/contract_sidecar.cpp:103-162 | Every list of tokens the delimiter can separate survives joining and splitting |
| `EscapedText.PartsAvoid` | src/profile/contract_sidecar.cpp:103-140 | No part holds a delimiter that escapes cannot produce |
| `TextLines.JoinOfSplit` | src/profile/contract_sidecar.cpp:103-162 | Conversely, joining the parts of a line gives the line back |
| `TextLines.EscapeOfUnescape` | src/profile/contract_sidecar.cpp:53-101 | Conversely, escaping an unescaped line without bars gives the line back |
| `TextLines.Trim` | src/profile/contract_sidecar.cpp:37-51 | Trimming takes the white space off both ends |
| `TextLines.TrimmedShape` | src/profile/contract_sidecar.cpp:37-51 | What trimming takes is white space only, and none is left at either end |
| `TextLines.SplitLines` | src/profile/contract_sidecar.cpp:496-512 | Text is cut at line feeds with carriage returns dropped |
| `TextLines.LinesOfText` | src/profile/contract_sidecar.cpp:496-512 | Printed lines come back as they were |
| `TextNumbers.DecimalReads` | src/profile/contract_sidecar.cpp:355-367 | Every 64-bit number printed in decimal is read back by the base-detecting parser |
| `TextNumbers.HexReads` | src/profile/contract_sidecar.cpp:355-367 | Every 64-bit number printed in hexadecimal is read back |
| `CanonicalOrder.SortSorts` | src/profile/contract_sidecar.cpp:164-249 | Sorting orders the same elements |
| `CanonicalOrder.SortedIsUnique` | src/profile/contract_sidecar.cpp:164-249 | There is one ordered arrangement of given elements, so any library sort reaches it |
| `CanonicalOrder.TidyIgnoresOrder` | src/profile/contract_sidecar.cpp:164-169 | Sorted and without repeats, a list depends on its set of members only |
| `ContractForm.RecordKeysDiffer` | src/profile/contract_sidecar.cpp:171-249 | The comparison of records tells any two different records apart |
| `ContractForm.CanonicalTwice` | src/profile/contract_sidecar.cpp:171-249 | The canonical form is its own canonical form |
| `ContractForm.CanonicalExactly` | src/profile/contract_sidecar.cpp:171-249 | Two contracts have one canonical form exactly when they hold the same records, words and values |
| `ContractForm.SerializationIgnoresOrder` | src/profile/contract_sidecar.cpp:480-490 | Text and id do not depend on the order in which a contract lists records, words or values |
| `ContractForm.CanonicalClean` | src/profile/contract_sidecar.cpp:171-249 | What the text can carry does not depend on that order either |
| `ContractLoads.EntryLine` | src/profile/contract_sidecar.cpp:517-577 | A header line stands for its key and its trimmed value |
| `ContractLoads.FieldsBack` | src/profile/contract_sidecar.cpp:579-587 | A record line reads back as its fields when its last field keeps its end |
| `ContractLoads.FieldsParse` | src/profile/contract_sidecar.cpp:588-710 | Printed records of every kind parse back to themselves, enumerations value by value |
| `ContractLists.ValuesGather` | src/profile/contract_sidecar.cpp:644-668 | Values of one enumeration on separate lines gather in one rule |
| `ContractLists.RecordsLoad` | src/profile/contract_sidecar.cpp:579-710 | The record lines of a clean contract load as its six lists, in order |
| `ContractRoundTrip.SerializedLines` | src/profile/contract_sidecar.cpp:480-512 | A serialized contract is cut into the lines it was printed from |
| `ContractRoundTrip.OnlySafeWordsReadBack` | src/profile/contract_sidecar.cpp:142-162 | A word list reads back only if trimming leaves its printed form alone and it is not one empty word |
| `ContractRoundTrip.LoadedIsClean` | src/profile/contract_sidecar.cpp:493-728 | Whatever text loads, the contract it gives is one whose headers, records and rules the text can carry |
| `ContractRoundTrip.LoadOfSerialize` | src/profile/contract_sidecar.cpp:480-728 | Loading a serialized contract gives its canonical form under its own id exactly when the contract is within the format |
| `ContractRoundTrip.CommaAndBarAreLost` | src/profile/contract_sidecar.cpp:142-162 | A comma in a word and a bar in a header value do not survive |
| `TextNumbers.HashText` | src/profile/contract_sidecar.cpp:24-35 | The hash loop folds every byte of the text into the hash |
| `ContractTamper.LoadedUnderOwnId` | src/profile/contract_sidecar.cpp:717-728 | Any text that loads gives a canonical contract under the id of its own content |
| `ContractTamper.LoadsUnderOwnIdOnly` | src/profile/contract_sidecar.cpp:717-728 | The text of a contract within the format, under any id, loads exactly when the id is its own |
| `ContractTamper.LoadsExactly` | src/profile/contract_sidecar.cpp:493-728 | A text loads exactly when all its lines do, format, id and profile headers are there, and the id is that of its content |
| `ContractTamper.HashSeesByte` | src/profile/contract_sidecar.cpp:24-35 | Texts that differ in one byte have different hashes |
| `ContractTamper.HashVectors` | src/profile/contract_sidecar.cpp:24-35 | Two published values of the hash |
| `ContractTamper.EditedByteIsRefused` | src/profile/contract_sidecar.cpp:717-728 | A contract text edited in one byte of its canonical form is refused under its old id |
| `ContractText.AppendRecord` | src/profile/contract_sidecar.cpp:369-381 | A record is printed as its escaped fields between bars |
| `ContractText.SerializeWithoutContractId` | src/profile/contract_sidecar.cpp:383-457 | Headers and the six lists are printed one after the other |
| `ContractText.SerializeContractSidecar` | src/profile/contract_sidecar.cpp:480-490 | The text carries the hash of the canonical body as its id |
| `ContractText.LoadContractSidecarText` | src/profile/contract_sidecar.cpp:493-728 | The loading loop ends as the line grammar defines, with the same failure for every malformed text and for an id that is not that of the content |
| `PackedRows.RowsBack` | src/profile/artifact_builder.cpp:52-62 | Packed little-endian rows read back from where they were written |
| `ArtifactFile.MultiplyGuard` | src/profile/profile_loader.cpp:41-48 | The overflow guard is exact |
| `ArtifactCheck.CheckHeader` | src/profile/profile_loader.cpp:56-98 | The header passes exactly when every field is as expected, and a version mismatch is told from a format error |
| `ArtifactCheck.CheckSection` | src/profile/profile_loader.cpp:106-134 | A section passes exactly when it is in bounds, behind the table and as large as its entries |
| `ArtifactCheck.NeighboursSuffice` | src/profile/profile_loader.cpp:137-142 | On sorted ranges, comparing neighbours finds every overlap |
| `ArtifactCheck.ValidateArtifact` | src/profile/profile_loader.cpp:50-146 | Any bytes are accepted exactly when header and sections are right and no two sections overlap |
| `ArtifactCheck.OneOwner` | src/profile/profile_loader.cpp:100-142 | In an accepted artifact no byte belongs to two sections, or to a section and the table |
| `ArtifactWriter.PlaceSections` | src/profile/artifact_builder.cpp:334-349 | The running offset places sections without gaps and ends at the file size |
| `ArtifactWriter.WriteArtifact` | src/profile/artifact_builder.cpp:351-379 | Copying behind the cursor fills the file with header, table and bodies in place |
| `ArtifactRoundTrip.AssembledIsAccepted` | src/profile/artifact_builder.cpp:334-379 | Every artifact the builder assembles is accepted by the loader, with the sections it was given |
| `ArtifactRoundTrip.AssembledReadsBack` | include/public/nimblefix/profile/artifact.h:177-226 | Every section of it reads back as the rows it was written from |
| `ProfileFile.TablesReadBack` | include/public/nimblefix/profile/artifact.h:166-226 | Strings, fields, messages, groups, rules and values written to an artifact are read back unchanged |
| `StringTable.ReadsBack` | include/public/nimblefix/profile/artifact.h:100-115 | A stored string reads back exactly when it holds no NUL itself |
| `StringTable.StringTableBuilder.Intern` | src/profile/artifact_builder.cpp:24-43 | A string gets one offset for ever, and no string moves |
| `ProfileBuilder.ValidateDictionary` | src/profile/artifact_builder.cpp:72-96 | A dictionary passes exactly when fields, messages and groups have distinct keys |
| `ProfileBuilder.BuildFields` | src/profile/artifact_builder.cpp:129-152 | Each field's record points to its own name and its own run of values |
| `ProfileBuilder.BuildMessages` | src/profile/artifact_builder.cpp:153-170 | Each message's record points to its own run of rules |
| `ProfileBuilder.BuildGroups` | src/profile/artifact_builder.cpp:171-190 | Each group's record points to its own run of rules and carries its required-field bits |
| `ProfileBuilder.BuildProfileArtifact` | src/profile/artifact_builder.cpp:119-380 | A dictionary builds exactly when it is duplicate-free, into an artifact of tables that describe it |
| `KeyIndex.LowerBound` | src/profile/normalized_dictionary.cpp:281-288 | The halving search finds the first key not below the one sought |
| `KeyIndex.FindSorted` | src/profile/normalized_dictionary.cpp:281-315 | A sorted index finds a place of the key if there is one, and the only one when keys do not repeat |
| `KeyIndex.DirectFinds` | src/profile/normalized_dictionary.cpp:220-230 | The direct table finds what a search finds exactly when the place is below 65535 |
| `KeyIndex.LateTagIsMissed` | src/profile/normalized_dictionary.cpp:220-230 | Tag 1 at place 65535 is missed |
| `ProfileView.CheckTables` | src/profile/normalized_dictionary.cpp:75-111 | Tables pass exactly when every name and rule range points into its section |
| `ProfileView.SortRuleSegments` | src/profile/normalized_dictionary.cpp:190-218 | Sorting segment by segment leaves each message and group its own rules in tag order |
| `ProfileView.BuildGroupBits` | src/profile/normalized_dictionary.cpp:164-173 | A bit is set exactly for a small count tag |
| `ProfileView.BuildEnumBits` | src/profile/normalized_dictionary.cpp:232-266 | A bitmap is built exactly for values of one character each and holds those characters |
| `ProfileView.FromTables` | src/profile/normalized_dictionary.cpp:75-269 | A view exists exactly for consistent tables, with every index belonging to them |
| `ProfileLookups.FindField` | src/profile/normalized_dictionary.cpp:271-289 | A field lookup equals a search of the tags, for tags below 10000 exactly when the place is below 65535 |
| `ProfileLookups.FindMessage` | src/profile/normalized_dictionary.cpp:291-302 | A message lookup equals a search of the message types |
| `ProfileLookups.FindGroup` | src/profile/normalized_dictionary.cpp:304-315 | A group lookup equals a search of the count tags |
| `ProfileLookups.IsGroupCountTag` | include/public/nimblefix/profile/normalized_dictionary.h:242-248 | Bitmap and index agree on what a count tag is |
| `ProfileLookups.MessageRuleIndex` | src/profile/normalized_dictionary.cpp:344-354 | A rule's place is where a search of the message's own rules finds it |
| `ProfileLookups.GroupRuleIndex` | src/profile/normalized_dictionary.cpp:356-375 | The same for groups, short lists scanned and long ones searched |
| `ProfileLookups.IsEnumValueAllowed` | src/profile/normalized_dictionary.cpp:389-420 | Bitmap and scan allow the same values |
| `ProfileRoundTrip.LoadProfileFromDictionary` | src/profile/profile_loader.cpp:207-229 | Building, checking, reading and indexing a duplicate-free dictionary within the format's widths always succeeds |
| `ProfileRoundTrip.FieldsAnswer` | src/profile/normalized_dictionary.cpp:271-289 | Field lookups search the dictionary's own tags |
| `ProfileRoundTrip.MessagesAnswer` | src/profile/normalized_dictionary.cpp:291-302 | Message lookups search the dictionary's own message types |
| `ProfileRoundTrip.GroupsAnswer` | src/profile/normalized_dictionary.cpp:304-315 | Group lookups search the dictionary's own count tags |
| `ProfileRoundTrip.RulesAnswer` | src/profile/normalized_dictionary.cpp:377-387 | Messages and groups read back with the rules the dictionary gave them |
| `ProfileRoundTrip.EnumsAnswer` | src/profile/normalized_dictionary.cpp:389-420 | A value is allowed exactly when the dictionary lists it, or lists none, or the value is empty |

## Left out

- EncodeBuffer.CompileScopeTemplate: takes a nesting rank, because the code recurses without a guard on cyclic groups.
- TemplateEncoder.ScopeAgrees: leaves out messages with a group that is a rule but unknown to the dictionary, known but no rule, or under a skipped tag; the encoders then print groups in other places or orders. TemplateExact.AgreesExactly and TemplateRoundTrip.FramesAgreeExactly share this limit.
- CompiledSimulation.CompiledAgrees: compares tags, texts, groups, header and status; types of fields and issues differ between the loops; CompiledVerdicts states each and compares the verdicts. CompiledSimulation.CompiledDecodeAgrees and CompiledFrames.FramesAlikeExactly share this limit; CompiledPlaces.PlacesAgree adds the byte positions.
- CompiledFrames.FramesAlikeExactly: takes a delimiter that is neither a digit nor an equals sign.
- CompiledIssues.CompiledIssueExplained: takes decoders in which every group rule that a frame can use got a slot, and frames whose MsgType is known, stands first and is not repeated, as do CompiledVerdicts.CleanBody, CompiledVerdicts.UnkeptIsNoted and CompiledVerdicts.CompiledTypes; a second MsgType switches decoders without resetting the order already reached.
- RulesReorder.RulesOnlyReorder: takes messages without repeated field or count tags and without groups under skipped tags, and rule lists without repetition; of a repeated tag that is a rule only the first field is printed.
- PlainRoundTrip.DecodeOfUnlisted: takes lines with scannable tags outside the header and values free of the delimiter, and bodies below 4 GiB.
- RawSoundness.RawWhole: a known offset inside a header field is accepted by the code and cuts that field; RawSoundness.RawSound covers this case.
- FixedGeneric.FixedAgreesExactly: takes a delimiter that is neither a digit nor an equals sign and BeginStrings free of it.
- OverlayPlaces.NewRuleStands: takes an overlay list without repeated tags.
- OverlayDetails.OverlayResult: takes dictionaries without duplicates, as does OverlayDetails.RefusedExactly for the overlay.
- Soundness.GroupSound: takes groups found under their own count tags, and delimiters that are rules of their own group or of no group and not left unread; Soundness.EntriesSound shares this limit.
- RootSoundness.DecodeSound: takes dictionaries in which each delimiter is a rule of its own group, or neither a header tag nor any rule; for other delimiters ReadingShape.CleanFrame states what a clean frame holds, empty entries included. RootSoundness.LoopSound and RootSoundness.MessageSound share this limit.
- FlatParser.ParseGroupEntries: takes buffers below 4 GiB, the width of a slot's offset, as do FlatParser.ParseEntry and FlatParser.ConsumeField.
- FlatDecoder.AppendRootSlot: takes tags below 65536 and fewer than 65535 slots, the widths of the index, as do FlatDecoder.AppendRootSlotFast, FlatDecoder.StoreField, FlatDecoder.DecodeFields and FlatReaders.FindRootField.
- FlatDecoder.DecodeFixMessageView: is stated for frames below 4 GiB with at most 65535 fields and tags below 65536, the widths of the index; RootHistory states what happens to wider tags.
- FrameRoundTrip.DecodeOfEncode: is stated for entries of at most 128 fields, 10000 entries and 15 levels, beyond which the parser drops or refuses, for values below 64 KiB, which a slot can show, and for bodies below 4 GiB, the width of BodyLength. TemplateRoundTrip.DecodeOfTemplate shares these limits.
- RawPassThrough.DecodeRawPassThrough: ends in an outcome of its own where the code would form a body range that ends before it starts; RawPassThrough.OverrunExactly says when.
- ReplayInto.EncodeReplayInto: is stated for bodies whose BodyLength fits 32 bits; the lifetime of a body left in place is not modelled.
- ReplayInto.FillBuffer: takes bodies whose BodyLength fits 32 bits.
- FixedLayout.IndexSlots: takes tags without repetition.
- FixedLayout.Build: takes rule lists without repeated tags; fixed-point and floating formatting is a given text.
- FixedLayout.Writer.Set: takes a slot buffer below 4 GiB, the width of its offsets.
- Schedule.NextWindowStart: UTC only; days of 86400 seconds; local time and daylight saving are not modelled.
- ArtifactCheck.ValidateArtifact: takes data shorter than 2^64 bytes, as any buffer in memory is.
- ProfileLookups.MessageRuleIndex: takes tables whose rule ranges follow one another, as the builder writes them, and so does ProfileLookups.GroupRuleIndex.
- ProfileRoundTrip.MessagesAnswer: takes message types without NUL characters, since a stored string ends at its first one.
- ProfileRoundTrip.EnumsAnswer: takes fields with fewer than 65536 values, the width of the stored count, and values without NUL characters, since a stored string ends at its first one.
- ProfileView.BuildGroupBits: bitmaps are arrays of bits; their packing into words is not modelled.
- ProfileBuilder.BuildProfileArtifact: the rows of the admin, validation, lookup and template sections are given, since no code reads them.
- ContractForm.SerializationIgnoresOrder: library sorts are taken as any sort that orders the same elements.
- The compiled decode loop is a function over fields; its byte cursor and its use of the arrays are those of FlatDecoder and are not repeated, and the search among compiled decoders by message type is a map.
- The alternative decoder entry points, session header peeking, forwarding and copying a view into an owned message.
- Encoding with prepared header extras and the second fixed-layout entry point.
- The path-based group entry writer and the typed getters of messages.
- SIMD scanning and summing are their plain specifications; clock reads, files and memory mapping are parameters or absent.
- Floating-point parsing and printing: a float carries its text, and a float is well typed when its text has the form of one.
- Error texts, diagnostics, Markdown and scenario output, code generation other than the order of groups.
- Session runtime, stores, transports and TLS.
- Contract roles and directions beyond their text, and the lookup helpers over contracts.
