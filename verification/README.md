# A verified model of the sender

The sender streams a virtual Windows display to an iPad: it finds the iPad, connects, agrees on a
panel size, captures and encodes the display, frames the result, and injects touch and pencil input.
This project models the parts of it that are decided by its own code and proves, for all inputs and
all runs, what they promise.

The code is modelled in its own form. Objects with fields are classes (`JsonParser`, `SpsPpsCache`,
`Receiver`, `Sender`, `Cache`, `Coordinator`, `TrayContext`, `PanelState`, `InputInjector`,
`BitReader`, `BitWriter`), loops are loops, in-place work is done on arrays; each is proved equal to a
function or to a relation between old and new state, and the results are proved about that. Bytes of
JSON texts are `char`, other bytes are integers from 0 to 255, machine integers are bounded where
their width matters, times are natural numbers.

| files | what they model |
|---|---|
| JsonGrammar, FieldScanner, NumberFields, ControlProtocol, ControlMessages, SenderMessages, Decimals | the control messages: a scanner without a tree against RFC 8259 texts given as trees |
| ConfigJson, ConfigReading, ConfigGrammar, ConfigStore, ConfigOrder, ConfigMeaning, ConfigDocument, ConfigRoundTrip | the configuration file: parser, printer, migration and normalisation |
| Bytes, DnsName, MdnsResponse, MdnsMessage, MdnsGoodbye, MdnsMeaning, DiscoveryCache | discovery: compressed names, responses, the cache |
| AnnexB, ParameterSets, ReceiverCheck | the H.264 byte stream and the receiver's check of it |
| BitCodec, SpsSize, SpsRoundTrip, SpsSyntax | Exp-Golomb codes and the picture size of a parameter set |
| Framing, SharedConnection | frames on one TCP stream, for one caller and for any number of threads |
| DeviceOrder, Startup, StartupRuns, StartupOrder, StartupChoice, StartupTicks, Tray | the startup auto-connect: the machine, its runs, and the code that drives it |
| Panel, Session | the shared panel claim among senders, and one sender's life |
| Nv12, PointerOverlay | pixels: colour conversion and the mouse pointer |
| PenInput | touch and pencil injection |
| Wrappers, Sequences | optional values; where one sequence stands in another |

The main results, each over all inputs or all runs, are these.

- Control messages: `FieldScanner.FindsRootMember`, `ControlMessages.ParsesExactly`,
  `ControlMessages.MessageReadsBack`, `NumberFields.IsValidJsonNumber`, `SenderMessages.PongEchoes`, `SenderMessages.PingReads`.
- Configuration: `ConfigGrammar.ReadsExactly`, `ConfigMeaning.LoadedExactly`,
  `ConfigRoundTrip.OnlyNormalSurvives` and `ConfigRoundTrip.ReloadIsStable`, both with
  exact conditions, and `ConfigOrder.LoadedDevicesAreEntries`.
- Discovery: `DnsName.NameAtMeansSpelled`, `DnsName.ReadsBackIffWritable`,
  `MdnsMessage.AnyPacketReadsBack`, `MdnsMeaning.ResponseSays`, `MdnsGoodbye.LeftAreOfflineIff`,
  `DiscoveryCache.CacheIsMap`, `DiscoveryCache.OnlineIffFresh`.
- Video: `AnnexB.ScanInvertsBuild`, `ParameterSets.EveryIdrHasParameterSets`,
  `ReceiverCheck.StreamFramesPass`, `SpsSyntax.AnySetIsMeasured`, `Nv12.LumaOfBytes`, `Nv12.ChromaOfBytes`.
- Connection: `SharedConnection.WireIsFrames`, `SharedConnection.ReceiverReadsComplete`,
  `SharedConnection.NothingAfterTornFrame`, `SharedConnection.SendFrameIsSteps`.
- Sessions: `StartupRuns.RunIsSafe`, `StartupRuns.RunEnds`, `StartupOrder.AllTriedIff`, `StartupChoice.TurnsExactly`,
  `Panel.ClaimIsShared`, `Session.Sender.RunLoop`, `Session.NothingAfterRefusal`, `PenInput.InputInjector.Session`.

Some things the code does differ from what one would expect; they are modelled as the code does them
and stated exactly.

- A legacy device string or `ip` that begins with a space or a tab loads as a device without an
  endpoint, which the next save loses (`ConfigRoundTrip.ReloadIsStable`,
  `ConfigRoundTrip.BlankEntryIsLost`; src/app/Config.cpp:171-182).
- Name labels of 64 to 191 bytes, reserved by RFC 1035, are read as plain labels
  (`DnsName.ReadsBackIffWritable`; src/net/Mdns.cpp:80-94).
- A response that breaks off behind a goodbye leaves the receiver gone and online, because the loop
  that settles `online` is skipped; the cache decides by `goodbye` and is not misled
  (`MdnsGoodbye.LeftAreOfflineIff`, `MdnsMessage.BrokenGoodbyeStaysOnline`; src/net/Mdns.cpp:129-137,
  218-232).
- A refused rotation is only logged, and from then on holders have different sizes
  (`Panel.StepKeepsAgreedIff`, `Panel.RefusedRotationParts`; src/app/SenderApp.cpp:824-838).
- The return on an identity mismatch skips the release of the cross-process lock
  (`Session.Sender.RunLoop`, `Session.MismatchLeavesLock`; src/app/SenderApp.cpp:550-556).
- A Wi-Fi device that has no address at the one tick that decides about it ends the Wi-Fi round, also
  for the devices behind it (`StartupOrder.AllTriedIff`, `StartupOrder.ThirdNeverTried`;
  src/app/TrayApp.cpp:788-794).
- With an odd height the chroma rows do not fit the NV12 buffer, so the conversion is proved for even
  heights; the panel sizes are even (`Nv12.ChromaFitsIffEven`; src/display/DesktopDuplication.cpp:33-51).

## Model

| member | source | states |
|---|---|---|
| FieldScanner.SkipSpaces | src/net/Protocol.cpp:72-78 | the index of the first non-blank at or behind a start, or the end |
| FieldScanner.CloseString | src/net/Protocol.cpp:45-61 | where a string closes, with its escapes seen, and whether it contains one |
| FieldScanner.StandsAsName | src/net/Protocol.cpp:63-69 | whether the last non-blank before a string is the root brace or a comma |
| FieldScanner.FindValueStart | src/net/Protocol.cpp:23-87 | the scan over any bytes at all stops inside them and equals the position function the lemmas below are about |
| FieldScanner.FindsRootMember | src/net/Protocol.cpp:23-87 | for every well-formed object text (sections 4, 6 and 7 of RFC 8259), any nesting, whitespace and braces or quotes inside strings: the offset of the value of the first root member with that raw, escape-free name, and none if there is no such member |
| FieldScanner.FindsRootValue | src/net/Protocol.cpp:23-87 | the text of that member's value stands at the offset found, ended by whitespace and a comma or the closing brace |
| NumberFields.WalkNumber | src/net/Protocol.cpp:108-137 | the end of the strict number grammar from a position, or none |
| NumberFields.FindNumberField | src/net/Protocol.cpp:102-163 | the converted number of a key, with the delimiter check |
| NumberFields.FindNumberToken | src/net/Protocol.cpp:165-183 | the original spelling of a number whose key parsed |
| NumberFields.NumberEndIsNumber | src/net/Protocol.cpp:108-148 | whatever the walk takes is a number of section 6 of RFC 8259 |
| NumberFields.ReadsNumber | src/net/Protocol.cpp:108-163 | every grammatical number ended by a delimiter is read whole and converted as written |
| NumberFields.TokenIsNumber | src/net/Protocol.cpp:165-183 | a returned token is grammatical, converts to the field's value, and stands at the value's start up to the end of the walk |
| NumberFields.IsValidJsonNumber | src/net/Protocol.cpp:185-194 | accepts exactly the tokens of section 6 of RFC 8259 that the double conversion accepts |
| NumberFields.ValidTokenIsNumber | src/net/Protocol.cpp:185-194 | the same for the wrapping in an object that the source uses: no token can break out of it |
| ControlProtocol.IsControlPayload | src/net/Protocol.cpp:272-286 | accepts exactly payloads below 32 KiB that open with a brace and contain no NUL |
| ControlProtocol.StringFieldExactly | src/net/Protocol.cpp:89-101 | any text: a string field is what stands between a quote at its value and the next quote, and none without both |
| ControlProtocol.ReadsRootMembersOnly | src/net/Protocol.cpp:288-347 | for every well-formed object text the message read depends on the root members alone, so no nested type, id or number can steer it |
| ControlMessages.ParsesExactly | src/net/Protocol.cpp:288-347 | for every well-formed object and every message: the object is parsed as the message exactly if its type is the message's word and each field is what the member of its own name says, with its own fallback when that is absent, ill-typed, or a number that does not convert or is no 32-bit integer |
| ControlMessages.KindsExactly | src/net/Protocol.cpp:288-347 | nothing is parsed exactly without a type string; Unknown exactly for a type that is none of the ten words |
| ControlMessages.MessageReadsBack | src/net/Protocol.cpp:288-347 | every message whose numbers convert and whose strings can stand between quotes, written as an object with any whitespace around it, is parsed as itself; statistics as the whole text |
| SenderMessages.SerializeWelcome | src/net/Protocol.cpp:349-352 | the welcome is the text of an object |
| SenderMessages.WelcomeReads | src/net/Protocol.cpp:349-352 | its type is welcome, its protocol version 3 and its oldest version 1 |
| SenderMessages.SerializePong | src/net/Protocol.cpp:354-368 | succeeds exactly on number tokens, and then embeds the token unchanged |
| SenderMessages.PongIsTree | src/net/Protocol.cpp:362-367 | the pong is the text of a JSON object tree |
| SenderMessages.PongReads | src/net/Protocol.cpp:354-368 | FindNumberToken gives back the echoed bytes under t and the clock under mt |
| SenderMessages.PongEchoes | src/net/Protocol.cpp:306-310 | for every ping whose t parsed the pong exists, returns the same bytes and is a control payload when below the size limit |
| SenderMessages.AppendIntegerField | src/net/Protocol.cpp:204-217 | a present counter becomes one more member, an absent one nothing |
| SenderMessages.AppendDoubleField | src/net/Protocol.cpp:219-235 | a present finite value becomes one more member, an absent or non-finite one nothing |
| SenderMessages.SerializeSenderPing | src/net/Protocol.cpp:370-382 | the ping is the text of the tree with the present fields in order |
| SenderMessages.PingReads | src/net/Protocol.cpp:370-382 | every present field reads back as printed, every absent one reads as none |
| SenderMessages.PingIsControl | src/net/Protocol.cpp:370-382 | the ping is a control payload when below the size limit |
| Decimals.SignedReadsBack | src/net/Protocol.cpp:365 | std::to_string of any integer is digits with at most one sign and has that value |
| ConfigJson.JsonParser.Parse | src/app/Config.cpp:61-67 | the whole text is one value, for any bytes; the position field never leaves the text |
| ConfigJson.JsonParser.ParseString | src/app/Config.cpp:71-104 | a string from a position, with every escape and every error |
| ConfigJson.JsonParser.ParseBody | src/app/Config.cpp:75-103 | the loop behind the opening quote |
| ConfigJson.JsonParser.HexUnit | src/app/Config.cpp:86-98 | four hexadecimal digits, appended as UTF-8 |
| ConfigJson.JsonParser.ParseInteger | src/app/Config.cpp:114-121 | sign and digits, refused outside 64 bits |
| ConfigJson.JsonParser.ParseValue | src/app/Config.cpp:105-122 | the dispatch on the first character |
| ConfigJson.JsonParser.ParseObject | src/app/Config.cpp:123-135 | members up to the closing brace, the last of equal names winning |
| ConfigJson.JsonParser.ParseArray | src/app/Config.cpp:136-147 | elements up to the closing bracket |
| ConfigReading.ReadsWhole | src/app/Config.cpp:58-149 | every RFC 8259 text whose numbers are 64-bit integers, and a little more, is accepted and given its meaning |
| ConfigGrammar.ReadsExactly | src/app/Config.cpp:58-149 | for every text and every value: the text is read as the value exactly if it is the text of a tree that means it, where whitespace may also be a vertical tab or a form feed and integers may have leading zeros |
| ConfigGrammar.UnitIsUtf8 | src/app/Config.cpp:85-97 | a \u escape becomes the shortest UTF-8 sequence of its number (section 3 of RFC 3629) |
| ConfigGrammar.EscapesMean | src/app/Config.cpp:71-97 | hexadecimal digits of either case; the other escapes as section 7 of RFC 8259 has them |
| ConfigReading.EscapeJson | src/app/Config.cpp:184-199 | any byte string becomes a well-formed string body that decodes to that string |
| ConfigReading.EscapeUndone | src/app/Config.cpp:71-104 | escaping and parsing undo each other on every byte string |
| ConfigStore.CollectDevices | src/app/Config.cpp:213-232 | string and object entries become devices, entries without endpoint are dropped |
| ConfigStore.ReadDevices | src/app/Config.cpp:213-248 | collected, the ip fallback, sorted, without duplicates, numbered |
| ConfigStore.SortIsStable | src/app/Config.cpp:237 | the sort is ordered by priority, a permutation, and keeps the order among equal priorities |
| ConfigStore.RemoveDuplicates | src/app/Config.cpp:238-247 | the loop keeps the first of every group of duplicates |
| ConfigStore.DeduplicationKeeps | src/app/Config.cpp:238-247 | no two of the kept are duplicates, they keep their order, and every dropped device duplicates a kept one |
| ConfigStore.NumberDevices | src/app/Config.cpp:248 | priorities become the indices |
| ConfigStore.ReadProfile | src/app/Config.cpp:253-254 | the stream profile with its Custom default |
| ConfigStore.ReadMode | src/app/Config.cpp:257-258 | the launcher mode with its default from showLauncher |
| ConfigStore.ReadSettings | src/app/Config.cpp:207-268 | all fields, with ranges, defaults and the order of the assignments |
| ConfigStore.TryParseConfig | src/app/Config.cpp:201-270 | for any text: the configuration, or none |
| ConfigDocument.SerializeDevice | src/app/Config.cpp:324-328 | one device line is the text of its object tree |
| ConfigDocument.SerializeDevices | src/app/Config.cpp:320-331 | the array is the text of the devices in order |
| ConfigDocument.Serialize | src/app/Config.cpp:317-345 | the file is the text of the configuration's tree and a line break |
| ConfigDocument.RootRowsAre | src/app/Config.cpp:317-345 | which member holds which field |
| ConfigRoundTrip.NormalSurvives | src/app/Config.cpp:201-345 | Parse(Serialize(c)) == c for every normal configuration, with arbitrary bytes in every string |
| ConfigRoundTrip.OnlyNormalSurvives | src/app/Config.cpp:201-345 | and for no other configuration of the field types |
| ConfigRoundTrip.ParseIsTidy | src/app/Config.cpp:201-270 | whatever the text: no two duplicate devices, priority equal to index, every field in range |
| ConfigOrder.AcceptedAreEntries | src/app/Config.cpp:213-232 | the accepted devices are exactly the entries that are non-empty strings or objects with an endpoint, each once and in the order of the text |
| ConfigOrder.SortedFrom | src/app/Config.cpp:237 | the sort is a permutation of positions, ordered by priority and then by position |
| ConfigOrder.LoadedDevicesAreEntries | src/app/Config.cpp:213-248 | for any object text: each loaded device is one entry of the text with its index as priority, in the order of priority and then of the text, and an entry is left out exactly when it duplicates a kept one that comes before it |
| ConfigMeaning.LoadedExactly | src/app/Config.cpp:171-270 | for any object text: each setting is what the entry of its name says within its range, or its default, with the implied profile, mode and task bar setting of older files; each device is what its entry says, an old one split at the first blanks; and kept is the first of each identity, by priority and then by place |
| ConfigMeaning.SettingsDetermine | src/app/Config.cpp:201-270 | no other settings agree with the text |
| ConfigMeaning.OtherTextsLoadDefaults | src/app/Config.cpp:201-206 | a text that is no object leaves the literal defaults |
| ConfigMeaning.OldAddressLoads | src/app/Config.cpp:171-182 | the single address of an old file, with blanks and a name behind it or not, becomes the one device |
| ConfigMeaning.OldEntryLoads | src/app/Config.cpp:171-248 | the address of an old entry in the list is among the loaded ones, whatever else the list holds |
| ConfigRoundTrip.ReloadIsStable | src/app/Config.cpp:171-345 | saving and loading what was loaded changes nothing exactly when no legacy string used by the text begins with a blank |
| ConfigRoundTrip.BlankEntryIsLost | src/app/Config.cpp:171-182 | the smallest text for which it does change |
| AnnexB.FindMarkers | src/encode/AnnexB.cpp:12-34 | every start code with its length, for any bytes |
| AnnexB.ScanStartCodes | src/encode/AnnexB.cpp:36-55 | the units of any buffer, each of them clean |
| AnnexB.BuildAccessUnit | src/encode/AnnexB.cpp:57-68 | each unit behind a four-byte start code |
| AnnexB.ScanIsClean | src/encode/AnnexB.cpp:36-55 | for every buffer: non-empty payloads free of 00 00 01, with type = first byte & 0x1F |
| AnnexB.ScanInvertsBuild | src/encode/AnnexB.cpp:36-68 | Scan(Build(n)) == n for exactly the clean lists, trailing zeros included |
| AnnexB.NormalizingIsIdempotent | src/encode/AnnexB.cpp:36-68 | Scan of Build of Scan is Scan, on every buffer |
| AnnexB.BuildEmitsLongCodes | src/encode/AnnexB.cpp:57-68 | built buffers contain four-byte start codes only, one a unit (section B.1 of ITU-T H.264) |
| ParameterSets.SpsPpsCache.EnsureParameterSets | src/encode/AnnexB.cpp:70-107 | the fields become the latest sets, the unit is returned with or without the pair |
| ParameterSets.CacheIsLatest | src/encode/AnnexB.cpp:70-107 | over any stream the cache is the latest set of each kind seen |
| ParameterSets.EveryIdrHasParameterSets | src/encode/AnnexB.cpp:70-107 | over any stream each output has its input as suffix; once both kinds were seen every unit with an IDR has both before its first IDR, and a prepended pair is the latest seen |
| ReceiverCheck.FindStartCodes | tools/mock_receiver.py:76-90 | the receiver's own scan |
| ReceiverCheck.SameCodes | tools/mock_receiver.py:76-90 | it sees the same codes as the sender's scan, on every buffer |
| ReceiverCheck.ValidateAnnexbFrame | tools/mock_receiver.py:93-129 | the list of problems of any payload |
| ReceiverCheck.ProblemsExactly | tools/mock_receiver.py:94-130 | which problem is reported when: no code, a three-byte code, an IDR slice with a parameter set missing, or with both in the wrong order |
| ReceiverCheck.ReceiverSeesKinds | tools/mock_receiver.py:104-110 | in a built frame the receiver sees exactly the types of its units |
| ReceiverCheck.BuiltFramePasses | tools/mock_receiver.py:93-129 | a built frame passes exactly when it is not empty and its sets precede its first IDR in order |
| ReceiverCheck.EnsuredFramePasses | tools/mock_receiver.py:93-129 | the same behind EnsureParameterSets, as a condition on the encoder's unit and the cache |
| ReceiverCheck.StreamFramesPass | tools/mock_receiver.py:93-129 | the same for the last unit of any stream of scanned access units |
| Framing.Receiver.ReadExact | src/net/Connection.cpp:123-135 | under any chunking exactly the next bytes of the stream, or a failure |
| Framing.Receiver.ReadFrame | src/net/Connection.cpp:164-191 | the next frame of the stream, or none: too short, over 1 MiB, or recv failed |
| Framing.Receiver.ReadFrames | src/app/SenderApp.cpp:655-664 | the reader's loop delivers, under any chunking, exactly ReadMany of the stream, and a prefix of it when recv fails or a stop is requested |
| Framing.FrameIsBigEndian | src/net/Connection.cpp:205-210 | on the wire the length stands first, in four bytes with the most significant first, then the payload |
| Framing.ReadsWholeFrames | src/net/Connection.cpp:164-235 | whole frames and a torn tail: exactly the frames before the first one over the cap are read |
| Framing.AllWithinCap | src/net/Connection.cpp:178-184 | when all frames are within the cap, all of them |
| Framing.Sender.WriteExactUntil | src/net/Connection.cpp:138-162 | a prefix reaches the wire, all of it exactly on success, and nothing when the deadline is over or the socket shut down before |
| Framing.Sender.SendFrame | src/net/Connection.cpp:193-227 | a prefix of the frame reaches the wire, the whole of it exactly on success and none of it on a dead socket; every failure that got as far as writing leaves the socket dead |
| Framing.Sender.Interrupt | src/net/Connection.cpp:229-235 | shuts a valid socket down and keeps it valid |
| Framing.Sender.Close | src/net/Connection.cpp:237-245 | the socket is invalid and shut down |
| SharedConnection.StepKeepsWriter | src/net/Connection.cpp:193-227 | only the holder of the send mutex is inside the write loops, over every step of any number of threads |
| SharedConnection.StepKeepsShape | src/net/Connection.cpp:138-245 | every step keeps the shape of the wire: whole frames and the frame in progress, or a torn one on a dead socket |
| SharedConnection.RunKeepsInv | src/net/Connection.cpp:138-245 | both over every run |
| SharedConnection.WireIsFrames | src/net/Connection.cpp:193-227 | at every point of every run the wire is whole frames and at most one proper frame prefix |
| SharedConnection.ReceiverReadsComplete | src/net/Connection.cpp:164-227 | the far end reads exactly the complete frames, up to the first over its cap |
| SharedConnection.DesynchronizedIsDead | src/net/Connection.cpp:213-224 | a torn frame with the mutex free means a dead socket |
| SharedConnection.NothingAfterTornFrame | src/net/Connection.cpp:213-235 | after a torn frame no thread ever adds a byte |
| SharedConnection.SendFrameIsSteps | src/net/Connection.cpp:193-227 | every outcome that SendFrame's contract allows is a path of these steps: same socket after it, the mutex free, the frame counted as sent exactly when it returned true |
| DnsName.SpellingIsUnique | src/net/Mdns.cpp:66-97 | a compressed name has one spelling (section 4.1.4 of RFC 1035) |
| DnsName.NameAtMeansSpelled | src/net/Mdns.cpp:66-97 | a name is read exactly when it is spelled with at most 16 pointers, and it is that name |
| DnsName.NameAt | src/net/Mdns.cpp:66-97 | on success the position strictly advances and stays within the packet |
| DnsName.ReadName | src/net/Mdns.cpp:66-97 | the loop on arbitrary bytes: in bounds, terminating by hops then bytes left, with that result |
| DnsName.AppendName | src/net/Mdns.cpp:276-288 | the labels of the name behind their lengths, and the empty label |
| DnsName.WrittenNameReads | src/net/Mdns.cpp:276-288 | a written name is read back wherever it stands in a packet |
| DnsName.ReadsBackIffWritable | src/net/Mdns.cpp:66-288 | writing and reading undo each other for exactly the names whose labels are 1 to 191 bytes long |
| MdnsResponse.ReadId | src/net/Mdns.cpp:174-186 | the last id= string of a TXT record, never read past the record |
| MdnsResponse.TakeRecord | src/net/Mdns.cpp:140-214 | the effect of one record of each type |
| MdnsResponse.GiveAddresses | src/net/Mdns.cpp:218-232 | each receiver is given its host's addresses, in any order of the map |
| MdnsResponse.ParseResponse | src/net/Mdns.cpp:100-233 | every packet is walked in bounds and changes the map as its records say |
| MdnsResponse.ParsedKeepsSound | src/net/Mdns.cpp:100-233 | for any bytes: nobody is forgotten, goodbye exactly when no time is left, the address is the preferred one; online is settled by complete packets and untouched by broken ones |
| MdnsMessage.AppendRecord | src/net/Mdns.cpp:290-300 | name, type, class, TTL, length and payload |
| MdnsMessage.RecordReads | src/net/Mdns.cpp:129-138 | a written record is read back with its name, TTL and meaning |
| MdnsMessage.PacketReadsBack | src/net/Mdns.cpp:100-341 | any list of well-formed records in one response is heeded completely and in order, with anything found before |
| MdnsMessage.AnyPacketReadsBack | src/net/Mdns.cpp:100-233 | the same with any id, flags and echoed questions, and the records spread over the three sections |
| MdnsMeaning.ResponseSays | src/net/Mdns.cpp:100-233 | for any bytes and any receiver: known afterwards exactly if it was before or a readable record names it; port, host and id are the last ones said, the time is the least since the last PTR record, the name is the first label; a complete packet gives it its host's addresses in their order and, as the preferred one, the first IPv4 one or else the first |
| MdnsMeaning.SettlesAs | src/net/Mdns.cpp:218-232 | the last loop in terms of the records: addresses, preferred one, time and online |
| MdnsMeaning.AddressesReadBack | src/net/Mdns.cpp:100-341 | PTR, SRV and TXT of a receiver and any non-empty list of A and AAAA records: it is found with all addresses in their order and reached by the first IPv4 one, or the first if there is none |
| MdnsMessage.GoodResponse | src/net/Mdns.cpp:315-341 | the self-check's packet, with its literals as parameters |
| MdnsMessage.AdvertisementReadsBack | src/net/Mdns.cpp:345-363 | for any instance, host, port, id, IPv4 address and TTLs: exactly one receiver with those fields, ttlSeconds the shortest TTL capped at 120, goodbye and offline exactly when a TTL is 0 (section 10.1 of RFC 6762) |
| MdnsMessage.GoodbyeReadsBack | src/net/Mdns.cpp:365-372 | a PTR record with TTL 0 marks its instance gone and offline and forgets nothing else of it |
| MdnsGoodbye.GoodbyeIsLeaving | src/net/Mdns.cpp:140-214 | after any records a receiver is gone exactly when one of them gave it no time, or it was gone before, and no PTR record that lives came later |
| MdnsGoodbye.LeftAreOfflineIff | src/net/Mdns.cpp:100-233 | for any bytes: everybody gone is offline exactly if the packet is complete or nobody who has left by its readable records was online before |
| MdnsGoodbye.ExpiredAreOfflineIff | src/net/Mdns.cpp:100-233 | the same for everybody without time left |
| MdnsMessage.BrokenGoodbyeStaysOnline | src/net/Mdns.cpp:129-137 | a packet for which this fails: it breaks off behind a goodbye, and the receiver is gone and still online |
| DiscoveryCache.Cache.Merge | src/net/Mdns.cpp:415-448 | the batch is merged record by record |
| DiscoveryCache.Cache.MergeRecord | src/net/Mdns.cpp:417-446 | one record: matched by id or name, withdrawn, appended or replaced |
| DiscoveryCache.Cache.AppendOlder | src/net/Mdns.cpp:442-444 | older addresses behind the newest, each once |
| DiscoveryCache.Cache.Expire | src/net/Mdns.cpp:450-455 | records whose time is over go offline, all else stays |
| DiscoveryCache.Cache.FindById | src/net/Mdns.cpp:457-462 | the first record with a non-empty id |
| DiscoveryCache.MergeIsHeard | src/net/Mdns.cpp:415-448 | one batch is the history of its records |
| DiscoveryCache.CacheIsMap | src/net/Mdns.cpp:415-462 | over every history of records with ids: ids stay unique and lookup equals the simple map from id to last advertisement |
| DiscoveryCache.OnlineIffFresh | src/net/Mdns.cpp:415-455 | right after Expire a known id is online exactly when its last event is an advertisement whose time is not over |
| DiscoveryCache.RecallIsRecalled | src/net/Mdns.cpp:440-444 | the address list is the newest one, then every other older address once, in the older order |
| DiscoveryCache.AdvertisementRecalls | src/net/Mdns.cpp:432-446 | an advertisement replaces every field and keeps the older addresses |
| DiscoveryCache.AddressesOfHistory | src/net/Mdns.cpp:436-446 | the addresses of an id are those of all its advertisements |
| DiscoveryCache.MergeFindsReceiver | src/net/Mdns.cpp:417-446 | any record, with or without an id: the first cached record of the same id, or without an id of the same instance, is withdrawn or replaced, and no other changes |
| DiscoveryCache.MergeKnowsNot | src/net/Mdns.cpp:417-446 | a goodbye of an unknown receiver changes nothing, an advertisement is appended |
| DiscoveryCache.GoodbyePacketWithdraws | src/net/Mdns.cpp:100-446 | from the wire to the cache: a packet that only says goodbye for an instance takes the cached receiver of that instance offline, and no other |
| DeviceOrder.OrderIsPriority | src/app/DeviceCoordinator.cpp:7-20 | the order is exactly the auto-connected devices, each once, preferred first, else as configured |
| DeviceOrder.Coordinator.Begin | src/app/DeviceCoordinator.cpp:7-20 | that order is installed, whatever state was before |
| DeviceOrder.Coordinator.ReportFailure | src/app/DeviceCoordinator.cpp:22-29 | a device failure hands over to the announced next candidate or ends, a global one blocks in place |
| DeviceOrder.Coordinator.RequestSwitch | src/app/DeviceCoordinator.cpp:37-43 | refused exactly when that switch is under way; the target becomes current |
| DeviceOrder.Coordinator.CompleteSwitch | src/app/DeviceCoordinator.cpp:45-50 | the walk goes on where it was |
| Tray.TrayContext.StartUsbSession | src/app/TrayApp.cpp:531-541 | Wi-Fi senders are stopped before the USB sender starts |
| Tray.TrayContext.StartWifiSession | src/app/TrayApp.cpp:579-595 | USB is stopped and the first device of the order is started, if it has an address |
| Tray.TrayContext.StartWifiCandidate | src/app/TrayApp.cpp:597-611 | the device at a position, if it has an address |
| Tray.TrayContext.StartTransportAttempt | src/app/TrayApp.cpp:613-627 | one attempt of one transport |
| Tray.TrayContext.BeginStartupAutoConnect | src/app/TrayApp.cpp:698-730 | the preferred transport, else the other |
| Tray.TrayContext.TakeFallback | src/app/TrayApp.cpp:751-769 | the other transport, if it was not tried |
| Tray.TrayContext.AdvanceWifi | src/app/TrayApp.cpp:772-809 | global failure, next device, or end of the Wi-Fi round; the coordinator is told of exactly the failure the branch reports |
| Tray.TrayContext.AdvanceStartupAutoConnect | src/app/TrayApp.cpp:732-815 | one timer tick of the whole machine, and what it does to the coordinator |
| Tray.BeginKeepsUp | src/app/TrayApp.cpp:698-730 | after the first step the coordinator has the order that is tried |
| Tray.CoordinatorKeepsUp | src/app/TrayApp.cpp:732-815 | at every tick of a Wi-Fi attempt the coordinator has the order that is tried and never stands behind the device started, and ahead of it while that one's stop is awaited |
| StartupRuns.BeginKeeps | src/app/TrayApp.cpp:698-730 | from idle, the first step establishes the invariant |
| StartupRuns.AdvanceKeeps | src/app/TrayApp.cpp:732-815 | every tick keeps it, whatever the world shows |
| StartupRuns.RunIsSafe | src/app/TrayApp.cpp:531-815 | every run: at most one sender at a time, each transport attempted at most once, devices started in order and at most once, at most one start a device and one for USB |
| StartupRuns.AdvanceFalls | src/app/TrayApp.cpp:732-815 | no tick adds to what is left to try; after the time-out a tick takes from it or leaves it to the stopped senders, and the first tick that finds these gone takes |
| StartupRuns.EightSecondsFall | src/app/TrayApp.cpp:88-815 | once eight seconds are over, the next tick that finds the stopped senders gone has something given up or started, however late they go |
| StartupRuns.RunEnds | src/app/TrayApp.cpp:698-815 | every run in which stopped senders exit, however late, reaches transport None: at the latest at the last of 2n + 5 ticks at which they are gone, each eight seconds after the one before, with n devices in the order |
| StartupRuns.UnreachableEndsWifi | src/app/TrayApp.cpp:788-794 | a next device without an address, at its last call, ends the Wi-Fi round for all behind it |
| StartupOrder.AdvanceSteps | src/app/TrayApp.cpp:732-815 | what a tick does before, in and after the Wi-Fi round: it goes on, ends with every device started, or ends early at a last call without an address |
| StartupOrder.AllTriedIff | src/app/TrayApp.cpp:579-815 | every run: when the Wi-Fi round is over without a stream or a global failure, every device of the order was started exactly if the first had an address when Wi-Fi was attempted and each next one had one at its last call, the timed-out tick that finds its predecessor gone |
| StartupOrder.ThirdNeverTried | src/app/TrayApp.cpp:597-811 | a run from begin to end in which a device that has an address all the time is never started |
| StartupChoice.BeginTries | src/app/TrayApp.cpp:698-730 | from any idle state: USB first exactly if it was remembered, or nothing was and a cable is there; it is started if it can be, and if not the other transport is tried |
| StartupChoice.TriesInTurn | src/app/TrayApp.cpp:698-815 | every run: that transport comes first in what is tried, the other one at most behind it, and the starts follow in that order |
| StartupChoice.TurnsExactly | src/app/TrayApp.cpp:698-815 | every run: the other transport is tried at the beginning exactly if the first could not be started, and at a tick exactly if an earlier tick found the time over and told the first one's senders to stop, all are gone and nothing streams |
| StartupTicks.TickRests | src/app/TrayApp.cpp:732-757 | no attempt, a stream, or a sender still stopping: what a tick then leaves alone |
| StartupTicks.TickOnUsb | src/app/TrayApp.cpp:810-815 | a USB attempt has its eight seconds and is then told to stop |
| StartupTicks.TickFailsForAll | src/app/TrayApp.cpp:773-786 | a failure that concerns all devices ends the attempt, and the device is told to stop |
| StartupTicks.TickAwaits | src/app/TrayApp.cpp:787-794 | a device whose stop is awaited: nothing while it is up, then the next one if it has an address, else the end of the round when the time is over |
| StartupTicks.TickHandsOver | src/app/TrayApp.cpp:795-815 | a device that failed or whose time is over hands over to the next, or ends the round; others are left alone |
| StartupTicks.EndIsFinal | src/app/TrayApp.cpp:732-815 | an attempt that has ended starts nothing more |
| Panel.NormalizePanelSize | src/app/SenderApp.cpp:118-130 | accepts exactly the sizes within the limits and cuts at most one pixel an axis to even |
| Panel.PanelState.AcquirePanel | src/app/SenderApp.cpp:68-81 | refused exactly when another size is held, which is then reported |
| Panel.PanelState.ReleasePanel | src/app/SenderApp.cpp:83-92 | one holder less; the last one clears the size |
| Panel.PanelState.RetunePanel | src/app/SenderApp.cpp:97-106 | changes the size exactly for a sole holder |
| Panel.StepKeepsCounted | src/app/SenderApp.cpp:53-116 | every step keeps the count equal to the holders and the size 0x0 exactly without holders |
| Panel.StepKeepsAgreedIff | src/app/SenderApp.cpp:817-838 | a step keeps all holders on the size on the air exactly when it is no refused rotation |
| Panel.RefusedRotationParts | src/app/SenderApp.cpp:817-838 | a run of two senders that ends with a refused rotation and two sizes |
| Panel.ClaimIsShared | src/app/SenderApp.cpp:53-116 | both over every interleaving of any number of senders |
| Panel.JoinsItsOwnSize | src/app/SenderApp.cpp:596-623 | a sender gets in exactly when everybody on the air has its size |
| Session.Sender.EnsureResolution | src/display/VirtualDisplay.cpp:538-648 | the display is reused, or removed and added again, only while nothing duplicates it |
| Session.Sender.CloseDisplay | src/display/VirtualDisplay.cpp:452-467 | the display is gone and the device closed, only while nothing duplicates it |
| Session.Sender.BuildPipeline | src/app/SenderApp.cpp:374-426 | the duplication is closed before the display is touched; the connection and the claim are left alone |
| Session.Sender.DetachManagedDisplay | src/app/SenderApp.cpp:428-450 | the duplication goes first, then the display; afterwards none is attached |
| Session.Sender.WaitForHello | src/app/SenderApp.cpp:531-549 | frames are read up to the first hello, which decides by HelloMatchesExpectedDevice |
| Session.Sender.ReaderTurns | src/app/SenderApp.cpp:655-773 | any turns of the reader keep the connection streaming-safe |
| Session.Sender.OthersMove | src/app/SenderApp.cpp:53-116 | whatever the other senders do, the claim keeps counting right, and the size this sender holds stays |
| Session.Sender.Rotate | src/app/SenderApp.cpp:817-838 | the size on the air follows the rotation exactly when no other sender holds the panel; the pipeline is rebuilt either way |
| Session.Sender.ReaderHandles | src/app/SenderApp.cpp:655-773 | one message of the reader: a resize is scheduled only by an accepted hello, to its size; sleeping and closing are noted exactly for those messages |
| Session.Sender.FollowReceiver | src/app/SenderApp.cpp:795-845 | the worker follows the size the receiver asked for last |
| Session.Sender.Turn | src/app/SenderApp.cpp:795-1044 | one turn of the worker, with the reader and the other senders beside it |
| Session.Sender.Stream | src/app/SenderApp.cpp:795-1044 | the worker loop keeps trace and claim |
| Session.Sender.Serve | src/app/SenderApp.cpp:562-1063 | from accepted hello to hang-up on every path: the panel is claimed from the shared state at the hello's size, refused only while others hold another size, and given back, so that the others' claims are all that remains |
| Session.Sender.ServePanel | src/app/SenderApp.cpp:625-1063 | with the panel claimed: whatever happens, the claim is given back, and no display is left when the pipeline was not built or the receiver sleeps or closes |
| Session.Sender.RunLoop | src/app/SenderApp.cpp:316-1072 | every run leaves a proper trace, no duplication, no display and no claim; the cross-process lock stays taken exactly when the first hello of a connection was one of another device, and never when no device is expected |
| Session.RefusedIff | src/app/SenderApp.cpp:531-556 | the view is refused exactly when the trace holds such a hello |
| Session.NothingAfterRefusal | src/app/SenderApp.cpp:550-556 | after such a hello nothing is connected, heard, sent, claimed or displayed any more |
| Session.MismatchLeavesLock | src/app/SenderApp.cpp:550-556 | a trace of this kind |
| Session.DisplayIsLeftAlone | src/app/SenderApp.cpp:382-388 | in a proper trace no add, remove or resize lies between an opening of the duplication and its closing |
| Session.WelcomeComesFirst | src/app/SenderApp.cpp:562-582 | what is sent follows, on its own connection, an accepted hello, and all but a welcome follows a welcome |
| Session.ClaimsWhatWasAsked | src/app/SenderApp.cpp:585-602 | the panel is claimed at the size that an accepted hello of the connection reports, cut to even |
| Session.WorkerStopsAfterFailure | src/app/SenderApp.cpp:1000-1044 | once a video frame or a ping could not be sent, no other one is until the next connection |
| Session.StreamsOnlyWhileHolding | src/app/SenderApp.cpp:596-623 | with a managed display everything but welcomes is sent while the panel is held, and it is not held when the next connection begins |
| BitCodec.BitWriter.U | tools/sps_resolutions.py:140-141 | the low bits, most significant first, are appended |
| BitCodec.BitWriter.Ue | tools/sps_resolutions.py:143-146 | the Exp-Golomb code is appended |
| BitCodec.BitWriter.Bytes | tools/sps_resolutions.py:148-153 | filled up with zeros and packed |
| BitCodec.BitReader.U | tools/sps_resolutions.py:18-24 | the value of the next bits, or the end of the data |
| BitCodec.BitReader.Ue | tools/sps_resolutions.py:26-32 | the next code, refused behind more than 32 zeros |
| BitCodec.BitReader.Se | tools/sps_resolutions.py:34-36 | the signed mapping |
| BitCodec.FixedReadsBack | tools/sps_resolutions.py:18-141 | u written, wherever it stands, then read is the identity |
| BitCodec.GolombReadsBack | tools/sps_resolutions.py:26-146 | ue written, wherever it stands, then read is the identity up to 33-bit values (section 9.1 of ITU-T H.264) |
| BitCodec.BitsOfPacked | tools/sps_resolutions.py:148-153 | packing loses no bit |
| SpsSize.Unescape | tools/sps_resolutions.py:39-49 | every 00 00 03 loses its third byte |
| SpsSize.NothingEscaped | tools/sps_resolutions.py:39-49 | without 00 00 03 nothing is removed |
| SpsSize.ReadScalingList | tools/sps_resolutions.py:67-73 | one scaling list is passed over |
| SpsSize.ReadHighFields | tools/sps_resolutions.py:59-73 | the fields of the high profiles |
| SpsSize.ReadPocFields | tools/sps_resolutions.py:75-83 | the picture order count fields |
| SpsSize.ReadCrop | tools/sps_resolutions.py:92-94 | the cropping rectangle |
| SpsSize.SpsSize | tools/sps_resolutions.py:52-102 | for any NAL unit: the picture size, or an error |
| SpsRoundTrip.BuildSps | tools/sps_resolutions.py:156-184 | the fields of the minimal baseline set, as bytes |
| SpsRoundTrip.SpsGap | tools/sps_resolutions.py:156-184 | its bits never contain 22 zeros in a row |
| SpsRoundTrip.SpsHasNoEscape | tools/sps_resolutions.py:39-184 | so unescape never removes a byte of it |
| SpsRoundTrip.SizeReadsBack | tools/sps_resolutions.py:52-184 | for all sizes up to 32752: the size read is the size written, odd axes rounded up to even |
| SpsRoundTrip.EvenSizesSurvive | tools/sps_resolutions.py:52-196 | sps_size(baue_sps(w, h)) == (w, h) for exactly the even ones among the sizes up to 32752 |
| SpsSyntax.AnySetIsMeasured | tools/sps_resolutions.py:39-113 | any sequence parameter set written as section 7.3.2.1.1 of ITU-T H.264 has it, of any profile, with scaling lists, any picture order count type, interlaced or not, cropped or not, escaped and with anything behind it: the size read is that of its picture |
| SpsSyntax.EscapingUndone | tools/sps_resolutions.py:39-49 | unescape undoes the escaping of section 7.4.1, whatever the bytes |
| Nv12.NeverClamped | src/display/DesktopDuplication.cpp:23-74 | Y in 16..235, U and V in 16..240 for every colour, so Clamp8 never changes a value |
| Nv12.YIsExactWithinOne | src/display/DesktopDuplication.cpp:43 | within 1 of the exact luma (section 2.5 of ITU-R BT.601-7) |
| Nv12.UIsExactWithinOne | src/display/DesktopDuplication.cpp:70 | within 1 of the exact blue difference |
| Nv12.VIsExactWithinOne | src/display/DesktopDuplication.cpp:71 | within 1 of the exact red difference |
| Nv12.WeightsAreRounded | src/display/DesktopDuplication.cpp:37-74 | the weighted sums in 256ths are rounded to the nearest |
| Nv12.WriteLumaRow | src/display/DesktopDuplication.cpp:37-45 | one row of the luma plane, in place |
| Nv12.WriteBlock | src/display/DesktopDuplication.cpp:53-75 | the U and V of one block of 2x2 pixels, in place |
| Nv12.WriteChroma | src/display/DesktopDuplication.cpp:48-76 | the chroma plane, in place |
| Nv12.ConvertBgraToNv12 | src/display/DesktopDuplication.cpp:31-77 | for every even height the buffer is exactly the picture: every byte written, none outside |
| Nv12.LumaOfPicture | src/display/DesktopDuplication.cpp:37-46 | byte row * width + col is the luma of that pixel, in range and within 1 |
| Nv12.ChromaOfPicture | src/display/DesktopDuplication.cpp:48-76 | the bytes behind are U and V of their blocks, at their places |
| Nv12.ChromaIsExactWithinOne | src/display/DesktopDuplication.cpp:63-74 | in range and within 1 for the averaged colour |
| Nv12.LumaOfBytes | src/display/DesktopDuplication.cpp:37-46 | with the offsets written out: byte row * width + col is within 1 of the exact luma of the red, green and blue bytes at row * pitch + 4 * col |
| Nv12.ChromaOfBytes | src/display/DesktopDuplication.cpp:48-76 | with the offsets written out: U and V are within 4/3 of the exact values for the mean of the four pixels' bytes, at the columns 2x2 sampling takes |
| Nv12.ChromaFitsIffEven | src/display/DesktopDuplication.cpp:33-51 | the chroma rows fit the buffer exactly when the height is even |
| PointerOverlay.CompositePointer | src/display/DesktopDuplication.cpp:270-339 | wherever the pointer lies, each frame pixel under it is mixed once with its pixel of the shape and no other byte changes |
| PointerOverlay.DrawPixel | src/display/DesktopDuplication.cpp:300-336 | one point of the shape, in place, in bounds |
| PointerOverlay.Blend | src/display/DesktopDuplication.cpp:332-336 | the alpha blend lies between screen and shape, and is either at its ends |
| PointerOverlay.DrawnTwice | src/display/DesktopDuplication.cpp:301-329 | a point that keeps, inverts or XORs the screen restores it when drawn again |
| PointerOverlay.MonochromeMeans | src/display/DesktopDuplication.cpp:288-315 | the two mask bits of a point, at their bytes and bits, make black, white, the screen or its inverse |
| PointerOverlay.ColorMeans | src/display/DesktopDuplication.cpp:318-339 | a colour point blends by its alpha, a masked one is taken or flips the bits of the screen that are set in it |
| PenInput.PenStaysOnMonitor | src/input/InputInjector.cpp:124-139 | whatever coordinates are sent, the pen stays on the monitor |
| PenInput.TouchStaysOnDesktop | src/input/InputInjector.cpp:38-77 | whatever coordinates are sent, the finger stays within the absolute range, if the monitor is part of the desktop |
| PenInput.PenIsAtItsPlace | src/input/InputInjector.cpp:124-139 | the pen is put on the pixel nearest to its place, x along the width and y along the height |
| PenInput.TouchIsAtItsPlace | src/input/InputInjector.cpp:38-77 | the finger is put at its place, less than a pixel and a step of the absolute range before it, on each axis |
| PenInput.PressureIsNearest | src/input/InputInjector.cpp:172-173 | pressure in steps of 1/1024, rounded to the nearest |
| PenInput.PencilMeans | src/input/InputInjector.cpp:191-230 | what each phase injects: lifted first by Up and Hover, in contact exactly for Down and for Move while down |
| PenInput.TouchMeans | src/input/InputInjector.cpp:79-99 | the pointer moves, and the button changes exactly at the beginning and at the end |
| PenInput.ProximityMeans | src/input/InputInjector.cpp:253-270 | nothing unless the range changes, and lifted before it is left |
| PenInput.ScrollMeans | src/input/InputInjector.cpp:102-116 | the wheel turns for dy and the horizontal wheel for dx, 1.2 steps a pixel, each exactly if that is at least one step |
| PenInput.MessageMeans | src/input/InputInjector.cpp:70-270 | each event has the point and pressure of its message, x from x and y from y |
| PenInput.InputInjector.HandleTouch | src/input/InputInjector.cpp:70-100 | the mouse events of each phase; the button flag mirrors them |
| PenInput.InputInjector.HandleScroll | src/input/InputInjector.cpp:102-116 | at most one wheel event an axis |
| PenInput.InputInjector.EnsurePenDevice | src/input/InputInjector.cpp:141-158 | created at most once, and not retried after a failure |
| PenInput.InputInjector.ReleasePenIfDown | src/input/InputInjector.cpp:183-189 | lifted exactly when down |
| PenInput.InputInjector.HandlePencil | src/input/InputInjector.cpp:191-230 | the pen events of each phase; contact and range flags mirror them |
| PenInput.InputInjector.HandleProximity | src/input/InputInjector.cpp:253-270 | range is entered and left once, lifting first |
| PenInput.InputInjector.EndSession | src/input/InputInjector.cpp:232-251 | afterwards the button is up and the pen out of contact and range, where it was last |
| PenInput.InputInjector.Handle | src/input/InputInjector.cpp:70-270 | one message injects exactly what it means, on its own monitor and with what Windows has been told before |
| PenInput.InputInjector.Session | src/input/InputInjector.cpp:70-270 | every message sequence: exactly what each message means in turn, and at the end everything released; flags mirror what was injected, contact implies range, UP only in contact, and no hover while in contact |

## Left out

- Conversion between decimal text and double is a parameter (any partial function), as are the printed
  forms of doubles; to_chars, from_chars and strtod are not part of this model.
- inet_ntop: an address is its bytes and its family; only "an IPv4 text has no colon" is used.
- Win32, COM, DXGI, Media Foundation, the Parsec driver, the registry, usbmux, sockets beyond chunked
  reads and writes, and UTF-16: foreign; their outcomes are nondeterministic choices or parameters.
- Recursion depth: the JSON parser's native stack is not bounded in the model.
- std::map, std::stable_sort and std::optional are Dafny's maps, a stable insertion sort and Option.
- Config::Load, Save and the backup file: file input and output. Serialize is proved on its text.
- ConfigRoundTrip.ReloadIsStable: assumes at most 2^32 devices, because a priority is 32 bits wide.
- NumberFields.FindNumberField: the value is what the conversion parameter says, no rounding is modelled.
- ControlProtocol.ReadsRootMembersOnly: a string field is its raw text up to the first quote character,
  as the source reads it; escapes are not decoded there.
- SenderMessages.PongEchoes: the clock is a parameter whose printed form must convert.
- DiscoveryCache.CacheIsMap: for records with ids; a record without an id replaces by instance name and
  can duplicate.
- DiscoveryCache.OnlineIffFresh: for events in time order.
- BuildQuery, BrowseReceivers and LocalInterfaces: one constant packet and socket calls.
- SharedConnection.WireIsFrames: memory order below the mutexes and the atomic socket is not modelled;
  each action is one step.
- Framing.Sender.WriteExactUntil: time passes by free amounts between the sends; no lower bound on what
  is sent before the deadline is stated.
- StartupRuns.RunIsSafe: no user command, no settings change; "connect all" and settings restarts do
  run several senders on purpose.
- The device configuration written back after a success (RememberSuccessfulTransport) and all texts and
  windows of the tray.
- Panel.ClaimIsShared: a rotation made in Windows changes a sender's own idea of its size without a
  call on the panel and is not a step here.
- Session.Sender.RunLoop: at most n turns of each loop for any n, so every finite run; waiting times are
  choices. Media content, statistics and status texts are left out.
- RegisterResolutions and its five slots, monitor placement and the keep-alive thread: driver plumbing.
- SpsRoundTrip.SizeReadsBack: up to 32752 pixels an axis, beyond which 22 zeros in a row do occur; the
  largest panel is 8192.
- nals and main in tools/sps_resolutions.py: the start-code search is proved for AnnexB.
- Nv12.ConvertBgraToNv12: the frame is read-only and separate from the buffer, as in the source.
- PointerOverlay.CompositePointer: the shape buffer is assumed to hold what its description says.
  UpdatePointer (src/display/DesktopDuplication.cpp:246-268) resizes the buffer before it asks for the
  shape, and when that call fails it keeps the old description, which the new buffer may be too short
  for. Pointer coordinates are not bounded to 32 bits.
- PenInput.InputInjector.HandlePencil: tilt from azimuth and altitude needs trigonometry and is left
  out; a failing injection call is only logged in the source and is not modelled.
- UI texts, window routing, launcher layout, logging, the installer: easy or foreign.
