# Verified model of awgctrl-go

awgctrl-go configures WireGuard and AmneziaWG devices: it validates a
configuration, sends it to a kernel or userspace device and reads the device
back. This Dafny project models the parts of it where the code decides something
hard, and proves what they do for every input, every run or every interleaving.

| file | models |
|---|---|
| `Types.dfy`, `Text.dfy`, `Net.dfy` | the records of package wgtypes, and the parts of Go's strings, strconv, hex and net packages the code uses |
| `Numbers.dfy`, `InitSpec.dfy`, `Validate.dfy` | the validator, against grammars for its number, header and tag texts |
| `Kernel.dfy` | a device as a state machine: settings per peer, and one table from allowed IP to owner |
| `Batching.dfy`, `Delivery.dfy`, `Send.dfy` | large netlink requests split into small ones, and what they do to a device |
| `Updates.dfy` | partial updates of the AmneziaWG parameters, over every run of updates |
| `Generate.dfy` | the parameter generator, for all random draws |
| `Attributes.dfy`, `PeerCodec.dfy`, `DeviceCodec.dfy`, `DeviceMessage.dfy`, `BatchCodec.dfy`, `AttrSizes.dfy` | the netlink encoders and decoders, what they make of every batch, and the sizes of what they write |
| `DumpMerge.dfy` | a device reported in several messages, merged into one |
| `UapiLines.dfy`, `UapiParse.dfy`, `UapiBlocks.dfy`, `UapiWrite.dfy`, `UapiRoundTrip.dfy` | the key=value protocol of userspace devices: writer, reader, and the two together |
| `Windows.dfy` | the record buffer of the Windows driver: builder and walk |
| `Redact.dfy` | the replacement of keys in printed text: which printed forms it removes, and which it leaves |
| `Cancel.dfy` | the cancellation protocol around a netlink call |

Code that works step by step (loops, parsers, writers, encoders) is written as
methods and classes proved equal to specification functions; the lemmas say what
those functions mean. `dafny verify dfyconfig.toml` checks everything.

Some promises do not hold of the code as it is. Each has an input for which it
fails, and the exact condition under which it holds:

- A repeated public key in a batched configuration loses the preshared key,
  endpoint, keepalive and ReplaceAllowedIPs of its later entries
  (`Delivery.RepeatedKeyLosesSetting`; `Batching.BatchesAskTheSame`).
- The validator does not limit the length of H1-H4, since leading zeros are
  accepted. A longer text fits neither a netlink attribute
  (`AttrSizes.LongHeaderOverflows`; `AttrSizes.BatchAttributesFit`) nor a line of
  the userspace protocol (`UapiRoundTrip.LongHeaderIsUnreadable`;
  `UapiRoundTrip.LinesArePlain`). Nor does it limit an address zone, which only
  the userspace protocol transmits.
- A dump whose first message repeats a key is not merged into one peer per key
  (`DumpMerge.FirstMessageIsNotMerged`; `DumpMerge.MergedGroupsIff`).
- The text form `hide` looks for besides base64 is that of a `[32]uint8`. A field
  of the named type Key prints in Go syntax under that name and stays
  (`Redact.KeyFieldIsKept`; `Redact.KeptUnderOtherType`).
- A partial update of a device that cannot be read is not checked against the
  device's values, so only a refusal by the backend keeps the device in order
  (`Updates.UnreadUpdateMayHarm`; `Updates.UnreadUpdateIsSafeIff`).

## Model

| member | source | states |
|---|---|---|
| Numbers.KernelUint32Exact | wgtypes/validate.go:168-171 | a text is accepted with value v exactly when it is an optional plus sign, digits, and an optional final newline, spelling v, and v fits 32 bits |
| Numbers.MagicHeaderExact | wgtypes/validate.go:149-166 | a header text is accepted as a range exactly when the header grammar spells that range: one number, or two joined by '-', in order |
| Numbers.PrintedRangeParses | wgtypes/types.go:397 | every 32-bit range printed with "%d-%d" parses back to itself |
| Numbers.HeaderAlphabet | wgtypes/validate.go:149-171 | an accepted header text has only digits, '+', '-' and newlines, so never '=' |
| Numbers.ZeroHeaderParses | wgtypes/validate.go:149-171 | any number of zeros is an accepted header text |
| InitSpec.InitPacketSize | wgtypes/validate.go:179-227 | the loop with its running check returns the unbounded sum of the tag sizes if that is at most 65535, and an error otherwise or on a malformed text |
| InitSpec.TagSize | wgtypes/validate.go:191-223 | one tag's size is that of the tag the text between the brackets spells, if it alone fits one message |
| InitSpec.MeaningExact | wgtypes/validate.go:173-227 | the size a text is given is exactly the one the tag grammar gives it |
| InitSpec.AcceptedExactly | wgtypes/validate.go:179-227 | a text is accepted with size n if and only if the grammar describes n bytes with it and n is at most 65535 |
| InitSpec.PrintedTagsParse | wgtypes/validate.go:173-227 | writing any tag list and parsing it gives the sum of the tag sizes, or an error when that is more than 65535 |
| InitSpec.MeaningAdds | wgtypes/validate.go:183-225 | whatever follows an accepted text adds exactly its own size |
| InitSpec.AcceptedTextsConcatenate | wgtypes/validate.go:183-225 | accepted texts concatenate to the sum of their sizes, accepted exactly when that fits |
| InitSpec.AcceptedSpecIsPlain | wgtypes/validate.go:179-236 | an accepted tag text is ASCII, without '=' and NUL |
| Validate.Validate | wgtypes/validate.go:58-147 | no error exactly when the configuration violates nothing, and otherwise the first violation in the order of the checks |
| Validate.ValidatePeers | wgtypes/validate.go:65-75 | the first fault among keepalives, endpoint ports and contradictory security flags, peer by peer |
| Validate.ValidateJunk | wgtypes/validate.go:77-86 | the first of Jc, Jmin, Jmax out of range |
| Validate.ValidatePaddings | wgtypes/validate.go:91-108 | the first of S1-S4 that does not leave room for its message |
| Validate.ValidateHeaders | wgtypes/validate.go:110-130 | the first header that does not parse or shares a 32-bit value with an earlier one |
| Validate.FirstOverlap | wgtypes/validate.go:124-128 | the inner loop stops at the first earlier header that shares some value with the new one |
| Validate.OverlapExact | wgtypes/validate.go:125 | the interval comparison holds exactly when some value lies in both ranges |
| Validate.ValidateSpecs | wgtypes/validate.go:132-144 | the first of I1-I5 that is too long or not accepted |
| Validate.ValidExact | wgtypes/validate.go:58-147 | a configuration is valid exactly when every number, written out, is in its range: padding plus message size at most 65535, tag texts at most 5120 bytes, headers pairwise without a common value |
| Kernel.RunKeepsConsistent | wgtypes/types.go:445-497 | after any requests every allowed IP belongs to a peer of the device: a removed peer leaves none behind |
| Kernel.EntryOwns | wgtypes/types.go:445-497 | the owner of every allowed IP after a peer entry: listed ones become the peer's own, replacing and removing take away the others, and nothing else moves |
| Kernel.EntrySets | wgtypes/types.go:445-497 | the settings of every peer after a peer entry: what is given is set, what is not stays, and no other peer is touched |
| Batching.ShouldBatch | internal/wglinux/configure_linux.go:192-203 | batching is needed exactly for more than 32 peers or more than 256 allowed IPs in all |
| Batching.BuildBatches | internal/wglinux/configure_linux.go:206-333 | the nested loops build exactly the specified sequence of batches |
| Batching.NextChunk | internal/wglinux/configure_linux.go:260-279 | one round takes the first 256 allowed IPs, and is the last round when at most 256 are left |
| Batching.Entry | internal/wglinux/configure_linux.go:281-314 | the entry for a chunk has the per-chunk flags always and the other settings only for a key not seen before |
| Batching.ClearReplacePeers | internal/wglinux/configure_linux.go:322-332 | ReplacePeers stays in the first batch only |
| Batching.BatchesAreSmall | internal/wglinux/configure_linux.go:179-203 | every batch has at most 32 peers and 256 allowed IPs |
| Batching.BatchesNonEmpty | internal/wglinux/client_linux.go:185-188 | there is always a first batch, so the empty check never fires |
| Batching.BatchesAskTheSame | internal/wglinux/configure_linux.go:240-320 | the batches ask for exactly the same changes of peers in the same order, creations and removals included, but for repetitions that do nothing, if and only if nothing is batched or no repeated key, unless removed, carries a first-only setting |
| Batching.DistinctKeysAreClean | internal/wglinux/configure_linux.go:303-314 | with distinct keys no setting is ever dropped |
| Batching.MessagesComeFrom | internal/wglinux/configure_linux.go:246-320 | every batched entry is one of some peer of the configuration, with some of its allowed IPs and with or without its first-only settings |
| Batching.EveryPeerIsSent | internal/wglinux/configure_linux.go:246-320 | and every peer of the configuration has an entry |
| Batching.LaterBatches | internal/wglinux/configure_linux.go:212-258 | the first batch has all device-wide values, a later one only the key, port and mark, and no ReplacePeers |
| Delivery.BatchingPreservesMeaning | internal/wglinux/configure_linux.go:206-333 | from every device state, applying the batches in order equals applying the configuration once, unless a repeated key that is not removed carries a first-only setting |
| Delivery.SplitEntry | internal/wglinux/configure_linux.go:281-314 | two chunks of a peer entry, sent one after the other, do to any device what the whole entry does |
| Delivery.BatchesApply | internal/wglinux/configure_linux.go:212-258 | the first batches of any number do the device-wide part once and then their peer entries |
| Delivery.InterruptedIsTruncation | internal/wglinux/client_linux.go:190-207 | after n batches, for any n but none, the device is as if the configuration, truncated at the n-th entry, had been applied in one piece |
| Delivery.SentIsCut | internal/wglinux/configure_linux.go:246-279 | that truncation cuts the peer list at some peer, and that peer's allowed IPs at a multiple of 256 or not at all |
| Delivery.SentGrows | internal/wglinux/configure_linux.go:246-279 | what fewer batches amount to is a cut of what more batches amount to |
| Delivery.AllSent | internal/wglinux/configure_linux.go:246-279 | all batches amount to the whole list |
| Delivery.MessagesPrefix | internal/wglinux/configure_linux.go:246-320 | the first n batched entries are the entries of the truncated peer list |
| Delivery.ReplacedPeersAreGone | internal/wglinux/configure_linux.go:322-330 | with ReplacePeers no peer outside the configuration survives the first batch |
| Delivery.LaterBatchesKeepPeers | internal/wglinux/configure_linux.go:322-330 | no batch discards a peer an earlier batch left, unless the configuration removes that key |
| Delivery.RepeatedKeyLosesSetting | internal/wglinux/configure_linux.go:303-314 | a valid batched configuration with a repeated key whose preshared key never reaches the device |
| Send.PlainBatches | internal/wglinux/configure_linux.go:160-177 | a configuration that passes the AmneziaWG check sends a plain device, in every batch, nothing only AmneziaWG understands |
| Send.RefusedIsNotPlain | internal/wglinux/configure_linux.go:160-177 | the AmneziaWG check refuses nothing else: a refused configuration has a batch with an attribute or flag only AmneziaWG knows |
| Send.Link.ConfigureDevice | internal/wglinux/client_linux.go:170-210 | wherever the loop stops, the device has done exactly what the attributes of the requests sent ask for; for a valid configuration with good addresses no request is refused by the encoder, the device equals the configuration truncated where the loop stopped, and complete it equals the whole; it stops exactly where the context ends, an address is invalid or the kernel refuses, and the outcome says which |
| Send.RequestsDo | internal/wglinux/configure_linux.go:63-157 | what the attributes of the encoded batches ask for does to any device what the batches do |
| Send.EncodeConfig | internal/wglinux/configure_linux.go:63-157 | the attributes of a request, peers included, or an error exactly when an address is invalid; what these attributes say is DeviceCodec.FieldsSay and DeviceMessage.ConfigIsAsked |
| Updates.CheckUpdate | client.go:123-136 | an update is passed on exactly when it is valid and, if partial on a readable AmneziaWG device, valid together with the device's values |
| Updates.ValidByGroup | wgtypes/validate.go:77-130 | a configuration is valid exactly when its junk group, its headers and everything else are |
| Updates.AcceptedIffResultValid | client.go:123-193 | on a device in order an update is accepted exactly when its other fields are valid and the resulting junk and header values are: no harmful update passes, no harmless one is rejected |
| Updates.FieldsAfterStep | internal/wglinux/configure_linux.go:217-258 | the device-wide values arrive complete with the first batch that is sent |
| Updates.RunKeepsAwgValid | client.go:109-136 | after any sequence of accepted updates, complete or interrupted, every 32-bit value lies in at most one of H1-H4 and the junk parameters agree |
| Updates.UnreadUpdateIsSafeIff | client.go:127-136 | an accepted update on a device that cannot be read leaves every device in order, without any refusal by the backend, exactly when it sets all headers or none and a lone Jmin or Jmax is at the harmless end of its range |
| Updates.UnreadUpdateMayHarm | client.go:127-136 | an accepted update of an unread device that puts some device out of order when nothing else refuses it |
| Generate.Settings.GenerateAmneziaParams | wgtypes/types.go:336-427 | for every source of random numbers: each parameter is the function of the draws that the other rows describe, the promised ranges and distinctness hold, all other fields stay, and the result is valid if the rest was |
| Generate.DrawJunk | wgtypes/types.go:343-347 | Jc in 3-6, Jmin in 64-113, Jmax 50 to 149 above it |
| Generate.EveryJunkIsDrawn | wgtypes/types.go:343-347 | and every such choice comes out of some draws |
| Generate.DrawPaddings | wgtypes/types.go:356-379 | the rejection loop takes the first try in which S1-S4 are in range and pairwise distinct and the padded sizes of initiation, response and cookie are distinct |
| Generate.EveryPaddingIsDrawn | wgtypes/types.go:356-379 | and every such choice comes out of some draws |
| Generate.MakeRanges | wgtypes/types.go:390-401 | four printed ranges, each the next behind a gap, that parse back, are pairwise disjoint and end at most at 889999992 |
| Generate.EveryRangeIsDrawn | wgtypes/types.go:390-401 | and every first start, width and gap comes out of some draws |
| Generate.Shuffle | wgtypes/types.go:403-406 | from the last down to the second, each position is swapped with a random one up to it |
| Generate.ShuffleKeeps | wgtypes/types.go:403-406 | every shuffle keeps the texts, as a multiset, and their disjointness |
| Generate.EveryOrderIsDrawn | wgtypes/types.go:403-406 | and every order of the texts comes out of some picks |
| Generate.DrawHeaders | wgtypes/types.go:390-412 | the four header texts handed out are the shuffled ranges, good and pairwise disjoint |
| Generate.FilledIsGood | wgtypes/types.go:336-427 | whatever is drawn, the filled configuration keeps the promises and every other field |
| Generate.EverySpecIsDrawn | wgtypes/types.go:417-426 | and every I1 from 15 to 40 bytes, and every I2-I5 from 10 to 29, comes out of some draws |
| Generate.RandomSpecIsValid | wgtypes/types.go:417-426 | "<r N>" is accepted and describes N bytes |
| Generate.GeneratedIsValid | wgtypes/types.go:336-427 | generated values are valid whenever the rest of the configuration is |
| Redact.Hide | wgtypes/redact.go:18-27 | the result contains neither the base64 form nor the `[32]uint8` form of any non-zero key, and a text without them comes back unchanged |
| Redact.HideAllCleans | wgtypes/redact.go:18-27 | for every text and every list of keys, neither of those forms of any non-zero key is left |
| Redact.HideAllKeeps | wgtypes/redact.go:18-27 | a text in which neither form of any non-zero key stands is not changed |
| Redact.KeptUnderOtherType | wgtypes/redact.go:16-27 | a key printed in Go syntax under some type name is left alone exactly when that name does not end in `[32]uint8` |
| Redact.KeyFieldIsKept | wgtypes/redact.go:33-75 | the Go syntax of a field of type Key is not changed, whatever the keys |
| Redact.OccurredBefore | wgtypes/redact.go:18-27 | every occurrence of a key form after a replacement was one before: markers never complete a form |
| Redact.NotAt | wgtypes/redact.go:22-23 | replacing a key form leaves no occurrence of it at any position |
| Redact.NoNewOccurrence | wgtypes/redact.go:20-25 | a later replacement cannot bring back an earlier pattern |
| Redact.BehindMarker | wgtypes/redact.go:14 | an occurrence of a key form cannot touch the marker |
| Redact.KeyForms | wgtypes/redact.go:22-23 | both forms of every key have no parenthesis and are longer than the marker's interior |
| Redact.Base64Exact | wgtypes/types.go:202 | every digit of the base64 form is the letter of RFC 4648, section 4, for its six bits of the key, or padding where those lie behind the end |
| Redact.HexByteExact | wgtypes/redact.go:23 | a byte in Go syntax is "0x" and its one or two lower-case digits, without a leading zero |
| Redact.GoSyntaxExact | wgtypes/redact.go:23 | the other form is the bytes in that notation, in order, joined by ", " between braces |
| Redact.ReplaceAllExact | wgtypes/redact.go:23-24 | a replacement exchanges the occurrences from left to right, none standing before the first of what is left, and keeps all text around them |
| PeerCodec.SockaddrPortIsInvolution | internal/wglinux/configure_linux.go:462-468 | the port lies in memory in network order on hosts of either byte order, and converting twice restores it |
| PeerCodec.SockaddrRoundTrip | internal/wglinux/configure_linux.go:390-422 | decoding an encoded endpoint restores address and port, up to IPv4-in-IPv6 and the zone |
| Attributes.UintExact | internal/wglinux/parse_linux.go:72-107 | values are read in the byte order of the host, at every width |
| PeerCodec.EncodeAllowedIPs | internal/wglinux/configure_linux.go:425-452 | the loop encodes every allowed IP under its index, or fails on the first invalid one |
| PeerCodec.IPRoundTrip | internal/wglinux/parse_linux.go:174-220 | decoding an encoded allowed IP restores address and mask |
| PeerCodec.IPIsReported | internal/wglinux/parse_linux.go:181-214 | any allowed IP, well-formed or not, is read as the address, mask and family its attributes report last, or refused |
| PeerCodec.MaskForExact | internal/wglinux/parse_linux.go:205-210 | the mask has exactly the reported number of leading ones, and is empty when they are too many |
| PeerCodec.IPsRoundTrip | internal/wglinux/parse_linux.go:174-220 | a list of allowed IPs is restored in order |
| PeerCodec.EncodePeer | internal/wglinux/configure_linux.go:336-387 | the attributes of a peer with its flags, or an error when an address is invalid |
| PeerCodec.PeerSays | internal/wglinux/configure_linux.go:336-387 | under each literal attribute number of an encoded peer stands exactly the value set for it, or nothing |
| PeerCodec.PeerIsAsked | internal/wglinux/configure_linux.go:336-387 | read the way a kernel reads a request, bits 1, 2, 4 and 8 of the flag attributes included, an encoded peer asks for exactly its settings and flags |
| PeerCodec.FlagBitsRead | internal/wglinux/configure_linux.go:336-387 | each flag bit of a peer is set exactly when the configuration asks for it |
| PeerCodec.ParsePeer | internal/wglinux/parse_linux.go:136-171 | the decoder loop folds over the attributes, handshake time, counters and AmneziaWG flags included, and fails on the first malformed one |
| PeerCodec.PeerIsReported | internal/wglinux/parse_linux.go:136-171 | decoding succeeds exactly when every value has its size, and each field, counters and handshake included, is then the value reported last under its literal attribute number |
| PeerCodec.TimespecExact | internal/wglinux/parse_linux.go:297-330 | a timespec of either size is read as its seconds and nanoseconds, and as none when neither is positive |
| PeerCodec.PeerRoundTrip | internal/wglinux/configure_linux.go:336-452 | decoding an encoded peer restores key, preshared key, endpoint, keepalive in whole seconds and all allowed IPs, on either byte order |
| DeviceCodec.EncodePeerList | internal/wglinux/configure_linux.go:144-154 | the peers, each under its index |
| Validate.ValidNumbersFit | wgtypes/validate.go:58-108 | every number of a valid configuration, keepalives and endpoint ports included, fits its 16 or 32 bits |
| DeviceCodec.ValidTextsSendable | wgtypes/validate.go:110-144 | every header and tag text of a valid configuration consists of bytes other than NUL |
| DeviceCodec.FieldsSay | internal/wglinux/configure_linux.go:63-141 | under each literal attribute number of a request stands exactly the value set for it, ReplacePeers as bit 1 of the device flags, or nothing |
| DeviceMessage.ParseDeviceLoop | internal/wglinux/parse_linux.go:53-133 | the decoder loop folds over a message's attributes and fails on the first malformed one |
| DeviceMessage.DeviceIsReported | internal/wglinux/parse_linux.go:53-133 | decoding succeeds exactly when every value has its size, and each field is then the value reported last under its literal attribute number |
| DeviceMessage.PeersAreReported | internal/wglinux/parse_linux.go:112-124 | the peers are those the elements of the array report, in order |
| DeviceMessage.PeersRoundTrip | internal/wglinux/configure_linux.go:144-154 | the encoded list of peers decodes to the peers told, in order |
| DeviceMessage.ConfigRoundTrip | internal/wglinux/configure_linux.go:63-157 | a valid configuration with good addresses can be encoded, and decoding the message gives exactly the name, its values and its peers in order |
| DeviceMessage.ConfigIsAsked | internal/wglinux/configure_linux.go:63-157 | read the way a kernel reads a request, the attributes of a valid configuration with good addresses ask for exactly that configuration: ReplacePeers, every value, and each peer with its flags, in order |
| BatchCodec.BatchesAreValid | internal/wglinux/configure_linux.go:206-333 | every batch of a valid configuration is valid |
| BatchCodec.BatchesAreGood | internal/wglinux/configure_linux.go:206-333 | good addresses stay good in every batch |
| BatchCodec.BatchRoundTrip | internal/wglinux/parse_linux.go:53-133 | the reader's side of the same message: decoding it gives exactly the batch's values and peers, so no conversion narrows a value (flags, which a reader ignores, are in BatchCodec.BatchIsAsked) |
| BatchCodec.BatchIsAsked | internal/wglinux/configure_linux.go:63-157 | the encoder refuses no batch of such a configuration, and the kernel is asked for exactly the batch, ReplacePeers and all flags included |
| AttrSizes.BatchPeersFit | internal/wglinux/configure_linux.go:144-154 | the nested peers of a batch, at every depth, fit their 16-bit lengths |
| AttrSizes.BatchAttributesFit | internal/wglinux/configure_linux.go:63-157 | every attribute of every batch of a valid configuration fits, if and only if the name and the header texts do |
| AttrSizes.IndexesAreKept | internal/wglinux/configure_linux.go:147-150 | no array index is narrowed when it becomes an attribute type |
| AttrSizes.LongHeaderOverflows | wgtypes/validate.go:149-171 | a valid configuration, sent in one message, with an attribute that overflows its length: a header of 65535 zeros |
| DumpMerge.Dump.constructor | internal/wglinux/parse_linux.go:31-39 | the index maps exactly the keys of the first message's peers to their last positions |
| DumpMerge.Dump.Merge | internal/wglinux/parse_linux.go:334-344 | merging absorbs a message's peers one by one, and the index keeps agreeing with the list |
| DumpMerge.Dump.MergePeer | internal/wglinux/parse_linux.go:335-342 | a known peer gains the fragment's allowed IPs behind its own, a new one is appended |
| DumpMerge.ParseDevice | internal/wglinux/parse_linux.go:21-50 | the first message's device with all later peers absorbed, or an error when a message cannot be decoded |
| DumpMerge.AbsorbAllGroups | internal/wglinux/parse_linux.go:334-344 | absorbing fragments gives one peer per key in first-appearance order, with the first fragment's fields and all allowed IPs in order |
| DumpMerge.MergedGroupsIff | internal/wglinux/parse_linux.go:21-50 | a dump is merged so exactly when its first message repeats no key |
| DumpMerge.CutDumpIsRestored | internal/wglinux/parse_linux.go:21-50 | however a peer list with distinct keys is cut up and dealt out to messages, the original list comes back exactly when the first message repeats no key |
| DumpMerge.FirstMessageIsNotMerged | internal/wglinux/parse_linux.go:31-39 | a dump of two fragments of one peer in the first message, which stay two peers |
| UapiLines.Framing | internal/wguser/parse.go:59-78 | lines without separators in key or value come back exactly as written, whatever follows the empty line, unless one is too long for the scanner |
| UapiLines.ScanFirst | internal/wguser/parse.go:59-78 | the first line ends at the line break, a carriage return in front of it being no part of the value |
| UapiLines.PairExact | internal/wguser/parse.go:68-71 | a line is a pair exactly when it has one '=' |
| UapiLines.BadLine | internal/wguser/parse.go:68-71 | any other line that is not empty fails the whole message |
| UapiParse.DeviceParser.Parse | internal/wguser/parse.go:107-181 | one call makes exactly the specified step, and the number of peers agrees with the list |
| UapiParse.DeviceParser.DeviceParse | internal/wguser/parse.go:135-180 | a line before the first peer sets its field, or records the first error |
| UapiParse.DeviceParser.SetCurPeer | internal/wguser/parse.go:183-185 | the current peer exists and no other peer changes |
| UapiParse.DeviceParser.PeerParse | internal/wguser/parse.go:200-227 | a line after the first peer sets a field of the last peer only |
| UapiParse.DeviceParser.Device | internal/wguser/parse.go:95-104 | the device with its public key, or the recorded error |
| UapiParse.ParseDevice | internal/wguser/parse.go:57-81 | scanner loop and parser together compute the specified outcome |
| UapiBlocks.DeviceKeyIs | internal/wguser/parse.go:138-179 | each device key is exactly its literal name |
| UapiBlocks.PeerKeyIs | internal/wguser/parse.go:202-226 | each peer key is exactly its literal name |
| UapiBlocks.HandshakeExact | internal/wguser/parse.go:191-197 | the handshake time is the instant of both values, and none exactly when both are 0 |
| Text.AtoiExact | internal/wguser/parse.go:251-278 | exactly the decimal numerals of 64-bit numbers, signed or not, are read, with their value |
| Text.HexDecodeExact | internal/wguser/parse.go:235-240 | a key text is read exactly when it has two digits of either case for each byte |
| UapiBlocks.ErrorStays | internal/wguser/parse.go:230-308 | no call changes or clears a recorded error |
| UapiBlocks.FirstErrorIsFinal | internal/wguser/parse.go:230-308 | the first error of a run is the one reported |
| UapiBlocks.FirstErrorIsReported | internal/wguser/parse.go:57-104 | a message with wrong lines fails with the error of the first of them |
| UapiBlocks.ParserRefinesBlocks | internal/wguser/parse.go:107-227 | the run records an error exactly when some line is wrong in its place; otherwise every device field is the last value given before the first peer under its literal key, and every peer field that of the peer's own block, counters, handshake and protocol version included |
| UapiBlocks.DeviceIsDescribed | internal/wguser/parse.go:95-104 | Device fails exactly when a line was wrong, and otherwise returns the described device |
| UapiWrite.Buffer.Write | internal/wguser/configure.go:88-196 | the text stays the rendering of the lines written so far |
| UapiWrite.Buffer.WritePeer | internal/wguser/configure.go:159-195 | a peer's lines, from its public key to its allowed IPs, in order |
| UapiWrite.Buffer.WriteConfig | internal/wguser/configure.go:88-196 | the lines of the device, then of each peer in order |
| UapiWrite.CheckLineValues | internal/wguser/configure.go:71-85 | accepts exactly when none of H1-H4, I1-I5 has a line break |
| UapiWrite.BuildRequest | internal/wguser/configure.go:16-43 | the request text, refused exactly when the line check fails |
| Text.HexEncodeExact | internal/wguser/configure.go:199-201 | a key is written as two lower-case digits for each byte, in order |
| Types.WholeSecondsExact | internal/wguser/configure.go:184-186 | a keepalive is written in whole seconds, truncated toward zero |
| UapiRoundTrip.LinesArePlain | internal/wguser/configure.go:67-157 | every value of a checked configuration is free of '=' and line breaks, and a line is too long exactly when a header, endpoint or allowed-IP text is |
| UapiRoundTrip.RequestIsFramed | internal/wguser/configure.go:37-43 | whatever follows, the reader recovers exactly the intended keys and values, unless a line is too long for it: none ends the request early or adds a line |
| UapiRoundTrip.HeadSays | internal/wguser/configure.go:88-163 | under each literal key of the device part of a request stands exactly the value set, or nothing |
| UapiRoundTrip.FieldsAreRead | internal/wguser/parse.go:135-180 | reading the device lines sets exactly the fields that were set |
| UapiRoundTrip.PeerSays | internal/wguser/configure.go:165-195 | under each literal key of a peer's lines, remove, update_only and replace_allowed_ips included, stands exactly what is set or instructed |
| UapiRoundTrip.ConfigIsAsked | internal/wguser/configure.go:37-196 | the lines are a set operation whose literal keys ask for exactly the configuration: replace_peers, and each peer with remove, update_only, replace_allowed_ips, keys, endpoint, whole-second keepalive and allowed IPs, in order |
| UapiRoundTrip.RequestIsAsked | internal/wguser/configure.go:16-43 | and so does the text, taken apart again |
| UapiRoundTrip.PeersAreRead | internal/wguser/parse.go:183-227 | reading the peer lines restores the peers one by one, in order, each address as its text parses |
| UapiRoundTrip.RoundTrip | internal/wguser/configure.go:88-196 | parsing the request gives exactly the set fields, the peers and allowed IPs in order and keepalives in whole seconds; it is unreadable exactly when a text makes its line too long, and fails otherwise exactly when an address text does not parse |
| UapiRoundTrip.InverseReadBack | internal/wguser/parse.go:281-308 | a peer whose address texts parse back comes back with exactly its addresses |
| UapiRoundTrip.LongHeaderIsUnreadable | internal/wguser/configure.go:67-85 | a valid configuration that passes the line check and whose request cannot be read |
| Windows.ConfigBuilder.AppendInterface | internal/wgwindows/internal/ioctl/configuration_windows.go:94-98 | the record's bytes go behind everything written so far |
| Windows.ConfigBuilder.AppendPeer | internal/wgwindows/internal/ioctl/configuration_windows.go:100-104 | the record's bytes go behind everything written so far |
| Windows.ConfigBuilder.AppendAllowedIP | internal/wgwindows/internal/ioctl/configuration_windows.go:106-110 | the record's bytes go behind everything written so far |
| Windows.AppendBlock | internal/wgwindows/client_windows.go:280-318 | a peer record followed by its allowed IPs, in order |
| Windows.Preallocate | internal/wgwindows/client_windows.go:256-259 | the preallocated size is that of the header, all peers and all allowed IPs |
| Windows.BuildBuffer | internal/wgwindows/client_windows.go:256-321 | the buffer has the specified layout, and its length equals the preallocation exactly when it is below 4 GiB |
| Windows.FlagsRead | internal/wgwindows/client_windows.go:281-309 | each flag bit of a peer is set exactly when its field is |
| Windows.PeerRead | internal/wgwindows/client_windows.go:198-216 | a peer record reads back as the peer written |
| Windows.RecordRead | internal/wgwindows/client_windows.go:197-217 | for any peer record the driver reports: each value under its literal flag, counters as signed 64-bit numbers, the rest zero |
| Windows.HandshakeExact | internal/wgwindows/client_windows.go:215-217 | the handshake time is the instant that many 100 ns after the start of 1601 |
| Windows.PeerIsAsked | internal/wgwindows/client_windows.go:276-320 | read at the driver's offsets and literal flags, a written record asks for exactly the peer, remove, update and replace flags included |
| Windows.InterfaceRead | internal/wgwindows/client_windows.go:180-189 | the interface record reads back as the key and port written |
| Windows.InterfaceReported | internal/wgwindows/client_windows.go:178-189 | for any interface record the driver reports: each value under its literal flag |
| Windows.InterfaceIsAsked | internal/wgwindows/client_windows.go:262-274 | a written interface record asks for exactly the key, the port and ReplacePeers |
| Windows.IPsWalk | internal/wgwindows/client_windows.go:217-238 | walking the allowed IPs of a peer finds exactly those appended, in order |
| Windows.PeersWalk | internal/wgwindows/client_windows.go:191-239 | walking the peers by their counts finds exactly those appended, in order |
| Windows.WalkFindsAll | internal/wgwindows/client_windows.go:178-240 | for every configuration below 4 GiB the walk stays inside the buffer and finds exactly what was appended |
| Windows.FoundAsTold | internal/wgwindows/client_windows.go:191-239 | for a peer in order, the Windows reader and the netlink decoder find the same |
| Windows.ReadIPs | internal/wgwindows/client_windows.go:217-238 | the loop with FirstAllowedIP and NextAllowedIP is that walk |
| Windows.ReadPeers | internal/wgwindows/client_windows.go:190-240 | the loop with FirstPeer and NextPeer is that walk |
| Windows.ReadDevice | internal/wgwindows/client_windows.go:178-241 | the device read from a buffer has exactly the walked peers and the interface's own fields |
| Cancel.StepKeepsInv | internal/wglinux/client_linux.go:221-246 | every step of caller, callback and context keeps the protocol's invariant |
| Cancel.CallIsBounded | internal/wglinux/client_linux.go:222-240 | in every interleaving fn runs without a bound only for a context that cannot end, or one with a deadline on a socket without deadlines; otherwise the context's own deadline is set and the callback is registered while fn runs |
| Cancel.ContextInterrupts | internal/wglinux/client_linux.go:226-234 | from every reachable state in which fn runs under the context, its end and the callback's own steps put the deadline in the past, with no step of the caller |
| Cancel.ReturnsClear | internal/wglinux/client_linux.go:235-240 | in every interleaving a call that has returned left the deadline clear, and nothing can set it later |
| Cancel.FiredStaysPast | internal/wglinux/client_linux.go:231-234 | once the callback has set the deadline it stays in the past while fn runs |
| Cancel.NoDeadlock | internal/wglinux/client_linux.go:235-240 | unless fn is running, a call that has not returned can take a step of its own: the wait on the channel ends |
| Cancel.ScheduleIsBounded | internal/wglinux/client_linux.go:221-246 | no interleaving is longer than a fixed bound |
| Cancel.EveryCallStartsClear | internal/wglinux/client_linux.go:212-246 | in any sequence of calls that do not overlap, each starts with a clear deadline |

## Left out

- Delivery.BatchingPreservesMeaning: one direction only at the level of devices, because a dropped setting may happen to change nothing (the same preshared key twice, say); the exact condition is stated on the changes asked for, in Batching.BatchesAskTheSame.
- Generate.DrawPaddings: the rejection loop gives up after a number of tries, and then says that none of them was good; that a good one comes is a matter of chance.
- Generate.Settings.GenerateAmneziaParams: the same; a random number is draw % n for an arbitrary draw, and how evenly it falls is not modelled.
- Send.Link.ConfigureDevice: what an asked configuration does to a device is Kernel.Apply; a request the kernel refuses changes nothing.
- DeviceMessage.ConfigRoundTrip: stated on attribute trees, whose serialisation is the netlink library's, the flag bits of an attribute's type among it.
- DeviceMessage.ParseDeviceLoop: raw bytes under a nested type and nested attributes under a value type are skipped, where the source decodes them as the other kind or fails.
- PeerCodec.ParsePeer: the same holds for the attributes of a peer.
- Updates.UnreadUpdateIsSafeIff: what the backend itself refuses is not modelled.
- Windows.ConfigBuilder.AppendPeer: like AppendInterface and AppendAllowedIP, takes the bytes of a record, which a function of the configuration gives, instead of a pointer to it.
- Kernel.RunKeepsConsistent: what a kernel does with a request is taken from the documentation of Config and PeerConfig; a device's own public key among the peers, and requests the kernel refuses, are not modelled.
- Cancel.CallIsBounded: which error the caller gets (the context's own once it has ended) is not modelled.
- Cancel.EveryCallStartsClear: calls that overlap on one Client bound each other, as the source's comment says; they are not modelled.
- Configurations are values; only the generator's receiver is an object. Aliasing of slices between a caller and a batch is not modelled.
- Curve25519, key generation and the quality of random numbers: the public key is an unknown function.
- Text forms of addresses and CIDRs: a pair of unknown functions for printing and parsing; framing and round trip assume only that the texts hold no separators.
- time.Duration.Seconds is integer division, which agrees with it on the validated range.
- Strings are sequences of bytes; the wording of errors is not modelled, only which error it is.
- Sockets, pipes, ioctl, netlink dialling, link kinds, family selection, the list of Windows adapters and the first-success choice of a backend: I/O and foreign calls.
- The FreeBSD and OpenBSD backends: foreign calls, and a pointer walk like the Windows one.
- fmt's traversal of nested structs in the String methods, and the command-line tool.
