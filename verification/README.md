# vEPC: verified models of the control plane

vEPC is an emulated MME/SGSN. Under its sockets and logging sit state machines over UE and PDP
contexts, hand-written wire and snapshot codecs, IMSI routing and IMSI generation. This Dafny project
models that code and proves what it keeps over whole runs, what its codecs give back, and exactly where
the two halves of a round trip stop agreeing.

Each method with a loop or with changing fields is proved equal to a function of its inputs or of the old
state; the properties are lemmas about those functions. The modules named `laws` say what those functions compute
in octets, keys and texts written out, without going through them. Counterexamples that limit a property are
lemmas too.

| files | subject |
|---|---|
| `bytes`, `text`, `listings` | octets and fixed-width integers, string helpers, maps and the sequences that list them |
| `s1ap`, `mme`, `mme_laws`, `mme_reload`, `mme_replies`, `mme_history` | the demo S1AP carrier and the attach, service, tracking area and detach machine |
| `runtime_state` | the controller's maps and the two load-time validators |
| `json_text`, `json_laws`, `json_scan`, `json_lines`, `json_objects`, `json_arrays`, `json_faked` | escaping, the substring and bracket scanners, and what they find in printed text |
| `snapshot_names`, `snapshot_print`, `snapshot_records`, `snapshot_fields`, `snapshot_document`, `snapshot`, `snapshot_text`, `snapshot_state` | saving and loading the runtime state |
| `snapshot_locate`, `snapshot_faked`, `hidden_ues` | which texts mislead the array finder, and two datagrams that do |
| `restart` | both servers over any number of restarts |
| `gtp_header`, `gtp_values`, `gtp_request`, `gtp_fold` | GTPv1-C headers, responses and information elements |
| `pdp`, `pdp_laws`, `pdp_texts`, `pdp_history`, `pdp_reload`, `pdp_interleave` | the PDP context table, sequentially and interleaved |
| `routing`, `routing_load`, `routing_laws` | IMSI groups and APN selection |
| `diameter`, `diameter_walks`, `diameter_build`, `diameter_laws` | Diameter requests and answers |
| `imsi_generator`, `imsi_emit` | IMSI specifications and generation |
| `config_text`, `config`, `config_restart`, `config_laws` | configuration files, aliases and restarts |
| `prune` | pruning quarantined snapshots |
| `error_laws` | which error each parser, validator and loader reports |

Verify everything with `dafny verify dfyconfig.toml`.

## Main results

- **Reload boundary.** Over every run, a UE context fails its own load-time validator for exactly three reasons
  (NAS type zero, tracking area code zero, a stale resume flag) and a PDP context for exactly three (no IMSI, no
  APN, PDP type zero). Each has a witness run. A run may start from any PDP table the validator admits, and from a
  UE table it admits exactly if no reachable context is attached with a sent area update accept and no area code.
  One context outside its boundary makes the whole snapshot unloadable. If no session ends with one, restarts
  cannot be noticed: the tables are those of one uninterrupted run.
- **Snapshot round trip.** Where the array finder is right, save followed by load is the identity exactly when
  every text survives the escaper, every interface is known and every context passes its validator. The finder
  is right exactly when nothing printed before an array looks like its name and is followed by a bracket. In
  reachable tables that is a condition on the header texts, the interface names and the APNs alone. It can fail:
  where no interface is saved, an `mnc` setting or a socket name drops all PDP contexts, and two Create
  datagrams for the access points `ue_contexts` and `[]` drop all UE contexts, each time without an error.
- **Histories.** Attach flags, service flags and the attach order are functions of the table at the start and the
  accepted messages; the PDP table is a function of the table at the start and the accepted datagrams, field by
  field.
- **Interleaving.** Every interleaving of handler threads is safe. A trace is sequential at every moment exactly when
  every modify, as it stores, finds its context still there with the fields it does not supply unchanged; it is so
  when nobody else stores or removes the context in between. Otherwise a deleted context can come back and an edit
  can be lost.
- **Octets and keys.** Which NAS message is accepted in which state and what it is answered with, what sets and
  clears every flag, where a Create lands, what every answer octet is, which key of a snapshot or configuration
  holds which field, and which APN a configured text selects are stated on the octets and texts themselves.
- **Codecs.** The GTP walker is a fold over the unique tiling of the body; the strict and lenient Diameter
  walkers agree exactly when the last pair of each code is plain; builders and parsers are inverse.
- **Routing, generation, configuration, pruning.** Most-specific selection independent of the sort, numeric
  range matching, exact generation under the guard validation misses, a configuration that survives restarts
  exactly when its lines do, and pruning that is determined by the file names.

## Where the code differs from its documents

- The escaper writes other control characters as `\u00XX`; the unescaper does not read them back, contrary to
  section 7 of RFC 8259. The model follows the code.
- A configuration key that is empty, holds an equals sign or starts with `#` is accepted by `setValue` and lost
  at the next start.
- Series validation adds in 64 bits and accepts a count whose end wraps; validation looks only at the first PLMN.

## Model

| member | source | states |
|---|---|---|
| `S1ap.SanitizeAscii` | src/s1ap_parser.cpp:11-19 | The loop replaces every octet outside 0x20-0x7E by a dot and keeps the others, one character per octet. |
| `S1ap.ParseDemoNasCarrier` | src/s1ap_parser.cpp:22-91 | The offset-driven loop computes the record walk: same message or same error on every packet. |
| `S1ap.CarrierAcceptance` | src/s1ap_parser.cpp:22-91 | A packet is accepted exactly when it has the expected procedure code and its body tiles into type-length records, with no empty NAS record, a last IMSI record that is not empty, and some NAS record. |
| `S1ap.LastRecordWins` | src/s1ap_parser.cpp:22-91 | IMSI, GUTI and NAS payload each hold what the last record of type 0x01, 0x02 or 0x03 supplied. |
| `S1ap.ParsedTextIsGood` | src/s1ap_parser.cpp:22-91 | An accepted message has a nonempty printable IMSI, a printable GUTI and a nonempty NAS payload whose first octet is the message type. |
| `S1ap.BuildDemoDownlinkNasTransport` | src/s1ap_parser.cpp:603-625 | The appends produce the tiling of an IMSI record, an optional GUTI record and a NAS record. |
| `S1ap.DownlinkRoundTrip` | src/s1ap_parser.cpp:603-625 | A downlink message built from printable texts of at most 255 characters and a nonempty payload of at most 255 octets parses back to the same three values. |
| `ErrorLaws.CarrierErrors` | src/s1ap_parser.cpp:22-91 | Which of the seven errors a refused packet reports: too short, wrong procedure, the first faulty record, a missing IMSI, a missing NAS. |
| `ErrorLaws.BodyOfRecords` | src/s1ap_parser.cpp:30-78 | Every body is well-formed records up to its end or its first fault, so that the preceding row covers every packet. |
| `Mme.HandleServiceResumeRequest` | main.cpp:3826-3896 | Field-by-field branch equals its specified reaction: guards, stored flags, reply. |
| `Mme.HandleTauComplete` | main.cpp:3898-3923 | Same for Tracking Area Update Complete, which sends no reply. |
| `Mme.HandleTauRequest` | main.cpp:3925-3990 | Same for Tracking Area Update Request. |
| `Mme.HandleDetachRequest` | main.cpp:3992-4073 | Same for Detach Request. |
| `Mme.HandleServiceReleaseRequest` | main.cpp:4075-4142 | Same for Service Release Request. |
| `Mme.HandleServiceRequest` | main.cpp:4144-4213 | Same for Service Request. |
| `Mme.HandleAttachComplete` | main.cpp:4215-4256 | Same for Attach Complete, which sends no reply. |
| `Mme.HandleSecurityModeComplete` | main.cpp:4258-4329 | Same for Security Mode Complete. |
| `Mme.HandleAuthenticationResponse` | main.cpp:4331-4400 | Same for Authentication Response. |
| `Mme.HandleAttachRequest` | main.cpp:4402-4461 | Same for Attach Request. |
| `Mme.HandleDemoS1apMessage` | main.cpp:3798-4461 | One message: the UE map changes as specified, only when parsing and the reaction succeed and, where a reply is due, it could be sent. |
| `Mme.Serve` | main.cpp:3798-4461 | Serving a sequence of messages reaches the specified store, from whatever table the program started with. |
| `MmeLaws.AcceptedIffAdmitted` | main.cpp:3798-4461 | Over every run from any table, by octets: a message of type 0x53, 0x5E, 0x43, 0x4A, 0x4C, 0x4E, 0x50, 0x48 or 0x45 is accepted if and only if it is long enough, names the stored key set in its second octet and meets the stored flags of its branch, and its answer, if it has one, can be sent; other types always; a message not accepted leaves the table alone. |
| `MmeLaws.AnswersAreLiteral` | main.cpp:3826-4461 | What is sent carries the IMSI of the message and, for each type, fixed octets with the stored key set: for example 0x46, the key set, 0x00 for a detach. |
| `MmeLaws.EveryFlagFollowsHistory` | main.cpp:3826-4461 | Each of the 21 flags of a context is set if and only if, of the accepted messages whose types set or clear it, the latest sets it, or, without one, it was set at the start; the types are listed for each flag. |
| `MmeLaws.AcceptedStores` | main.cpp:3798-4461 | An accepted message changes only the context of its own IMSI: sender, time, message type and procedure, the GUTI if it names one, and the key set, algorithm, bearer and area code its type stores or empties. |
| `MmeReload.RunIsSound` | main.cpp:3826-4461 | Inductive invariant over every run, from any table that has it: each validator clause but three holds of every stored context, and none is attached with a sent area update accept and no area code. |
| `MmeReload.ReloadBoundary` | main.cpp:889-977 | A context reached by any run, from nothing or from any table the validator admits in which no reachable context is attached with a sent area update accept and no area code, passes the validator if and only if neither its last NAS type nor its tracking area code is a present zero and a sent resume accept implies an active service; no other clause is the first to fail. |
| `MmeReload.ZeroNasTypeReached` | main.cpp:4394-4400 | Witness: one message of NAS type zero stores a context the validator refuses. |
| `MmeReload.ZeroTrackingAreaReached` | main.cpp:3925-3990 | Witness: attach, then a tracking area update with code zero. |
| `MmeReload.AttachRunAttaches` | main.cpp:4215-4461 | The documented four-message sequence attaches any IMSI. |
| `MmeReload.ResumedRunResumes` | main.cpp:3826-3896 | After attach and a tracking area update, a resume request leaves the service active and the resume flag set. |
| `MmeReload.StaleResumeReached` | main.cpp:4409-4435 | Witness: an Attach Request over a resumed service leaves the resume flag without an active service. |
| `MmeReload.StaleResumeAfterSecurityMode` | main.cpp:4287-4302 | Witness: so does a second Security Mode Complete. |
| `MmeReload.StaysWithinIffNoneArealess` | main.cpp:889-977 | That condition on the start is exact: from a table the validator admits, every run stays within the three faults if and only if no context that a message can reach is attached with a sent area update accept and no area code. |
| `MmeReload.ArealessLeaves` | main.cpp:3898-3923 | From any such context a Tracking Area Update Complete leads to one that fails for a fourth reason. |
| `MmeReload.ArealessIsAdmitted` | main.cpp:889-977 | Witness: the validator admits such a context, for any IMSI. |
| `MmeReplies.RepliesParseBack` | main.cpp:3798-4461 | In every state reached from nothing or from a table of printable GUTIs, a packet handed to send parses as a downlink message with the IMSI, GUTI and NAS bytes of the reaction. |
| `MmeReplies.RunKeepsGoodNames` | main.cpp:3808-3811 | Stored GUTIs stay printable and at most 255 characters long. |
| `MmeReplies.ReplyGuti` | main.cpp:4409-4461 | The reply names the stored GUTI, except exactly when an Attach Request without a GUTI meets a stored one. |
| `MmeHistory.KnownIffHeard` | main.cpp:3798-4461 | A context exists exactly when it was in the table at the start or some message was accepted for its IMSI. |
| `MmeHistory.FlagsFollowHistory` | main.cpp:3826-4461 | From any table, attached and service-active are functions of the accepted messages: they hold exactly when the latest marker message is an Attach Complete, or a Service or Service Resume Request; without a marker they are as at the start. |
| `MmeHistory.AttachOrdering` | main.cpp:3992-4073 | From any table, if an IMSI is attached then, since its last accepted Attach Request, an Authentication Response, a Security Mode Complete and an Attach Complete with the stored key set identifier were accepted in that order, and no Detach Request; a first part of these may lie before the start, and then the flag it sets was set at the start and nothing reset it since. |
| `MmeHistory.WholeAttachOrdering` | main.cpp:3992-4461 | With nothing of the procedure behind it at the start, as for an IMSI not in the table, all four messages were accepted since, in that order. |
| `RuntimeStates.RuntimeState.UpsertPdpContext` | main.cpp:2904-2907 | Assigns the entry under the context's own TEID and nothing else. |
| `RuntimeStates.RuntimeState.TryGetPdpContext` | main.cpp:2909-2917 | Finds exactly the stored entry. |
| `RuntimeStates.RuntimeState.RemovePdpContext` | main.cpp:2919-2930 | Removes exactly that entry and says whether it was there. |
| `RuntimeStates.RuntimeState.UpsertUeContext` | main.cpp:2932-2935 | Assigns the entry under the context's own IMSI. |
| `RuntimeStates.RuntimeState.ClearRuntimeState` | main.cpp:2937-2941 | Empties both context maps and leaves the interface map. |
| `JsonText.EscapeJsonString` | main.cpp:586-624 | The escaping loop computes the escaped text. |
| `JsonText.UnescapeJsonString` | main.cpp:626-664 | The unescaping loop computes the unescaped text, `\u` included: it yields the letter u. |
| `JsonText.EscapeRoundTrip` | main.cpp:586-664 | Unescaping the escaped text gives the text back if and only if it holds no control character other than backspace, form feed, line feed, carriage return and tab. |
| `JsonText.ControlCharacterIsMangled` | main.cpp:612-617 | Counterexample: the octet 0x01 returns as the five characters u0001. |
| `JsonLaws.EscapedDenotes` | main.cpp:586-624 | For every text, a decoder that follows section 7 of RFC 8259 gets the text back from what the escaper writes. |
| `JsonLaws.UnescapedIsDenoted` | main.cpp:626-664 | On the inside of any string literal without a `\u` escape, the unescaper returns what that decoder returns. |
| `JsonText.EscapedTail` | main.cpp:586-624 | Escaped text that ends in a quote and name characters was already so before escaping. |
| `JsonScan.FindJsonArrayBounds` | main.cpp:666-716 | The string-aware bracket loop returns the interior of the first array after the first quoted occurrence of the key. |
| `JsonScan.SplitTopLevelJsonObjects` | main.cpp:718-759 | The brace loop returns the outermost brace-delimited pieces in order. |
| `JsonScan.FindJsonFieldValue` | main.cpp:761-802 | The field finder returns the inside of the literal, or the scalar, after the first quoted key with a colon. |
| `JsonScan.ExtractJsonStringField` | main.cpp:804-814 | The unescaped string field, or none. |
| `JsonScan.ExtractJsonBoolField` | main.cpp:816-834 | True, false or none. |
| `JsonScan.ExtractJsonUintField` | main.cpp:836-854 | The number `stoull` reads from the trimmed scalar, or none when it throws. |
| `JsonLines.KeyInLine` | main.cpp:666-680 | A quoted key occurs in a printed line only as the line's own name, or at the end of a text that is the key or ends in a quote and the key. |
| `JsonLines.FieldTokenInLine` | main.cpp:761-772 | With its colon, a quoted key occurs only as the line's own name. |
| `JsonObjects.RecordRoundTrip` | main.cpp:761-854 | Every field of a printed object reads back: flags and 64-bit numbers as printed, texts through the escaper and unescaper. |
| `JsonArrays.SplitsArray` | main.cpp:718-759 | Splitting the interior of a printed array returns exactly the printed objects in order, whatever their texts hold. |
| `JsonFaked.ArrayFoundIffLocatable` | main.cpp:666-716 | The array finder returns the bounds of the printed array if and only if no line after a text that looks like the array's name, and before the array, holds an opening square bracket. |
| `SnapshotPrint.StampRoundTrip` | main.cpp:539-584 | A formatted time stamp parses back to the time, zero included. |
| `SnapshotPrint.SomeClockIsFaithful` | main.cpp:539-584 | The assumption made of a clock can be met: signed decimal numerals format every nonzero time and parse it back. |
| `SnapshotRecords.PdpRoundTrip` | main.cpp:2981-3181 | A printed PDP context reads back as itself if and only if its texts can be unescaped and the validator passes it; otherwise, with such texts, it fails with the validator's reason. |
| `SnapshotRecords.UeRoundTrip` | main.cpp:3006-3253 | A printed UE context reads back as itself if and only if its texts can be unescaped and the validator passes it; otherwise, with such texts, it fails for a missing IMSI if it has none, and else with the validator's reason. |
| `SnapshotRecords.IfaceRoundTrip` | main.cpp:2963-3135 | A printed interface entry reads back exactly when it has a decodable, nonempty, known name. |
| `SnapshotFields.PrintedFields` | main.cpp:2963-3053 | In a printed record each key, written out in a table, holds its own field: 2 of an interface entry, 10 of a PDP context, 37 of a UE context. |
| `SnapshotFields.FieldText` | main.cpp:2963-3053 | A printed line is the quoted key, a colon, and the value: a quoted escaped text, a word or a decimal number. |
| `SnapshotText.RenderedText` | main.cpp:2938-3060 | The saved file, mark by mark: the header lines with their literal keys, then the three named arrays, each with the entries of its own table in order and commas only between them. |
| `SnapshotFields.ReadUeFields` | main.cpp:3184-3253 | From any text, a UE context that is read takes every field from the key the same table gives it, and the reading fails for a missing IMSI exactly when `imsi` is absent or empty. |
| `SnapshotFields.ReadPdpFields` | main.cpp:3140-3181 | The same for a PDP context and its ten keys. |
| `SnapshotFields.ReadIfaceFields` | main.cpp:3105-3135 | The same for an interface entry, with its three errors. |
| `SnapshotFields.FlowNameIsFirst` | main.cpp:1138-1188 | The printed `auth_flow` is the name of the most advanced flag that is set, in the order of a table. |
| `SnapshotFields.FlowNamesLastMessage` | main.cpp:1138-1188 | After most message types it names the message accepted last, for two of them if and only if no resume flag was left behind. |
| `SnapshotDocument.ArraysFoundIffLocatable` | main.cpp:2949-3056 | The loader finds the three arrays of a printed document where they were printed exactly when each can be located among the lines before it. |
| `SnapshotDocument.DocumentIsRead` | main.cpp:2949-3191 | Then it sees exactly the printed header under its five keys and, in order, the objects of the three arrays under theirs; the keys are written out. |
| `Snapshot.SnapshotRoundTrip` | main.cpp:2943-3279 | Where the arrays can be located, loading what save wrote returns the same three tables if and only if their texts can be unescaped, their interface names are known and every context passes its validator; one context that does not pass makes the whole load fail. |
| `Snapshot.RenderedArraysAreFound` | main.cpp:2949-3056 | The arrays of a rendered snapshot are found where they were printed exactly when they can be located; `SnapshotLocate` says when that is. |
| `SnapshotLocate.UnfakedCanLocate` | main.cpp:2949-3056 | The arrays can be located whenever no earlier text is an array name or ends in a quote followed by one. |
| `SnapshotLocate.CanLocateIffInOrder` | main.cpp:666-716 | For every table, all three arrays are found if and only if no CLI endpoint, status or interface name looks like the UE array, no CLI endpoint or status looks like the PDP array, and no bracket follows a look-alike in order: of the interface array in the header, of the PDP array among the interface names, of the UE array among the peer addresses, GGSN addresses, IMSIs and APNs. |
| `SnapshotLocate.CanLocateIffApnsInOrder` | main.cpp:2979-2998 | Where IMSIs are digits and addresses printed addresses, as in every reachable table, only the APNs matter for the UE array: none that looks like `ue_contexts` may be listed before one that holds an opening bracket. |
| `SnapshotFaked.FakedHeaderMisleads` | main.cpp:2949-3144 | When the CLI endpoint or the status looks like the PDP or UE array and no later header text holds a bracket, the loader reads the interface entries as that array. |
| `SnapshotFaked.FakedHeaderDropsPdps` | main.cpp:2957-3182 | With such a header and no interface entry, whatever PDP contexts were saved are silently dropped. |
| `SnapshotFaked.FakedHeaderFailsPdps` | main.cpp:3140-3182 | With such a header and some interface entry, that entry is read as a PDP context without a TEID and the load fails. |
| `SnapshotFaked.FakedHeaderFailsUes` | main.cpp:3184-3253 | The same for the UE array: the entry is a UE context without an IMSI. |
| `SnapshotFaked.NetworkCodeDropsPdps` | main.cpp:2790-2797 | Counterexample: so it is when the setting `mnc`, which closes the status, ends in a quote and `pdp_contexts`. |
| `SnapshotFaked.SocketNameDropsPdps` | main.cpp:63-73 | Counterexample: so it is when VEPC_CLI_SOCKET names a socket `pdp_contexts`. |
| `SnapshotFaked.ApnsHideUes` | main.cpp:666-716 | Counterexample: with two PDP contexts of reachable texts whose APNs are `ue_contexts` and `[]`, the loader reads no UE context and reports no error, whatever was saved. |
| `SnapshotFaked.UesVanish` | main.cpp:3076-3279 | The rest of that snapshot loads exactly as saved. |
| `HiddenUes.CreatesHideUes` | main.cpp:3350-3389 | Two received Create datagrams reach that table under any configuration: its snapshot cannot be located and loads without an error and without a single UE context. |
| `ErrorLaws.PdpFirstFault` | main.cpp:856-887 | The PDP validator reports the first of its seven faults, in order, and passes exactly without any. |
| `ErrorLaws.UeFirstFault` | main.cpp:889-977 | The UE validator reports the first of its sixteen faults, in order, each in terms of the stored flags, and passes exactly without any. |
| `ErrorLaws.LoadErrors` | main.cpp:3094-3191 | The load fails for the version, the time stamp, the interfaces, the PDP contexts and the UE contexts, in that order; a missing PDP or UE array is an error, a missing interface array is not. |
| `ErrorLaws.FirstObjectDecides` | main.cpp:3105-3255 | Of the objects of an array the first that cannot be read decides the error. |
| `SnapshotState.SaveRuntimeState` | main.cpp:2943-3074 | The saved text is the rendering of a listing of the three maps, each entry once. |
| `SnapshotState.ReadTables` | main.cpp:3094-3255 | The loading loops compute the specified result: same tables or same first error. |
| `SnapshotState.LoadRuntimeState` | main.cpp:3076-3279 | A missing file or a failed load leaves both context maps empty and the interface map untouched; a load assigns all loaded entries, and interfaces it does not name keep their state. |
| `SnapshotState.RestartRestores` | main.cpp:2943-3279 | Where the arrays can be located and the texts decoded, the three maps listed and rendered come back exactly, or the load fails. |
| `SnapshotState.Restart` | main.cpp:2943-3279 | Saving one controller and loading into another leaves the second with exactly the maps of the first, or with empty context maps and an error, whenever the arrays can be located and the texts decoded. |
| `Restarts.RunsSurviveRestart` | main.cpp:889-3279 | After any run of both servers, from nothing or from tables they kept, the snapshot loads if and only if every UE context and every PDP context meets its reload boundary, and then restores all three maps. Assumed: nonzero clocks, senders and configured APNs whose texts the escaper keeps, known interfaces, header texts and interface names that leave the arrays alone, and no APN that looks like `ue_contexts` listed before one with a bracket. |
| `Restarts.RunSession` | main.cpp:3076-3279 | The same of the controller object: both servers run on it, it is saved, and the next one is loaded. |
| `Restarts.SessionsKeep` | main.cpp:4968-4990 | Over any number of such sessions what the servers keep of their tables holds, and each restart restores both tables or empties both. |
| `Restarts.RestartsAreInvisible` | main.cpp:2943-3279 | If every session ends within the boundaries, the tables after any number of restarts are those of one uninterrupted run of all the messages. |
| `GtpHeaders.ParseGtpV1Header` | src/gtp_parser.cpp:250-307 | The header parser computes the specified header or error. |
| `GtpHeaders.AcceptedHeader` | src/gtp_parser.cpp:250-307 | An accepted header has 8 <= header length <= total length <= packet size, and zero optional fields when none is flagged. |
| `GtpHeaders.HeaderByOctets` | src/gtp_parser.cpp:250-307 | A header is accepted if and only if its first octet says version 1 and GTP and its declared length fits; each field is the number its octets denote. |
| `GtpHeaders.HeaderErrors` | src/gtp_parser.cpp:250-307 | Otherwise the error is that of the first failing test, in order. |
| `GtpHeaders.BuildResponse` | src/gtp_parser.cpp:405-670 | Each of the ten builders appends exactly the specified octets. |
| `GtpHeaders.ResponseRoundTrip` | src/gtp_parser.cpp:77-108 | For every accepted request header, each response is accepted again, with the same optional-field flags, the sequence, the flagged N-PDU number, the given TEID, and a total length that is the octet count. |
| `GtpHeaders.ResponseByOctets` | src/gtp_parser.cpp:405-670 | Every octet of every response: flags, one of ten types, length, TEID, optional octets copied from the request, and a recovery or cause element. |
| `GtpValues.DecodeTbcdDigits` | src/gtp_parser.cpp:22-38 | The loop yields the digit halves of the octets, low half first. |
| `GtpValues.TbcdRoundTrip` | src/gtp_parser.cpp:22-38 | Digits packed two per octet with filler halves decode to the digits. |
| `GtpValues.TbcdByHalves` | src/gtp_parser.cpp:22-38 | Each further octet adds the digit of its low half, then that of its high half; halves above nine add nothing. |
| `GtpValues.Ipv4Denotes` | src/gtp_parser.cpp:64-75 | Four octets are written as four numbers between dots, first octet first, without needless zeros; any other length as nothing. |
| `GtpValues.DecodeAccessPointName` | src/gtp_parser.cpp:40-62 | The label loop computes the dotted name or the error. |
| `GtpValues.ApnAcceptance` | src/gtp_parser.cpp:40-62 | A name decodes if and only if its octets are labels that fit, up to the end or a zero octet, and then reads as the labels joined by dots. |
| `GtpValues.ApnIsJoined` | src/gtp_parser.cpp:40-62 | A name that decodes is its labels with one dot between each two. |
| `GtpRequests.ParseDemoPdpContextRequest` | src/gtp_parser.cpp:110-195 | The element loop computes the specified walk: same request or same error for every packet and header. |
| `GtpFolds.WalkIsFold` | src/gtp_parser.cpp:129-187 | The walker folds the elements of whatever tiling the body has. |
| `GtpFolds.TilingIsUnique` | src/gtp_parser.cpp:129-187 | A body has at most one tiling. |
| `GtpFolds.RequestAcceptance` | src/gtp_parser.cpp:110-195 | With a header parsed from the same packet and the right type, parsing succeeds if and only if the body tiles into 9-octet IMSI elements and 3+length elements, every access point name fits, and some supported field results. |
| `ErrorLaws.RequestErrors` | src/gtp_parser.cpp:110-195 | Which of the seven errors a refused request reports: the type, the boundaries, the first faulty element, nothing supported. |
| `ErrorLaws.BodyOfElements` | src/gtp_parser.cpp:129-187 | Every body is well-formed elements up to its end or its first fault. |
| `GtpFolds.RequestValues` | src/gtp_parser.cpp:110-195 | Each field holds what its element supplies: the last IMSI, access point name and PDP type, and the first address, whose text splits at its dots into the numbers of its octets in order. |
| `Pdp.HandleRealGtpMessage` | main.cpp:3340-3796 | One message: the PDP map changes as specified and the answer is the specified response. |
| `Pdp.HandleCreate` | main.cpp:3350-3389 | A Create stores a fresh context under the allocated TEID, with the APN that routing selects. |
| `Pdp.EditContext` | main.cpp:3399-3420 | The seven modify branches overwrite the four stamp fields and exactly the supplied fields. |
| `Pdp.ServeGtp` | main.cpp:4581-4652 | Serving a sequence of datagrams, each under the configuration then in force, reaches the specified store, from whatever table of own TEIDs the program started with. |
| `Pdp.RunKeepsOwnTeids` | main.cpp:1220-1225 | Over every run every entry is stored under its own TEID, and no TEID is zero. |
| `PdpLaws.OpsByOctets` | main.cpp:3340-3796 | The second octet decides what a packet asks for; TEID and sequence number are the numbers its octets denote. |
| `PdpLaws.CreateLands` | main.cpp:1220-1225 | After any run, a Create with a nonzero TEID is stored under it, and one with TEID 0 and sequence s under 0x10000000 + s, with its own request's fields; no other entry changes. |
| `PdpLaws.CreatesStaySeparate` | main.cpp:1220-1225 | Two Creates with TEID 0 and different sequence numbers, or with different TEIDs, leave two entries, each with its own fields. |
| `PdpLaws.UnnamedStays` | main.cpp:3340-3796 | A run none of whose packets names a TEID leaves its entry as it was. |
| `PdpLaws.EditLands` | main.cpp:3391-3443 | A modify overwrites the four stamps and exactly the supplied fields of the stored entry, a delete removes it; without an entry nothing changes. |
| `PdpLaws.AnswersByOctets` | main.cpp:3340-3796 | Which packets are answered and claimed, and the answer by octets: the request's type plus one, the TEID stored or asked about, and cause 0x80 for a Create and where the TEID is stored, 0xC0 elsewhere. |
| `PdpHistory.PresentIffLive` | main.cpp:3340-3796 | A TEID is in the table if and only if some accepted Create allocated it, or it was in the table at the start, and no later Delete named it. |
| `PdpHistory.CauseTellsPresence` | main.cpp:3441-3443 | A modify or delete is answered with cause 0x80 exactly when its TEID is live, and 0xC0 otherwise. |
| `PdpHistory.FieldsHoldLatest` | main.cpp:3350-3420 | Each stored field is the latest value supplied for the TEID, by the table at the start, a Create (all fields, the APN as routed when it arrived) or a modify (those it carries). |
| `PdpReload.PdpReloadBoundary` | main.cpp:856-887 | A PDP context reached by any run, from nothing or from any table the validator admits, passes the validator if and only if it names an IMSI and an APN and its PDP type is not a present zero; no other clause is the first to fail. |
| `PdpReload.RequestRoundTrip` | src/gtp_parser.cpp:110-195 | A request packet built from elements parses to what folding the elements supplies. |
| `PdpReload.NamelessCreateReached` | main.cpp:3350-3389 | Witness: a Create naming only a PDP type is stored without an IMSI, which the validator refuses. |
| `PdpReload.ApnlessCreateReached` | main.cpp:3350-3389 | Witness: a Create without an APN, for an IMSI that routing gives none, is stored without one and refused at load. |
| `PdpReload.DefaultsGiveNoApn` | main.cpp:1487-1497 | Witness: the default configuration gives no IMSI an APN, so every such Create under it is stored and refused at load. |
| `PdpReload.ZeroPdpTypeReached` | main.cpp:3350-3389 | Witness: a Create with PDP type zero is stored and refused at load. |
| `PdpTexts.RunKeepsPlain` | src/gtp_parser.cpp:110-195 | Over every run, stored IMSIs are digits, addresses are printed addresses and APNs survive the escaper, provided senders have addresses and routing chooses such APNs. |
| `PdpTexts.ConfiguredChooserDecodes` | src/subscriber_config.h:295-325 | Routing chooses such APNs for every parsed request when the values of the configuration survive the escaper. |
| `PdpInterleave.EveryInterleavingIsSafe` | main.cpp:2904-2930 | For any number of threads interleaved at the mutex sections, every stored or held context carries its own nonzero TEID, for which some Create has begun. |
| `PdpInterleave.SeparateTracesAreSequential` | main.cpp:3399-3420 | If handlers of one TEID never overlap, every interleaving settles to the sequential table of the datagrams in the order their handling began. |
| `PdpInterleave.CalmIffSequential` | main.cpp:3391-3443 | Exact, also for handlers that overlap on one TEID: the shared table is at every moment the sequential table of the datagrams in the order of their last sections if and only if every modify, as it stores, finds its context still there with the fields it does not itself supply as it looked them up. |
| `PdpInterleave.GuardedIsSequential` | main.cpp:2904-2930 | A guard on the actions that ensures it: between the two sections of a modify, no other thread stores a context for its TEID or removes it. |
| `PdpInterleave.SerialIsSequential` | main.cpp:3340-3796 | Handlers that run to the end one after the other reach the sequential table. |
| `PdpInterleave.DeletedContextReturns` | main.cpp:3399-3420 | Counterexample family: a Delete between lookup and store of a modify is undone, unlike in any sequential order that respects the completed Create. |
| `PdpInterleave.EditIsLost` | main.cpp:3399-3420 | Counterexample family: of two overlapping modifies the IMSI of the first is lost, unlike in any sequential order that respects the completed Create. |
| `Routing.RangeMatchIsNumeric` | src/subscriber_config.h:99-129 | For every loaded range group, an IMSI matches if and only if it is all digits, has the boundary length, and its number lies between the boundaries' numbers; the PLMN test is redundant. |
| `Routing.SeriesMatchIsPrefix` | src/subscriber_config.h:99-136 | For every loaded series group, an IMSI matches if and only if it is all digits and starts with the normalised prefix. |
| `Routing.NormalisationIsIdempotent` | src/subscriber_config.h:62-97 | Normalising a loaded group again changes nothing. |
| `Routing.PrefixIsConvex` | src/subscriber_config.h:103-129 | Between two strings with a common prefix every string has that prefix. |
| `Routing.BeforeIsTransitive` | src/subscriber_config.h:271-290 | The comparator is transitive on loaded groups. |
| `Routing.BeforeIsTotal` | src/subscriber_config.h:271-290 | Of two loaded groups with different names one comes before the other. |
| `Routing.BeforeIsIrreflexive` | src/subscriber_config.h:271-290 | No group comes before itself. |
| `RoutingLoad.IndexGroups` | src/subscriber_config.h:186-221 | Whatever order the keys come in, the index holds, for every group some key names, the settings of its fields. |
| `RoutingLoad.LoadImsiGroups` | src/subscriber_config.h:176-293 | The loaded list holds exactly the groups that survive normalisation, in comparator order. |
| `RoutingLoad.LoadingIsDeterministic` | src/subscriber_config.h:271-293 | There is only one such list, so the answer does not depend on the sorting algorithm. |
| `RoutingLoad.ResolveApnForImsi` | src/subscriber_config.h:295-325 | The selection loop computes the specified APN and group name. |
| `RoutingLoad.RoutesToMostSpecific` | src/subscriber_config.h:295-325 | With no APN requested, the group consulted is the matching accepted group with the longest prefix or boundary text, a range before a series, then the smallest name; a group without a profile falls back to the setting `default-apn`. |
| `RoutingLaws.LoadedByText` | src/subscriber_config.h:176-268 | By the keys of the configuration: a group is accepted if and only if it is a usable series or a usable range, and its prefix or boundaries are the configured texts, or those after the PLMN where they do not start with it. |
| `RoutingLaws.MatchesByText` | src/subscriber_config.h:99-136 | An accepted group matches exactly the digit strings with that prefix, or those of the boundaries' length with a number between theirs. |
| `RoutingLaws.SelectionByText` | src/subscriber_config.h:295-325 | Selection from the keys alone: a requested APN is taken; otherwise the group that covers the IMSI and wins over every other by digits, then range, then name gives its profile or the default; no group, the default. |
| `Texts.LexByFirstDifference` | src/subscriber_config.h:288 | One text comes before another exactly when, where they first differ, it ends or has the smaller character. |
| `Routing.FirstMatchIsLeast` | src/subscriber_config.h:307-316 | The first match of a sorted list comes before every other match. |
| `RoutingLoad.KeyPartsOfField` | src/subscriber_config.h:187-202 | Splitting a configuration key is the inverse of putting group and field together. |
| `Diameter.ParseDiameterHeader` | src/diameter_parser.cpp:63-101 | The header parser computes the specified header or error. |
| `Diameter.StrictLoop` | src/diameter_parser.cpp:450-486 | The strict loop computes the specified fields or error, and terminates on every packet. |
| `Diameter.LenientLoop` | src/diameter_parser.cpp:884-905 | The lenient loop of the two subscriber-data requests computes the specified fields, and terminates on every packet. |
| `Diameter.ParseRequest` | src/diameter_parser.cpp:103-998 | The nine request parsers, by kind: the two lenient ones keep what the request they are handed holds, the others start from a blank one. |
| `DiameterLaws.HeaderByOctets` | src/diameter_parser.cpp:63-101 | A header is accepted if and only if it has version 1 and a declared length from 20 up to the packet's; its fields are the numbers of its octets, and the error is that of the first failing test. |
| `DiameterLaws.RequestByOctets` | src/diameter_parser.cpp:103-998 | A packet parses as a request of a kind if and only if it has that kind's command number and the request flag and, but for the two lenient kinds, a well-formed body. |
| `DiameterLaws.PairByOctets` | src/diameter_parser.cpp:112-140 | A pair is accepted if and only if its length covers its head and fits; code, flags, vendor and payload are the octets at their places, and it is padded to a multiple of four. |
| `DiameterLaws.LenientPairByOctets` | src/diameter_parser.cpp:884-905 | The lenient walk reads a pair if and only if its length covers its head and fits: code and data at their places, the next pair at a multiple of four or at the end. |
| `DiameterWalks.WalkersAgree` | src/diameter_parser.cpp:976-997 | On a packet of exactly its declared length whose pairs are well formed, the strict and the lenient loop extract the same host, realm and user name if and only if the last pair of each of the three codes, where there is one, is not empty and carries no vendor identifier. |
| `DiameterWalks.PlainMessagesAgree` | src/diameter_parser.cpp:884-905 | In particular they agree when no pair is flagged or empty. |
| `DiameterWalks.StrictKeepsLast` | src/diameter_parser.cpp:450-484 | The strict loop keeps the last payload of code 264, of 296 and 1 for the kinds that read them, and the last four-octet 273 of a disconnect request. |
| `DiameterWalks.LenientKeepsLast` | src/diameter_parser.cpp:884-905 | The lenient loop keeps the last nonempty data of each of the codes 264, 296 and 1. |
| `DiameterBuild.PaddingOfPayload` | src/diameter_parser.cpp:24-59 | Padding computed on the payload equals padding computed on the whole pair (sections 3 and 4.1 of RFC 6733). |
| `DiameterBuild.BuildRequest` | src/diameter_parser.cpp:489-516 | The appends and the length patch produce the specified message, for all nine request builders. |
| `DiameterBuild.AvpsRoundTrip` | src/diameter_parser.cpp:41-59 | Encoded pairs read back as the same pairs. |
| `DiameterBuild.RequestRoundTrip` | src/diameter_parser.cpp:908-934 | Below 2^24 octets, each request parser recovers what its builder was given, the declared length is the octet count and a multiple of four; the two lenient parsers lose exactly the empty strings, for which a reused request keeps its earlier value. |
| `DiameterBuild.BuildAnswer` | src/diameter_parser.cpp:212-239 | The appends and the length patch produce the specified answer, for all nine answer builders. |
| `DiameterBuild.AnswerRoundTrip` | src/diameter_parser.cpp:212-239 | An answer parses as no request, keeps the identifiers and the proxiable flag, declares its octet count, a multiple of four, and carries the result code. |
| `DiameterLaws.WrittenPairByOctets` | src/diameter_parser.cpp:32-59 | A written pair is its code, flags, length without padding, payload, and zeros up to a multiple of four. |
| `DiameterLaws.BuiltRequestByOctets` | src/diameter_parser.cpp:186-516 | Every built request by octets and codes: flags, command number, application, identifiers, and the given strings under 264, 296 and 1, the cause under 273, the state under 277. |
| `DiameterLaws.BuiltAnswerByOctets` | src/diameter_parser.cpp:212-545 | Every built answer likewise: the result under 268, the given host under 264 and, but for watchdog and disconnect, the given realm under 296. |
| `ImsiGenerator.IsValid` | src/imsi_module.cpp:15-41 | The 64-bit loops of validation compute the specified verdict without overflowing before the final addition. |
| `ImsiGenerator.ShiftPrefix` | src/imsi_module.cpp:34-36 | The shift loop yields prefix times a power of ten without overflow. |
| `ImsiGenerator.SeriesAcceptance` | src/imsi_module.cpp:29-40 | For well-formed PLMNs and prefix with nonzero count, validation accepts if and only if start+count-1 is below the limit or does not fit 64 bits. |
| `ImsiGenerator.RangeAcceptance` | src/imsi_module.cpp:15-28 | A range is accepted if and only if its PLMNs are five or six digits, it is ordered, and its end has at most ten digits, or nine after a six-digit first PLMN. |
| `ImsiGenerator.WrappedSeriesAccepted` | src/imsi_module.cpp:37-39 | Counterexample: a count of 2^64-1 is accepted from any start above one. |
| `ImsiGenerator.SplitPlmnList` | src/imsi_module.cpp:51-63 | The splitting loop computes the specified list. |
| `ImsiGenerator.SplitRoundTrip` | src/imsi_module.cpp:51-63 | Splitting a comma-joined list of names returns the names. |
| `ImsiGenerator.NamesBetweenCommas` | src/imsi_module.cpp:51-63 | The names of any list are its nonempty pieces between commas, without their spaces, in order. |
| `ImsiGenerator.ImsiModule.AddRange` | src/imsi_module.cpp:65-72 | Appends exactly the valid specifications, so that all stored ones are valid. |
| `ImsiGenerator.ImsiModule.AddSeries` | src/imsi_module.cpp:74-79 | Same for series. |
| `ImsiEmit.GenerateForSpec` | src/imsi_module.cpp:92-110 | The generation loops terminate on every valid specification and emit the specified strings in order. |
| `ImsiEmit.GenerationIsExact` | src/imsi_module.cpp:92-110 | A valid specification whose last number has room beside every PLMN emits PLMNs times numbers IMSIs, each of 15 digits starting with its PLMN, strictly increasing within a PLMN, and all different when no PLMN starts another. |
| `ImsiEmit.RangeEmitsItsNumbers` | src/imsi_module.cpp:92-110 | After each PLMN a range emits exactly its numbers, first to last. |
| `ImsiEmit.SeriesEmitsItsNumbers` | src/imsi_module.cpp:92-110 | With room, a series emits as many numbers as it counts, upwards from its prefix filled with zeros. |
| `ImsiEmit.EmitsFifteenDigitsIffRoom` | src/imsi_module.cpp:92-110 | A valid specification emits only 15-digit IMSIs if and only if, for each of its PLMNs, the end of the range, or the series start plus the count minus one, is below the power of ten of the digits the PLMN leaves. |
| `ImsiEmit.RoomUnlessLongerOrWrapped` | src/imsi_module.cpp:21-40 | With no PLMN longer than the first that guard is the first PLMN's alone, and a range always passes it. |
| `ImsiEmit.LongerPlmnOverflows` | src/imsi_module.cpp:21-28 | Counterexample: a valid range over a 5-digit and then a 6-digit PLMN emits more than 15 digits. |
| `ConfigText.LineRoundTrip` | main.cpp:321-325 | A written line without breaks reads back as its key and value if and only if both are trimmed, the key is nonempty, free of the equals sign, and does not start a comment. |
| `ConfigText.LoadConfig` | main.cpp:1417-1439 | The line loop computes the specified map. |
| `ConfigText.LoadedIsStorable` | main.cpp:1417-1439 | Whatever a file holds, every setting loaded from it could be written and read again. |
| `ConfigStores.WriteConfigFile` | main.cpp:306-326 | Writes the header and one line for each selected setting. |
| `ConfigStores.ConfigStore.SetValue` | main.cpp:1288-1294 | Updates the map as specified and writes the three files of the new map. |
| `ConfigStores.ConfigStore.ApplyRuntimeConfigAliases` | main.cpp:1499-1512 | The branches equal applying eight rules in order, later ones overriding. |
| `ConfigStores.ConfigStore.LoadConfigFromFile` | main.cpp:1570-1577 | Loads the three files over the defaults and applies the aliases. |
| `ConfigRestart.FilesCover` | main.cpp:281-305 | Every key goes to some file, and the three files together hold the whole map. |
| `ConfigRestart.AliasesAreIdempotent` | main.cpp:1499-1512 | Applying the aliases twice changes nothing more. |
| `ConfigRestart.RestartBoundary` | main.cpp:1441-1455 | A saved configuration comes back from its three files if and only if its settings are storable, it has every default key, and it obeys its own aliases. |
| `ConfigRestart.RunSurvivesRestart` | main.cpp:1264-1294 | After any start and any run of storable settings, saving and reloading yields the same map. |
| `ConfigRestart.SetSticks` | main.cpp:1288-1294 | A set key keeps its value unless an alias with another value takes it back. |
| `ConfigLaws.AliasesByKey` | main.cpp:1499-1512 | What every key holds once the aliases are applied, key by key. |
| `ConfigLaws.SetByKey` | main.cpp:1264-1294 | Setting a key sets it and the other key of its pair to the value, changes nothing else, and then applies the aliases. |
| `ConfigLaws.PairsStayEqual` | main.cpp:1264-1286 | Setting either key of one of the five pairs leaves both with the value. |
| `ConfigLaws.FilesByKey` | main.cpp:281-326 | Which keys each of the three files shows, by name and prefix, and their comment lines. |
| `ConfigLaws.DefaultsByKey` | main.cpp:1487-1497 | Without files, the configuration is the seven defaults. |
| `ConfigLaws.LaterFileWins` | main.cpp:1570-1577 | Of the three files, a later one overrides an earlier one, and each the defaults. |
| `ConfigLaws.SpacingIsIgnored` | main.cpp:1417-1439 | Blanks before and after a line and around its equals sign do not matter. |
| `ConfigRestart.EmptyKeyIsLost` | main.cpp:1432-1435 | Counterexample: a setting with an empty key is written as a line that is skipped at load. |
| `Pruning.PruneCorruptRuntimeStateFiles` | main.cpp:1011-1065 | Removes the smallest names that are neither preserved nor impossible to remove, as many as exceed the limit, or all of them if there are not enough. |
| `Pruning.PruningIsDetermined` | main.cpp:1042-1044 | What is removed is determined by the names alone. |
| `Pruning.PruningLeavesLimit` | main.cpp:1047-1062 | With a limit of at least one and removals succeeding, exactly the limit remains whenever there were more, and the preserved file and all other files stay. |
| `Pruning.OnlyCorruptSnapshotsGo` | main.cpp:1020-1062 | Only names that start with `runtime_state.corrupt-` and end with `.json` are ever removed; the live `runtime_state.json` never is. |
| `Pruning.CorruptSnapshotsAreCounted` | main.cpp:1024-1036 | The names with that prefix and ending are exactly the ones that count against the limit. |
| `Pruning.QuarantineStaysBounded` | main.cpp:4969-4985 | Quarantining a new file and pruning while preserving it never leaves more than the limit. |

## Left out

- Sockets, threads' start and stop, signals and platform branches: a datagram or message arrives with its sender, the clock and whether the answer can be sent.
- Logging, colours and diagnostic texts: error messages are enumerations, one value per message.
- The clock and the time zone: `formatTimestamp` and `parseTimestamp` are an inverse pair on nonzero times; the failures of `localtime` and `mktime` are not modelled.
- The file system: a file is its text, a directory the set of its names; failing to open, write or rename a file is not modelled.
- Locale: `isprint` is 0x20-0x7E, and `isspace` and `isdigit` are those of the C locale. A string is a sequence of characters that stand for octets.
- UE context fields are grouped by procedure (attach, service, detach, tracking area, value with its flag) where the source has one flat record; the printed order is the source's.
- The order in which `std::map` is walked: saving lists the entries in some order, and the results hold for every order. `HiddenUes.CreatesHideUes` lists its two contexts by TEID, as the map does.
- `std::sort` is an insertion sort; the results are shown not to depend on it. The stable comparison of path objects in pruning is the comparison of their file names.
- The ten GTP response builders, the nine Diameter request parsers, the nine request builders and the nine answer builders differ in constants and in the fields they carry; each family is one member with a kind.
- A Diameter request struct after a failed parse: a strict parser leaves in it what it read before the error; the model returns only the error.
- The prefix value is taken from the digit string directly; `stoull` cannot fail on the at most ten digits validation admits.
- `ImsiModule::list`, the APN profile loader and the subscriber-configuration formatter: filters and text without further properties.
- Interface administration files, endpoint threads, `cli/`, `web/`, shell, Ansible, Docker and CMake files, and the two debug-module sample projects.
- The `AuthFlowState` name is printed with a UE context and never read; it is modelled only as a text that cannot disturb the load.
- Snapshot.SnapshotRoundTrip: assumes that the arrays can be located, for which `SnapshotLocate.CanLocateIffInOrder` gives the exact condition on the texts; what a load returns when an array was missed is shown for faked headers, with and without interfaces, and for the pair of APNs.
- Restarts.RunsSurviveRestart: assumes that the arrays can be located, in the form of conditions on the header texts, the interface names and the APNs; the tables it leaves out are those of `HiddenUes.CreatesHideUes` and their like.
